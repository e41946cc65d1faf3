/** The workout service: the three timer toggles, the sequence runner with
    its emergency stop, and the create, replace and delete operations on the
    workout tree. Store failures are parameters: a `fault` makes the one
    database call (or transaction) it stands for fail, which leaves the
    tables as they were. */
module WorkoutService {
  import opened Common
  import opened ErrorHandler
  import opened WorkoutDb
  import opened ExerciseUtils
  import opened WorkoutTree

  /** The body of `createWorkout`: the workout's title and description and
      its exercises. */
  datatype WorkoutInput = WorkoutInput(title: string, description: Option<string>, exercises: Option<seq<ExerciseInput>>)

  /** The body of `updateWorkout`, as far as `prepareUpdateData` reads it:
      every field may be left out. */
  datatype WorkoutUpdate = WorkoutUpdate(title: Option<string>, description: Option<string>,
                                         exercises: Option<seq<ExerciseInput>>)

  /** The `data` part of the service's success responses. */
  datatype Payload =
    | TimerData(id: Id, active: bool)
    | SetData(id: Id, exerciseId: Id)
    | IdData(id: Id)
    | WorkoutIdData(workoutId: Id)

  /** A success response, or nothing (`toggleExerciseSetTimer` returns no value). */
  datatype Response = Success(message: string, data: Payload) | NoContent

  /** The failure planned for the database call at trace position `pos`. */
  function FaultAt(faults: map<nat, Failure>, pos: nat): (f: Option<Failure>)
    ensures f.Some? <==> pos in faults
    ensures f.Some? ==> f.value == faults[pos]
  {
    if pos in faults then Some(faults[pos]) else None
  }

  // ---------------------------------------------------------------------
  // The order of a sequence run

  /** `set.transition_time || 30`: an absent or zero rest time rests 30 seconds. */
  /** `transition_time || 30`: a rest is never NaN and never zero; an
      absent or zero rest lasts 30 seconds. */
  function RestDelay(transitionTime: Option<int>): (r: Delay)
    ensures r.Num? && r.seconds != 0
    ensures transitionTime.None? || transitionTime.value == 0 ==> r == Num(30)
    ensures transitionTime.Some? && transitionTime.value != 0 ==> r == Num(transitionTime.value)
  {
    if transitionTime.Some? && transitionTime.value != 0 then Num(transitionTime.value) else Num(30)
  }

  /** The four steps of one set: on, wait its duration, off, rest. */
  function SetSteps(e: Id, s: LoadedSet): seq<Event> {
    [SetOn(e, s.id), WaitSet(s.duration), SetOff(e, s.id), WaitRest(s.transitionTime)]
  }

  /** How long a wait lasts, as handed to the delay helper. */
  function WaitTime(ev: Event): Delay
    requires !IsToggle(ev)
  {
    if ev.WaitSet? then ParseDuration(ev.duration) else RestDelay(ev.transitionTime)
  }

  function SetsTrace(e: Id, sets: seq<LoadedSet>): seq<Event> {
    if sets == [] then [] else SetSteps(e, sets[0]) + SetsTrace(e, sets[1..])
  }

  /** `processExerciseSequence`: the exercise on, its sets in order, the exercise off. */
  function ExerciseTrace(x: LoadedExercise): seq<Event> {
    [ExerciseOn(x.id)] + SetsTrace(x.id, x.sets) + [ExerciseOff(x.id)]
  }

  /** The exercises of a load, one after the other in the loaded order. */
  function PlanTrace(plan: seq<LoadedExercise>): seq<Event> {
    if plan == [] then [] else ExerciseTrace(plan[0]) + PlanTrace(plan[1..])
  }

  /** The events `startWorkoutSequence` issues for a workout that loaded:
      the workout is never switched on, only off at the end. */
  function AsWrittenRun(w: Id, plan: seq<LoadedExercise>): seq<Event> {
    PlanTrace(plan) + [WorkoutOff(w)]
  }

  /** The run with the workout switched on first. */
  function CorrectedRun(w: Id, plan: seq<LoadedExercise>): seq<Event> {
    [WorkoutOn(w)] + PlanTrace(plan) + [WorkoutOff(w)]
  }

  lemma {:induction false} SetsTraceShape(e: Id, sets: seq<LoadedSet>)
    ensures |SetsTrace(e, sets)| == 4 * |sets|
    ensures forall j :: 0 <= j < |sets| ==> SetsTrace(e, sets)[4 * j..4 * j + 4] == SetSteps(e, sets[j])
  {
    if sets != [] {
      SetsTraceShape(e, sets[1..]);
      var t := SetsTrace(e, sets);
      forall j | 0 <= j < |sets|
        ensures t[4 * j..4 * j + 4] == SetSteps(e, sets[j])
      {
        if j > 0 {
          assert t[4 * j..4 * j + 4] == SetsTrace(e, sets[1..])[4 * (j - 1)..4 * (j - 1) + 4];
        }
      }
    }
  }

  /** Inside an exercise's run, set `j` occupies positions 4j+1 to 4j+4:
      on, wait for its duration, off, then rest. */
  lemma SetBlocksInOrder(x: LoadedExercise, j: nat)
    requires j < |x.sets|
    ensures var t := ExerciseTrace(x);
            && |t| == 4 * |x.sets| + 2
            && t[0] == ExerciseOn(x.id) && t[|t| - 1] == ExerciseOff(x.id)
            && t[4 * j + 1] == SetOn(x.id, x.sets[j].id)
            && t[4 * j + 2] == WaitSet(x.sets[j].duration)
            && t[4 * j + 3] == SetOff(x.id, x.sets[j].id)
            && t[4 * j + 4] == WaitRest(x.sets[j].transitionTime)
  {
    SetsTraceShape(x.id, x.sets);
    var st := SetsTrace(x.id, x.sets);
    var t := ExerciseTrace(x);
    assert st[4 * j..4 * j + 4] == SetSteps(x.id, x.sets[j]);
    assert t[4 * j + 1..4 * j + 5] == st[4 * j..4 * j + 4];
  }

  /** The block of exercise `i` comes after the blocks of all earlier
      exercises and before those of all later ones. */
  lemma {:induction false} ExerciseBlocksInOrder(plan: seq<LoadedExercise>, i: nat)
    requires i < |plan|
    ensures PlanTrace(plan) == PlanTrace(plan[..i]) + ExerciseTrace(plan[i]) + PlanTrace(plan[i + 1..])
  {
    if i > 0 {
      ExerciseBlocksInOrder(plan[1..], i - 1);
      assert plan[1..][..i - 1] == plan[1..i];
      assert plan[1..][i - 1] == plan[i];
      assert plan[1..][i..] == plan[i + 1..];
      assert plan[..i][0] == plan[0] && plan[..i][1..] == plan[1..i];
    } else {
      assert plan[..0] == [];
      assert plan[1..] == plan[i + 1..];
    }
  }

  /** Nothing below the workout touches the workouts table. */
  lemma {:induction false} SetsTraceBelowWorkout(e: Id, sets: seq<LoadedSet>)
    ensures forall k :: 0 <= k < |SetsTrace(e, sets)| ==> !TouchesWorkouts(SetsTrace(e, sets)[k])
  {
    if sets != [] {
      SetsTraceBelowWorkout(e, sets[1..]);
      var t := SetsTrace(e, sets);
      forall k | 0 <= k < |t|
        ensures !TouchesWorkouts(t[k])
      {
        if k >= 4 {
          assert t[k] == SetsTrace(e, sets[1..])[k - 4];
        }
      }
    }
  }

  lemma {:induction false} PlanTraceBelowWorkout(plan: seq<LoadedExercise>)
    ensures forall k :: 0 <= k < |PlanTrace(plan)| ==> !TouchesWorkouts(PlanTrace(plan)[k])
  {
    if plan != [] {
      PlanTraceBelowWorkout(plan[1..]);
      SetsTraceBelowWorkout(plan[0].id, plan[0].sets);
      var x := ExerciseTrace(plan[0]);
      var t := PlanTrace(plan);
      forall k | 0 <= k < |t|
        ensures !TouchesWorkouts(t[k])
      {
        if k >= |x| {
          assert t[k] == PlanTrace(plan[1..])[k - |x|];
        } else if 0 < k < |x| - 1 {
          assert t[k] == SetsTrace(plan[0].id, plan[0].sets)[k - 1];
        }
      }
    }
  }

  // ---------------------------------------------------------------------
  // Where a run stops

  /** The exception a toggle throws when its database call fails with `f`,
      as each toggle's own handler builds it. */
  function ToggleFailure(ev: Event, f: Failure, w: Id): (thrown: Failure)
    requires IsToggle(ev)
    ensures thrown.Raised? && PassesThrough(thrown.ex)
  {
    match ev
    case WorkoutOn(x) => Raised(HandleError(f, Toggle, "workout", Some(NatToString(x)), None))
    case WorkoutOff(x) => Raised(HandleError(f, Toggle, "workout", Some(NatToString(x)), None))
    case ExerciseOn(e) => Raised(HandleError(f, Toggle, NatToString(e), Some("Workout ID: " + NatToString(w)), None))
    case ExerciseOff(e) => Raised(HandleError(f, Toggle, NatToString(e), Some("Workout ID: " + NatToString(w)), None))
    case SetOn(e, s) =>
      Raised(HandleError(f, Toggle, "exerciseSetTimer", Some(NatToString(s)),
                         Some("Workout ID: " + NatToString(w) + ", Exercise ID: " + NatToString(e))))
    case SetOff(e, s) =>
      Raised(HandleError(f, Toggle, "exerciseSetTimer", Some(NatToString(s)),
                         Some("Workout ID: " + NatToString(w) + ", Exercise ID: " + NatToString(e))))
  }

  /** A toggle that failed, with the failure of its database call. */
  datatype Stop = Stop(toggle: Event, cause: Failure)

  /** The events of `run` that are carried out when the toggles at the trace
      positions in `faults` (counted from `offset`) fail: those before the
      first failing toggle. Waits never fail. */
  function Executed(run: seq<Event>, faults: map<nat, Failure>, offset: nat): seq<Event>
    decreases |run|
  {
    if run == [] || (IsToggle(run[0]) && offset in faults) then []
    else [run[0]] + Executed(run[1..], faults, offset + 1)
  }

  /** What stops `run`: its first failing toggle and the database failure
      behind it, if any. That toggle throws `ToggleFailure` of the two. */
  function Failed(run: seq<Event>, faults: map<nat, Failure>, offset: nat): (r: Option<Stop>)
    ensures r.Some? ==> IsToggle(r.value.toggle)
    decreases |run|
  {
    if run == [] then None
    else if IsToggle(run[0]) && offset in faults then Some(Stop(run[0], faults[offset]))
    else Failed(run[1..], faults, offset + 1)
  }

  /** The position of the first toggle whose database call fails, stated by
      its defining property. */
  function FirstFaultAt(run: seq<Event>, faults: map<nat, Failure>, offset: nat): (p: Option<nat>)
    ensures p.Some? ==> p.value < |run| && IsToggle(run[p.value]) && offset + p.value in faults
    ensures p.Some? ==> forall k :: 0 <= k < p.value ==> !(IsToggle(run[k]) && offset + k in faults)
    ensures p.None? ==> forall k :: 0 <= k < |run| ==> !(IsToggle(run[k]) && offset + k in faults)
  {
    if run == [] then None
    else if IsToggle(run[0]) && offset in faults then Some(0)
    else match FirstFaultAt(run[1..], faults, offset + 1)
         case None => None
         case Some(p) => Some(p + 1)
  }

  /** A run is carried out up to its first failing toggle, which throws its
      exception; with no failing toggle it is carried out whole. */
  lemma {:induction false} StopsAtFirstFault(run: seq<Event>, faults: map<nat, Failure>, offset: nat)
    ensures match FirstFaultAt(run, faults, offset)
            case None => Executed(run, faults, offset) == run && Failed(run, faults, offset) == None
            case Some(p) =>
              && Executed(run, faults, offset) == run[..p]
              && Failed(run, faults, offset) == Some(Stop(run[p], faults[offset + p]))
    decreases |run|
  {
    if run != [] && !(IsToggle(run[0]) && offset in faults) {
      StopsAtFirstFault(run[1..], faults, offset + 1);
      match FirstFaultAt(run[1..], faults, offset + 1)
      case None =>
        assert run == [run[0]] + run[1..];
      case Some(p) =>
        assert run[..p + 1] == [run[0]] + run[1..][..p];
    }
  }

  /** Without a failing toggle the whole run is carried out. */
  lemma {:induction false} CompletedRun(run: seq<Event>, faults: map<nat, Failure>, offset: nat)
    requires Failed(run, faults, offset) == None
    ensures Executed(run, faults, offset) == run
    decreases |run|
  {
    if run != [] {
      CompletedRun(run[1..], faults, offset + 1);
      assert run == [run[0]] + run[1..];
    }
  }

  /** Two runs one after the other: the second starts only if the first
      completes. */
  lemma {:induction false} RunConcat(a: seq<Event>, b: seq<Event>, faults: map<nat, Failure>, offset: nat)
    ensures Failed(a + b, faults, offset) ==
            if Failed(a, faults, offset).Some? then Failed(a, faults, offset) else Failed(b, faults, offset + |a|)
    ensures Executed(a + b, faults, offset) ==
            if Failed(a, faults, offset).Some? then Executed(a, faults, offset) else a + Executed(b, faults, offset + |a|)
    decreases |a|
  {
    if a == [] {
      assert a + b == b;
    } else {
      assert (a + b)[0] == a[0];
      assert (a + b)[1..] == a[1..] + b;
      RunConcat(a[1..], b, faults, offset + 1);
      if !(IsToggle(a[0]) && offset in faults) && Failed(a, faults, offset).None? {
        assert [a[0]] + (a[1..] + Executed(b, faults, offset + |a|)) == a + Executed(b, faults, offset + |a|);
      }
    }
  }

  /** One block of a longer run, after a prefix that completed: if the
      block stops, the whole run stops there with the block's exception; if
      it completes, the prefix grows by the whole block. */
  lemma Extend(done: seq<Event>, block: seq<Event>, rest: seq<Event>, faults: map<nat, Failure>, offset: nat, at: nat)
    requires Failed(done, faults, offset) == None && at == offset + |done|
    ensures var failure := Failed(block, faults, at);
            var blockSteps := Executed(block, faults, at);
            && (failure.Some? ==>
                  && Executed(done + (block + rest), faults, offset) == done + blockSteps
                  && Failed(done + (block + rest), faults, offset) == failure)
            && (failure.None? ==> blockSteps == block && Failed(done + blockSteps, faults, offset) == None)
  {
    RunConcat(done, block + rest, faults, offset);
    RunConcat(block, rest, faults, offset + |done|);
    RunConcat(done, block, faults, offset);
    if Failed(block, faults, offset + |done|).None? {
      CompletedRun(block, faults, offset + |done|);
    }
  }

  lemma Regroup(a: seq<Event>, b: seq<Event>, c: seq<Event>)
    ensures a + (b + c) == a + b + c
  {
  }

  /** Where the four steps of a set stop: at the set's switch-on, at its
      switch-off, or not at all. */
  lemma SetStepsStop(e: Id, s: LoadedSet, faults: map<nat, Failure>, offset: nat)
    ensures var steps := SetSteps(e, s);
            && Executed(steps, faults, offset) ==
               (if offset in faults then [] else if offset + 2 in faults then steps[..2] else steps)
            && Failed(steps, faults, offset) ==
               (if offset in faults then Some(Stop(SetOn(e, s.id), faults[offset]))
                else if offset + 2 in faults then Some(Stop(SetOff(e, s.id), faults[offset + 2]))
                else None)
  {
    var steps := SetSteps(e, s);
    assert steps[1..][1..] == steps[2..] && steps[2..][1..] == steps[3..] && steps[3..][1..] == [];
    assert Executed(steps[3..], faults, offset + 3) == steps[3..];
    assert Failed(steps[3..], faults, offset + 3) == None;
    assert Executed(steps[1..], faults, offset + 1) == if offset + 2 in faults then [steps[1]] else steps[1..];
    assert Failed(steps[1..], faults, offset + 1) ==
           if offset + 2 in faults then Some(Stop(SetOff(e, s.id), faults[offset + 2])) else None;
    assert [steps[0]] + [steps[1]] == steps[..2];
    assert [steps[0]] + steps[1..] == steps;
  }

  /** Where an exercise's run stops: at the exercise's switch-on, inside
      its sets, at its switch-off, or not at all. */
  lemma ExerciseRunStops(x: LoadedExercise, faults: map<nat, Failure>, offset: nat)
    ensures var run := ExerciseTrace(x);
            var sets := SetsTrace(x.id, x.sets);
            var last := offset + 1 + |sets|;
            && (offset in faults ==>
                  && Executed(run, faults, offset) == []
                  && Failed(run, faults, offset) == Some(Stop(ExerciseOn(x.id), faults[offset])))
            && (offset !in faults && Failed(sets, faults, offset + 1).Some? ==>
                  && Executed(run, faults, offset) == [ExerciseOn(x.id)] + Executed(sets, faults, offset + 1)
                  && Failed(run, faults, offset) == Failed(sets, faults, offset + 1))
            && (offset !in faults && Failed(sets, faults, offset + 1).None? && last in faults ==>
                  && Executed(run, faults, offset) == [ExerciseOn(x.id)] + sets
                  && Failed(run, faults, offset) == Some(Stop(ExerciseOff(x.id), faults[last])))
            && (offset !in faults && Failed(sets, faults, offset + 1).None? && last !in faults ==>
                  && Executed(run, faults, offset) == run
                  && Failed(run, faults, offset) == None)
  {
    var on, sets, off := [ExerciseOn(x.id)], SetsTrace(x.id, x.sets), [ExerciseOff(x.id)];
    var run := ExerciseTrace(x);
    var last := offset + 1 + |sets|;
    assert run == on + (sets + off);
    assert off[1..] == [] && on[1..] == [];
    if offset !in faults {
      RunConcat(on, sets + off, faults, offset);
      assert Executed(run, faults, offset) == on + Executed(sets + off, faults, offset + 1);
      assert Failed(run, faults, offset) == Failed(sets + off, faults, offset + 1);
      RunConcat(sets, off, faults, offset + 1);
      if Failed(sets, faults, offset + 1).None? {
        CompletedRun(sets, faults, offset + 1);
        if last in faults {
          assert Executed(sets + off, faults, offset + 1) == sets;
        } else {
          assert Executed(sets + off, faults, offset + 1) == sets + off;
        }
      }
    }
  }

  /** A run followed by the workout's switch-off: the switch-off happens
      only if the run completed, and can fail in turn. */
  lemma RunThenStop(body: seq<Event>, w: Id, faults: map<nat, Failure>, offset: nat)
    ensures var run := body + [WorkoutOff(w)];
            var last := offset + |body|;
            && (Failed(body, faults, offset).Some? ==>
                  && Executed(run, faults, offset) == Executed(body, faults, offset)
                  && Failed(run, faults, offset) == Failed(body, faults, offset))
            && (Failed(body, faults, offset).None? ==>
                  && Executed(run, faults, offset) == (if last in faults then body else run)
                  && Failed(run, faults, offset) ==
                     (if last in faults then Some(Stop(WorkoutOff(w), faults[last])) else None))
  {
    var off := [WorkoutOff(w)];
    assert off[1..] == [];
    RunConcat(body, off, faults, offset);
    if Failed(body, faults, offset).None? {
      CompletedRun(body, faults, offset);
    }
  }

  /** A completed run followed by one more toggle, which went as `stop`
      says: the whole run stops at that toggle, or completes. */
  lemma FinalToggle(body: seq<Event>, ev: Event, faults: map<nat, Failure>, offset: nat, stop: Option<Stop>)
    requires IsToggle(ev) && Failed(body, faults, offset) == None
    requires stop.Some? <==> offset + |body| in faults
    requires stop.Some? ==> stop.value == Stop(ev, faults[offset + |body|])
    ensures Failed(body + [ev], faults, offset) == stop
    ensures Executed(body + [ev], faults, offset) == if stop.Some? then body else body + [ev]
  {
    var last := [ev];
    assert last[1..] == [];
    RunConcat(body, last, faults, offset);
    CompletedRun(body, faults, offset);
  }

  /** A toggle followed by a run: the run starts only if the toggle went through. */
  lemma ToggleThenRun(ev: Event, body: seq<Event>, faults: map<nat, Failure>, offset: nat)
    requires IsToggle(ev)
    ensures Executed([ev] + body, faults, offset) ==
            if offset in faults then [] else [ev] + Executed(body, faults, offset + 1)
    ensures Failed([ev] + body, faults, offset) ==
            if offset in faults then Some(Stop(ev, faults[offset])) else Failed(body, faults, offset + 1)
  {
    assert ([ev] + body)[0] == ev && ([ev] + body)[1..] == body;
  }

  /** The tables after each prefix of a set's steps: only the two toggles
      change anything. */
  lemma SetStepsReplay(db: Db, e: Id, s: LoadedSet)
    ensures var steps := SetSteps(e, s);
            && Replay(db, steps[..0]) == db
            && Replay(db, steps[..2]) == Apply(db, SetOn(e, s.id))
            && Replay(db, steps) == Apply(Apply(db, SetOn(e, s.id)), SetOff(e, s.id))
  {
    var steps := SetSteps(e, s);
    var on := Apply(db, SetOn(e, s.id));
    assert steps[..0] == [];
    assert steps[..2][..1] == steps[..1] && steps[..1][..0] == [];
    assert Replay(db, steps[..1]) == on;
    assert Replay(db, steps[..2]) == on;
    assert steps[..3] == steps[..2] + [SetOff(e, s.id)] && steps[..3][..2] == steps[..2];
    assert steps[..|steps| - 1] == steps[..3];
  }

  /** The emergency stop: the stored workout is re-read and switched off
      only if its flag is set; a failure of either call is swallowed. */
  function EmergencyStop(db: Db, w: Id, stopFault: Option<Failure>): (r: Db)
    ensures r == db <==> !(w in db.workouts && db.workouts[w].timerActive && stopFault.None?)
    ensures w in db.workouts && stopFault.None? ==> w in r.workouts && !r.workouts[w].timerActive
    ensures r.workouts.Keys == db.workouts.Keys && r.exercises.Keys == db.exercises.Keys && r.sets.Keys == db.sets.Keys
  {
    if w in db.workouts && db.workouts[w].timerActive && stopFault.None? then DeactivateWorkout(db, w) else db
  }

  /** The tables after a run of a workout that loaded: the events carried
      out, followed by the emergency stop if a toggle failed. */
  function Outcome(db: Db, w: Id, run: seq<Event>, faults: map<nat, Failure>, stopFault: Option<Failure>): Db {
    var reached := Replay(db, Executed(run, faults, 0));
    if Failed(run, faults, 0).None? then reached else EmergencyStop(reached, w, stopFault)
  }

  /** What a sequence run returns and leaves behind, for a workout that
      loaded: the completion response, or the failing toggle's exception
      (the outer handler rethrows it unchanged). */
  predicate SequenceEnds(db: Db, w: Id, run: seq<Event>, faults: map<nat, Failure>, stopFault: Option<Failure>,
                         trace: seq<Event>, r: Result<Response>, final: Db)
  {
    && trace == Executed(run, faults, 0)
    && final == Outcome(db, w, run, faults, stopFault)
    && r == match Failed(run, faults, 0)
            case None => Ok(Success("Workout squence completed", WorkoutIdData(w)))
            case Some(stop) => Err(ToggleFailure(stop.toggle, stop.cause, w))
  }

  /** The exercise belongs to workout `w` and each of its sets to it. */
  predicate ExerciseFits(layout: Layout, w: Id, x: LoadedExercise) {
    x.id in layout.exerciseParent && layout.exerciseParent[x.id] == w && SetsFit(layout, x.id, x.sets)
  }

  /** Each set belongs to exercise `e`. */
  predicate SetsFit(layout: Layout, e: Id, sets: seq<LoadedSet>)
    decreases |sets|
  {
    sets == [] || (sets[0].id in layout.setParent && layout.setParent[sets[0].id] == e && SetsFit(layout, e, sets[1..]))
  }

  /** The row a toggle of a run of workout `w` switches exists where the
      toggle looks for it. */
  predicate Fits(layout: Layout, w: Id, ev: Event) {
    match ev
    case WorkoutOn(x) => x in layout.workouts
    case WorkoutOff(x) => x in layout.workouts
    case ExerciseOn(e) => e in layout.exerciseParent && layout.exerciseParent[e] == w
    case ExerciseOff(e) => e in layout.exerciseParent && layout.exerciseParent[e] == w
    case SetOn(e, s) => s in layout.setParent && layout.setParent[s] == e
    case SetOff(e, s) => s in layout.setParent && layout.setParent[s] == e
    case WaitSet(_) => true
    case WaitRest(_) => true
  }

  /** The row a toggle switches is there in the tables, under the parent
      the toggle names. */
  predicate Present(db: Db, w: Id, ev: Event) {
    match ev
    case WorkoutOn(x) => x in db.workouts
    case WorkoutOff(x) => x in db.workouts
    case ExerciseOn(e) => e in db.exercises && db.exercises[e].workoutId == w
    case ExerciseOff(e) => e in db.exercises && db.exercises[e].workoutId == w
    case SetOn(e, s) => s in db.sets && db.sets[s].exerciseId == e
    case SetOff(e, s) => s in db.sets && db.sets[s].exerciseId == e
    case WaitSet(_) => true
    case WaitRest(_) => true
  }

  lemma LayoutPresent(db: Db, w: Id, ev: Event)
    requires Fits(LayoutOf(db), w, ev)
    ensures Present(db, w, ev)
  {
  }

  /** Each exercise of the plan fits workout `w`. */
  predicate PlanFits(layout: Layout, w: Id, plan: seq<LoadedExercise>)
    decreases |plan|
  {
    plan == [] || (ExerciseFits(layout, w, plan[0]) && PlanFits(layout, w, plan[1..]))
  }

  lemma {:induction false} SetsFitEach(layout: Layout, e: Id, sets: seq<LoadedSet>)
    requires forall j :: 0 <= j < |sets| ==> sets[j].id in layout.setParent && layout.setParent[sets[j].id] == e
    ensures SetsFit(layout, e, sets)
    decreases |sets|
  {
    if sets != [] {
      SetsFitEach(layout, e, sets[1..]);
    }
  }

  lemma {:induction false} PlanFitsEach(layout: Layout, w: Id, plan: seq<LoadedExercise>)
    requires forall i :: 0 <= i < |plan| ==> ExerciseFits(layout, w, plan[i])
    ensures PlanFits(layout, w, plan)
    decreases |plan|
  {
    if plan != [] {
      PlanFitsEach(layout, w, plan[1..]);
    }
  }

  /** A loaded plan fits the tables it was loaded from. */
  lemma LoadFits(db: Db, w: Id, plan: seq<LoadedExercise>)
    requires IsLoadOf(db, w, plan)
    ensures PlanFits(LayoutOf(db), w, plan)
  {
    var layout := LayoutOf(db);
    forall i | 0 <= i < |plan|
      ensures ExerciseFits(layout, w, plan[i])
    {
      assert ExerciseIds(plan)[i] == plan[i].id;
      forall j | 0 <= j < |plan[i].sets|
        ensures plan[i].sets[j].id in layout.setParent && layout.setParent[plan[i].sets[j].id] == plan[i].id
      {
        assert SetIds(plan[i].sets)[j] == plan[i].sets[j].id;
      }
      SetsFitEach(layout, plan[i].id, plan[i].sets);
    }
    PlanFitsEach(layout, w, plan);
  }

  // ---------------------------------------------------------------------
  // Properties of whole runs

  /** A run whose last event stops workout `w` leaves its whole tree stopped. */
  lemma RunEndingInStopStopsTree(db: Db, w: Id, run: seq<Event>)
    requires w in db.workouts && run != [] && run[|run| - 1] == WorkoutOff(w)
    ensures SubtreeInactive(Replay(db, run), w)
  {
    var prefix := run[..|run| - 1];
    assert run == prefix + [WorkoutOff(w)];
    ReplayAppend(db, prefix, WorkoutOff(w));
    ReplayKeepsShape(db, prefix);
    DeactivateWorkoutStopsTree(Replay(db, prefix), w);
  }

  /** A prefix of exercise events keeps the workout row as it was. */
  lemma PlanPrefixKeepsWorkouts(db: Db, plan: seq<LoadedExercise>, k: nat)
    requires k <= |PlanTrace(plan)|
    ensures Replay(db, PlanTrace(plan)[..k]).workouts == db.workouts
  {
    PlanTraceBelowWorkout(plan);
    ReplayKeepsWorkouts(db, PlanTrace(plan)[..k]);
  }

  /** As written, the emergency stop does clean up a workout whose stored
      flag was already set: whatever toggle fails, the tree ends stopped. */
  lemma AsWrittenConvergesWhenActive(db: Db, w: Id, plan: seq<LoadedExercise>, faults: map<nat, Failure>)
    requires w in db.workouts && db.workouts[w].timerActive
    ensures SubtreeInactive(Outcome(db, w, AsWrittenRun(w, plan), faults, None), w)
  {
    var run := AsWrittenRun(w, plan);
    StopsAtFirstFault(run, faults, 0);
    match FirstFaultAt(run, faults, 0)
    case None =>
      RunEndingInStopStopsTree(db, w, run);
    case Some(p) =>
      assert run[..p] == PlanTrace(plan)[..p];
      PlanPrefixKeepsWorkouts(db, plan, p);
      DeactivateWorkoutStopsTree(Replay(db, run[..p]), w);
  }

  /** With the workout switched on first, every run ends with the tree
      stopped, provided the tree started consistent and the stop itself
      goes through. */
  lemma CorrectedRunConverges(db: Db, w: Id, plan: seq<LoadedExercise>, faults: map<nat, Failure>)
    requires w in db.workouts && WorkoutCascade(db, w)
    ensures SubtreeInactive(Outcome(db, w, CorrectedRun(w, plan), faults, None), w)
  {
    var run := CorrectedRun(w, plan);
    StopsAtFirstFault(run, faults, 0);
    match FirstFaultAt(run, faults, 0)
    case None =>
      RunEndingInStopStopsTree(db, w, run);
    case Some(p) =>
      if p == 0 {
        assert run[..0] == [];
        if db.workouts[w].timerActive {
          DeactivateWorkoutStopsTree(db, w);
        }
      } else {
        var started := Apply(db, WorkoutOn(w));
        assert run[..p] == [WorkoutOn(w)] + PlanTrace(plan)[..p - 1];
        assert Replay(db, [WorkoutOn(w)]) == started by {
          ReplayAppend(db, [], WorkoutOn(w));
          assert [] + [WorkoutOn(w)] == [WorkoutOn(w)];
        }
        ReplayConcat(db, [WorkoutOn(w)], PlanTrace(plan)[..p - 1]);
        PlanPrefixKeepsWorkouts(started, plan, p - 1);
        DeactivateWorkoutStopsTree(Replay(db, run[..p]), w);
      }
  }

  /** The tables of the counterexample below: workout 0, stopped, with
      exercise 1 and its set 2 of five seconds, all stopped. */
  function ExampleDb(): Db {
    Db(map[0 := WorkoutRow("legs", None, true, false)],
       map[1 := ExerciseRow(0, "squat", "strength", 0, false)],
       map[2 := SetRow(1, 1, None, Some(5), None, Seconds(5), None, false)])
  }

  function ExamplePlan(): seq<LoadedExercise> {
    [LoadedExercise(1, [LoadedSet(2, Seconds(5), None)])]
  }

  lemma ExamplePlanIsLoad()
    ensures IsLoadOf(ExampleDb(), 0, ExamplePlan())
  {
    var plan := ExamplePlan();
    assert SetIds(plan[0].sets) == [2];
    assert ExerciseIds(plan) == [1];
    assert SetsOf(ExampleDb(), 1) == {2};
    assert ExercisesOf(ExampleDb(), 0) == {1};
  }

  lemma ExampleRun()
    ensures AsWrittenRun(0, ExamplePlan()) ==
            [ExerciseOn(1), SetOn(1, 2), WaitSet(Seconds(5)), SetOff(1, 2), WaitRest(None), ExerciseOff(1), WorkoutOff(0)]
    ensures WaitTime(WaitSet(Seconds(5))) == Num(5) && WaitTime(WaitRest(None)) == Num(30)
  {
    var set2 := LoadedSet(2, Seconds(5), None);
    var plan := ExamplePlan();
    assert [set2][1..] == [] && plan[1..] == [];
    assert SetsTrace(1, [set2]) == SetSteps(1, set2);
    assert PlanTrace(plan) == ExerciseTrace(plan[0]);
  }

  /** The call at position 3, switching set 2 off, is the first to fail. */
  lemma ExampleFault(run: seq<Event>)
    requires run == [ExerciseOn(1), SetOn(1, 2), WaitSet(Seconds(5)), SetOff(1, 2), WaitRest(None), ExerciseOff(1), WorkoutOff(0)]
    ensures Executed(run, map[3 := PrismaKnown("P1001")], 0) == [ExerciseOn(1), SetOn(1, 2), WaitSet(Seconds(5))]
    ensures Failed(run, map[3 := PrismaKnown("P1001")], 0) == Some(Stop(SetOff(1, 2), PrismaKnown("P1001")))
  {
    var faults := map[3 := PrismaKnown("P1001")];
    StopsAtFirstFault(run, faults, 0);
    assert FirstFaultAt(run[3..], faults, 3) == Some(0);
    assert run[2..][1..] == run[3..];
    assert FirstFaultAt(run[2..], faults, 2) == Some(1);
    assert run[1..][1..] == run[2..];
    assert FirstFaultAt(run[1..], faults, 1) == Some(2);
  }

  lemma ExampleReplay()
    ensures var mid := Replay(ExampleDb(), [ExerciseOn(1), SetOn(1, 2), WaitSet(Seconds(5))]);
            && 0 in mid.workouts && !mid.workouts[0].timerActive
            && 1 in mid.exercises && mid.exercises[1].timerActive && mid.exercises[1].workoutId == 0
            && 2 in mid.sets && mid.sets[2].timerActive
  {
    var db := ExampleDb();
    var s1 := Apply(db, ExerciseOn(1));
    var s2 := Apply(s1, SetOn(1, 2));
    assert Replay(db, [ExerciseOn(1)]) == s1 by {
      assert [ExerciseOn(1)][..0] == [];
    }
    assert Replay(db, [ExerciseOn(1), SetOn(1, 2)]) == s2 by {
      assert [ExerciseOn(1), SetOn(1, 2)][..1] == [ExerciseOn(1)];
    }
    assert [ExerciseOn(1), SetOn(1, 2), WaitSet(Seconds(5))][..2] == [ExerciseOn(1), SetOn(1, 2)];
  }

  /** As written, a run that fails part-way leaves timers running when the
      stored workout flag was not set: the emergency stop sees the flag
      clear and does nothing. In the example tree the call that switches
      set 2 off fails; exercise 1 and set 2 stay on. */
  lemma AsWrittenAbortLeavesTimersActive()
    ensures var final := Outcome(ExampleDb(), 0, AsWrittenRun(0, ExamplePlan()), map[3 := PrismaKnown("P1001")], None);
            && IsLoadOf(ExampleDb(), 0, ExamplePlan())
            && SubtreeInactive(ExampleDb(), 0)
            && 1 in final.exercises && final.exercises[1].timerActive
            && 2 in final.sets && final.sets[2].timerActive
            && !SubtreeInactive(final, 0)
  {
    ExamplePlanIsLoad();
    ExampleRun();
    ExampleFault(AsWrittenRun(0, ExamplePlan()));
    ExampleReplay();
    var final := Outcome(ExampleDb(), 0, AsWrittenRun(0, ExamplePlan()), map[3 := PrismaKnown("P1001")], None);
    assert final == Replay(ExampleDb(), [ExerciseOn(1), SetOn(1, 2), WaitSet(Seconds(5))]);
  }

  /** As written, `updateWorkout` does not wait for `validateUpdateInput`,
      so a request without an exercise list, which the validation refuses,
      still goes through, and `prepareUpdateData` replaces the workout's
      exercises by none. In the example tree, renaming workout 0 deletes
      exercise 1 and its set. The same tree after its one set was deleted
      (`deleteExerciseSet`) has no set for a cascade to reach, and renaming
      it still deletes exercise 1. */
  lemma AsWrittenUpdateEmptiesWorkout()
    ensures ValidateUpdateInput(None) == Some(BadRequest("At least one exercise is required"))
    ensures UpdateList(None) == Some([])
    ensures ExercisesOf(ExampleDb(), 0) == {1}
    ensures var r := Replaced(ExampleDb(), 0, Some("legs day"), None, [], 3);
            ExercisesOf(r, 0) == {} && 2 !in r.sets
    ensures var bare := ExampleDb().(sets := map[]);
            && ExercisesOf(bare, 0) == {1} && SetsOf(bare, 1) == {}
            && ExercisesOf(Replaced(bare, 0, Some("legs day"), None, [], 3), 0) == {}
  {
    assert ExercisesOf(ExampleDb(), 0) == {1};
    ReplacedTree(ExampleDb(), 0, Some("legs day"), None, [], 3);
    var bare := ExampleDb().(sets := map[]);
    assert ExercisesOf(bare, 0) == {1};
  }

  // ---------------------------------------------------------------------
  // The service

  class WorkoutService {
    const db: Database
    /** The rows `batchDeleteSets` removes per round. */
    const batchSize: BatchSize

    constructor (db: Database, batchSize: BatchSize)
      ensures this.db == db && this.batchSize == batchSize
    {
      this.db := db;
      this.batchSize := batchSize;
    }

    /** `deactivateAllTimers`: the exercises of the workout and the sets of
        the listed exercises stopped. The source runs the two updates side
        by side; they commute (`DeactivationsCommute`), so one after the
        other is the same. */
    method DeactivateAllTimers(w: Id, exerciseIds: set<Id>)
      modifies db
      ensures db.nextId == old(db.nextId)
      ensures db.State() == DeactivateSetsIn(DeactivateExercisesOf(old(db.State()), w), exerciseIds)
    {
      var state := db.State();
      db.exercises := DeactivateExercisesOf(state, w).exercises;
      db.sets := DeactivateSetsIn(state, exerciseIds).sets;
    }

    /** `toggleWorkoutTimer`: NotFound for an unknown workout; otherwise the
        workout's flag is set, and switching off stops its whole tree. */
    method ToggleWorkoutTimer(id: Id, active: bool, fault: Option<Failure>) returns (r: Result<Response>)
      modifies db
      ensures db.nextId == old(db.nextId)
      ensures id !in old(db.workouts) ==>
                r == Err(Raised(NotFound("Workout " + NatToString(id) + " not found"))) && db.State() == old(db.State())
      ensures id in old(db.workouts) && fault.Some? ==>
                && r == Err(ToggleFailure(if active then WorkoutOn(id) else WorkoutOff(id), fault.value, id))
                && db.State() == old(db.State())
      ensures id in old(db.workouts) && fault.None? ==>
                && r == Ok(Success("workout", TimerData(id, active)))
                && db.State() == Apply(old(db.State()), if active then WorkoutOn(id) else WorkoutOff(id))
    {
      var missing := ValidateWorkoutExists(db.State(), id);
      if missing.Some? {
        return Err(Raised(HandleError(Raised(missing.value), Toggle, "workout", Some(NatToString(id)), None)));
      }
      if fault.Some? {
        return Err(Raised(HandleError(fault.value, Toggle, "workout", Some(NatToString(id)), None)));
      }
      db.workouts := db.workouts[id := db.workouts[id].(timerActive := active)];
      if !active {
        DeactivateAllTimers(id, ExercisesOf(db.State(), id));
      }
      return Ok(Success("workout", TimerData(id, active)));
    }

    /** `toggleExerciseTimer`: NotFound unless the exercise belongs to the
        workout; otherwise its flag is set, and switching off stops its sets. */
    method ToggleExerciseTimer(w: Id, e: Id, active: bool, fault: Option<Failure>) returns (r: Result<Response>)
      modifies db
      ensures db.nextId == old(db.nextId)
      ensures !(e in old(db.exercises) && old(db.exercises)[e].workoutId == w) ==>
                && r == Err(Raised(NotFound("Exercise " + NatToString(e) + " not found in workout " + NatToString(w))))
                && db.State() == old(db.State())
      ensures e in old(db.exercises) && old(db.exercises)[e].workoutId == w && fault.Some? ==>
                && r == Err(ToggleFailure(if active then ExerciseOn(e) else ExerciseOff(e), fault.value, w))
                && db.State() == old(db.State())
      ensures e in old(db.exercises) && old(db.exercises)[e].workoutId == w && fault.None? ==>
                && r == Ok(Success("exercise", TimerData(e, active)))
                && db.State() == Apply(old(db.State()), if active then ExerciseOn(e) else ExerciseOff(e))
    {
      var missing := ValidateExerciseExists(db.State(), w, e);
      if missing.Some? {
        return Err(Raised(HandleError(Raised(missing.value), Toggle, NatToString(e), Some("Workout ID: " + NatToString(w)), None)));
      }
      if fault.Some? {
        return Err(Raised(HandleError(fault.value, Toggle, NatToString(e), Some("Workout ID: " + NatToString(w)), None)));
      }
      db.exercises := db.exercises[e := db.exercises[e].(timerActive := active)];
      if !active {
        db.sets := DeactivateSetsIn(db.State(), {e}).sets;
      }
      return Ok(Success("exercise", TimerData(e, active)));
    }

    /** `toggleExerciseSetTimer`: NotFound unless the set belongs to the
        exercise (the workout is not consulted); otherwise exactly that
        set's flag changes. */
    method ToggleExerciseSetTimer(w: Id, e: Id, s: Id, active: bool, fault: Option<Failure>) returns (r: Result<Response>)
      modifies db
      ensures db.nextId == old(db.nextId)
      ensures !(s in old(db.sets) && old(db.sets)[s].exerciseId == e) ==>
                && r == Err(Raised(NotFound("Set " + NatToString(s) + " not found in exercise " + NatToString(e))))
                && db.State() == old(db.State())
      ensures s in old(db.sets) && old(db.sets)[s].exerciseId == e && fault.Some? ==>
                && r == Err(ToggleFailure(if active then SetOn(e, s) else SetOff(e, s), fault.value, w))
                && db.State() == old(db.State())
      ensures s in old(db.sets) && old(db.sets)[s].exerciseId == e && fault.None? ==>
                && r == Ok(NoContent)
                && db.State() == Apply(old(db.State()), if active then SetOn(e, s) else SetOff(e, s))
    {
      var missing := ValidateSetExists(db.State(), w, e, s);
      if missing.Some? {
        return Err(Raised(HandleError(Raised(missing.value), Toggle, "exerciseSetTimer", Some(NatToString(s)),
                                      Some("Workout ID: " + NatToString(w) + ", Exercise ID: " + NatToString(e)))));
      }
      if fault.Some? {
        return Err(Raised(HandleError(fault.value, Toggle, "exerciseSetTimer", Some(NatToString(s)),
                                      Some("Workout ID: " + NatToString(w) + ", Exercise ID: " + NatToString(e)))));
      }
      db.sets := db.sets[s := db.sets[s].(timerActive := active)];
      return Ok(NoContent);
    }

    /** One toggle of a sequence run, through the service's own toggle for
        its kind of row: it fails exactly when `faults` plans a failure at
        position `pos`, and otherwise takes effect. */
    method Perform(w: Id, ev: Event, faults: map<nat, Failure>, pos: nat) returns (failure: Option<Stop>)
      requires IsToggle(ev) && Present(db.State(), w, ev)
      modifies db
      ensures db.nextId == old(db.nextId)
      ensures failure.Some? <==> pos in faults
      ensures failure.Some? ==> failure.value == Stop(ev, faults[pos]) && db.State() == old(db.State())
      ensures failure.None? ==> db.State() == Apply(old(db.State()), ev)
    {
      var r;
      match ev {
        case WorkoutOn(x) => r := ToggleWorkoutTimer(x, true, FaultAt(faults, pos));
        case WorkoutOff(x) => r := ToggleWorkoutTimer(x, false, FaultAt(faults, pos));
        case ExerciseOn(e) => r := ToggleExerciseTimer(w, e, true, FaultAt(faults, pos));
        case ExerciseOff(e) => r := ToggleExerciseTimer(w, e, false, FaultAt(faults, pos));
        case SetOn(e, s) => r := ToggleExerciseSetTimer(w, e, s, true, FaultAt(faults, pos));
        case SetOff(e, s) => r := ToggleExerciseSetTimer(w, e, s, false, FaultAt(faults, pos));
      }
      failure := if r.Err? then Some(Stop(ev, faults[pos])) else None;
    }

    /** `emergencyStopTimers`: the workout is re-read and switched off only
        if its stored flag is set; whatever fails is swallowed. */
    method EmergencyStopTimers(w: Id, stopFault: Option<Failure>)
      modifies db
      ensures db.nextId == old(db.nextId)
      ensures db.State() == EmergencyStop(old(db.State()), w, stopFault)
    {
      if w in db.workouts && db.workouts[w].timerActive {
        var _ := ToggleWorkoutTimer(w, false, stopFault);
      }
    }

    /** One pass of the set loop of `processExerciseSequence`: the set
        on, a wait of its parsed duration, the set off, a wait of its rest
        time, stopping at the first toggle that fails. */
    method ProcessSet(w: Id, e: Id, s: LoadedSet, faults: map<nat, Failure>, offset: nat)
      returns (failure: Option<Stop>, steps: seq<Event>)
      requires s.id in db.sets && db.sets[s.id].exerciseId == e
      modifies db
      ensures db.nextId == old(db.nextId)
      ensures steps == Executed(SetSteps(e, s), faults, offset)
      ensures failure == Failed(SetSteps(e, s), faults, offset)
      ensures db.State() == Replay(old(db.State()), steps)
    {
      SetStepsReplay(db.State(), e, s);
      SetStepsStop(e, s, faults, offset);
      var run := SetSteps(e, s);
      failure := Perform(w, SetOn(e, s.id), faults, offset);
      if failure.Some? {
        return failure, [];
      }
      failure := Perform(w, SetOff(e, s.id), faults, offset + 2);
      if failure.Some? {
        return failure, run[..2];
      }
      return None, run;
    }

    /** The set loop of `processExerciseSequence`: the sets in the loaded
        order, stopping at the first toggle that fails. */
    method ProcessSets(w: Id, e: Id, sets: seq<LoadedSet>, faults: map<nat, Failure>, offset: nat)
      returns (failure: Option<Stop>, steps: seq<Event>)
      requires SetsFit(LayoutOf(db.State()), e, sets)
      modifies db
      ensures db.nextId == old(db.nextId)
      ensures steps == Executed(SetsTrace(e, sets), faults, offset)
      ensures failure == Failed(SetsTrace(e, sets), faults, offset)
      ensures db.State() == Replay(old(db.State()), steps)
    {
      ghost var db0 := db.State();
      ghost var layout := LayoutOf(db0);
      ghost var run := SetsTrace(e, sets);
      steps := [];
      assert sets[0..] == sets;
      for j := 0 to |sets|
        invariant run == steps + SetsTrace(e, sets[j..])
        invariant SetsFit(layout, e, sets[j..])
        invariant Failed(steps, faults, offset) == None
        invariant db.State() == Replay(db0, steps)
        invariant db.nextId == old(db.nextId)
      {
        ghost var later := SetsTrace(e, sets[j + 1..]);
        assert sets[j..][0] == sets[j] && sets[j..][1..] == sets[j + 1..];
        assert SetsTrace(e, sets[j..]) == SetSteps(e, sets[j]) + later;
        assert sets[j].id in db.sets && db.sets[sets[j].id].exerciseId == e by {
          ReplayKeepsLayout(db0, steps);
          LayoutPresent(db.State(), w, SetOn(e, sets[j].id));
        }
        var at := offset + |steps|;
        Extend(steps, SetSteps(e, sets[j]), later, faults, offset, at);
        var f, setSteps := ProcessSet(w, e, sets[j], faults, at);
        ReplayConcat(db0, steps, setSteps);
        if f.Some? {
          return f, steps + setSteps;
        }
        Regroup(steps, setSteps, later);
        steps := steps + setSteps;
      }
      assert run == steps by {
        assert sets[|sets|..] == [];
      }
      CompletedRun(run, faults, offset);
      return None, steps;
    }

    /** The part of `processExerciseSequence` after the exercise's
        switch-on: its sets one after the other, then its switch-off,
        stopping at the first toggle that fails. */
    method FinishExercise(w: Id, x: LoadedExercise, faults: map<nat, Failure>, offset: nat)
      returns (failure: Option<Stop>, steps: seq<Event>)
      requires ExerciseFits(LayoutOf(db.State()), w, x)
      modifies db
      ensures db.nextId == old(db.nextId)
      ensures steps == Executed(SetsTrace(x.id, x.sets) + [ExerciseOff(x.id)], faults, offset)
      ensures failure == Failed(SetsTrace(x.id, x.sets) + [ExerciseOff(x.id)], faults, offset)
      ensures db.State() == Replay(old(db.State()), steps)
    {
      ghost var db0 := db.State();
      ghost var body := SetsTrace(x.id, x.sets);
      ghost var run := body + [ExerciseOff(x.id)];
      failure, steps := ProcessSets(w, x.id, x.sets, faults, offset);
      if failure.Some? {
        assert Executed(run, faults, offset) == steps && Failed(run, faults, offset) == failure by {
          RunConcat(body, [ExerciseOff(x.id)], faults, offset);
        }
        return failure, steps;
      }
      assert steps == body by {
        CompletedRun(body, faults, offset);
      }
      assert Present(db.State(), w, ExerciseOff(x.id)) by {
        ReplayKeepsLayout(db0, steps);
        LayoutPresent(db.State(), w, ExerciseOff(x.id));
      }
      failure := Perform(w, ExerciseOff(x.id), faults, offset + |steps|);
      FinalToggle(steps, ExerciseOff(x.id), faults, offset, failure);
      if failure.Some? {
        return failure, steps;
      }
      ReplayAppend(db0, steps, ExerciseOff(x.id));
      return None, steps + [ExerciseOff(x.id)];
    }

    /** `processExerciseSequence`: the exercise on, its sets one after the
        other, and the exercise off, stopping at the first toggle that
        fails. Positions in `faults` count from `offset`. */
    method ProcessExerciseSequence(w: Id, x: LoadedExercise, faults: map<nat, Failure>, offset: nat)
      returns (failure: Option<Stop>, steps: seq<Event>)
      requires ExerciseFits(LayoutOf(db.State()), w, x)
      modifies db
      ensures db.nextId == old(db.nextId)
      ensures steps == Executed(ExerciseTrace(x), faults, offset)
      ensures failure == Failed(ExerciseTrace(x), faults, offset)
      ensures db.State() == Replay(old(db.State()), steps)
    {
      ghost var db0 := db.State();
      ghost var rest := SetsTrace(x.id, x.sets) + [ExerciseOff(x.id)];
      assert ExerciseTrace(x) == [ExerciseOn(x.id)] + rest;
      ToggleThenRun(ExerciseOn(x.id), rest, faults, offset);
      assert Present(db0, w, ExerciseOn(x.id)) by {
        LayoutPresent(db0, w, ExerciseOn(x.id));
      }
      failure := Perform(w, ExerciseOn(x.id), faults, offset);
      if failure.Some? {
        return failure, [];
      }
      assert ExerciseFits(LayoutOf(db.State()), w, x) by {
        ApplyKeepsLayout(db0, ExerciseOn(x.id));
      }
      var restSteps;
      failure, restSteps := FinishExercise(w, x, faults, offset + 1);
      assert Replay(db0, [ExerciseOn(x.id)]) == Apply(db0, ExerciseOn(x.id)) by {
        assert [ExerciseOn(x.id)][..0] == [];
      }
      ReplayConcat(db0, [ExerciseOn(x.id)], restSteps);
      return failure, [ExerciseOn(x.id)] + restSteps;
    }

    /** The exercise loop of `startWorkoutSequence`: the exercises in the
        loaded order, stopping at the first toggle that fails. */
    method RunExercises(w: Id, plan: seq<LoadedExercise>, faults: map<nat, Failure>, offset: nat)
      returns (failure: Option<Stop>, steps: seq<Event>)
      requires PlanFits(LayoutOf(db.State()), w, plan)
      modifies db
      ensures db.nextId == old(db.nextId)
      ensures steps == Executed(PlanTrace(plan), faults, offset)
      ensures failure == Failed(PlanTrace(plan), faults, offset)
      ensures db.State() == Replay(old(db.State()), steps)
    {
      ghost var db0 := db.State();
      ghost var layout := LayoutOf(db0);
      ghost var run := PlanTrace(plan);
      steps := [];
      assert plan[0..] == plan;
      for i := 0 to |plan|
        invariant run == steps + PlanTrace(plan[i..])
        invariant PlanFits(layout, w, plan[i..])
        invariant Failed(steps, faults, offset) == None
        invariant db.State() == Replay(db0, steps)
        invariant db.nextId == old(db.nextId)
      {
        ghost var later := PlanTrace(plan[i + 1..]);
        assert plan[i..][0] == plan[i] && plan[i..][1..] == plan[i + 1..];
        var x := plan[i];
        ghost var block := ExerciseTrace(x);
        assert PlanTrace(plan[i..]) == block + later;
        assert ExerciseFits(LayoutOf(db.State()), w, plan[i]) by {
          ReplayKeepsLayout(db0, steps);
        }
        var at := offset + |steps|;
        Extend(steps, block, later, faults, offset, at);
        var f, exerciseSteps := ProcessExerciseSequence(w, x, faults, at);
        assert exerciseSteps == Executed(block, faults, at) && f == Failed(block, faults, at);
        assert db.State() == Replay(db0, steps + exerciseSteps) by {
          ReplayConcat(db0, steps, exerciseSteps);
        }
        if f.Some? {
          return f, steps + exerciseSteps;
        }
        Regroup(steps, exerciseSteps, later);
        steps := steps + exerciseSteps;
      }
      assert run == steps by {
        assert plan[|plan|..] == [];
      }
      CompletedRun(run, faults, offset);
      return None, steps;
    }

    /** The rest of the `try` of `startWorkoutSequence` once the workout
        is loaded: its exercises, then its switch-off, stopping at the first
        toggle that fails. Positions in `faults` count from `offset`. */
    method RunToEnd(w: Id, plan: seq<LoadedExercise>, faults: map<nat, Failure>, offset: nat)
      returns (failure: Option<Stop>, steps: seq<Event>)
      requires w in LayoutOf(db.State()).workouts && PlanFits(LayoutOf(db.State()), w, plan)
      modifies db
      ensures db.nextId == old(db.nextId)
      ensures steps == Executed(AsWrittenRun(w, plan), faults, offset)
      ensures failure == Failed(AsWrittenRun(w, plan), faults, offset)
      ensures db.State() == Replay(old(db.State()), steps)
    {
      ghost var db0 := db.State();
      ghost var body := PlanTrace(plan);
      ghost var run := AsWrittenRun(w, plan);
      assert run == body + [WorkoutOff(w)];
      RunThenStop(body, w, faults, offset);
      failure, steps := RunExercises(w, plan, faults, offset);
      if failure.Some? {
        return failure, steps;
      }
      assert steps == body by {
        CompletedRun(body, faults, offset);
      }
      assert Present(db.State(), w, WorkoutOff(w)) by {
        ReplayKeepsLayout(db0, steps);
        LayoutPresent(db.State(), w, WorkoutOff(w));
      }
      var last := offset + |steps|;
      failure := Perform(w, WorkoutOff(w), faults, last);
      if failure.Some? {
        return failure, steps;
      }
      ReplayAppend(db0, steps, WorkoutOff(w));
      return None, steps + [WorkoutOff(w)];
    }

    /** The `catch` of `startWorkoutSequence`: the emergency stop, then the
        handler, which throws. */
    method AbortSequence(w: Id, error: Failure, stopFault: Option<Failure>) returns (r: Result<Response>)
      modifies db
      ensures db.nextId == old(db.nextId)
      ensures r == Err(Raised(HandleError(error, Start, "workoutSequence", Some(NatToString(w)), None)))
      ensures db.State() == EmergencyStop(old(db.State()), w, stopFault)
    {
      EmergencyStopTimers(w, stopFault);
      return Err(Raised(HandleError(error, Start, "workoutSequence", Some(NatToString(w)), None)));
    }

    /** `startWorkoutSequence` as written. A failed load goes through the
        emergency stop and the handler. An unknown workout is reported by
        the switch-on that the missing load triggers. A loaded workout runs
        its exercises without being switched on, then is switched off; the
        first failing toggle ends the run with the emergency stop and its
        own exception. */
    method StartWorkoutSequence(w: Id, loadFault: Option<Failure>, faults: map<nat, Failure>, stopFault: Option<Failure>)
      returns (r: Result<Response>, plan: seq<LoadedExercise>, trace: seq<Event>)
      modifies db
      ensures db.nextId == old(db.nextId)
      ensures loadFault.Some? ==>
                && r == Err(Raised(HandleError(loadFault.value, Start, "workoutSequence", Some(NatToString(w)), None)))
                && db.State() == EmergencyStop(old(db.State()), w, stopFault)
      ensures loadFault.None? && w !in old(db.workouts) ==>
                && r == Err(Raised(NotFound("Workout " + NatToString(w) + " not found")))
                && db.State() == old(db.State())
      ensures loadFault.None? && w in old(db.workouts) ==>
                && IsLoadOf(old(db.State()), w, plan)
                && SequenceEnds(old(db.State()), w, AsWrittenRun(w, plan), faults, stopFault, trace, r, db.State())
    {
      if loadFault.Some? {
        r := AbortSequence(w, loadFault.value, stopFault);
        return r, [], [];
      }
      var loaded := GetWorkoutWithTimers(db, w);
      if loaded.None? {
        var started := ToggleWorkoutTimer(w, true, None);
        r := AbortSequence(w, started.failure, stopFault);
        return r, [], [];
      }
      plan := loaded.value;
      LoadFits(db.State(), w, plan);
      assert w in LayoutOf(db.State()).workouts;
      var failure;
      failure, trace := RunToEnd(w, plan, faults, 0);
      if failure.Some? {
        r := AbortSequence(w, ToggleFailure(failure.value.toggle, failure.value.cause, w), stopFault);
      } else {
        r := Ok(Success("Workout squence completed", WorkoutIdData(w)));
      }
    }

    /** `startWorkoutSequence` with the switch-on it evidently intends: a
        loaded workout is switched on before its exercises run, so that the
        emergency stop finds its flag set. */
    method StartWorkoutSequenceCorrected(w: Id, loadFault: Option<Failure>, faults: map<nat, Failure>,
                                         stopFault: Option<Failure>)
      returns (r: Result<Response>, plan: seq<LoadedExercise>, trace: seq<Event>)
      modifies db
      ensures db.nextId == old(db.nextId)
      ensures loadFault.Some? ==>
                && r == Err(Raised(HandleError(loadFault.value, Start, "workoutSequence", Some(NatToString(w)), None)))
                && db.State() == EmergencyStop(old(db.State()), w, stopFault)
      ensures loadFault.None? && w !in old(db.workouts) ==>
                && r == Err(Raised(NotFound("Workout " + NatToString(w) + " not found")))
                && db.State() == old(db.State())
      ensures loadFault.None? && w in old(db.workouts) ==>
                && IsLoadOf(old(db.State()), w, plan)
                && SequenceEnds(old(db.State()), w, CorrectedRun(w, plan), faults, stopFault, trace, r, db.State())
    {
      if loadFault.Some? {
        r := AbortSequence(w, loadFault.value, stopFault);
        return r, [], [];
      }
      var loaded := GetWorkoutWithTimers(db, w);
      if loaded.None? {
        var started := ToggleWorkoutTimer(w, true, None);
        r := AbortSequence(w, started.failure, stopFault);
        return r, [], [];
      }
      plan := loaded.value;
      ghost var db0 := db.State();
      LoadFits(db0, w, plan);
      assert w in LayoutOf(db0).workouts;
      assert CorrectedRun(w, plan) == [WorkoutOn(w)] + AsWrittenRun(w, plan);
      ToggleThenRun(WorkoutOn(w), AsWrittenRun(w, plan), faults, 0);
      var failure := Perform(w, WorkoutOn(w), faults, 0);
      if failure.Some? {
        r := AbortSequence(w, ToggleFailure(failure.value.toggle, failure.value.cause, w), stopFault);
        return r, plan, [];
      }
      ghost var on := [WorkoutOn(w)];
      assert Replay(db0, on) == Apply(db0, WorkoutOn(w)) by {
        assert on[..0] == [];
      }
      assert w in LayoutOf(db.State()).workouts && PlanFits(LayoutOf(db.State()), w, plan) by {
        ApplyKeepsLayout(db0, WorkoutOn(w));
      }
      var steps;
      failure, steps := RunToEnd(w, plan, faults, 1);
      ReplayConcat(db0, on, steps);
      trace := [WorkoutOn(w)] + steps;
      if failure.Some? {
        r := AbortSequence(w, ToggleFailure(failure.value.toggle, failure.value.cause, w), stopFault);
      } else {
        r := Ok(Success("Workout squence completed", WorkoutIdData(w)));
      }
    }

    /** `createWorkout`: the validation is awaited, so a request it refuses
        throws its BadRequest as it is. The nested create returns its
        transaction without awaiting it, so the `catch` never sees a failed
        transaction: the store's error reaches the caller unchanged. A
        successful create stores the tree on fresh identifiers. */
    method CreateWorkout(input: WorkoutInput, fault: Option<Failure>) returns (r: Result<Id>)
      modifies db
      ensures ValidateUpdateInput(input.exercises).Some? ==>
                && r == Err(Raised(ValidateUpdateInput(input.exercises).value))
                && db.State() == old(db.State()) && db.nextId == old(db.nextId)
      ensures ValidateUpdateInput(input.exercises).None? && fault.Some? ==>
                && r == Err(fault.value)
                && db.State() == old(db.State()) && db.nextId == old(db.nextId)
      ensures ValidateUpdateInput(input.exercises).None? && fault.None? ==>
                && WithSets(input.exercises.value).Some?
                && r == Ok(old(db.nextId))
                && var xs := WithSets(input.exercises.value).value;
                && db.State() == Created(old(db.State()), old(db.nextId), input.title, input.description, xs)
                && db.nextId == old(db.nextId) + 1 + TreeSize(xs)
      ensures old(db.Valid()) ==> db.Valid()
    {
      var invalid := ValidateUpdateInput(input.exercises);
      if invalid.Some? {
        return Err(Raised(invalid.value));
      }
      if fault.Some? {
        return Err(fault.value);
      }
      var xs := WithSets(input.exercises.value).value;
      var w := db.nextId;
      ghost var before := db.State();
      ghost var valid := db.Valid();
      var after := Created(db.State(), w, input.title, input.description, xs);
      db.workouts, db.exercises, db.sets := after.workouts, after.exercises, after.sets;
      db.nextId := w + 1 + TreeSize(xs);
      if valid {
        CreatedTreeStopped(before, w, input.title, input.description, xs);
      }
      return Ok(w);
    }

    /** `updateWorkout` as written: the validation runs without being
        awaited and so decides nothing. Inside the transaction an unknown
        workout is a BadRequest, an exercise without a set list throws a
        TypeError, and the update replaces the workout's whole tree; every
        failure goes through the handler, and a failed transaction changes
        nothing. */
    method UpdateWorkout(id: Id, input: WorkoutUpdate, findFault: Option<Failure>, writeFault: Option<Failure>)
      returns (r: Result<Id>)
      modifies db
      ensures findFault.Some? ==>
                && r == Err(Raised(HandleError(findFault.value, Update, "workout", Some(NatToString(id)),
                                               Some("Failed to update workout details"))))
                && db.State() == old(db.State()) && db.nextId == old(db.nextId)
      ensures findFault.None? && id !in old(db.workouts) ==>
                && r == Err(Raised(BadRequest("Workout with ID " + NatToString(id) + " not found")))
                && db.State() == old(db.State()) && db.nextId == old(db.nextId)
      ensures findFault.None? && id in old(db.workouts) && UpdateList(input.exercises).None? ==>
                && r == Err(Raised(InternalServerError("Failed to update workout details")))
                && db.State() == old(db.State()) && db.nextId == old(db.nextId)
      ensures findFault.None? && id in old(db.workouts) && UpdateList(input.exercises).Some? && writeFault.Some? ==>
                && r == Err(Raised(HandleError(writeFault.value, Update, "workout", Some(NatToString(id)),
                                               Some("Failed to update workout details"))))
                && db.State() == old(db.State()) && db.nextId == old(db.nextId)
      ensures findFault.None? && id in old(db.workouts) && UpdateList(input.exercises).Some? && writeFault.None? ==>
                && r == Ok(id)
                && var xs := UpdateList(input.exercises).value;
                && db.State() == Replaced(old(db.State()), id, input.title, input.description, xs, old(db.nextId))
                && db.nextId == old(db.nextId) + TreeSize(xs)
      ensures old(db.Valid()) ==> db.Valid()
    {
      var context := Some("Failed to update workout details");
      if findFault.Some? {
        return Err(Raised(HandleError(findFault.value, Update, "workout", Some(NatToString(id)), context)));
      }
      if id !in db.workouts {
        var missing := BadRequest("Workout with ID " + NatToString(id) + " not found");
        return Err(Raised(HandleError(Raised(missing), Update, "workout", Some(NatToString(id)), context)));
      }
      var list := UpdateList(input.exercises);
      if list.None? {
        var typeError := OtherError("Cannot read properties of undefined (reading 'map')");
        return Err(Raised(HandleError(typeError, Update, "workout", Some(NatToString(id)), context)));
      }
      if writeFault.Some? {
        return Err(Raised(HandleError(writeFault.value, Update, "workout", Some(NatToString(id)), context)));
      }
      ghost var before := db.State();
      ghost var valid := db.Valid();
      var next := db.nextId;
      var after := Replaced(db.State(), id, input.title, input.description, list.value, next);
      db.workouts, db.exercises, db.sets := after.workouts, after.exercises, after.sets;
      db.nextId := next + TreeSize(list.value);
      if valid {
        ReplacedTree(before, id, input.title, input.description, list.value, next);
      }
      return Ok(id);
    }

    /** `updateWorkout` with the validation awaited, as `createWorkout`
        does: a request without exercises, or with an exercise without
        sets, is refused before the transaction starts, so a successful
        update replaces the tree by a list that is not empty; what that
        list leaves in the workout is `ValidatedUpdateKeepsExercises`. */
    method UpdateWorkoutCorrected(id: Id, input: WorkoutUpdate, findFault: Option<Failure>, writeFault: Option<Failure>)
      returns (r: Result<Id>)
      modifies db
      ensures ValidateUpdateInput(input.exercises).Some? ==>
                && r == Err(Raised(ValidateUpdateInput(input.exercises).value))
                && db.State() == old(db.State()) && db.nextId == old(db.nextId)
      ensures ValidateUpdateInput(input.exercises).None? && !(findFault.None? && id in old(db.workouts) && writeFault.None?) ==>
                && r.Err? && r.failure.Raised? && PassesThrough(r.failure.ex)
                && db.State() == old(db.State()) && db.nextId == old(db.nextId)
      ensures ValidateUpdateInput(input.exercises).None? && findFault.None? && id in old(db.workouts) && writeFault.None? ==>
                && r == Ok(id)
                && UpdateList(input.exercises).Some?
                && var xs := UpdateList(input.exercises).value;
                && db.State() == Replaced(old(db.State()), id, input.title, input.description, xs, old(db.nextId))
                && |xs| == |input.exercises.value| > 0
      ensures old(db.Valid()) ==> db.Valid()
    {
      var invalid := ValidateUpdateInput(input.exercises);
      if invalid.Some? {
        return Err(Raised(invalid.value));
      }
      if findFault.None? && id in db.workouts && writeFault.None? {
        r := UpdateWorkout(id, input, findFault, writeFault);
        ValidatedUpdateKeepsExercises(old(db.State()), id, input.title, input.description, input.exercises, old(db.nextId));
      } else {
        r := UpdateWorkout(id, input, findFault, writeFault);
      }
    }

    /** `deleteExerciseSet`: the existence check and the delete run inside
        the `try`, so an unknown set's NotFound and any store failure go
        through the handler; a successful delete removes exactly that set
        and reports it with its exercise. */
    method DeleteExerciseSet(s: Id, findFault: Option<Failure>, deleteFault: Option<Failure>) returns (r: Result<Response>)
      modifies db
      ensures db.nextId == old(db.nextId) && db.workouts == old(db.workouts) && db.exercises == old(db.exercises)
      ensures findFault.Some? ==>
                r == Err(Raised(HandleError(findFault.value, Delete, "exerciseSet", Some(NatToString(s)), None))) &&
                db.sets == old(db.sets)
      ensures findFault.None? && s !in old(db.sets) ==>
                r == Err(Raised(NotFound("Exercise set " + NatToString(s) + " not found"))) && db.sets == old(db.sets)
      ensures findFault.None? && s in old(db.sets) && deleteFault.Some? ==>
                r == Err(Raised(HandleError(deleteFault.value, Delete, "exerciseSet", Some(NatToString(s)), None))) &&
                db.sets == old(db.sets)
      ensures findFault.None? && s in old(db.sets) && deleteFault.None? ==>
                && r == Ok(Success("Exercise set deleted", SetData(s, old(db.sets)[s].exerciseId)))
                && db.sets == old(db.sets) - {s}
      ensures old(db.Valid()) ==> db.Valid()
    {
      if findFault.Some? {
        return Err(Raised(HandleError(findFault.value, Delete, "exerciseSet", Some(NatToString(s)), None)));
      }
      var missing := CheckSetExists(db.State(), s);
      if missing.Some? {
        return Err(Raised(HandleError(Raised(missing.value), Delete, "exerciseSet", Some(NatToString(s)), None)));
      }
      if deleteFault.Some? {
        return Err(Raised(HandleError(deleteFault.value, Delete, "exerciseSet", Some(NatToString(s)), None)));
      }
      var exerciseId := db.sets[s].exerciseId;
      db.sets := db.sets - {s};
      return Ok(Success("Exercise set deleted", SetData(s, exerciseId)));
    }

    /** `deleteExercise`: after the existence check, one transaction
        deletes the exercise's sets batch by batch and then the exercise;
        a failed transaction changes nothing. Every failure, the unknown
        exercise's NotFound included, goes through the handler. A batch
        size that is not a whole number fails the first purge call and so
        the transaction. A negative size purges only part of the sets in
        its one round; the rest go with the exercise, whose deletion the
        schema is taken to cascade to its sets. */
    method DeleteExercise(e: Id, findFault: Option<Failure>, transactionFault: Option<Failure>) returns (r: Result<Response>)
      requires batchSize != Count(0)
      modifies db
      ensures db.nextId == old(db.nextId) && db.workouts == old(db.workouts)
      ensures findFault.Some? ==>
                r == Err(Raised(HandleError(findFault.value, Delete, "exercise", Some(NatToString(e)), None))) &&
                db.State() == old(db.State())
      ensures findFault.None? && e !in old(db.exercises) ==>
                r == Err(Raised(NotFound("Exercise " + NatToString(e) + " not found"))) && db.State() == old(db.State())
      ensures findFault.None? && e in old(db.exercises) && transactionFault.Some? ==>
                r == Err(Raised(HandleError(transactionFault.value, Delete, "exercise", Some(NatToString(e)), None))) &&
                db.State() == old(db.State())
      ensures findFault.None? && e in old(db.exercises) && transactionFault.None? && batchSize.NotAnInteger? ==>
                r == Err(Raised(HandleError(TakeRefused, Delete, "exercise", Some(NatToString(e)), None))) &&
                db.State() == old(db.State())
      ensures findFault.None? && e in old(db.exercises) && transactionFault.None? && batchSize.Count? ==>
                && r == Ok(Success("Exercise and all associated sets deleted", IdData(e)))
                && db.exercises == old(db.exercises) - {e}
                && db.sets == WithoutSetsOf(old(db.sets), e)
      ensures old(db.Valid()) ==> db.Valid()
    {
      if findFault.Some? {
        return Err(Raised(HandleError(findFault.value, Delete, "exercise", Some(NatToString(e)), None)));
      }
      var missing := CheckExerciseExists(db.State(), e);
      if missing.Some? {
        return Err(Raised(HandleError(Raised(missing.value), Delete, "exercise", Some(NatToString(e)), None)));
      }
      if transactionFault.Some? {
        return Err(Raised(HandleError(transactionFault.value, Delete, "exercise", Some(NatToString(e)), None)));
      }
      var _, refused := BatchDeleteSets(db, e, batchSize);
      if refused.Some? {
        return Err(Raised(HandleError(refused.value, Delete, "exercise", Some(NatToString(e)), None)));
      }
      db.exercises := db.exercises - {e};
      db.sets := WithoutSetsOf(db.sets, e);
      return Ok(Success("Exercise and all associated sets deleted", IdData(e)));
    }
  }
}
