/** The three tables behind the workout timer (workouts, exercises, sets),
    the state changes the timer toggles make to them, and the events of a
    sequence run together with their effect on the tables. */
module WorkoutDb {
  import opened Common

  datatype WorkoutRow = WorkoutRow(title: string, description: Option<string>, isPublic: bool, timerActive: bool)

  datatype ExerciseRow = ExerciseRow(workoutId: Id, name: string, kind: string, createdAt: nat, timerActive: bool)

  /** A stored set duration: a number of seconds, a text such as "1:30", or
      nothing (the column is optional). */
  datatype Duration = Seconds(n: int) | Text(s: string) | NoDuration

  /** Weight and distance are floating point columns, carried unchanged. */
  datatype SetRow = SetRow(exerciseId: Id, setNumber: int, weight: Option<real>, reps: Option<int>,
                           distanceKm: Option<real>, duration: Duration, transitionTime: Option<int>,
                           timerActive: bool)

  datatype Db = Db(workouts: map<Id, WorkoutRow>, exercises: map<Id, ExerciseRow>, sets: map<Id, SetRow>)

  /** The argument handed to the delay helper: a number of seconds, NaN, or
      the absent duration passed through unchanged. */
  datatype Delay = Num(seconds: int) | NaN | Nullish

  /** One step of a sequence run: a timer switched on or off, or a wait,
      for a set's own duration or for the rest after it. A wait carries the
      field its length is computed from. */
  datatype Event =
    | WorkoutOn(workout: Id)
    | WorkoutOff(workout: Id)
    | ExerciseOn(exercise: Id)
    | ExerciseOff(exercise: Id)
    | SetOn(exercise: Id, setId: Id)
    | SetOff(exercise: Id, setId: Id)
    | WaitSet(duration: Duration)
    | WaitRest(transitionTime: Option<int>)

  predicate IsToggle(ev: Event) {
    !ev.WaitSet? && !ev.WaitRest?
  }

  function ExercisesOf(db: Db, w: Id): set<Id> {
    set e | e in db.exercises && db.exercises[e].workoutId == w
  }

  function SetsOf(db: Db, e: Id): set<Id> {
    set s | s in db.sets && db.sets[s].exerciseId == e
  }

  /** The set belongs to an exercise of workout `w`. */
  predicate SetUnder(db: Db, s: Id, w: Id)
    requires s in db.sets
  {
    db.sets[s].exerciseId in db.exercises && db.exercises[db.sets[s].exerciseId].workoutId == w
  }

  /** No timer is running anywhere in the tree of workout `w`. */
  predicate SubtreeInactive(db: Db, w: Id) {
    && (w in db.workouts ==> !db.workouts[w].timerActive)
    && (forall e :: e in db.exercises && db.exercises[e].workoutId == w ==> !db.exercises[e].timerActive)
    && (forall s :: s in db.sets && SetUnder(db, s, w) ==> !db.sets[s].timerActive)
  }

  /** No set of exercise `e` has a running timer. */
  predicate SetsInactive(db: Db, e: Id) {
    forall s :: s in db.sets && db.sets[s].exerciseId == e ==> !db.sets[s].timerActive
  }

  /** The cascade invariant at the top of one tree: a stopped workout has no
      running exercise or set below it. */
  predicate WorkoutCascade(db: Db, w: Id) {
    w in db.workouts && !db.workouts[w].timerActive ==> SubtreeInactive(db, w)
  }

  /** `b` differs from `a` at most in `timer_active` flags. */
  predicate SameExceptFlags(a: Db, b: Db) {
    && a.workouts.Keys == b.workouts.Keys
    && a.exercises.Keys == b.exercises.Keys
    && a.sets.Keys == b.sets.Keys
    && (forall w :: w in a.workouts ==> b.workouts[w] == a.workouts[w].(timerActive := b.workouts[w].timerActive))
    && (forall e :: e in a.exercises ==> b.exercises[e] == a.exercises[e].(timerActive := b.exercises[e].timerActive))
    && (forall s :: s in a.sets ==> b.sets[s] == a.sets[s].(timerActive := b.sets[s].timerActive))
  }

  // ---------------------------------------------------------------------
  // The table updates made by the three toggles

  function SetWorkoutFlag(db: Db, w: Id, active: bool): (r: Db)
    requires w in db.workouts
    ensures r.exercises == db.exercises && r.sets == db.sets
    ensures r.workouts.Keys == db.workouts.Keys && r.workouts[w].timerActive == active
    ensures forall x :: x in db.workouts && x != w ==> r.workouts[x] == db.workouts[x]
  {
    db.(workouts := db.workouts[w := db.workouts[w].(timerActive := active)])
  }

  function SetExerciseFlag(db: Db, e: Id, active: bool): (r: Db)
    requires e in db.exercises
    ensures r.workouts == db.workouts && r.sets == db.sets
    ensures r.exercises.Keys == db.exercises.Keys && r.exercises[e].timerActive == active
    ensures forall x :: x in db.exercises && x != e ==> r.exercises[x] == db.exercises[x]
  {
    db.(exercises := db.exercises[e := db.exercises[e].(timerActive := active)])
  }

  function SetSetFlag(db: Db, s: Id, active: bool): (r: Db)
    requires s in db.sets
    ensures r.workouts == db.workouts && r.exercises == db.exercises
    ensures r.sets.Keys == db.sets.Keys && r.sets[s].timerActive == active
    ensures forall x :: x in db.sets && x != s ==> r.sets[x] == db.sets[x]
  {
    db.(sets := db.sets[s := db.sets[s].(timerActive := active)])
  }

  /** `exercise.updateMany({where: {workout_id: w}, data: {timer_active: false}})`. */
  function DeactivateExercisesOf(db: Db, w: Id): (r: Db)
    ensures r.workouts == db.workouts && r.sets == db.sets && r.exercises.Keys == db.exercises.Keys
    ensures forall e :: e in db.exercises ==>
              r.exercises[e] == if db.exercises[e].workoutId == w then db.exercises[e].(timerActive := false)
                                else db.exercises[e]
  {
    db.(exercises := map e | e in db.exercises ::
                       if db.exercises[e].workoutId == w then db.exercises[e].(timerActive := false)
                       else db.exercises[e])
  }

  /** `exerciseSet.updateMany({where: {exercise_id: {in: ids}}, data: {timer_active: false}})`. */
  function DeactivateSetsIn(db: Db, ids: set<Id>): (r: Db)
    ensures r.workouts == db.workouts && r.exercises == db.exercises && r.sets.Keys == db.sets.Keys
    ensures forall s :: s in db.sets ==>
              r.sets[s] == if db.sets[s].exerciseId in ids then db.sets[s].(timerActive := false)
                           else db.sets[s]
  {
    db.(sets := map s | s in db.sets ::
                  if db.sets[s].exerciseId in ids then db.sets[s].(timerActive := false)
                  else db.sets[s])
  }

  /** `toggleWorkoutTimer(w, false)`: the workout row, then both cascades of
      `deactivateAllTimers`, over the exercises the workout update returned. */
  function DeactivateWorkout(db: Db, w: Id): (r: Db)
    requires w in db.workouts
  {
    var stopped := SetWorkoutFlag(db, w, false);
    DeactivateSetsIn(DeactivateExercisesOf(stopped, w), ExercisesOf(stopped, w))
  }

  /** `toggleExerciseTimer(w, e, false)`: the exercise row, then its sets. */
  function DeactivateExercise(db: Db, e: Id): (r: Db)
    requires e in db.exercises
  {
    DeactivateSetsIn(SetExerciseFlag(db, e, false), {e})
  }

  /** The effect of one event on the tables. Waits change nothing. */
  function Apply(db: Db, ev: Event): (r: Db)
    ensures r.workouts.Keys == db.workouts.Keys && r.exercises.Keys == db.exercises.Keys && r.sets.Keys == db.sets.Keys
    ensures !IsToggle(ev) ==> r == db
    ensures (ev.WorkoutOn? || ev.WorkoutOff?) && ev.workout in db.workouts ==> r.workouts[ev.workout].timerActive == ev.WorkoutOn?
    ensures (ev.ExerciseOn? || ev.ExerciseOff?) && ev.exercise in db.exercises ==>
              r.exercises[ev.exercise].timerActive == ev.ExerciseOn?
    ensures (ev.SetOn? || ev.SetOff?) && ev.setId in db.sets ==> r.sets[ev.setId].timerActive == ev.SetOn?
  {
    match ev
    case WorkoutOn(w) => if w in db.workouts then SetWorkoutFlag(db, w, true) else db
    case WorkoutOff(w) => if w in db.workouts then DeactivateWorkout(db, w) else db
    case ExerciseOn(e) => if e in db.exercises then SetExerciseFlag(db, e, true) else db
    case ExerciseOff(e) => if e in db.exercises then DeactivateExercise(db, e) else db
    case SetOn(_, s) => if s in db.sets then SetSetFlag(db, s, true) else db
    case SetOff(_, s) => if s in db.sets then SetSetFlag(db, s, false) else db
    case WaitSet(_) => db
    case WaitRest(_) => db
  }

  /** The tables after a whole run of events, applied in order. */
  function Replay(db: Db, trace: seq<Event>): (r: Db)
    ensures r.workouts.Keys == db.workouts.Keys && r.exercises.Keys == db.exercises.Keys && r.sets.Keys == db.sets.Keys
  {
    if trace == [] then db else Apply(Replay(db, trace[..|trace| - 1]), trace[|trace| - 1])
  }

  // ---------------------------------------------------------------------
  // Properties of the toggles

  /** Deactivating a workout stops every timer in its tree, and touches no
      other tree. */
  lemma DeactivateWorkoutStopsTree(db: Db, w: Id)
    requires w in db.workouts
    ensures var r := DeactivateWorkout(db, w);
            && SubtreeInactive(r, w)
            && SameExceptFlags(db, r)
            && (forall x :: x in db.workouts && x != w ==> r.workouts[x] == db.workouts[x])
            && (forall e :: e in db.exercises && db.exercises[e].workoutId != w ==> r.exercises[e] == db.exercises[e])
            && (forall s :: s in db.sets && !SetUnder(db, s, w) ==> r.sets[s] == db.sets[s])
  {
    var r := DeactivateWorkout(db, w);
    forall s | s in r.sets && SetUnder(r, s, w)
      ensures !r.sets[s].timerActive
    {
      assert db.sets[s].exerciseId in ExercisesOf(SetWorkoutFlag(db, w, false), w);
    }
  }

  /** Stopping a workout twice leaves the same tables as stopping it once. */
  lemma DeactivateWorkoutIdempotent(db: Db, w: Id)
    requires w in db.workouts
    ensures DeactivateWorkout(DeactivateWorkout(db, w), w) == DeactivateWorkout(db, w)
  {
    var once := DeactivateWorkout(db, w);
    var twice := DeactivateWorkout(once, w);
    assert ExercisesOf(SetWorkoutFlag(once, w, false), w) == ExercisesOf(SetWorkoutFlag(db, w, false), w);
    assert twice.workouts == once.workouts;
    assert twice.exercises == once.exercises;
    assert twice.sets == once.sets;
  }

  /** The two updates that `deactivateAllTimers` runs side by side commute,
      so running them one after the other in either order is the same. */
  lemma DeactivationsCommute(db: Db, w: Id, ids: set<Id>)
    ensures DeactivateSetsIn(DeactivateExercisesOf(db, w), ids) == DeactivateExercisesOf(DeactivateSetsIn(db, ids), w)
  {
  }

  /** Stopping an exercise stops its sets and leaves every other set alone. */
  lemma DeactivateExerciseStopsSets(db: Db, e: Id)
    requires e in db.exercises
    ensures var r := DeactivateExercise(db, e);
            && !r.exercises[e].timerActive
            && SetsInactive(r, e)
            && SameExceptFlags(db, r)
            && r.workouts == db.workouts
            && (forall x :: x in db.exercises && x != e ==> r.exercises[x] == db.exercises[x])
            && (forall s :: s in db.sets && db.sets[s].exerciseId != e ==> r.sets[s] == db.sets[s])
  {
  }

  /** Switching a workout on changes its flag and nothing else. */
  lemma WorkoutOnTouchesOnlyWorkout(db: Db, w: Id)
    requires w in db.workouts
    ensures var r := Apply(db, WorkoutOn(w));
            && r.workouts[w].timerActive
            && SameExceptFlags(db, r)
            && r.exercises == db.exercises && r.sets == db.sets
            && (forall x :: x in db.workouts && x != w ==> r.workouts[x] == db.workouts[x])
  {
  }

  /** Switching an exercise on changes its flag and nothing else. */
  lemma ExerciseOnTouchesOnlyExercise(db: Db, e: Id)
    requires e in db.exercises
    ensures var r := Apply(db, ExerciseOn(e));
            && r.exercises[e].timerActive
            && SameExceptFlags(db, r)
            && r.workouts == db.workouts && r.sets == db.sets
            && (forall x :: x in db.exercises && x != e ==> r.exercises[x] == db.exercises[x])
  {
  }

  /** Switching a set on or off changes that set's flag and nothing else. */
  lemma SetToggleTouchesOnlySet(db: Db, e: Id, s: Id, active: bool)
    requires s in db.sets
    ensures var r := Apply(db, if active then SetOn(e, s) else SetOff(e, s));
            && r.sets[s].timerActive == active
            && SameExceptFlags(db, r)
            && r.workouts == db.workouts && r.exercises == db.exercises
            && (forall x :: x in db.sets && x != s ==> r.sets[x] == db.sets[x])
  {
  }

  // ---------------------------------------------------------------------
  // Properties of replaying events

  lemma ReplayAppend(db: Db, trace: seq<Event>, ev: Event)
    ensures Replay(db, trace + [ev]) == Apply(Replay(db, trace), ev)
  {
    assert (trace + [ev])[..|trace|] == trace;
  }

  lemma {:induction false} ReplayConcat(db: Db, a: seq<Event>, b: seq<Event>)
    ensures Replay(db, a + b) == Replay(Replay(db, a), b)
    decreases |b|
  {
    if b == [] {
      assert a + b == a;
    } else {
      var b' := b[..|b| - 1];
      assert a + b == (a + b') + [b[|b| - 1]];
      assert b == b' + [b[|b| - 1]];
      ReplayAppend(db, a + b', b[|b| - 1]);
      ReplayConcat(db, a, b');
      ReplayAppend(Replay(db, a), b', b[|b| - 1]);
    }
  }

  lemma ApplyKeepsShape(db: Db, ev: Event)
    ensures SameExceptFlags(db, Apply(db, ev))
  {
    match ev
    case WorkoutOff(w) =>
      if w in db.workouts {
        DeactivateWorkoutStopsTree(db, w);
      }
    case ExerciseOff(e) =>
      if e in db.exercises {
        DeactivateExerciseStopsSets(db, e);
      }
    case _ =>
  }

  lemma SameExceptFlagsTransitive(a: Db, b: Db, c: Db)
    requires SameExceptFlags(a, b) && SameExceptFlags(b, c)
    ensures SameExceptFlags(a, c)
  {
  }

  /** A run of events changes flags only: every row keeps its identity,
      parent and contents. */
  lemma {:induction false} ReplayKeepsShape(db: Db, trace: seq<Event>)
    ensures SameExceptFlags(db, Replay(db, trace))
  {
    if trace != [] {
      var prefix := trace[..|trace| - 1];
      ReplayKeepsShape(db, prefix);
      ApplyKeepsShape(Replay(db, prefix), trace[|trace| - 1]);
      SameExceptFlagsTransitive(db, Replay(db, prefix), Replay(db, trace));
    }
  }

  /** Which rows exist and which parent each exercise and set hangs under:
      the part of the tables that timer toggles never change. */
  datatype Layout = Layout(workouts: set<Id>, exerciseParent: map<Id, Id>, setParent: map<Id, Id>)

  function LayoutOf(db: Db): Layout {
    Layout(db.workouts.Keys,
           map e | e in db.exercises :: db.exercises[e].workoutId,
           map s | s in db.sets :: db.sets[s].exerciseId)
  }

  lemma SameLayout(a: Db, b: Db)
    requires SameExceptFlags(a, b)
    ensures LayoutOf(a) == LayoutOf(b)
  {
    assert LayoutOf(a).exerciseParent == LayoutOf(b).exerciseParent;
    assert LayoutOf(a).setParent == LayoutOf(b).setParent;
  }

  lemma ApplyKeepsLayout(db: Db, ev: Event)
    ensures LayoutOf(Apply(db, ev)) == LayoutOf(db)
  {
    ApplyKeepsShape(db, ev);
    SameLayout(db, Apply(db, ev));
  }

  lemma ReplayKeepsLayout(db: Db, trace: seq<Event>)
    ensures LayoutOf(Replay(db, trace)) == LayoutOf(db)
  {
    ReplayKeepsShape(db, trace);
    SameLayout(db, Replay(db, trace));
  }

  predicate TouchesWorkouts(ev: Event) {
    ev.WorkoutOn? || ev.WorkoutOff?
  }

  /** Events below the workout level never change the workouts table. */
  lemma {:induction false} ReplayKeepsWorkouts(db: Db, trace: seq<Event>)
    requires forall i :: 0 <= i < |trace| ==> !TouchesWorkouts(trace[i])
    ensures Replay(db, trace).workouts == db.workouts
  {
    if trace != [] {
      ReplayKeepsWorkouts(db, trace[..|trace| - 1]);
    }
  }

  // ---------------------------------------------------------------------
  // The stored state

  /** Every identifier in use is below `next`, the value of the counter
      they are drawn from, and every row refers to a parent that exists
      (the foreign keys). */
  predicate WellFormed(db: Db, next: Id) {
    && (forall w :: w in db.workouts ==> w < next)
    && (forall e :: e in db.exercises ==> e < next && db.exercises[e].workoutId in db.workouts)
    && (forall s :: s in db.sets ==> s < next && db.sets[s].exerciseId in db.exercises)
  }

  /** The database the services share: the three tables and the counter
      from which fresh identifiers and creation stamps are drawn. */
  class Database {
    var workouts: map<Id, WorkoutRow>
    var exercises: map<Id, ExerciseRow>
    var sets: map<Id, SetRow>
    var nextId: nat

    /** The tables are well formed under the counter's current value. */
    predicate Valid()
      reads this
    {
      WellFormed(State(), nextId)
    }

    function State(): Db
      reads this
    {
      Db(workouts, exercises, sets)
    }

    constructor ()
      ensures Valid() && State() == Db(map[], map[], map[])
    {
      workouts, exercises, sets, nextId := map[], map[], map[], 0;
    }
  }

  /** Changing flags keeps the tables well formed. */
  lemma FlagsKeepWellFormed(a: Db, b: Db, next: Id)
    requires SameExceptFlags(a, b) && WellFormed(a, next)
    ensures WellFormed(b, next)
  {
  }

  /** A run of toggles and waits keeps the tables well formed. */
  lemma ReplayKeepsWellFormed(db: Db, trace: seq<Event>, next: Id)
    requires WellFormed(db, next)
    ensures WellFormed(Replay(db, trace), next)
  {
    ReplayKeepsShape(db, trace);
    FlagsKeepWellFormed(db, Replay(db, trace), next);
  }
}
