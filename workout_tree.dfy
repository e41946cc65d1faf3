/** The rows `createWorkout` and `updateWorkout` write: a workout's
    exercises and their sets built from the request, as one nested create,
    and the removal of a workout's old exercises that `prepareUpdateData`
    asks for. Identifiers are drawn from the database counter in request
    order, so an exercise's creation stamp follows the request order too. */
module WorkoutTree {
  import opened Common
  import opened WorkoutDb
  import opened ExerciseUtils

  /** Which service fills the rows: `createWorkout` keeps each set's
      duration and switches every set off; `prepareUpdateData` drops the
      duration and keeps a set's `timer_active` when the request gives one. */
  datatype Mode = FromCreate | FromUpdate

  /** `flag ?? false`. */
  function OrFalse(flag: Option<bool>): bool {
    flag.Some? && flag.value
  }

  function StoredDuration(d: Option<string>): Duration {
    if d.Some? then Text(d.value) else NoDuration
  }

  /** The set row stored for one set of the request. */
  function NewSetRow(e: Id, x: SetInput, mode: Mode): SetRow {
    match mode
    case FromCreate => SetRow(e, x.setNumber, x.weight, x.reps, x.distanceKm, StoredDuration(x.duration), None, false)
    case FromUpdate => SetRow(e, x.setNumber, x.weight, x.reps, x.distanceKm, NoDuration, None, OrFalse(x.timerActive))
  }

  /** An exercise of the request whose set list could be read. */
  datatype NewExercise = NewExercise(name: string, kind: string, sets: seq<SetInput>)

  /** The exercises of the request with their set lists, or `None` when
      one of them has none: reading its sets throws a `TypeError`. */
  function WithSets(xs: seq<ExerciseInput>): (r: Option<seq<NewExercise>>)
    ensures r.Some? <==> forall i :: 0 <= i < |xs| ==> xs[i].sets.Some?
    ensures r.Some? ==> && |r.value| == |xs|
                        && forall i :: 0 <= i < |xs| ==> r.value[i] == NewExercise(xs[i].name, xs[i].kind, xs[i].sets.value)
  {
    if xs == [] then Some([])
    else if xs[0].sets.None? then None
    else match WithSets(xs[1..])
         case None => None
         case Some(rest) => Some([NewExercise(xs[0].name, xs[0].kind, xs[0].sets.value)] + rest)
  }

  /** How many identifiers the rows of `xs` take: one per exercise and one
      per set. */
  function TreeSize(xs: seq<NewExercise>): nat
  {
    if xs == [] then 0 else 1 + |xs[0].sets| + TreeSize(xs[1..])
  }

  /** The identifier of exercise `i` of the request: each exercise takes
      the next identifier, and its sets the ones right after it. */
  function ExerciseIdAt(xs: seq<NewExercise>, next: Id, i: nat): Id
    requires i < |xs|
  {
    if i == 0 then next else ExerciseIdAt(xs[1..], next + 1 + |xs[0].sets|, i - 1)
  }

  /** The row stored for set `s`, counted from just after its exercise `e`. */
  function BlockRow(e: Id, xs: seq<SetInput>, mode: Mode, s: Id): SetRow
    requires e < s <= e + |xs|
  {
    NewSetRow(e, xs[s - e - 1], mode)
  }

  /** The set rows of one exercise `e` of the request, on the identifiers
      right after `e`. */
  function SetBlock(e: Id, xs: seq<SetInput>, mode: Mode): map<Id, SetRow>
  {
    map s: Id | e < s <= e + |xs| :: BlockRow(e, xs, mode, s)
  }

  /** The exercise rows a nested create of `xs` adds below workout `w`:
      fresh, in the workout, switched off. */
  function NewExercises(w: Id, xs: seq<NewExercise>, next: Id): (added: map<Id, ExerciseRow>)
    ensures forall e :: e in added ==>
              next <= e < next + TreeSize(xs) && added[e].workoutId == w && !added[e].timerActive
    decreases |xs|
  {
    if xs == [] then map[]
    else
      var rest := NewExercises(w, xs[1..], next + 1 + |xs[0].sets|);
      rest[next := ExerciseRow(w, xs[0].name, xs[0].kind, next, false)]
  }

  /** The set rows a nested create of `xs` adds: fresh, and from
      `createWorkout` switched off. */
  function NewSets(xs: seq<NewExercise>, next: Id, mode: Mode): (added: map<Id, SetRow>)
    ensures forall s :: s in added ==> next < s < next + TreeSize(xs)
    ensures mode == FromCreate ==> forall s :: s in added ==> !added[s].timerActive
    decreases |xs|
  {
    if xs == [] then map[]
    else NewSets(xs[1..], next + 1 + |xs[0].sets|, mode) + SetBlock(next, xs[0].sets, mode)
  }

  /** Every added set belongs to an added exercise. */
  lemma {:induction false} NewSetsUnderNewExercises(w: Id, xs: seq<NewExercise>, next: Id, mode: Mode)
    ensures forall s :: s in NewSets(xs, next, mode) ==> NewSets(xs, next, mode)[s].exerciseId in NewExercises(w, xs, next)
    decreases |xs|
  {
    if xs != [] {
      NewSetsUnderNewExercises(w, xs[1..], next + 1 + |xs[0].sets|, mode);
    }
  }

  /** The nested create of the exercises `xs` below workout `w`, with
      fresh identifiers from `next` on. */
  function InsertTree(db: Db, w: Id, xs: seq<NewExercise>, next: Id, mode: Mode): Db
  {
    db.(exercises := db.exercises + NewExercises(w, xs, next), sets := db.sets + NewSets(xs, next, mode))
  }

  /** No exercise or set identifier in use reaches `next`. */
  predicate FreshFrom(db: Db, next: Id) {
    && (forall e :: e in db.exercises ==> e < next)
    && (forall s :: s in db.sets ==> s < next)
  }

  /** A nested create keeps every row it found, and every row it adds has
      a fresh identifier below `next + TreeSize(xs)`: the exercises belong
      to `w` and are switched off, the sets belong to the new exercises and,
      from `createWorkout`, are switched off too. */
  lemma InsertTreeFrame(db: Db, w: Id, xs: seq<NewExercise>, next: Id, mode: Mode)
    requires FreshFrom(db, next)
    ensures var r := InsertTree(db, w, xs, next, mode);
            && r.workouts == db.workouts
            && (forall e :: e in db.exercises ==> e in r.exercises && r.exercises[e] == db.exercises[e])
            && (forall s :: s in db.sets ==> s in r.sets && r.sets[s] == db.sets[s])
            && (forall e :: e in r.exercises && e !in db.exercises ==>
                  && next <= e < next + TreeSize(xs)
                  && r.exercises[e].workoutId == w && !r.exercises[e].timerActive)
            && (forall s :: s in r.sets && s !in db.sets ==>
                  && next <= s < next + TreeSize(xs)
                  && r.sets[s].exerciseId in r.exercises && r.sets[s].exerciseId !in db.exercises
                  && (mode == FromCreate ==> !r.sets[s].timerActive))
  {
    NewSetsUnderNewExercises(w, xs, next, mode);
  }

  /** A nested create stores exercise `i` of the request under its
      identifier, with its name and type, in workout `w`, switched off. */
  lemma {:induction false} NewExerciseAt(w: Id, xs: seq<NewExercise>, next: Id, i: nat)
    requires i < |xs|
    ensures var e := ExerciseIdAt(xs, next, i);
            e in NewExercises(w, xs, next) && NewExercises(w, xs, next)[e] == ExerciseRow(w, xs[i].name, xs[i].kind, e, false)
    decreases |xs|
  {
    if i > 0 {
      var after := next + 1 + |xs[0].sets|;
      NewExerciseAt(w, xs[1..], after, i - 1);
      assert xs[1..][i - 1] == xs[i];
      ExerciseIdBelow(xs[1..], after, i - 1);
    }
  }

  /** A nested create stores set `j` of exercise `i` right after the
      exercise, as `NewSetRow` builds it. */
  lemma {:induction false} NewSetAt(xs: seq<NewExercise>, next: Id, mode: Mode, i: nat, j: nat)
    requires i < |xs| && j < |xs[i].sets|
    ensures var e := ExerciseIdAt(xs, next, i);
            e + 1 + j in NewSets(xs, next, mode) && NewSets(xs, next, mode)[e + 1 + j] == NewSetRow(e, xs[i].sets[j], mode)
    decreases |xs|
  {
    var block := SetBlock(next, xs[0].sets, mode);
    var after := next + 1 + |xs[0].sets|;
    if i == 0 {
      assert next + 1 + j in block && block[next + 1 + j] == BlockRow(next, xs[0].sets, mode, next + 1 + j);
    } else {
      var e := ExerciseIdAt(xs[1..], after, i - 1);
      assert ExerciseIdAt(xs, next, i) == e;
      assert xs[1..][i - 1] == xs[i];
      NewSetAt(xs[1..], after, mode, i - 1, j);
      ExerciseIdBelow(xs[1..], after, i - 1);
      var rest := NewSets(xs[1..], after, mode);
      UnionLookup(rest, block, e + 1 + j);
      assert NewSets(xs, next, mode) == rest + block;
      assert xs[i].sets[j] == xs[1..][i - 1].sets[j];
    }
  }

  /** The first set of exercise `i` comes right after the exercise. */
  lemma FirstSetAt(xs: seq<NewExercise>, next: Id, mode: Mode, i: nat)
    requires i < |xs| && |xs[i].sets| > 0
    ensures ExerciseIdAt(xs, next, i) + 1 in NewSets(xs, next, mode)
    ensures NewSets(xs, next, mode)[ExerciseIdAt(xs, next, i) + 1].exerciseId == ExerciseIdAt(xs, next, i)
  {
    NewSetAt(xs, next, mode, i, 0);
  }

  lemma UnionLookup(m: map<Id, SetRow>, n: map<Id, SetRow>, k: Id)
    requires k in m && k !in n
    ensures k in m + n && (m + n)[k] == m[k]
  {
  }

  lemma UnionLookupRight<V>(m: map<Id, V>, n: map<Id, V>, k: Id)
    requires k in n
    ensures k in m + n && (m + n)[k] == n[k]
  {
  }

  /** Later exercises of the request get larger identifiers, so their
      creation stamps keep the request order. */
  lemma {:induction false} ExerciseIdsIncrease(xs: seq<NewExercise>, next: Id, i: nat, j: nat)
    requires i < j < |xs|
    ensures next <= ExerciseIdAt(xs, next, i) < ExerciseIdAt(xs, next, j) < next + TreeSize(xs)
    decreases |xs|
  {
    var after := next + 1 + |xs[0].sets|;
    if i == 0 {
      ExerciseIdBelow(xs[1..], after, j - 1);
    } else {
      ExerciseIdsIncrease(xs[1..], after, i - 1, j - 1);
    }
  }

  lemma {:induction false} ExerciseIdBelow(xs: seq<NewExercise>, next: Id, i: nat)
    requires i < |xs|
    ensures next <= ExerciseIdAt(xs, next, i) && ExerciseIdAt(xs, next, i) + |xs[i].sets| < next + TreeSize(xs)
    decreases |xs|
  {
    if i > 0 {
      ExerciseIdBelow(xs[1..], next + 1 + |xs[0].sets|, i - 1);
      assert xs[1..][i - 1] == xs[i];
    }
  }

  // ---------------------------------------------------------------------
  // createWorkout

  /** The tables after `createWorkout` stores workout `w`, public and
      switched off, with the exercises `xs` on the identifiers after it. */
  function Created(db: Db, w: Id, title: string, description: Option<string>, xs: seq<NewExercise>): (r: Db)
    ensures r.workouts == db.workouts[w := WorkoutRow(title, description, true, false)]
  {
    InsertTree(db.(workouts := db.workouts[w := WorkoutRow(title, description, true, false)]), w, xs, w + 1, FromCreate)
  }

  /** A created workout is public and no timer of its tree runs, the
      tables stay well formed under the advanced counter, and the exercises
      of the new workout are exactly the new ones. */
  lemma CreatedTreeStopped(db: Db, w: Id, title: string, description: Option<string>, xs: seq<NewExercise>)
    requires WellFormed(db, w)
    ensures var r := Created(db, w, title, description, xs);
            && WellFormed(r, w + 1 + TreeSize(xs))
            && w !in db.workouts && w in r.workouts && r.workouts[w] == WorkoutRow(title, description, true, false)
            && SubtreeInactive(r, w)
            && (forall e :: e in ExercisesOf(r, w) ==> e !in db.exercises)
  {
    var base := db.(workouts := db.workouts[w := WorkoutRow(title, description, true, false)]);
    assert Created(db, w, title, description, xs) == InsertTree(base, w, xs, w + 1, FromCreate);
    InsertTreeFrame(base, w, xs, w + 1, FromCreate);
  }

  /** A create keeps every row that was there. */
  lemma CreatedKeepsRows(db: Db, w: Id, title: string, description: Option<string>, xs: seq<NewExercise>)
    requires WellFormed(db, w)
    ensures var r := Created(db, w, title, description, xs);
            && (forall v :: v in db.workouts ==> v in r.workouts && r.workouts[v] == db.workouts[v])
            && (forall e :: e in db.exercises ==> e in r.exercises && r.exercises[e] == db.exercises[e])
            && (forall s :: s in db.sets ==> s in r.sets && r.sets[s] == db.sets[s])
  {
    var base := db.(workouts := db.workouts[w := WorkoutRow(title, description, true, false)]);
    InsertTreeFrame(base, w, xs, w + 1, FromCreate);
  }

  // ---------------------------------------------------------------------
  // updateWorkout and prepareUpdateData

  /** `title: dto.title, description: dto.description`: a field the
      request leaves out keeps its stored value. */
  function Merged(row: WorkoutRow, title: Option<string>, description: Option<string>): WorkoutRow
  {
    row.(title := if title.Some? then title.value else row.title,
         description := if description.Some? then description else row.description)
  }

  /** `exercises: { deleteMany: {} }` on workout `w`: its exercises go,
      and with them their sets. */
  function WithoutExercisesOf(db: Db, w: Id): (r: Db)
    ensures r.workouts == db.workouts && ExercisesOf(r, w) == {}
    ensures forall e :: e in db.exercises && db.exercises[e].workoutId != w ==> e in r.exercises && r.exercises[e] == db.exercises[e]
    ensures forall s :: s in db.sets && !SetUnder(db, s, w) ==> s in r.sets && r.sets[s] == db.sets[s]
    ensures forall s :: s in r.sets ==> s in db.sets && !SetUnder(db, s, w)
  {
    var gone := ExercisesOf(db, w);
    db.(exercises := map e | e in db.exercises && e !in gone :: db.exercises[e],
        sets := map s | s in db.sets && db.sets[s].exerciseId !in gone :: db.sets[s])
  }

  /** The tables after the update of workout `w`: the merged row, and its
      exercises replaced by `xs` on fresh identifiers from `next`. */
  function Replaced(db: Db, w: Id, title: Option<string>, description: Option<string>, xs: seq<NewExercise>, next: Id): (r: Db)
    requires w in db.workouts
    ensures r.workouts == db.workouts[w := Merged(db.workouts[w], title, description)]
    ensures xs == [] ==> ExercisesOf(r, w) == {}
  {
    var merged := db.(workouts := db.workouts[w := Merged(db.workouts[w], title, description)]);
    InsertTree(WithoutExercisesOf(merged, w), w, xs, next, FromUpdate)
  }

  /** An update replaces the whole tree of the workout: every exercise and
      set it has afterwards is new, the other workouts keep their rows, and
      an update whose list is empty leaves the workout with no exercise. */
  lemma ReplacedTree(db: Db, w: Id, title: Option<string>, description: Option<string>, xs: seq<NewExercise>, next: Id)
    requires WellFormed(db, next) && w in db.workouts
    ensures var r := Replaced(db, w, title, description, xs, next);
            && WellFormed(r, next + TreeSize(xs))
            && r.workouts == db.workouts[w := Merged(db.workouts[w], title, description)]
            && (forall e :: e in ExercisesOf(r, w) ==> e !in db.exercises)
            && (forall s :: s in r.sets && SetUnder(r, s, w) ==> s !in db.sets)
            && (forall e :: e in db.exercises && db.exercises[e].workoutId != w ==>
                  e in r.exercises && r.exercises[e] == db.exercises[e])
            && (forall s :: s in db.sets && !SetUnder(db, s, w) ==> s in r.sets && r.sets[s] == db.sets[s])
            && (xs == [] ==> ExercisesOf(r, w) == {})
  {
    var merged := db.(workouts := db.workouts[w := Merged(db.workouts[w], title, description)]);
    var base := WithoutExercisesOf(merged, w);
    InsertTreeFrame(base, w, xs, next, FromUpdate);
  }

  /** `dto.exercise?.map(...) ?? []`: no list replaces the exercises by
      none; a list with an exercise whose sets cannot be read throws. */
  function UpdateList(exercises: Option<seq<ExerciseInput>>): (r: Option<seq<NewExercise>>)
    ensures exercises.None? ==> r == Some([])
    ensures exercises.Some? ==> r == WithSets(exercises.value)
  {
    if exercises.None? then Some([]) else WithSets(exercises.value)
  }

  /** A nested create stores exercise `i` of the request in workout `w`,
      and its first set under it, whatever tables it starts from. */
  lemma {:induction false} InsertTreeStoresExercise(base: Db, w: Id, xs: seq<NewExercise>, next: Id, mode: Mode, i: nat)
    requires i < |xs| && |xs[i].sets| > 0
    ensures var r := InsertTree(base, w, xs, next, mode);
            var e := ExerciseIdAt(xs, next, i);
            e in ExercisesOf(r, w) && e + 1 in SetsOf(r, e)
  {
    var r := InsertTree(base, w, xs, next, mode);
    var e := ExerciseIdAt(xs, next, i);
    var added := NewExercises(w, xs, next);
    var addedSets := NewSets(xs, next, mode);
    NewExerciseAt(w, xs, next, i);
    FirstSetAt(xs, next, mode, i);
    UnionLookupRight(base.exercises, added, e);
    UnionLookupRight(base.sets, addedSets, e + 1);
  }

  /** The update stores exercise `i` of the list in workout `w`, and its
      first set under it. */
  lemma ReplacedStoresExercise(db: Db, w: Id, title: Option<string>, description: Option<string>,
                               xs: seq<NewExercise>, next: Id, i: nat)
    requires w in db.workouts && i < |xs| && |xs[i].sets| > 0
    ensures var r := Replaced(db, w, title, description, xs, next);
            var e := ExerciseIdAt(xs, next, i);
            e in ExercisesOf(r, w) && e + 1 in SetsOf(r, e)
  {
    var merged := db.(workouts := db.workouts[w := Merged(db.workouts[w], title, description)]);
    InsertTreeStoresExercise(WithoutExercisesOf(merged, w), w, xs, next, FromUpdate, i);
  }

  /** When the request passed `validateUpdateInput`, its list can be read,
      and the update stores every exercise of it in the workout with at
      least its first set. */
  lemma ValidatedUpdateKeepsExercises(db: Db, w: Id, title: Option<string>, description: Option<string>,
                                      exercises: Option<seq<ExerciseInput>>, next: Id)
    requires w in db.workouts && ValidateUpdateInput(exercises).None?
    ensures UpdateList(exercises).Some?
    ensures var xs := UpdateList(exercises).value;
            var r := Replaced(db, w, title, description, xs, next);
            && |xs| == |exercises.value| > 0
            && forall i :: 0 <= i < |xs| ==>
                 var e := ExerciseIdAt(xs, next, i);
                 e in ExercisesOf(r, w) && e + 1 in SetsOf(r, e)
  {
    var xs := UpdateList(exercises).value;
    forall i | 0 <= i < |xs|
      ensures var e := ExerciseIdAt(xs, next, i);
              e in ExercisesOf(Replaced(db, w, title, description, xs, next), w) &&
              e + 1 in SetsOf(Replaced(db, w, title, description, xs, next), e)
    {
      assert !LacksSets(exercises.value[i]);
      ReplacedStoresExercise(db, w, title, description, xs, next, i);
    }
  }
}
