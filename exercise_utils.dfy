/** The helpers of the workout service: request validation, duration
    parsing, the timer response, the scoped existence checks, the batch
    purge of an exercise's sets and the ordered load of a workout. */
module ExerciseUtils {
  import opened Common
  import opened WorkoutDb

  // ---------------------------------------------------------------------
  // Request shapes (only the fields the service reads)

  datatype SetInput = SetInput(setNumber: int, weight: Option<real>, reps: Option<int>, distanceKm: Option<real>,
                               duration: Option<string>, timerActive: Option<bool>)

  /** `sets` is optional: the validator has to cope with it being absent. */
  datatype ExerciseInput = ExerciseInput(name: string, kind: string, sets: Option<seq<SetInput>>)

  /** An exercise whose set list is missing or empty. */
  predicate LacksSets(x: ExerciseInput) {
    x.sets.None? || |x.sets.value| == 0
  }

  /** `validateUpdateInput`: the exercise list must be present and
      non-empty, and every exercise must have at least one set. `None`
      means the check passed. */
  function ValidateUpdateInput(exercises: Option<seq<ExerciseInput>>): (r: Option<Exception>)
    ensures r.None? <==> exercises.Some? && |exercises.value| > 0 &&
                         forall i :: 0 <= i < |exercises.value| ==> !LacksSets(exercises.value[i])
    ensures r.Some? ==> r.value.BadRequest?
  {
    if exercises.None? || |exercises.value| == 0 then
      Some(BadRequest("At least one exercise is required"))
    else if exists i :: 0 <= i < |exercises.value| && LacksSets(exercises.value[i]) then
      Some(BadRequest("Each exercise must have at least one set"))
    else
      None
  }

  // ---------------------------------------------------------------------
  // parseDuration

  /** The characters `parseInt` skips before a number: the white space and
      line terminators of ECMAScript. */
  predicate IsJsWhitespace(c: char) {
    || c == ' ' || c == '\t' || c == '\n' || c == '\r' || c == '\U{B}' || c == '\U{C}'
    || c == '\U{A0}' || c == '\U{1680}' || ('\U{2000}' <= c <= '\U{200A}')
    || c == '\U{2028}' || c == '\U{2029}' || c == '\U{202F}' || c == '\U{205F}'
    || c == '\U{3000}' || c == '\U{FEFF}'
  }

  function TrimStart(s: string): (r: string)
    ensures |r| <= |s| && r == s[|s| - |r|..]
    ensures r == [] || !IsJsWhitespace(r[0])
  {
    if s != [] && IsJsWhitespace(s[0]) then TrimStart(s[1..]) else s
  }

  /** The longest run of decimal digits at the start of `s`. */
  function LeadingDigits(s: string): (d: string)
    ensures |d| <= |s| && d == s[..|d|]
    ensures forall i :: 0 <= i < |d| ==> IsDigit(d[i])
    ensures |d| < |s| ==> !IsDigit(s[|d|])
  {
    if s != [] && IsDigit(s[0]) then [s[0]] + LeadingDigits(s[1..]) else []
  }

  /** `parseInt(s, 10)`: leading white space, an optional sign, then the
      longest digit prefix. NaN exactly when no digit follows the white
      space and the sign; a negative value only after a '-'. */
  function ParseInt(s: string): (r: Delay)
    ensures !r.Nullish?
    ensures var t := TrimStart(s);
            var u := if t != [] && (t[0] == '-' || t[0] == '+') then t[1..] else t;
            r.NaN? <==> u == [] || !IsDigit(u[0])
    ensures r.Num? && r.seconds < 0 ==> TrimStart(s) != [] && TrimStart(s)[0] == '-'
  {
    var t := TrimStart(s);
    if t != [] && t[0] == '-' then Negated(ParseDigits(t[1..]))
    else if t != [] && t[0] == '+' then ParseDigits(t[1..])
    else ParseDigits(t)
  }

  /** The value of the leading digits of `u`; NaN when there are none. */
  function ParseDigits(u: string): (r: Delay)
    ensures r.NaN? <==> u == [] || !IsDigit(u[0])
    ensures r.Num? ==> r.seconds >= 0
  {
    var digits := LeadingDigits(u);
    if digits == [] then NaN else Num(DigitsValue(digits))
  }

  function Negated(d: Delay): Delay {
    if d.Num? then Num(0 - d.seconds) else d
  }

  /** `parseDuration`: numbers unchanged, text through `parseInt`, and an
      absent duration handed on as it is. */
  function ParseDuration(d: Duration): (r: Delay)
    ensures r.Nullish? <==> d.NoDuration?
    ensures d.Seconds? ==> r == Num(d.n)
    ensures d.Text? ==> r == ParseInt(d.s)
  {
    match d
    case Seconds(n) => Num(n)
    case Text(s) => ParseInt(s)
    case NoDuration => Nullish
  }

  lemma {:induction false} LeadingDigitsOfDigits(ds: string, rest: string)
    requires forall i :: 0 <= i < |ds| ==> IsDigit(ds[i])
    requires rest == [] || !IsDigit(rest[0])
    ensures LeadingDigits(ds + rest) == ds
  {
    if ds != [] {
      assert (ds + rest)[1..] == ds[1..] + rest;
      LeadingDigitsOfDigits(ds[1..], rest);
    } else {
      assert ds + rest == rest;
    }
  }

  /** A duration written as a whole number of seconds, possibly followed by
      a non-digit such as ":30", parses to that number: "5" waits 5 seconds
      like the number 5 does, and "1:30" waits 1 second. */
  lemma DecimalDurationParses(n: nat, rest: string)
    requires rest == [] || !IsDigit(rest[0])
    ensures ParseDuration(Text(NatToString(n) + rest)) == ParseDuration(Seconds(n)) == Num(n)
  {
    DigitPrefixParses(NatToString(n), rest);
    NatToStringRoundTrip(n);
  }

  /** Digits followed by a non-digit parse to the value of the digits. */
  lemma {:induction false} DigitPrefixParses(digits: string, rest: string)
    requires |digits| > 0 && forall i :: 0 <= i < |digits| ==> IsDigit(digits[i])
    requires rest == [] || !IsDigit(rest[0])
    ensures ParseInt(digits + rest) == Num(DigitsValue(digits))
  {
    var s := digits + rest;
    assert s[0] == digits[0];
    UnsignedParse(s);
    LeadingDigitsOfDigits(digits, rest);
  }

  /** Text that starts with a digit has no white space or sign to skip. */
  lemma UnsignedParse(s: string)
    requires s != [] && IsDigit(s[0])
    ensures ParseInt(s) == ParseDigits(s)
  {
    DigitIsNotSpace(s);
  }

  lemma DigitIsNotSpace(s: string)
    requires s != [] && IsDigit(s[0])
    ensures TrimStart(s) == s
  {
  }

  /** Text that does not start (after white space) with a sign or a digit
      parses to NaN. */
  lemma NoDigitsIsNaN(s: string)
    requires var t := TrimStart(s); t == [] || (!IsDigit(t[0]) && t[0] != '-' && t[0] != '+')
    ensures ParseDuration(Text(s)) == NaN
  {
  }

  // ---------------------------------------------------------------------
  // formatTimerResponse

  datatype TimerResponse = TimerResponse(status: string, message: string, id: string, timerActive: bool)

  function FormatTimerResponse(entityType: string, id: string, active: bool): (r: TimerResponse)
    ensures r.status == "success" && r.id == id && r.timerActive == active
    ensures |r.message| >= 7
    ensures r.message[|r.message| - 7..] == (if active then "started" else "stopped")
  {
    TimerResponse("success", entityType + " timer " + (if active then "started" else "stopped"), id, active)
  }

  // ---------------------------------------------------------------------
  // Existence checks: `None` means the row exists, otherwise the exception

  function ValidateWorkoutExists(db: Db, w: Id): (r: Option<Exception>)
    ensures r.None? <==> w in db.workouts
    ensures r.Some? ==> r.value.NotFound?
  {
    if w in db.workouts then None else Some(NotFound("Workout " + NatToString(w) + " not found"))
  }

  /** Scoped to the parent: an exercise of another workout is not found. */
  function ValidateExerciseExists(db: Db, w: Id, e: Id): (r: Option<Exception>)
    ensures r.None? <==> e in db.exercises && db.exercises[e].workoutId == w
    ensures r.Some? ==> r.value.NotFound?
  {
    if e in db.exercises && db.exercises[e].workoutId == w then None
    else Some(NotFound("Exercise " + NatToString(e) + " not found in workout " + NatToString(w)))
  }

  /** Scoped to the exercise only: the workout identifier takes no part. */
  function ValidateSetExists(db: Db, w: Id, e: Id, s: Id): (r: Option<Exception>)
    ensures r.None? <==> s in db.sets && db.sets[s].exerciseId == e
    ensures r.Some? ==> r.value.NotFound?
  {
    if s in db.sets && db.sets[s].exerciseId == e then None
    else Some(NotFound("Set " + NatToString(s) + " not found in exercise " + NatToString(e)))
  }

  /** A set of an exercise that belongs to another workout still passes the
      set check under any workout identifier. */
  lemma SetCheckIgnoresWorkout(db: Db, w: Id, e: Id, s: Id)
    requires s in db.sets && db.sets[s].exerciseId == e && e in db.exercises && db.exercises[e].workoutId != w
    ensures ValidateSetExists(db, w, e, s).None? && ValidateExerciseExists(db, w, e).Some?
  {
  }

  function CheckSetExists(db: Db, s: Id): (r: Option<Exception>)
    ensures r.None? <==> s in db.sets
    ensures r.Some? ==> r.value.NotFound?
  {
    if s in db.sets then None else Some(NotFound("Exercise set " + NatToString(s) + " not found"))
  }

  function CheckExerciseExists(db: Db, e: Id): (r: Option<Exception>)
    ensures r.None? <==> e in db.exercises
    ensures r.Some? ==> r.value.NotFound?
  {
    if e in db.exercises then None else Some(NotFound("Exercise " + NatToString(e) + " not found"))
  }

  // ---------------------------------------------------------------------
  // batchDeleteSets

  /** The sets table without the sets of exercise `e`. */
  function WithoutSetsOf(sets: map<Id, SetRow>, e: Id): (r: map<Id, SetRow>)
    ensures forall s :: s in r <==> s in sets && sets[s].exerciseId != e
  {
    map s | s in sets && sets[s].exerciseId != e :: sets[s]
  }

  lemma {:induction false} SubsetOfSize(s: set<Id>, k: nat)
    requires k <= |s|
    ensures exists t :: t <= s && |t| == k
  {
    if k > 0 {
      var x :| x in s;
      SubsetOfSize(s - {x}, k - 1);
      var t :| t <= s - {x} && |t| == k - 1;
      assert t + {x} <= s && |t + {x}| == k;
    } else {
      assert {} <= s;
    }
  }

  lemma Distribute(x: int, d: int, b: int)
    ensures (x + d) * b == x * b + d * b
  {
  }

  lemma AtLeastOnce(d: int, b: int)
    requires d >= 1 && b > 0
    ensures d * b >= b
  {
    Distribute(d - 1, 1, b);
    assert (d - 1) * b >= 0;
  }

  lemma QuotientOf(n: nat, b: nat, q: nat, c: nat)
    requires b > 0 && c < b && n == q * b + c
    ensures n / b == q
  {
    var q', c' := n / b, n % b;
    assert n == q' * b + c' && 0 <= c' < b;
    if q' < q {
      AtLeastOnce(q - q', b);
      Distribute(q', q - q', b);
      assert false;
    } else if q' > q {
      AtLeastOnce(q' - q, b);
      Distribute(q, q' - q, b);
      assert false;
    }
  }

  /** `Number(process.env.BATCH_SIZE)`: a whole number, or a value that is
      not one (NaN when the variable is unset or not numeric, a fraction). */
  datatype BatchSize = Count(n: int) | NotAnInteger

  /** What Prisma answers a `take` that is not a whole number with: a
      validation error, which is not a known request error. */
  const TakeRefused: Failure := OtherError("Invalid value for argument `take`: Expected Int, provided Float.")

  /** `batchDeleteSets`: delete up to `take` sets of the exercise per round,
      and go on while a round deleted exactly `batchSize` of them.
      - a positive size removes every set of the exercise, in
        ⌊n / size⌋ + 1 rounds (the last one short, possibly empty);
      - a negative size takes that many from the end of the list; a count
        never equals it, so there is one round, which removes
        min(-size, n) of the sets;
      - a size that is not a whole number is refused by the first call;
      - a size of 0 deletes nothing and goes on forever, so it is excluded.
      No other row is touched. */
  method BatchDeleteSets(db: Database, exerciseId: Id, batchSize: BatchSize) returns (rounds: nat, refused: Option<Failure>)
    requires batchSize != Count(0)
    modifies db
    ensures db.workouts == old(db.workouts) && db.exercises == old(db.exercises) && db.nextId == old(db.nextId)
    ensures forall s :: s in db.sets ==> s in old(db.sets) && db.sets[s] == old(db.sets)[s]
    ensures forall s :: s in old(db.sets) && old(db.sets)[s].exerciseId != exerciseId ==> s in db.sets
    ensures batchSize.NotAnInteger? ==> refused == Some(TakeRefused) && rounds == 1 && db.sets == old(db.sets)
    ensures batchSize.Count? ==> refused.None?
    ensures batchSize.Count? && batchSize.n > 0 ==>
              && db.sets == WithoutSetsOf(old(db.sets), exerciseId)
              && rounds == |SetsOf(old(db.State()), exerciseId)| / batchSize.n + 1
    ensures batchSize.Count? && batchSize.n < 0 ==>
              && rounds == 1
              && |SetsOf(db.State(), exerciseId)| ==
                 |SetsOf(old(db.State()), exerciseId)| - Min(0 - batchSize.n, |SetsOf(old(db.State()), exerciseId)|)
  {
    if batchSize.NotAnInteger? {
      return 1, Some(TakeRefused);
    }
    var size := batchSize.n;
    var limit := if size > 0 then size else 0 - size;
    var n := |SetsOf(db.State(), exerciseId)|;
    var hasMore := true;
    rounds, refused := 0, None;
    while hasMore
      invariant db.workouts == old(db.workouts) && db.exercises == old(db.exercises) && db.nextId == old(db.nextId)
      invariant forall s :: s in db.sets ==> s in old(db.sets) && db.sets[s] == old(db.sets)[s]
      invariant forall s :: s in old(db.sets) && old(db.sets)[s].exerciseId != exerciseId ==> s in db.sets
      invariant hasMore ==> (size > 0 || rounds == 0) && rounds * limit + |SetsOf(db.State(), exerciseId)| == n
      invariant !hasMore && size > 0 ==> |SetsOf(db.State(), exerciseId)| == 0 && rounds == n / size + 1
      invariant !hasMore && size < 0 ==> rounds == 1 && |SetsOf(db.State(), exerciseId)| == n - Min(limit, n)
      decreases |SetsOf(db.State(), exerciseId)| + (if hasMore then 1 else 0)
    {
      ghost var before := |SetsOf(db.State(), exerciseId)|;
      var deleted := DeleteRound(db, exerciseId, limit);
      Distribute(rounds, 1, limit);
      rounds := rounds + 1;
      hasMore := deleted == size;
      if !hasMore && size > 0 {
        QuotientOf(n, size, rounds - 1, before);
      }
    }
    if size > 0 {
      forall s | s in db.sets
        ensures old(db.sets)[s].exerciseId != exerciseId
      {
        assert s !in SetsOf(db.State(), exerciseId);
      }
      assert db.sets == WithoutSetsOf(old(db.sets), exerciseId);
    }
  }

  /** One `deleteMany` round: up to `limit` sets of the exercise removed,
      and no other row. */
  method DeleteRound(db: Database, exerciseId: Id, limit: nat) returns (deleted: nat)
    modifies db
    ensures db.workouts == old(db.workouts) && db.exercises == old(db.exercises) && db.nextId == old(db.nextId)
    ensures forall s :: s in db.sets ==> s in old(db.sets) && db.sets[s] == old(db.sets)[s]
    ensures forall s :: s in old(db.sets) && old(db.sets)[s].exerciseId != exerciseId ==> s in db.sets
    ensures deleted == Min(limit, |SetsOf(old(db.State()), exerciseId)|)
    ensures |SetsOf(db.State(), exerciseId)| == |SetsOf(old(db.State()), exerciseId)| - deleted
  {
    var pending := SetsOf(db.State(), exerciseId);
    deleted := Min(limit, |pending|);
    SubsetOfSize(pending, deleted);
    var victims :| victims <= pending && |victims| == deleted;
    db.sets := db.sets - victims;
    assert SetsOf(db.State(), exerciseId) == pending - victims;
  }

  // ---------------------------------------------------------------------
  // getWorkoutWithTimers

  /** A set as the sequence runner sees it. */
  datatype LoadedSet = LoadedSet(id: Id, duration: Duration, transitionTime: Option<int>)

  /** An exercise with its sets, in playback order. */
  datatype LoadedExercise = LoadedExercise(id: Id, sets: seq<LoadedSet>)

  predicate Distinct(xs: seq<Id>) {
    forall i, j :: 0 <= i < j < |xs| ==> xs[i] != xs[j]
  }

  /** `xs` lists the elements of `s`, each once. */
  ghost predicate Enumerates(xs: seq<Id>, s: set<Id>) {
    Distinct(xs) && forall x :: x in s <==> x in xs
  }

  predicate SortedBy(xs: seq<Id>, keyOf: map<Id, int>) {
    && (forall i :: 0 <= i < |xs| ==> xs[i] in keyOf)
    && (forall i, j :: 0 <= i < j < |xs| ==> keyOf[xs[i]] <= keyOf[xs[j]])
  }

  function CreatedAtKeys(db: Db, w: Id): map<Id, int> {
    map e | e in db.exercises && db.exercises[e].workoutId == w :: db.exercises[e].createdAt
  }

  function SetNumberKeys(db: Db, e: Id): map<Id, int> {
    map s | s in db.sets && db.sets[s].exerciseId == e :: db.sets[s].setNumber
  }

  function SetIds(sets: seq<LoadedSet>): seq<Id> {
    seq(|sets|, j requires 0 <= j < |sets| => sets[j].id)
  }

  function ExerciseIds(plan: seq<LoadedExercise>): seq<Id> {
    seq(|plan|, i requires 0 <= i < |plan| => plan[i].id)
  }

  /** `sets` holds every set of exercise `e`, once each, by ascending set
      number, with the duration and rest time stored for it. */
  ghost predicate IsSetListOf(db: Db, e: Id, sets: seq<LoadedSet>) {
    && Enumerates(SetIds(sets), SetsOf(db, e))
    && SortedBy(SetIds(sets), SetNumberKeys(db, e))
    && forall j :: 0 <= j < |sets| ==>
         sets[j].id in db.sets && sets[j].duration == db.sets[sets[j].id].duration
         && sets[j].transitionTime == db.sets[sets[j].id].transitionTime
  }

  /** `plan` holds every exercise of workout `w`, once each, by ascending
      creation time, each with its own sets in playback order. */
  ghost predicate IsLoadOf(db: Db, w: Id, plan: seq<LoadedExercise>) {
    && Enumerates(ExerciseIds(plan), ExercisesOf(db, w))
    && SortedBy(ExerciseIds(plan), CreatedAtKeys(db, w))
    && forall i :: 0 <= i < |plan| ==> IsSetListOf(db, plan[i].id, plan[i].sets)
  }

  lemma {:induction false} MinimumExists(keyOf: map<Id, int>, s: set<Id>)
    requires s != {} && s <= keyOf.Keys
    ensures exists m :: m in s && forall y :: y in s ==> keyOf[m] <= keyOf[y]
  {
    var x :| x in s;
    if s - {x} != {} {
      MinimumExists(keyOf, s - {x});
      var m :| m in s - {x} && forall y :: y in s - {x} ==> keyOf[m] <= keyOf[y];
      if keyOf[x] < keyOf[m] {
        assert forall y :: y in s ==> keyOf[x] <= keyOf[y];
      } else {
        assert forall y :: y in s ==> keyOf[m] <= keyOf[y];
      }
    } else {
      assert s == {x};
    }
  }

  /** The `orderBy` of the load: the keys of `keyOf` by ascending key. */
  method OrderByKey(keyOf: map<Id, int>) returns (order: seq<Id>)
    ensures Enumerates(order, keyOf.Keys)
    ensures SortedBy(order, keyOf)
  {
    order := [];
    var rest := keyOf.Keys;
    while rest != {}
      invariant rest <= keyOf.Keys
      invariant forall x :: x in keyOf <==> x in rest || x in order
      invariant forall x :: x in rest ==> x !in order
      invariant Distinct(order)
      invariant SortedBy(order, keyOf)
      invariant forall i, y :: 0 <= i < |order| && y in rest ==> keyOf[order[i]] <= keyOf[y]
      decreases |rest|
    {
      MinimumExists(keyOf, rest);
      var m :| m in rest && forall y :: y in rest ==> keyOf[m] <= keyOf[y];
      order := order + [m];
      rest := rest - {m};
    }
  }

  /** `getWorkoutWithTimers`: nothing for an unknown workout; otherwise its
      exercises by `created_at` and each one's sets by `set_number`. */
  method GetWorkoutWithTimers(db: Database, w: Id) returns (r: Option<seq<LoadedExercise>>)
    ensures r.None? <==> w !in db.workouts
    ensures r.Some? ==> IsLoadOf(db.State(), w, r.value)
  {
    if w !in db.workouts {
      return None;
    }
    var state := db.State();
    var exerciseOrder := OrderByKey(CreatedAtKeys(state, w));
    var plan: seq<LoadedExercise> := [];
    for i := 0 to |exerciseOrder|
      invariant |plan| == i
      invariant forall k :: 0 <= k < i ==> plan[k].id == exerciseOrder[k]
      invariant forall k :: 0 <= k < i ==> IsSetListOf(state, plan[k].id, plan[k].sets)
    {
      var e := exerciseOrder[i];
      var setOrder := OrderByKey(SetNumberKeys(state, e));
      assert SetNumberKeys(state, e).Keys == SetsOf(state, e);
      var sets := seq(|setOrder|, j requires 0 <= j < |setOrder| =>
                        LoadedSet(setOrder[j], state.sets[setOrder[j]].duration, state.sets[setOrder[j]].transitionTime));
      assert SetIds(sets) == setOrder;
      plan := plan + [LoadedExercise(e, sets)];
    }
    assert ExerciseIds(plan) == exerciseOrder;
    assert CreatedAtKeys(state, w).Keys == ExercisesOf(state, w);
    return Some(plan);
  }
}
