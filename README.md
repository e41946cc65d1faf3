# Workout timer back end — a verified model

This project models the core of a NestJS/Prisma back end for a fitness app.
The centre is the **workout timer engine**. It keeps a three-level tree,
workout → exercise → set, in three tables, and every row has a
`timer_active` flag. The engine is made of:

- three toggles, one per level; stopping a workout or an exercise cascades down its tree;
- a sequence runner that walks a workout's exercises and sets in a fixed order, with waits between the steps;
- an emergency stop for when a step fails;
- the create, replace and delete operations on the tree;
- the helpers those use: input validation, scoped existence checks, the batch purge of an exercise's sets, duration parsing, the ordered load of a workout, and the timer response.

Around it the model covers five smaller services:

- the shared error classifier;
- the follow graph and its paging;
- the counters, ownership checks, field merge and upload dispatch of posts;
- the sign-up and sign-in checks.

Modelling conventions:

- **Tables and identifiers.** Tables are maps from identifiers to rows. Identifiers are natural numbers taken from a counter. The database and the post store are classes whose methods update those maps in place.
- **Failures.** Every Prisma call or transaction that can fail has a `fault: Option<Failure>` parameter. A failed transaction leaves the tables as they were.
- **Sequence runs.** A run is a trace of `Event`s: toggles and waits. `Apply` gives the effect of one event on the tables and `Replay` the effect of a whole trace. The sequence methods are proved against `Executed` and `Failed`: the part of a run that is carried out, and the first toggle that fails. Failures are planned by a map from trace positions to failures.
- **Foreign services.** Waiting, the media host, password hashing and token signing are parameters or oracles.

Files, one module each:

| file | module | what it models |
|---|---|---|
| common.dfy | Common | `Option`, `Result`, the HTTP exceptions, what a failed call carries, decimal rendering of ids |
| error_handler.dfy | ErrorHandler | `handleError` / `handlePrismaError` |
| workout_db.dfy | WorkoutDb | the three tables, the `Database` class, the toggles' table updates, events and replay |
| exercise_utils.dfy | ExerciseUtils | the helper service of the workout module |
| workout_tree.dfy | WorkoutTree | the rows written by `createWorkout` and `updateWorkout`/`prepareUpdateData` |
| workout_service.dfy | WorkoutService | the workout service: toggles, sequence runner, create, update, deletes |
| users.dfy | Users | accounts, `findById`, follow and unfollow, follower/following pages |
| posts.dfy | Posts | the post store and the post service |
| auth.dfy | Auth | sign-up checks and insertion, sign-in checks |

## Model

| member | source | states |
|---|---|---|
| ErrorHandler.HandlePrismaError | src/error/error-handler.service.ts:73-98 | P2002, P2003 and P2028 give BadRequest; P2025 gives NotFound, whose message starts with the entity type's first letter upper-cased; every other code gives InternalServerError (each one an if-and-only-if) |
| ErrorHandler.HandleError | src/error/error-handler.service.ts:23-61 | every path throws one of BadRequest, NotFound or InternalServerError. A known Prisma error is classified by its code. BadRequest, NotFound and InternalServerError are rethrown unchanged. Anything else is NotFound exactly for `find` and InternalServerError for every other operation, with the caller's message when it is truthy and the default message otherwise |
| ErrorHandler.HandleErrorIsStable | src/error/error-handler.service.ts:37-43 | running an exception the handler produced through the handler again, under any operation, entity and message, gives the same exception |
| ErrorHandler.DefaultMessageShape | src/error/error-handler.service.ts:44 | the default message starts with "Failed to " and ends with "."; it is longer than the id-less form exactly when an id is given |
| ErrorHandler.Capitalized | src/error/error-handler.service.ts:93 | `charAt(0).toUpperCase() + slice(1)` on ASCII text: keeps the length and the tail, and upper-cases a lower-case first letter |
| Common.NatToStringRoundTrip | src/error/error-handler.service.ts:44 | the decimal rendering of an id used in messages reads back as the same number |
| WorkoutDb.Database.constructor | src/modules/workout/workout.service.ts:30-34 | the service starts over empty, well-formed tables |
| WorkoutDb.DeactivateWorkoutStopsTree | src/modules/workout/workout.service.ts:229-238 | stopping a workout stops the workout, every exercise of it and every set of those exercises; it changes only flags, and no row outside that tree |
| WorkoutDb.DeactivateWorkoutIdempotent | src/modules/workout/workout.service.ts:229-240 | stopping a workout twice leaves the same tables as stopping it once |
| WorkoutDb.DeactivationsCommute | src/modules/workout/workout.service.ts:363-377 | the two updates `deactivateAllTimers` runs side by side commute, so doing them one after the other in either order gives the same tables |
| WorkoutDb.DeactivateExerciseStopsSets | src/modules/workout/workout.service.ts:258-269 | stopping an exercise stops it and all its sets; other exercises, other exercises' sets and the workouts are untouched |
| WorkoutDb.WorkoutOnTouchesOnlyWorkout | src/modules/workout/workout.service.ts:229-235 | starting a workout sets its flag and changes no other row, no exercise and no set |
| WorkoutDb.ExerciseOnTouchesOnlyExercise | src/modules/workout/workout.service.ts:258-263 | starting an exercise sets its flag and changes nothing else |
| WorkoutDb.SetToggleTouchesOnlySet | src/modules/workout/workout.service.ts:289-292 | a set toggle changes exactly that set's flag |
| WorkoutDb.Apply | src/modules/workout/workout.service.ts:221-300 | one event keeps every row in place. A wait changes nothing. A toggle of a row that exists leaves that row's flag on for a start and off for a stop |
| WorkoutDb.Replay | src/modules/workout/workout.service.ts:302-342 | a whole run keeps every row in place: no workout, exercise or set appears or disappears (the full shape is `ReplayKeepsShape`) |
| WorkoutDb.ReplayConcat | src/modules/workout/workout.service.ts:312-316 | replaying two runs one after the other is replaying their concatenation |
| WorkoutDb.ReplayKeepsShape | src/modules/workout/workout.service.ts:302-342 | any run of toggles and waits changes flags only: every row keeps its identity, parent and contents |
| WorkoutDb.ReplayKeepsWellFormed | src/modules/workout/workout.service.ts:302-342 | a run keeps the foreign keys and the identifier bound |
| WorkoutDb.ReplayKeepsWorkouts | src/modules/workout/workout.service.ts:332-342 | events below the workout level never change the workouts table |
| ExerciseUtils.ValidateUpdateInput | src/modules/workout/exercise.utils.ts:31-39 | passes exactly when the exercise list is present, not empty, and every exercise has a non-empty set list; every refusal is a BadRequest |
| ExerciseUtils.TrimStart | src/modules/workout/exercise.utils.ts:94-96 | `parseInt` drops a prefix of the text and the rest starts with no white space |
| ExerciseUtils.LeadingDigits | src/modules/workout/exercise.utils.ts:94-96 | the longest run of digits at the start: a prefix, all digits, followed by a non-digit or the end |
| ExerciseUtils.ParseDigits | src/modules/workout/exercise.utils.ts:94-96 | NaN exactly when no digit comes first; otherwise a value that is not negative |
| ExerciseUtils.DecimalDurationParses | src/modules/workout/exercise.utils.ts:94-96 | a duration written as the digits of n, followed by nothing or a non-digit ("5", "1:30"), waits as long as the number n |
| ExerciseUtils.DigitPrefixParses | src/modules/workout/exercise.utils.ts:94-96 | `parseInt` of digits followed by a non-digit is the value of the digits |
| ExerciseUtils.NoDigitsIsNaN | src/modules/workout/exercise.utils.ts:94-96 | text that starts, after white space, with neither a sign nor a digit parses to NaN |
| ExerciseUtils.ParseInt | src/modules/workout/exercise.utils.ts:94-96 | `parseInt(s, 10)` is never null-like. It is NaN exactly when no digit follows the white space and an optional sign, and it is negative only after a '-' |
| ExerciseUtils.ParseDuration | src/modules/workout/exercise.utils.ts:94-96 | a number passes unchanged and text goes through `parseInt`. The result is null-like exactly when the duration is absent |
| ExerciseUtils.FormatTimerResponse | src/modules/workout/exercise.utils.ts:109-116 | status "success", the id and flag as data, and a message ending "started" when active and "stopped" otherwise |
| ExerciseUtils.ValidateWorkoutExists | src/modules/workout/exercise.utils.ts:117-122 | NotFound exactly when the workout is absent |
| ExerciseUtils.ValidateExerciseExists | src/modules/workout/exercise.utils.ts:124-133 | passes exactly when the exercise exists and belongs to the given workout; otherwise NotFound |
| ExerciseUtils.ValidateSetExists | src/modules/workout/exercise.utils.ts:135-147 | passes exactly when the set exists under the given exercise; the workout id plays no part |
| ExerciseUtils.SetCheckIgnoresWorkout | src/modules/workout/exercise.utils.ts:140-141 | a set of an exercise from another workout passes the set check while the exercise check refuses it |
| ExerciseUtils.CheckSetExists | src/modules/workout/exercise.utils.ts:52-60 | NotFound exactly when the set is absent |
| ExerciseUtils.CheckExerciseExists | src/modules/workout/exercise.utils.ts:62-70 | NotFound exactly when the exercise is absent |
| ExerciseUtils.WithoutSetsOf | src/modules/workout/exercise.utils.ts:41-50 | the sets table keeps exactly the sets of other exercises |
| ExerciseUtils.BatchDeleteSets | src/modules/workout/exercise.utils.ts:27-50 | for every configured size but 0 (which never ends), no row other than the exercise's sets is touched. A positive size removes every set of the exercise, in ⌊n / size⌋ + 1 rounds. A negative size stops after one round that removes min(-size, n) sets, because no count equals it. A size that is not a whole number (NaN when BATCH_SIZE is unset) is refused by the first call and removes nothing |
| ExerciseUtils.DeleteRound | src/modules/workout/exercise.utils.ts:44-47 | one `deleteMany` round: removes min(limit, n) of the exercise's n sets and no other row, and reports how many it removed |
| ExerciseUtils.OrderByKey | src/modules/workout/exercise.utils.ts:78-84 | the `orderBy` lists every row once, by ascending key |
| ExerciseUtils.GetWorkoutWithTimers | src/modules/workout/exercise.utils.ts:72-88 | nothing exactly for an unknown workout; otherwise every exercise of the workout once, by ascending `created_at`, each with all its sets once, by ascending `set_number`, with their stored durations and rest times |
| WorkoutTree.WithSets | src/modules/workout/workout.service.ts:137-151 | the set lists of the request can be read exactly when every exercise has one, and then they are kept in order |
| WorkoutTree.NewExercises | src/modules/workout/workout.service.ts:54-70 | the exercises of a nested create are fresh, belong to the new workout and are switched off |
| WorkoutTree.NewSets | src/modules/workout/workout.service.ts:59-68 | the sets of a nested create are fresh, and from `createWorkout` they are switched off |
| WorkoutTree.NewSetsUnderNewExercises | src/modules/workout/workout.service.ts:54-70 | every created set belongs to a created exercise |
| WorkoutTree.CreatedTreeStopped | src/modules/workout/workout.service.ts:49-79 | a created workout is public and stopped, and no timer of its tree runs. The tables stay well formed under the advanced counter, and the workout's exercises are all new |
| WorkoutTree.CreatedKeepsRows | src/modules/workout/workout.service.ts:74-79 | a create keeps every workout, exercise and set that was there |
| WorkoutTree.Created | src/modules/workout/workout.service.ts:49-79 | the only change to the workouts table is the new row, public and stopped |
| WorkoutTree.WithoutExercisesOf | src/modules/workout/workout.service.ts:135-137 | the workout is left with no exercise. Other workouts' exercises and sets are kept unchanged, and every set still there was outside the workout's tree |
| WorkoutTree.Replaced | src/modules/workout/workout.service.ts:99-111 | the workouts table changes only in the merged row, and an empty list leaves the workout with no exercise |
| WorkoutTree.ReplacedTree | src/modules/workout/workout.service.ts:99-111 | an update merges the title and description and replaces the workout's whole tree by new rows. Other workouts' exercises and sets are kept, and an empty or absent list leaves the workout with no exercise |
| WorkoutTree.UpdateList | src/modules/workout/workout.service.ts:137-151 | no list gives no exercises; a list is read through its set lists |
| WorkoutTree.InsertTreeStoresExercise | src/modules/workout/workout.service.ts:135-151 | a nested create stores each exercise of the request in the workout, with its first set under it |
| WorkoutTree.ReplacedStoresExercise | src/modules/workout/workout.service.ts:132-153 | an update stores each exercise of its list in the workout, with its first set under it |
| WorkoutTree.ValidatedUpdateKeepsExercises | src/modules/workout/exercise.utils.ts:31-39 | after a request passes validation, the update stores every one of its exercises in the workout, each with a set |
| WorkoutService.FaultAt | src/modules/workout/workout.service.ts:302-342 | the planned failure of a call exists exactly when the plan names that position |
| WorkoutService.SetsTraceShape | src/modules/workout/workout.service.ts:335-340 | the set loop issues four steps per set, set j at positions 4j to 4j+3 |
| WorkoutService.SetBlocksInOrder | src/modules/workout/workout.service.ts:332-342 | an exercise's run is: exercise on; then for each set in order: set on, wait for the parsed duration, set off, wait for the rest; then exercise off |
| WorkoutService.ExerciseBlocksInOrder | src/modules/workout/workout.service.ts:312-314 | each exercise's block comes after all earlier exercises' blocks and before all later ones |
| WorkoutService.ExampleRun | src/modules/workout/workout.service.ts:337-339 | a set of 5 seconds without a rest time waits 5 seconds, then 30 (`transition_time \|\| 30`) |
| WorkoutService.RestDelay | src/modules/workout/workout.service.ts:339 | `transition_time \|\| 30`: a rest is never NaN and never zero; an absent or zero rest lasts 30 seconds, any other rest its own length |
| WorkoutService.EmergencyStop | src/modules/workout/workout.service.ts:344-361 | the tables change exactly when the stored workout flag is set and the stop goes through. With a working stop the workout ends stopped. No row appears or disappears |
| WorkoutService.ToggleFailure | src/modules/workout/workout.service.ts:246-248 | a failed toggle throws what the handler gives for it, always a pass-through exception |
| WorkoutService.Failed | src/modules/workout/workout.service.ts:302-342 | what stops a run is always a toggle |
| WorkoutService.FirstFaultAt | src/modules/workout/workout.service.ts:302-342 | the position of the first toggle whose call fails, stated by its defining property |
| WorkoutService.StopsAtFirstFault | src/modules/workout/workout.service.ts:302-342 | a run is carried out up to its first failing toggle, which throws; with no failing toggle it is carried out whole |
| WorkoutService.RunConcat | src/modules/workout/workout.service.ts:312-316 | of two runs one after the other, the second starts only if the first completes |
| WorkoutService.RunEndingInStopStopsTree | src/modules/workout/workout.service.ts:316 | a run that ends by stopping the workout leaves its whole tree stopped |
| WorkoutService.AsWrittenConvergesWhenActive | src/modules/workout/workout.service.ts:320-323 | as written, when the stored workout flag was set, every run ends with the tree stopped, whatever toggle fails |
| WorkoutService.AsWrittenAbortLeavesTimersActive | src/modules/workout/workout.service.ts:308-310 | as written, a run of a stopped workout that fails part-way leaves an exercise and a set running: the emergency stop does nothing |
| WorkoutService.CorrectedRunConverges | src/modules/workout/workout.service.ts:344-361 | with the workout switched on first, every run of a consistent tree ends with the tree stopped, whatever toggle fails, provided the stop goes through |
| WorkoutService.AsWrittenUpdateEmptiesWorkout | src/modules/workout/workout.service.ts:87 | a request without an exercise list is refused by the validation, yet the update it is not awaited for deletes the workout's exercises and their sets |
| WorkoutService.WorkoutService.DeactivateAllTimers | src/modules/workout/workout.service.ts:363-377 | the workout's exercises and the listed exercises' sets are stopped |
| WorkoutService.WorkoutService.ToggleWorkoutTimer | src/modules/workout/workout.service.ts:221-249 | NotFound for an unknown workout and the handler's exception for a failed transaction, both with the tables unchanged; otherwise the tables are `Apply` of the toggle (see the WorkoutDb lemmas) and the response carries id and flag |
| WorkoutService.WorkoutService.ToggleExerciseTimer | src/modules/workout/workout.service.ts:251-281 | NotFound unless the exercise is in the workout; a failure is the handler's exception; both leave the tables unchanged. Otherwise the tables are `Apply` of the toggle |
| WorkoutService.WorkoutService.ToggleExerciseSetTimer | src/modules/workout/workout.service.ts:283-300 | NotFound unless the set is under the exercise; a failure is the handler's exception; otherwise exactly that set's flag changes and nothing is returned |
| WorkoutService.WorkoutService.Perform | src/modules/workout/workout.service.ts:333-341 | a toggle inside a run fails exactly when a failure is planned at its position, and then changes nothing |
| WorkoutService.WorkoutService.EmergencyStopTimers | src/modules/workout/workout.service.ts:344-361 | the workout is stopped only when its stored flag is set and the stop goes through; any failure is swallowed |
| WorkoutService.WorkoutService.ProcessSet | src/modules/workout/workout.service.ts:336-339 | one set's four steps, up to the first failing toggle, and the tables they leave |
| WorkoutService.WorkoutService.ProcessSets | src/modules/workout/workout.service.ts:335-340 | the set loop carries out exactly the executed prefix of the sets' steps and reports the first failure |
| WorkoutService.WorkoutService.FinishExercise | src/modules/workout/workout.service.ts:335-341 | the set loop then the exercise's switch-off, up to the first failure |
| WorkoutService.WorkoutService.ProcessExerciseSequence | src/modules/workout/workout.service.ts:332-342 | the exercise's whole run, up to the first failure, and the tables it leaves |
| WorkoutService.WorkoutService.RunExercises | src/modules/workout/workout.service.ts:312-314 | the exercise loop carries out exactly the executed prefix of the plan's run and reports the first failure |
| WorkoutService.WorkoutService.RunToEnd | src/modules/workout/workout.service.ts:312-316 | the exercises then the workout's switch-off, up to the first failure |
| WorkoutService.WorkoutService.AbortSequence | src/modules/workout/workout.service.ts:320-323 | the emergency stop, then the handler's exception for the original failure |
| WorkoutService.WorkoutService.StartWorkoutSequence | src/modules/workout/workout.service.ts:302-325 | a failed load ends in the emergency stop and the handler; an unknown workout is NotFound with the tables unchanged. A loaded workout runs as written: its plan is the ordered load, its trace is the executed prefix, the tables are `Outcome`, and the response is the completion message or the failing toggle's exception |
| WorkoutService.WorkoutService.StartWorkoutSequenceCorrected | src/modules/workout/workout.service.ts:302-325 | the same, with the workout switched on before the exercises run |
| WorkoutService.WorkoutService.CreateWorkout | src/modules/workout/workout.service.ts:44-84 | a refused request is the validation's BadRequest; a failed transaction reaches the caller unchanged; both leave the tables unchanged. Otherwise the tables are `Created` (see CreatedTreeStopped), the new id is returned and the counter advances by the tree's size; validity is kept |
| WorkoutService.WorkoutService.UpdateWorkout | src/modules/workout/workout.service.ts:86-127 | as written: a failed find, an unknown workout (BadRequest), an unreadable set list and a failed write each give the handler's exception and change nothing. Otherwise the tables are `Replaced` (see ReplacedTree); validity is kept |
| WorkoutService.WorkoutService.UpdateWorkoutCorrected | src/modules/workout/workout.service.ts:86-127 | with the validation awaited: a refused request is its BadRequest and changes nothing; a successful update replaces the tree by a list that is not empty (see ValidatedUpdateKeepsExercises) |
| WorkoutService.WorkoutService.DeleteExerciseSet | src/modules/workout/workout.service.ts:156-182 | a failed find, an unknown set and a failed delete each give the handler's exception and change nothing. Otherwise exactly that set is removed and reported with its exercise |
| WorkoutService.WorkoutService.DeleteExercise | src/modules/workout/workout.service.ts:184-219 | a failed find, an unknown exercise and a failed transaction each change nothing. A batch size that is not a whole number fails the transaction, and the handler turns it into InternalServerError. Otherwise the exercise and exactly its sets are removed; validity is kept |
| Users.Accounts.constructor | src/modules/users/users.service.ts:12-14 | the account tables start empty and valid |
| Users.FindById | src/modules/users/users.service.ts:17-31 | NotFound for an unknown user; otherwise the user's fields, where a falsy display name becomes null |
| Users.EdgeIndex | src/modules/users/users.service.ts:79-86 | finds an edge exactly when the pair is in the follow relation |
| Users.FollowCatch | src/modules/users/users.service.ts:97-107 | P2002 becomes Conflict, P2025 NotFound, anything else is rethrown |
| Users.AppendEdge | src/modules/users/users.service.ts:92-95 | appending an edge adds exactly its pair to the relation |
| Users.RemoveEdge | src/modules/users/users.service.ts:120-123 | removing an edge of a table without duplicate pairs removes exactly its pair |
| Users.RemoveKeepsTable | src/modules/users/users.service.ts:120-123 | removal keeps the table in creation order and free of duplicate pairs |
| Users.UsersService.FollowUser | src/modules/users/users.service.ts:50-108 | following oneself is BadRequest before the store is touched; an unknown user is NotFound and an existing edge Conflict; a failed transaction goes through the catch. All of these change nothing. Otherwise exactly one edge (a, b) is added |
| Users.UsersService.UnfollowUser | src/modules/users/users.service.ts:110-125 | NotFound when there is no edge; otherwise exactly that edge is removed and the relation loses exactly that pair |
| Users.NewestFirst | src/modules/users/users.service.ts:136-151 | the list holds exactly the user's edges on that side |
| Users.NewestFirstIsDescending | src/modules/users/users.service.ts:150 | in a table kept in creation order the list is newest first |
| Users.Window | src/modules/users/users.service.ts:138-139 | skip/take gives the slice from skip of at most take items |
| Users.PagesCover | src/modules/users/users.service.ts:138-139 | consecutive pages neither skip nor repeat an item |
| Users.ValidPaging | src/modules/users/users.service.ts:128-130 | the bounds checked before any read: a valid page starts at a whole offset and takes between 1 and 100 items |
| Users.Listing | src/modules/users/users.service.ts:157-168 | one page: from position (page − 1) · limit of the newest-first list, exactly min(limit, what is left) users, none when the offset is past the end, each the shown user of the edge at its place. Page and limit are echoed, and the total counts the whole list whatever the page |
| Users.GetFollows | src/modules/users/users.service.ts:127-209 | paging outside 1 ≤ page and 1 ≤ limit ≤ 100 is BadRequest before any read; an unknown user is NotFound; otherwise the listing |
| Auth.EmailPatternIsRule | src/modules/auth/auth.service.ts:51 | the email regular expression accepts exactly the strings with no white space, one `@` that is not first, and a `.` at least two characters after it that is not last |
| Auth.SignupChecks | src/modules/auth/auth.service.ts:48-58 | the checks pass exactly when both credentials are truthy, the email matches and the password has 8 characters; a bad email shape is the only Unauthorized |
| Auth.SignupCatch | src/modules/auth/auth.service.ts:91-100 | BadRequest and Unauthorized pass, anything else becomes "Failed to create user" |
| Auth.UserByEmail | src/modules/auth/auth.service.ts:60-62 | finds a user exactly when one has that email, and the only one when emails are unique |
| Auth.NameFor | src/modules/auth/auth.service.ts:72 | the display name when truthy, otherwise the email; never empty for a non-empty email |
| Auth.NewUser | src/modules/auth/auth.service.ts:66-76 | the stored row has the request's email and display name, the hash in place of the password, a non-empty name for a non-empty email, and the plain user role when none is asked for |
| Auth.Signin | src/modules/auth/auth.service.ts:103-133 | missing credentials and an unknown email are each Unauthorized, and a wrong password is Unauthorized "Credentials are incorrect". With no failure, known credentials sign in as the account with that email exactly when the password matches its hash. A token failure after a match reaches the caller |
| Auth.AuthService.Signup | src/modules/auth/auth.service.ts:41-101 | the checks in order, before any read; an existing email is BadRequest; all of these leave the users unchanged. Otherwise exactly the new user is appended. Every failure is BadRequest or Unauthorized; validity is kept |
| Posts.PostStore.constructor | src/modules/posts/post.service.ts:24-27 | the post store starts empty and consistent |
| Posts.Dispatch | src/modules/posts/post.service.ts:48-78 | no file means no media. `image/` and `video/` go to the upload of that kind, which succeeds exactly when the host answers with that resource type. Any other type is BadRequest, and a failed upload reaches the caller |
| Posts.NewPost | src/modules/posts/post.service.ts:81-98 | public unless said otherwise, not featured unless said, exactly one of the two addresses set by the upload's kind, no public ids, zero counters |
| Posts.MergedPostCorrected | src/modules/posts/post.service.ts:154-179 | absent fields keep their value and present ones are written; an upload writes the address and public id of its kind and keeps the other kind's; owner and counters kept |
| Posts.MergedPost | src/modules/posts/post.service.ts:154-179 | as written: owner and counters are kept, and no upload keeps the four media columns. An image writes its public id and keeps the video's. A video writes its address and stores that same address as its public id |
| Posts.AsWrittenVideoPublicIdIsUrl | src/modules/posts/post.service.ts:174-177 | as written, a video upload stores its address as its public id |
| Posts.PublicPosts | src/modules/posts/post.service.ts:181-185 | exactly the posts marked public |
| Posts.ToggleLikeCounts | src/modules/posts/post.service.ts:247-261 | a like toggle moves its post's like count by +1 or −1, leaves other posts' likes alone, and a second toggle undoes it |
| Posts.AddCommentCounts | src/modules/posts/post.service.ts:302-320 | a new comment adds one to its post's comments and none to others |
| Posts.RemoveCommentCounts | src/modules/posts/post.service.ts:343-350 | removing a comment takes one from its post's comments and none from others |
| Posts.WithCommentConsistent | src/modules/posts/post.service.ts:302-320 | adding a comment with the counter step keeps every counter equal to its rows |
| Posts.WithoutCommentConsistent | src/modules/posts/post.service.ts:343-350 | removing a comment with the counter step keeps every counter equal to its rows |
| Posts.WithoutPost | src/modules/posts/post.service.ts:212-214 | a deleted post takes exactly its likes, comments and shares with it |
| Posts.WithoutPostConsistent | src/modules/posts/post.service.ts:212-214 | deleting a post keeps every counter equal to its rows |
| Posts.DeleteCatch | src/modules/posts/post.service.ts:215-228 | NotFound and Unauthorized pass; anything else becomes InternalServerError |
| Posts.MessageCatch | src/modules/posts/post.service.ts:268-278 | NotFound and Unauthorized are thrown as their bare message; anything else becomes InternalServerError |
| Posts.ShareCatch | src/modules/posts/post.service.ts:377-383 | only NotFound passes; anything else becomes InternalServerError |
| Posts.PostService.CreatePost | src/modules/posts/post.service.ts:29-99 | an unknown author is NotFound; a refused or failed upload and a failed insert reach the caller; all of these change nothing. Otherwise exactly the new post is stored; consistency is kept |
| Posts.PostService.UpdatePost | src/modules/posts/post.service.ts:101-180 | a missing post is NotFound and another user's Unauthorized; upload and write failures reach the caller; all of these change nothing. Otherwise the post becomes the merge as written |
| Posts.PostService.UpdatePostCorrected | src/modules/posts/post.service.ts:101-180 | the same checks, then the corrected merge: the stored public id of the uploaded kind is the upload's public id |
| Posts.PostService.DeletePost | src/modules/posts/post.service.ts:196-229 | NotFound and Unauthorized pass, a failed delete is InternalServerError, all changing nothing; otherwise the post goes with its likes, comments and shares; consistency is kept |
| Posts.PostService.ToggleLikePost | src/modules/posts/post.service.ts:231-279 | a missing post is the catch's InternalServerError; otherwise the like is added when absent and removed when present, the count moves with it, and the count returned equals the post's likes when the store was consistent |
| Posts.PostService.CommentPost | src/modules/posts/post.service.ts:281-333 | a missing post or parent is thrown as its bare message; otherwise one comment is added, the count goes up by one and equals the post's comments when the store was consistent |
| Posts.PostService.DeleteComment | src/modules/posts/post.service.ts:334-366 | a missing comment is the catch's InternalServerError and another user's Unauthorized; otherwise the comment goes, the count goes down by one and equals the post's comments when the store was consistent |
| Posts.PostService.SharePost | src/modules/posts/post.service.ts:368-384 | a missing post or failed insert is InternalServerError, changing nothing; otherwise exactly one share is added |

## Left out

- Real time. `delay` becomes a wait event that carries its parsed length (`WaitTime`). `console.time`, elapsed-time logging and every logger call are left out.
- Concurrency and transaction timeouts. The two updates of `deactivateAllTimers` run one after the other, which is the same because they commute (`DeactivationsCommute`). A transaction is one atomic step that can fail as a whole.
- Foreign services are oracles or parameters:
  - the media host: `upload` gives each kind's answer and `uploadFault` a failed upload;
  - bcrypt: a hash parameter and a `compare` function;
  - JWT signing: a failure parameter.
- Refresh tokens and their rotation are not part of this model.
- Controllers, module wiring, DTO validation decorators and `formatSuccessResponse`'s timestamp are HTTP glue. The responses keep only their message and data.
- Identifiers are natural numbers from a counter, not database-generated strings. In messages they appear in decimal, and an exercise's `created_at` is its allocation stamp.
- String lengths count characters, not UTF-16 code units.
- `weight` and `distance_km` are carried as opaque values.
- Auth.Signin: `generateRefreshToken`'s failure is folded into the one token failure parameter.
- `getPostById` tests a promise instead of the post, so it never throws. This is a runtime artefact and is left out, as are `getAllUsers` and the commented-out `getAllPost`.
- Posts.PostService.CreatePost: an unknown author is an id outside the user table. The foreign key from a post to its author is not modelled.
- Posts.PostService.CommentPost: replies are stored with their parent's id. A parent on another post is accepted, as in the source. Deleting a comment leaves its replies in place.
- Posts.PostStore.Valid: the invariant assumes the database cascades a post's likes, comments and shares on delete. `WithoutPost` states that cascade.
- Posts.PostService.ToggleLikePost: `findUniqueOrThrow` on a missing post throws a Prisma error, not NotFound, so the "Post not found" branch after it is dead. The model follows the reachable path.
- WorkoutService.WorkoutService.UpdateWorkout: the model assumes a runtime that survives the unawaited validation's unhandled rejection, such as Node before version 15 or one run with `--unhandled-rejections=warn`. `main.ts` installs no handler. Under the default mode of Node 15 and later, the process ends when the rejection surfaces, which is while the update waits for its `findUnique` at line 91, so the transaction may never run.
- WorkoutService.WorkoutService.CreateWorkout: the nested create's transaction is returned without being awaited, so its `catch` never runs. A failed transaction therefore reaches the caller as it is.
- WorkoutService.WorkoutService.DeleteExercise: the batch size is `Number(process.env.BATCH_SIZE)`, and nothing gives the variable a default. The model covers every size except 0. With 0 every round deletes nothing, and 0 === 0 keeps the loop going forever, so the model requires a size other than 0. Fractional sizes are folded into the size that is not a whole number.
- ExerciseUtils.BatchDeleteSets: two assumptions about the Prisma call are built in.
  - It assumes `deleteMany` honours `take` as `findMany` does, including a negative `take` counting from the end. `take` is not a documented `deleteMany` argument, and if Prisma rejects it, every `deleteExercise` fails in the handler.
  - It assumes `where: { exerciseId }` (line 45) selects the exercise's sets. The rest of the source filters sets on `exercise_id`.
  - What Prisma answers a `take` that is not a whole number with is taken to be a validation error, `TakeRefused`.
- WorkoutTree.WithoutExercisesOf: the nested `exercises: { deleteMany: {} }` of `updateWorkout` is taken to cascade to the deleted exercises' sets. The schema is not part of this model. Without that cascade, the update of a workout whose exercises still have sets fails with P2003, which the handler turns into BadRequest. `deleteExercise`, which purges sets before deleting an exercise, is modelled with the same cascade for the sets a negative batch size leaves behind.
- ErrorHandler.Capitalized: only ASCII letters are upper-cased. JavaScript's `toUpperCase` covers all of Unicode and can change the length ('ß' becomes "SS"), so "keeps the length" holds for the entity names the callers pass, not for every string.
- ExerciseUtils.ParseDigits: the value of the leading digits is exact. `parseInt` returns a double, so digit strings longer than 15 or 16 digits are rounded in the source.
- WorkoutService.WorkoutService.StartWorkoutSequence: the load and the emergency stop's reads are one failure parameter each. The NotFound for an unknown workout comes from the switch-on that the empty load triggers.

## Findings

| source | as written | input that shows it | evidently intended | confidence | as-written member | corrected member |
|---|---|---|---|---|---|---|
| src/modules/workout/workout.service.ts:308-310 | the workout is switched on only when the load returned nothing, so a workout that loads is never switched on, and the emergency stop (which checks the stored flag) skips the clean-up | a stopped workout with one exercise and one five-second set; the call that switches the set off fails: the exercise and the set stay running | switch the loaded workout on before its exercises run, so that a failed run always ends with the tree stopped | high (not executed) | WorkoutService.AsWrittenAbortLeavesTimersActive | WorkoutService.CorrectedRunConverges |
| src/modules/workout/workout.service.ts:87 | `validateUpdateInput` is called without `await`, so its refusal does not stop the update | an update of workout 0 that only renames it: the absent exercise list passes, and exercise 1 and its set are deleted. This assumes the runtime survives the unhandled rejection (see "## Left out") and that the exercises' deletion cascades to their sets. Without that cascade the same rename still deletes exercise 1 once its one set has been deleted | await the validation, as `createWorkout` does, so a successful update always leaves the workout with exercises | medium (not executed) | WorkoutService.AsWrittenUpdateEmptiesWorkout | WorkoutTree.ValidatedUpdateKeepsExercises |
| src/modules/posts/post.service.ts:174-177 | a video upload writes its `secure_url` into `video_publicId` | a video upload answering address "https://media.example/v1.mp4" and public id "v1": the stored public id is the address | store the upload's `public_id`, as the image branch does at lines 166-169 | high (not executed) | Posts.AsWrittenVideoPublicIdIsUrl | Posts.MergedPostCorrected |
