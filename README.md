# mighty-calculator: scoring, statistics and room approval in Dafny

mighty-calculator keeps score for games of Mighty, a trick-taking card game
for five or six players. In each game one player is the president; the
president may name a friend, and the remaining players are the oppositions.
In a six-player game one player sits out as the died player. This project
models the core of the application and proves properties of it:

- `calcScoresByGame`: one game's score change and role marker for each player (module `Scores`);
- `calcStatsByGame`: the user-record counters one game bumps for each player (module `Stats`);
- the shared id list of both (module `GameIds`);
- the game record and its request schema (module `Games`);
- the admin's approval of a room (module `Approval`). This is an imperative method. Its guards set 404 or 400 and then throw, because the error names they pass are missing from the error table, or answer 304. It then folds the stat keys of every game into one count map per participant, in place in an array, and marks the room approved;
- `isParticipant` and the room record (module `Rooms`);
- the error table with `createError` and `isCustomError` (module `Errors`);
- the admin-key header check `verifyAdminKey` (module `AdminKey`).

Ids are modelled by their text, a 24-digit hexadecimal string. An absent
friend reads as the text `null` and an absent died id as `undefined`,
which is what `String(...)` gives in the source. Database reads become
parameters and database writes become results.

Several behaviours of the source are modelled as written and shown by
lemmas:

- a null friend does not count as "no friend";
- the approval counts never leave 0;
- the stat keys do not name the stored user record's counters.

For each of these the corrected definition is modelled beside it (see
"## Findings"). `Stats.Collect` takes a `Spelling` and the approval takes
a `CountRule`. The handler as written is `ApproveRoom(room, games,
AsWritten, Written)`.

## Model

| member | source | states |
|---|---|---|
| Errors.OrElse | defines/errors.ts:37-38 | a non-empty override wins; an absent or empty one falls back, as JavaScript's logical or does |
| Errors.CreateError | defines/errors.ts:30-39 | the code is the table's; the name and message are the non-empty overrides, else the table's |
| Errors.CreateErrorAt | defines/errors.ts:30-39 | for a name outside the table, reading `code` of the missing entry throws a TypeError; for a table key it returns `CreateError`'s result |
| Errors.TableWellFormed | defines/errors.ts:42-125 | every table code is a variant CE, AE, KE or EE and three digits; every name and message is non-empty |
| Errors.CodeNotOverridable | defines/errors.ts:30-36 | two calls with any overrides give the same, well-formed code |
| Errors.IsCustomError | defines/errors.ts:12-27 | `undefined`, or an object with no other defined keys whose code, name and message are non-empty strings, the code of length 5 |
| Errors.CreatedErrorsAreCustom | defines/errors.ts:12-39 | whatever `createError` returns for a table key passes `isCustomError` |
| Errors.ShapeRefusals | defines/errors.ts:12-27 | a code not of length 5, or a missing or empty name or message, fails the check |
| Errors.UndefinedPasses | defines/errors.ts:12-27 | `undefined` passes because the object schema is optional; `null` fails |
| AdminKey.Split | lib/server/verify-admin-key.ts:11 | splitting on single spaces yields at least one segment |
| AdminKey.SplitJoin | lib/server/verify-admin-key.ts:11 | joining the segments with spaces gives the header back, and no segment holds a space |
| AdminKey.SplitNoSpace | lib/server/verify-admin-key.ts:11 | a text without spaces is one segment |
| AdminKey.SplitAtSpace | lib/server/verify-admin-key.ts:11 | the first segment is the text before the first space; the rest are the segments after it |
| AdminKey.ToLower | lib/server/verify-admin-key.ts:13 | the result has the same length and lower-cases each character |
| AdminKey.SchemeSpellings | lib/server/verify-admin-key.ts:13-16 | the scheme passes exactly for the three-letter spellings of `kay` in any case, the Kelvin sign standing for `K` |
| AdminKey.VerifyAdminKey | lib/server/verify-admin-key.ts:5-22 | a rejection has status 400 or 401; the check passes exactly when the header is present and non-empty, its scheme lower-cases to `kay` and its second segment equals the configured key |
| AdminKey.FailureOrder | lib/server/verify-admin-key.ts:7-21 | the first failing check decides: a missing header or a bad scheme gives 400 and MISSING_ADMIN_KEY (AE101); a wrong key gives 401 and INVALID_ADMIN_KEY (AE102) |
| AdminKey.LaterSegmentsIgnored | lib/server/verify-admin-key.ts:11 | segments after the second do not change the verdict |
| AdminKey.ClientHeaderAccepted | lib/check-admin-key.ts:8 | for a key without spaces, the client's `Kay <key>` header passes exactly when the key is the configured one |
| AdminKey.UnsetKeyAcceptsBareScheme | lib/server/verify-admin-key.ts:18-21 | with no key configured, the bare header `Kay` passes; with a key configured it is refused with 401 |
| Games.TypeText | types/game.ts:4 | a game type is written as two characters ending in `M` |
| Games.Validate | types/game.ts:33-53 | a successful validation returns the body unchanged |
| Games.ValidBody | types/game.ts:33-53 | the schema as one predicate: type, optional giru, promise 13 to 20, win, run, hex ids of length 24, four or three oppositions by whether the friend is null, a died id exactly in 6M, no other keys |
| Games.ValidateAgrees | types/game.ts:33-53 | validation succeeds exactly on the bodies the schema describes; a reported oppositions or died-id error means that key's rule fails |
| Games.SlotCount | types/game.ts:41-52 | a valid body fills five id slots in a 5M game and six in a 6M game |
| Games.SchemaShape | types/game.ts:10-31 | a valid body whose ids are distinct is a well-formed `Game5M` or `Game6M` |
| Games.RepeatedIdsPass | types/game.ts:41-47 | the schema accepts one id repeated in every slot |
| GameIds.Truthy | utils/game/calc-scores-by-game.ts:17-19 | exactly the non-empty present ids are kept |
| GameIds.Listed | utils/game/calc-scores-by-game.ts:17-19 | the listed ids are exactly the non-empty president, friend, opposition and died ids |
| GameIds.Dedup | utils/game/calc-scores-by-game.ts:15-20 | the result has the same elements as its input, each once |
| GameIds.DedupOrder | utils/game/calc-scores-by-game.ts:15-20 | the result lists the ids in the order of their first occurrence |
| GameIds.DedupOfDistinct | utils/game/calc-scores-by-game.ts:15-20 | a list without repeats is unchanged |
| GameIds.FriendText | utils/game/calc-scores-by-game.ts:31 | a present friend's text is its id |
| GameIds.ProvidedIds | utils/game/calc-scores-by-game.ts:15-21 | each non-empty id of a role slot appears exactly once, and nothing else appears |
| GameIds.ProvidedIdsOfWellFormed | utils/game/calc-stats-by-game.ts:13-19 | for a well-formed game the ids are the slots in order: president, friend, oppositions, died |
| Scores.Outcome | utils/game/calc-scores-by-game.ts:28 | the outcome marker is 1 or -1 and is positive exactly when the president's side wins |
| Scores.BaseScore | utils/game/calc-scores-by-game.ts:12 | the base score's sign follows `win` and its magnitude is 1, 2 or 4 |
| Scores.BonusesDouble | utils/game/calc-scores-by-game.ts:12 | no-giru and run each double the base score, and without them it is the outcome |
| Scores.Entry | utils/game/calc-scores-by-game.ts:25-41 | the entry carries the id and at most one ±1 role marker; its score is 0 exactly when no marker is set |
| Scores.CalcScoresByGame | utils/game/calc-scores-by-game.ts:3-42 | one entry per provided id in order, with distinct ids and at most one role marker set, which is ±1 |
| Scores.RoleEntries | utils/game/calc-scores-by-game.ts:26-40 | the president gets base×4 when friend equals president and base×2 otherwise; the friend gets base; an opposition gets −base; anyone else gets 0. Each gets its marker, checked in the order president, friend, opposition |
| Scores.NullFriendDoubles | utils/game/calc-scores-by-game.ts:13-28 | with a null friend the president gets twice the base score, not four times |
| Scores.NullTextQuirk | utils/game/calc-scores-by-game.ts:31 | without a friend, an id spelled `null` is scored as the friend |
| Scores.ZeroSumWithFriend | utils/game/calc-scores-by-game.ts:28-37 | in a well-formed game with a friend the score changes sum to 0 |
| Scores.NullFriendNotZeroSum | utils/game/calc-scores-by-game.ts:13-37 | in a well-formed game with a null friend the scores sum to −2×base, never 0 |
| Scores.CalcScoresIntended | utils/game/calc-scores-by-game.ts:13 | with the corrected no-friend test the entries have the same ids and role shape |
| Scores.IntendedZeroSum | utils/game/calc-scores-by-game.ts:13-37 | with the corrected test every well-formed game sums to 0 |
| Scores.IntendedDiffersOnlyWithoutFriend | utils/game/calc-scores-by-game.ts:13 | with a friend present, the corrected and the written scoring agree |
| Stats.DiedText | utils/game/calc-stats-by-game.ts:46 | a present died id's text is the id |
| Stats.BuildBonusKeys | utils/game/calc-stats-by-game.ts:24-34 | the pushes build `president.nogi` first, then the kind of run: 0, 1 or 2 keys |
| Stats.Collect | utils/game/calc-stats-by-game.ts:21-58 | success exactly when every id's case succeeds, with one entry per id in order; a failure carries the error of some id's case |
| Stats.StatKeys | utils/game/calc-stats-by-game.ts:21-56 | one to three keys on success; a throw is the died-type or the unreachable error, and the died-type error only for the died id's text outside 6M |
| Stats.CalcStatsByGame | utils/game/calc-stats-by-game.ts:3-58 | on success one entry per provided id, in order; the only error that escapes is the died-type error |
| Stats.EveryIdHasARole | utils/game/calc-stats-by-game.ts:21-56 | no provided id reaches `Unreachable Line`; an id's case throws exactly when it is the died id's text, holds no earlier role, and the game is not 6M |
| Stats.StatsFailureCause | utils/game/calc-stats-by-game.ts:46-47 | a throwing call throws the died-type error, in a non-6M game, for the died text holding no other role |
| Stats.StatsFailures | utils/game/calc-stats-by-game.ts:46-56 | the call throws exactly in that case, always with the died-type message |
| Stats.WellFormedSucceeds | utils/game/calc-stats-by-game.ts:46-47 | a well-formed game never throws |
| Stats.RoleKeys | utils/game/calc-stats-by-game.ts:21-54 | the president gets `prefix.win`/`prefix.lose` then the bonus keys; a friend gets `stats{type}.friend.win`/`.lose`; the died player gets `stats6M.died` in 6M; an opposition gets `oppsite` with the complement outcome |
| Stats.PresidentKeyList | utils/game/calc-stats-by-game.ts:24-39 | the president has 1 to 3 keys: the outcome, then nogi, then nogiRun/nogiBackRun or run/backRun |
| Stats.AsWrittenKeysMissCounters | utils/game/calc-stats-by-game.ts:36-54 | the president's outcome key, the bonus keys and the opposition key name no counter of the user record |
| Stats.IntendedKeysAreCounters | utils/game/calc-stats-by-game.ts:24-54 | spelled after the user record, every key names one of its counters |
| Rooms.IsParticipant | lib/is-participant.ts:3-5 | true exactly when some participant's id equals the given id |
| Rooms.EmptyRoomHasNone | lib/is-participant.ts:4 | a room without participants has no participant |
| Rooms.SameUsersSameAnswer | lib/is-participant.ts:4 | reordering or repeating participants does not change the answer |
| Rooms.OnlyIdsMatter | lib/is-participant.ts:3-4 | rooms whose participant ids agree give the same answer, whatever their other fields |
| Approval.Guard | pages/api/admin/room.ts:38-46 | the handler proceeds exactly for an existing, ended, unapproved room; otherwise it stops at one of the three guards |
| Approval.JsonError | pages/api/admin/room.ts:38-41 | the status is set before `createError` runs; a name outside the table hands the response to the error handler with that status set |
| Approval.Respond | pages/api/admin/room.ts:38-81 | 304 and 204 are sent by the handler; the 404 and 400 branches throw after setting their status; a stats throw reaches the error handler with no status set |
| Approval.GuardOrder | pages/api/admin/room.ts:38-46 | no room reaches the error handler with 404 set; a room not ended, even if approved, with 400 set; an approved ended room is answered 304 |
| Approval.UpdateStats | pages/api/admin/room.ts:57 | the flattened stats succeed exactly when every game's do; a failure is the died-type error |
| Approval.UpdateStatsFlat | pages/api/admin/room.ts:57 | on success the entries are the first game's entries followed by the other games', in game order |
| Approval.UpdateStatsEntries | pages/api/admin/room.ts:57 | every entry's id is provided by one of the games |
| Approval.WellFormedGamesApprove | pages/api/admin/room.ts:57 | well-formed games never make the handler throw |
| Approval.IndexOf | pages/api/admin/room.ts:60 | the index of the first participant with the id, or −1 exactly when none has it |
| Approval.RoutedToOwnId | pages/api/admin/room.ts:60-61 | with distinct participant ids an entry goes to participant j exactly when their ids are equal |
| Counts.Bump | pages/api/admin/room.ts:63-64 | the key is added to the map and every other count is unchanged; as written a non-zero count goes up by one and a missing or zero count becomes 0, as intended the count goes up by one from 0 |
| Counts.BumpAll | pages/api/admin/room.ts:62-65 | the entry's keys counted one after the other; its key set is stated by `BumpAllKeys` |
| Counts.BumpAllKeys | pages/api/admin/room.ts:62-65 | under either rule the map's keys become its old keys plus the entry's keys |
| Counts.CountKeys | pages/api/admin/room.ts:62-65 | applying an entry's keys one after the other, with the rule's branch for each, gives the fold of the count rule over the keys |
| Approval.FoldStats | pages/api/admin/room.ts:47-67 | starting from one empty map per participant, the loop over all entries yields the fold of the entries, each counted into the map of the first participant with its id |
| Approval.Tally | pages/api/admin/room.ts:59-67 | the fold of the entries over the count maps, one per participant id; the table keeps one map per id |
| Approval.ApproveRoom | pages/api/admin/room.ts:38-79 | a guard's outcome writes nothing; a throwing stats call writes nothing; otherwise one update per participant in participant order, holding the fold of all entries, and the room is marked approved, so a repeat call takes the 304 path |
| Approval.WrittenCountsStayZero | pages/api/admin/room.ts:62-65 | as written, every count in every map stays 0 |
| Approval.TallyKeys | pages/api/admin/room.ts:59-67 | a participant's map holds exactly its starting keys and the keys of the entries routed to it |
| Approval.EntryTouchesOnlyItsParticipant | pages/api/admin/room.ts:60-66 | an entry leaves every other participant's map unchanged, and an unmatched entry changes nothing |
| Approval.IntendedCounts | pages/api/admin/room.ts:63-64 | counting as intended, a participant's count for a key is the number of times the key was routed to it |
| Counts.RepeatedKeyCounts | pages/api/admin/room.ts:63-64 | a key routed twice is counted 0 as written and 2 as intended |

## Left out

- Ids are compared by their text. In the source, ids loaded from MongoDB are `ObjectId` objects. The `Set`, `===` and the approval's `compareId` then compare by reference or by a helper; lib/server/compare-id is not part of this model.
- `calcScoresByGame` and `calcStatsByGame` read `isNogi` and `isRun`, while the stored `Game5M` shape has `giru` and `run`. The model takes the two flags as given booleans of the game.
- Games.Validate: Joi's type conversions (numeric strings, `"true"`) and non-integer numbers for `promise` are not modelled. Bodies are already typed and `promise` is an integer.
- Errors.IsCustomError: Joi's `length(5)` counts UTF-16 code units, while the model counts characters, so a code holding a character outside the Basic Multilingual Plane is judged differently.
- Errors.IsCustomError: values are plain objects, strings, `null`, `undefined` or other scalars. Arrays, class instances and Joi's handling of their properties are not modelled.
- The error handler that answers a thrown error (`withErrorHandler`) is not part of this model, so the final status and body of a thrown response are not modelled. `Approval.Respond` records what reaches it: the 404 and 400 branches call `createError` with names that are not table keys (`NO_SUCH_ROOM`, `ROOM_NOT_ENDED`), so they throw a TypeError after setting their status and send no JSON body, just as the `Thrown` path throws without setting one.
- The GET branch of pages/api/admin/room.ts (lines 16-27), the `roomId` query validation (lines 32-33) and the room lookup are left out. The `verifyAdminKey` call is modelled on its own in `AdminKey`.
- MongoDB reads and writes are left out. The room and its games are parameters. The `$inc` updates are returned as a list, and the new room record is returned as a result. The concurrency of `Promise.all`, partial failures and the `updatedAt` write are not modelled.
- Timestamps are not modelled. Only whether `approvedAt` is set is kept.
- The count maps are plain JavaScript objects. The keys are never names of `Object.prototype` members (every key starts with `prefix.` or `stats`), so a map model is exact.
- AdminKey.ToLower: `toLowerCase` is modelled for ASCII and the Kelvin sign only. No other character lower-cases to a letter of `kay`, so the scheme check decides as the source does.

## Findings

| source | as written | input that shows it | evidently intended | confidence | as-written member | corrected member |
|---|---|---|---|---|---|---|
| utils/game/calc-scores-by-game.ts:13 | `noFriend` is "friend id equals president id", so a null friend gives the president base×2 | a well-formed 5M game with a null friend and four oppositions, won without bonuses: president +2, oppositions −1 each, sum −2 | a game without a friend scores the president ×4, so every game sums to 0 | medium, not executed | Scores.NullFriendNotZeroSum | Scores.IntendedZeroSum |
| pages/api/admin/room.ts:63-64 | a falsy count is set to 0, and 0 is falsy, so no count ever grows | one participant who is the friend of a won 5M game twice in a room: `stats5M.friend.win` is routed twice and sent as `$inc` 0 | each routed key adds one | high, not executed | Counts.RepeatedKeyCounts | Approval.IntendedCounts |
| utils/game/calc-stats-by-game.ts:36-54 | the keys `prefix.win`/`prefix.lose`, `stats{type}.oppsite.*` and `stats{type}.president.{nogi,…}` name no counter of the user record | any game: the president of a won 5M game gets `prefix.win` | `stats{type}.president.win`, `stats{type}.opposite.*` and `stats{type}.optionalStats.*`, the counters of types/user.ts | high, not executed | Stats.AsWrittenKeysMissCounters | Stats.IntendedKeysAreCounters |
