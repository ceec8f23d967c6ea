/**
 * The admin's approval of a room (pages/api/admin/room.ts, POST, lines
 * 38-79): three guards, then the stat keys of every game of the room are
 * folded into one count map per participant, the maps are sent as `$inc`
 * updates and the room is marked approved.
 *
 * The room lookup, the game lookup and the writes are not performed: the
 * room and its games are parameters, and the writes are returned.
 */
module Approval {
  import opened Wrappers
  import opened Games
  import opened GameIds
  import opened Stats
  import opened Rooms
  import opened Counts
  import opened Errors

  /**
   * Which way the handler leaves: one of the three guards, a
   * `calcStatsByGame` throw (`Thrown`), or the approval.
   */
  datatype Outcome = NoSuchRoom | RoomNotEnded | AlreadyApproved | Thrown(message: string) | Approved

  /**
   * How the response is finished: the handler ends it with a status, or a
   * throw hands it to the error handler, with the status the handler had
   * set before the throw, if any. The error handler is not part of this model.
   */
  datatype Response = Sent(status: int) | ToErrorHandler(statusSet: Option<int>, error: string)

  /**
   * `res.status(status).json(createError(errName))`: the status is set
   * first, then the argument is evaluated, and a throw there leaves the
   * JSON body unsent.
   */
  function JsonError(status: int, errName: string): (r: Response)
    ensures errName in ERRORS ==> r == Sent(status)
    ensures errName !in ERRORS ==> r == ToErrorHandler(Some(status), UNDEFINED_ENTRY_ERROR)
  {
    match CreateErrorAt(errName, NoOverrides)
    case Success(_) => Sent(status)
    case Failure(e) => ToErrorHandler(Some(status), e)
  }

  /**
   * The response for each way out. `NO_SUCH_ROOM` and `ROOM_NOT_ENDED` are
   * not table keys, so the 404 and 400 branches throw after setting their
   * status, as a throwing `calcStatsByGame` does without one.
   */
  function Respond(o: Outcome): (r: Response)
    ensures r.Sent? <==> o == AlreadyApproved || o == Approved
    ensures o == NoSuchRoom ==> r == ToErrorHandler(Some(404), UNDEFINED_ENTRY_ERROR)
    ensures o == RoomNotEnded ==> r == ToErrorHandler(Some(400), UNDEFINED_ENTRY_ERROR)
    ensures o == AlreadyApproved ==> r == Sent(304)
    ensures o == Approved ==> r == Sent(204)
    ensures o.Thrown? ==> r == ToErrorHandler(None, o.message)
  {
    match o
    case NoSuchRoom => JsonError(404, "NO_SUCH_ROOM")
    case RoomNotEnded => JsonError(400, "ROOM_NOT_ENDED")
    case AlreadyApproved => Sent(304)
    case Thrown(m) => ToErrorHandler(None, m)
    case Approved => Sent(204)
  }

  /** The three early returns, in order: no room, room not ended, room already approved. */
  function Guard(room: Option<Room>): (o: Option<Outcome>)
    ensures o.None? <==> room.Some? && room.value.state == Ended && !room.value.approved
    ensures o.Some? ==> o.value == NoSuchRoom || o.value == RoomNotEnded || o.value == AlreadyApproved
  {
    if room.None? then Some(NoSuchRoom)
    else if room.value.state != Ended then Some(RoomNotEnded)
    else if room.value.approved then Some(AlreadyApproved)
    else None
  }

  /**
   * The first failing guard decides the response: a missing room and a room
   * not ended reach the error handler with 404 and 400 set, an approved
   * ended room is answered 304.
   */
  lemma GuardOrder(room: Option<Room>)
    ensures room.None? ==> Respond(Guard(room).value) == ToErrorHandler(Some(404), UNDEFINED_ENTRY_ERROR)
    ensures room.Some? && room.value.state != Ended ==>
      Respond(Guard(room).value) == ToErrorHandler(Some(400), UNDEFINED_ENTRY_ERROR)
    ensures room.Some? && room.value.state == Ended && room.value.approved ==>
      Respond(Guard(room).value) == Sent(304)
  {
  }

  /** The stat entries of one game, with the keys spelled as written or after the user record. */
  function GameStats(g: Game, sp: Spelling): Result<seq<StatUpdate>, string> {
    Collect(g, ProvidedIds(g), sp)
  }

  /**
   * `games.map(calcStatsByGame).flat()`: the first game whose call throws
   * ends the handler. With `AsWritten` each game's entries are
   * `CalcStatsByGame`'s.
   */
  function UpdateStats(games: seq<Game>, sp: Spelling): (r: Result<seq<StatUpdate>, string>)
    ensures r.Success? <==> forall i :: 0 <= i < |games| ==> GameStats(games[i], sp).Success?
    ensures r.Failure? ==> r.error == DIED_TYPE_ERROR
    decreases |games|
  {
    if games == [] then Success([])
    else
      var first := GameStats(games[0], sp);
      if first.Failure? then
        StatsFailures(games[0], sp);
        Failure(first.error)
      else
        var rest := UpdateStats(games[1..], sp);
        if rest.Failure? then
          var i :| 0 <= i < |games[1..]| && GameStats(games[1..][i], sp).Failure?;
          assert GameStats(games[i + 1], sp).Failure?;
          Failure(rest.error)
        else
          assert forall i :: 1 <= i < |games| ==> games[i] == games[1..][i - 1];
          Success(first.value + rest.value)
  }

  /** `.flat()`: on success the entries are the first game's followed by the other games', in game order. */
  lemma UpdateStatsFlat(games: seq<Game>, sp: Spelling)
    requires UpdateStats(games, sp).Success? && games != []
    ensures GameStats(games[0], sp).Success? && UpdateStats(games[1..], sp).Success?
    ensures UpdateStats(games, sp).value == GameStats(games[0], sp).value + UpdateStats(games[1..], sp).value
  {
  }

  /** Every entry names an id that one of the games provides. */
  lemma {:induction false} UpdateStatsEntries(games: seq<Game>, sp: Spelling, k: nat)
    requires UpdateStats(games, sp).Success? && k < |UpdateStats(games, sp).value|
    ensures exists i :: 0 <= i < |games| && UpdateStats(games, sp).value[k].userId in ProvidedIds(games[i])
    decreases |games|
  {
    var first := GameStats(games[0], sp).value;
    if k < |first| {
      assert UpdateStats(games, sp).value[k] == first[k];
      assert first[k].userId == ProvidedIds(games[0])[k];
    } else {
      UpdateStatsEntries(games[1..], sp, k - |first|);
      var i :| 0 <= i < |games[1..]| && UpdateStats(games[1..], sp).value[k - |first|].userId in ProvidedIds(games[1..][i]);
      assert games[1..][i] == games[i + 1];
    }
  }

  /** Games that pass the schema with distinct ids never make the handler throw. */
  lemma WellFormedGamesApprove(games: seq<Game>, sp: Spelling)
    requires forall i :: 0 <= i < |games| ==> WellFormed(games[i])
    ensures UpdateStats(games, sp).Success?
  {
    forall i | 0 <= i < |games| ensures GameStats(games[i], sp).Success? {
      WellFormedSucceeds(games[i], sp);
    }
  }

  /** `updateQuery.findIndex(...)`: the first participant whose id equals the entry's id, or -1. */
  function IndexOf(ids: seq<Id>, id: Id): (i: int)
    ensures -1 <= i < |ids|
    ensures i == -1 <==> id !in ids
    ensures i >= 0 ==> ids[i] == id && id !in ids[..i]
  {
    if ids == [] then -1
    else if ids[0] == id then 0
    else
      var j := IndexOf(ids[1..], id);
      if j == -1 then -1
      else
        assert ids[..j + 1] == [ids[0]] + ids[1..][..j];
        j + 1
  }

  /** With distinct participant ids, an entry goes to a participant exactly when the ids are equal. */
  lemma RoutedToOwnId(ids: seq<Id>, id: Id, j: nat)
    requires Distinct(ids) && j < |ids|
    ensures IndexOf(ids, id) == j <==> ids[j] == id
  {
    if ids[j] == id {
      var i := IndexOf(ids, id);
      if i != j {
        assert false;
      }
    }
  }

  /** The count maps after the entries `stats`, one map per participant id. */
  function Tally(ids: seq<Id>, table: seq<map<string, int>>, stats: seq<StatUpdate>, rule: CountRule)
    : (t: seq<map<string, int>>)
    requires |table| == |ids|
    ensures |t| == |ids|
    decreases |stats|
  {
    if stats == [] then table
    else
      var before := Tally(ids, table, stats[..|stats| - 1], rule);
      var u := stats[|stats| - 1];
      var idx := IndexOf(ids, u.userId);
      if idx == -1 then before else before[idx := BumpAll(before[idx], u.updateKeys, rule)]
  }

  /** `room.participants.map(...)`: one empty count map per participant. */
  function Empties(n: nat): (t: seq<map<string, int>>)
    ensures |t| == n && forall i :: 0 <= i < n ==> t[i] == map[]
  {
    seq(n, _ => map[])
  }

  /** What is sent to the user collection: one `$inc` per participant, in participant order. */
  datatype UserUpdate = UserUpdate(userId: Id, increments: map<string, int>)

  function Updates(ids: seq<Id>, table: seq<map<string, int>>): (us: seq<UserUpdate>)
    requires |table| == |ids|
    ensures |us| == |ids| && forall i :: 0 <= i < |ids| ==> us[i] == UserUpdate(ids[i], table[i])
  {
    seq(|ids|, i requires 0 <= i < |ids| => UserUpdate(ids[i], table[i]))
  }

  /**
   * The POST handler from the room lookup on: the guards, the stats of the
   * games, the nested loops over the entries and their keys, the updates
   * and the approval mark. The handler as written is `sp == AsWritten` and
   * `rule == Written`.
   */
  method ApproveRoom(room: Option<Room>, games: seq<Game>, sp: Spelling, rule: CountRule)
    returns (outcome: Outcome, updates: seq<UserUpdate>, stored: Option<Room>)
    ensures Guard(room).Some? ==> outcome == Guard(room).value && updates == [] && stored == room
    ensures Guard(room).None? && UpdateStats(games, sp).Failure? ==>
      outcome == Thrown(UpdateStats(games, sp).error) && updates == [] && stored == room
    ensures Guard(room).None? && UpdateStats(games, sp).Success? ==>
      var ids := ParticipantIds(room.value.participants);
      && outcome == Approved
      && updates == Updates(ids, Tally(ids, Empties(|ids|), UpdateStats(games, sp).value, rule))
      && stored == Some(room.value.(approved := true))
    ensures outcome == Approved ==> Guard(stored) == Some(AlreadyApproved)
  {
    if room.None? {
      return NoSuchRoom, [], room;
    }
    var r := room.value;
    if r.state != Ended {
      return RoomNotEnded, [], room;
    }
    if r.approved {
      return AlreadyApproved, [], room;
    }
    var ids := ParticipantIds(r.participants);
    var found := UpdateStats(games, sp);
    if found.Failure? {
      return Thrown(found.error), [], room;
    }
    var table := FoldStats(ids, found.value, rule);
    updates := Updates(ids, table);
    outcome := Approved;
    stored := Some(r.(approved := true));
  }

  /**
   * `updateQuery` and the `updateStats.forEach(...)` loop: one empty count
   * map per participant, then every entry's keys counted into the map of
   * the first participant with the entry's id; unmatched entries are skipped.
   */
  method FoldStats(ids: seq<Id>, stats: seq<StatUpdate>, rule: CountRule) returns (table: seq<map<string, int>>)
    ensures table == Tally(ids, Empties(|ids|), stats, rule)
  {
    var counts := new map<string, int>[|ids|](_ => map[]);
    ghost var empty := Empties(|ids|);
    assert counts[..] == empty;
    var i := 0;
    while i < |stats|
      invariant 0 <= i <= |stats|
      invariant counts.Length == |ids|
      invariant counts[..] == Tally(ids, empty, stats[..i], rule)
    {
      var u := stats[i];
      TallyStep(ids, empty, stats, i, rule);
      var idx := IndexOf(ids, u.userId);
      if idx != -1 {
        counts[idx] := CountKeys(counts[idx], u.updateKeys, rule);
      }
      i := i + 1;
    }
    assert stats[..i] == stats;
    table := counts[..];
  }

  lemma TallyStep(ids: seq<Id>, table: seq<map<string, int>>, stats: seq<StatUpdate>, i: nat, rule: CountRule)
    requires |table| == |ids| && i < |stats|
    ensures var before := Tally(ids, table, stats[..i], rule);
      var idx := IndexOf(ids, stats[i].userId);
      Tally(ids, table, stats[..i + 1], rule) ==
        if idx == -1 then before else before[idx := BumpAll(before[idx], stats[i].updateKeys, rule)]
  {
    assert stats[..i + 1][..i] == stats[..i];
  }

  /** Every map of the table holds only zero counts. */
  predicate AllZero(t: seq<map<string, int>>) {
    forall i :: 0 <= i < |t| ==> Zero(t[i])
  }

  /** As written, no count ever leaves 0: the first write is 0, and 0 is falsy. */
  lemma {:induction false} WrittenCountsStayZero(ids: seq<Id>, table: seq<map<string, int>>, stats: seq<StatUpdate>)
    requires |table| == |ids| && AllZero(table)
    ensures AllZero(Tally(ids, table, stats, Written))
    decreases |stats|
  {
    if stats != [] {
      var before := Tally(ids, table, stats[..|stats| - 1], Written);
      WrittenCountsStayZero(ids, table, stats[..|stats| - 1]);
      var u := stats[|stats| - 1];
      var idx := IndexOf(ids, u.userId);
      if idx != -1 {
        BumpAllStaysZero(before[idx], u.updateKeys);
      }
    }
  }

  /** Some entry routed to participant `j` carries `key`. */
  predicate Routed(ids: seq<Id>, stats: seq<StatUpdate>, j: nat, key: string) {
    exists k :: 0 <= k < |stats| && IndexOf(ids, stats[k].userId) == j && key in stats[k].updateKeys
  }

  lemma RoutedSnoc(ids: seq<Id>, stats: seq<StatUpdate>, u: StatUpdate, j: nat, key: string)
    ensures Routed(ids, stats + [u], j, key) <==>
      Routed(ids, stats, j, key) || (IndexOf(ids, u.userId) == j && key in u.updateKeys)
  {
    var all := stats + [u];
    if Routed(ids, stats, j, key) {
      var k :| 0 <= k < |stats| && IndexOf(ids, stats[k].userId) == j && key in stats[k].updateKeys;
      assert all[k] == stats[k];
    }
    if Routed(ids, all, j, key) && !(IndexOf(ids, u.userId) == j && key in u.updateKeys) {
      var k :| 0 <= k < |all| && IndexOf(ids, all[k].userId) == j && key in all[k].updateKeys;
      assert k < |stats| && all[k] == stats[k];
    }
    if IndexOf(ids, u.userId) == j && key in u.updateKeys {
      assert all[|stats|] == u;
    }
  }

  /**
   * Under either rule, a participant's map holds exactly its starting keys
   * and the keys of the entries routed to it.
   */
  lemma {:induction false} TallyKeys(
    ids: seq<Id>, table: seq<map<string, int>>, stats: seq<StatUpdate>, rule: CountRule, j: nat, key: string)
    requires |table| == |ids| && j < |ids|
    ensures key in Tally(ids, table, stats, rule)[j] <==> key in table[j] || Routed(ids, stats, j, key)
    decreases |stats|
  {
    if stats != [] {
      var n := |stats| - 1;
      TallyKeys(ids, table, stats[..n], rule, j, key);
      BumpAllKeys(Tally(ids, table, stats[..n], rule)[j], stats[n].updateKeys, rule);
      assert stats == stats[..n] + [stats[n]];
      RoutedSnoc(ids, stats[..n], stats[n], j, key);
    }
  }

  /**
   * One entry changes at most the map of the participant it is routed to:
   * an unmatched entry changes nothing.
   */
  lemma EntryTouchesOnlyItsParticipant(
    ids: seq<Id>, table: seq<map<string, int>>, stats: seq<StatUpdate>, u: StatUpdate, rule: CountRule)
    requires |table| == |ids|
    ensures IndexOf(ids, u.userId) == -1 ==> Tally(ids, table, stats + [u], rule) == Tally(ids, table, stats, rule)
    ensures forall i :: 0 <= i < |ids| && i != IndexOf(ids, u.userId) ==>
      Tally(ids, table, stats + [u], rule)[i] == Tally(ids, table, stats, rule)[i]
  {
    assert (stats + [u])[..|stats|] == stats;
  }

  /** The keys of the entries routed to participant `j`, in entry order. */
  function RoutedKeys(ids: seq<Id>, stats: seq<StatUpdate>, j: nat): (keys: seq<string>)
    ensures forall k :: k in keys ==> exists s :: s in stats && IndexOf(ids, s.userId) == j && k in s.updateKeys
    decreases |stats|
  {
    if stats == [] then []
    else
      var u := stats[|stats| - 1];
      var rest := RoutedKeys(ids, stats[..|stats| - 1], j);
      assert forall s :: s in stats[..|stats| - 1] ==> s in stats;
      rest + (if IndexOf(ids, u.userId) == j then u.updateKeys else [])
  }

  /** As intended, a participant's count for a key is the number of times the key was routed to it. */
  lemma {:induction false} IntendedCounts(ids: seq<Id>, stats: seq<StatUpdate>, j: nat, key: string)
    requires j < |ids|
    ensures CountOf(Tally(ids, Empties(|ids|), stats, Intended)[j], key) == multiset(RoutedKeys(ids, stats, j))[key]
    decreases |stats|
  {
    if stats != [] {
      var n := |stats| - 1;
      var u := stats[n];
      var before := Tally(ids, Empties(|ids|), stats[..n], Intended);
      IntendedCounts(ids, stats[..n], j, key);
      var routed := if IndexOf(ids, u.userId) == j then u.updateKeys else [];
      assert RoutedKeys(ids, stats, j) == RoutedKeys(ids, stats[..n], j) + routed;
      if IndexOf(ids, u.userId) == j {
        BumpAllCounts(before[j], u.updateKeys, key);
      }
    }
  }
}
