/**
 * `calcStatsByGame` (utils/game/calc-stats-by-game.ts): for every id a game
 * names, the list of user-record counters the game's approval is to bump.
 */
module Stats {
  import opened Wrappers
  import opened Games
  import opened GameIds

  /** One element of the result: an id and the counter keys for it. */
  datatype StatUpdate = StatUpdate(userId: Id, updateKeys: seq<string>)

  /** `String(_diedId)`: the parameter is optional, so an absent died id reads as `undefined`. */
  function DiedText(g: Game): (t: Id)
    ensures g.died.Some? ==> t == g.died.value
  {
    if g.died.Some? then g.died.value else "undefined"
  }

  const DIED_TYPE_ERROR := "type must be 6M with _diedId."
  const UNREACHABLE_ERROR := "Unreachable Line"
  const DIED_KEY := "stats6M.died"

  function WinLose(win: bool): string {
    if win then "win" else "lose"
  }

  /**
   * How the keys are spelled: as the function writes them, or as the counters
   * of the stored user record are named (types/user.ts).
   */
  datatype Spelling = AsWritten | UserRecord

  function StatsPrefix(t: GameType): (p: string)
    ensures |p| == 7
  {
    "stats" + TypeText(t)
  }

  /** The template `stats${type}.${group}.${leaf}`. */
  function Counter(t: GameType, group: string, leaf: string): (k: string)
    ensures |k| == 9 + |group| + |leaf|
  {
    StatsPrefix(t) + "." + group + "." + leaf
  }

  /** Where the group and the leaf land in a key. */
  lemma CounterChars(t: GameType, group: string, leaf: string)
    ensures forall i :: 0 <= i < |group| ==> Counter(t, group, leaf)[8 + i] == group[i]
    ensures forall i :: 0 <= i < |leaf| ==> Counter(t, group, leaf)[9 + |group| + i] == leaf[i]
  {
  }

  /** The president's first key; as written it is the literal `prefix.win` or `prefix.lose`. */
  function PresidentOutcomeKey(g: Game, sp: Spelling): string {
    match sp
    case AsWritten => "prefix." + WinLose(g.win)
    case UserRecord => Counter(g.gameType, "president", WinLose(g.win))
  }

  /** The group of the no-giru and run counters. */
  function BonusGroup(sp: Spelling): string {
    match sp
    case AsWritten => "president"
    case UserRecord => "optionalStats"
  }

  /** The `keys` the president branch pushes: no-giru first, then the kind of run. */
  function BonusKeys(g: Game, sp: Spelling): (keys: seq<string>)
    ensures |keys| <= 2
  {
    var t, group := g.gameType, BonusGroup(sp);
    if g.isNogi then
      [Counter(t, group, "nogi")] + (if g.isRun then [Counter(t, group, if g.win then "nogiRun" else "nogiBackRun")] else [])
    else if g.isRun then
      [Counter(t, group, if g.win then "run" else "backRun")]
    else
      []
  }

  /**
   * The president branch's local array, built as the source builds it, by
   * pushing onto an empty list under the no-giru and run conditions.
   */
  method BuildBonusKeys(g: Game) returns (keys: seq<string>)
    ensures keys == BonusKeys(g, AsWritten)
    ensures |keys| == (if g.isNogi && g.isRun then 2 else if g.isNogi || g.isRun then 1 else 0)
    ensures g.isNogi ==> keys[0] == Counter(g.gameType, "president", "nogi")
  {
    keys := [];
    if g.isNogi {
      keys := keys + [Counter(g.gameType, "president", "nogi")];
      if g.isRun {
        keys := keys + [Counter(g.gameType, "president", if g.win then "nogiRun" else "nogiBackRun")];
      }
    } else if g.isRun {
      keys := keys + [Counter(g.gameType, "president", if g.win then "run" else "backRun")];
    }
  }

  function PresidentKeys(g: Game, sp: Spelling): (keys: seq<string>)
    ensures 1 <= |keys| <= 3
  {
    [PresidentOutcomeKey(g, sp)] + BonusKeys(g, sp)
  }

  function FriendKey(g: Game): string {
    Counter(g.gameType, "friend", WinLose(g.win))
  }

  /** An opposition's key records the complement of the president's outcome (in the group `oppsite` as written). */
  function OppositionKey(g: Game, sp: Spelling): string {
    var group := match sp case AsWritten => "oppsite" case UserRecord => "opposite";
    Counter(g.gameType, group, WinLose(!g.win))
  }

  /** The `switch` for one id: president, friend, died (which throws outside six-member games), then oppositions. */
  function StatKeys(g: Game, userId: Id, sp: Spelling): (r: Result<seq<string>, string>)
    ensures r.Success? ==> 1 <= |r.value| <= 3
    ensures r.Failure? ==> r.error == DIED_TYPE_ERROR || r.error == UNREACHABLE_ERROR
    ensures r.Failure? && r.error == DIED_TYPE_ERROR ==> userId == DiedText(g) && g.gameType != SixM
  {
    if userId == g.president then Success(PresidentKeys(g, sp))
    else if userId == FriendText(g) then Success([FriendKey(g)])
    else if userId == DiedText(g) then
      if g.gameType != SixM then Failure(DIED_TYPE_ERROR) else Success([DIED_KEY])
    else if userId in g.oppositions then Success([OppositionKey(g, sp)])
    else Failure(UNREACHABLE_ERROR)
  }

  /** `ids.map(...)`, where the first id whose case throws ends the whole call with that error. */
  function Collect(g: Game, ids: seq<Id>, sp: Spelling): (r: Result<seq<StatUpdate>, string>)
    ensures r.Success? <==> forall k :: 0 <= k < |ids| ==> StatKeys(g, ids[k], sp).Success?
    ensures r.Success? ==> |r.value| == |ids| && forall k :: 0 <= k < |ids| ==>
      r.value[k].userId == ids[k] && r.value[k].updateKeys == StatKeys(g, ids[k], sp).value
    ensures r.Failure? ==> exists k :: 0 <= k < |ids| && StatKeys(g, ids[k], sp) == Failure(r.error)
    decreases |ids|
  {
    if ids == [] then Success([])
    else
      match StatKeys(g, ids[0], sp)
      case Failure(e) => Failure(e)
      case Success(keys) =>
        match Collect(g, ids[1..], sp)
        case Failure(e) =>
          assert exists k :: 0 <= k < |ids[1..]| && StatKeys(g, ids[1..][k], sp) == Failure(e);
          var k :| 0 <= k < |ids[1..]| && StatKeys(g, ids[1..][k], sp) == Failure(e);
          assert StatKeys(g, ids[k + 1], sp) == Failure(e);
          Failure(e)
        case Success(rest) =>
          assert forall k :: 1 <= k < |ids| ==> ids[k] == ids[1..][k - 1];
          Success([StatUpdate(ids[0], keys)] + rest)
  }

  /** `calcStatsByGame(game)`: one entry per provided id, in order; only the died-type error escapes. */
  function CalcStatsByGame(g: Game): (r: Result<seq<StatUpdate>, string>)
    ensures r.Success? ==> |r.value| == |ProvidedIds(g)|
    ensures r.Success? ==> forall k :: 0 <= k < |r.value| ==> r.value[k].userId == ProvidedIds(g)[k]
    ensures r.Failure? ==> r.error == DIED_TYPE_ERROR
  {
    StatsFailures(g, AsWritten);
    Collect(g, ProvidedIds(g), AsWritten)
  }

  /** Every id the game provides matches one of the cases, so the `Unreachable Line` throw never happens. */
  lemma {:induction false} EveryIdHasARole(g: Game, userId: Id, sp: Spelling)
    requires userId in ProvidedIds(g)
    ensures StatKeys(g, userId, sp) != Failure(UNREACHABLE_ERROR)
    ensures StatKeys(g, userId, sp).Failure? <==>
      userId != g.president && userId != FriendText(g) && userId == DiedText(g) && g.gameType != SixM
  {
  }

  /** What the died case throws is not what the fallthrough throws. */
  lemma ErrorsDiffer()
    ensures DIED_TYPE_ERROR != UNREACHABLE_ERROR
  {
    assert DIED_TYPE_ERROR[0] != UNREACHABLE_ERROR[0];
  }

  /**
   * A call that throws throws the died-type error, outside a six-member
   * game, for an id that is the died id's text and holds no earlier role.
   * Without a died id that text is `undefined`.
   */
  lemma {:induction false} StatsFailureCause(g: Game, sp: Spelling)
    requires Collect(g, ProvidedIds(g), sp).Failure?
    ensures Collect(g, ProvidedIds(g), sp).error == DIED_TYPE_ERROR
    ensures g.gameType != SixM && DiedText(g) in ProvidedIds(g)
    ensures DiedText(g) != g.president && DiedText(g) != FriendText(g)
  {
    var ids := ProvidedIds(g);
    var e := Collect(g, ids, sp).error;
    var k :| 0 <= k < |ids| && StatKeys(g, ids[k], sp) == Failure(e);
    EveryIdHasARole(g, ids[k], sp);
    ErrorsDiffer();
  }

  /** The call throws exactly in that case, and only with the died-type message. */
  lemma {:induction false} StatsFailures(g: Game, sp: Spelling)
    ensures Collect(g, ProvidedIds(g), sp).Failure? <==>
      && g.gameType != SixM && DiedText(g) in ProvidedIds(g)
      && DiedText(g) != g.president && DiedText(g) != FriendText(g)
    ensures Collect(g, ProvidedIds(g), sp).Failure? ==> Collect(g, ProvidedIds(g), sp).error == DIED_TYPE_ERROR
  {
    var ids := ProvidedIds(g);
    if Collect(g, ids, sp).Failure? {
      StatsFailureCause(g, sp);
    }
  }

  /** The text `undefined` is not a hex id, so no id of a well-formed game reads as a missing died id. */
  lemma {:induction false} WellFormedSucceeds(g: Game, sp: Spelling)
    requires WellFormed(g)
    ensures Collect(g, ProvidedIds(g), sp).Success?
  {
    StatsFailures(g, sp);
    ProvidedIdsOfWellFormed(g);
    if DiedText(g) in SlotIds(g) {
      var k :| 0 <= k < |SlotIds(g)| && SlotIds(g)[k] == DiedText(g);
      assert HexId(SlotIds(g)[k]);
    }
  }

  /** The keys of each role, with precedence president, friend, died, opposition. */
  lemma {:induction false} RoleKeys(g: Game, k: nat)
    requires CalcStatsByGame(g).Success? && k < |CalcStatsByGame(g).value|
    ensures var u := CalcStatsByGame(g).value[k];
      && u.userId == ProvidedIds(g)[k]
      && (u.userId == g.president ==>
            u.updateKeys == ["prefix." + WinLose(g.win)] + BonusKeys(g, AsWritten))
      && (u.userId != g.president && u.userId == FriendText(g) ==>
            u.updateKeys == [Counter(g.gameType, "friend", WinLose(g.win))])
      && (u.userId != g.president && u.userId != FriendText(g) && u.userId == DiedText(g) ==>
            g.gameType == SixM && u.updateKeys == ["stats6M.died"])
      && (u.userId != g.president && u.userId != FriendText(g) && u.userId != DiedText(g) ==>
            u.userId in g.oppositions && u.updateKeys == [Counter(g.gameType, "oppsite", WinLose(!g.win))])
  {
    EveryIdHasARole(g, ProvidedIds(g)[k], AsWritten);
  }

  /** The president's one to three keys: the outcome, then no-giru, then the kind of run. */
  lemma PresidentKeyList(g: Game)
    ensures var keys := PresidentKeys(g, AsWritten); var t := g.gameType;
      && keys[0] == (if g.win then "prefix.win" else "prefix.lose")
      && |keys| == 1 + (if g.isNogi then 1 else 0) + (if g.isRun then 1 else 0)
      && (g.isNogi ==> keys[1] == Counter(t, "president", "nogi"))
      && (g.isNogi && g.isRun ==> keys[2] == Counter(t, "president", if g.win then "nogiRun" else "nogiBackRun"))
      && (!g.isNogi && g.isRun ==> keys[1] == Counter(t, "president", if g.win then "run" else "backRun"))
  {
  }

  /** The counters of the stored user record (types/user.ts), as dotted paths. */
  function UserCounters(t: GameType): set<string> {
    {Counter(t, "president", "win"), Counter(t, "president", "lose"),
     Counter(t, "friend", "win"), Counter(t, "friend", "lose"),
     Counter(t, "opposite", "win"), Counter(t, "opposite", "lose"),
     Counter(t, "optionalStats", "run"), Counter(t, "optionalStats", "backRun"),
     Counter(t, "optionalStats", "nogi"), Counter(t, "optionalStats", "nogiRun"),
     Counter(t, "optionalStats", "nogiBackRun")}
    + (if t == SixM then {DIED_KEY} else {})
  }

  /** Characters that tell the user record's counters apart from the keys the source writes. */
  predicate Signed(c: string) {
    || c == DIED_KEY
    || (&& |c| >= 18
        && !(c[8] == 'o' && c[10] == 'p' && c[11] == 's')
        && (c[8] == 'p' ==> |c| > 18 && (c[18] == 'w' || c[18] == 'l')))
  }

  lemma CounterSignature(t: GameType)
    ensures forall c :: c in UserCounters(t) ==> Signed(c)
  {
    var groups := ["president", "friend", "opposite", "optionalStats"];
    var leaves := ["win", "lose", "run", "backRun", "nogi", "nogiRun", "nogiBackRun"];
    forall gi, li | 0 <= gi < |groups| && 0 <= li < |leaves| {
      CounterChars(t, groups[gi], leaves[li]);
    }
  }

  /** As written, the president's outcome key, the bonus keys and the opposition keys name no counter of the user record. */
  lemma {:induction false} AsWrittenKeysMissCounters(g: Game)
    ensures PresidentOutcomeKey(g, AsWritten) !in UserCounters(g.gameType)
    ensures OppositionKey(g, AsWritten) !in UserCounters(g.gameType)
    ensures forall key :: key in BonusKeys(g, AsWritten) ==> key !in UserCounters(g.gameType)
  {
    OutcomeKeyMisses(g);
    OppositionKeyMisses(g);
    forall key | key in BonusKeys(g, AsWritten) ensures key !in UserCounters(g.gameType) {
      BonusKeyMisses(g, key);
    }
  }

  lemma OutcomeKeyMisses(g: Game)
    ensures PresidentOutcomeKey(g, AsWritten) !in UserCounters(g.gameType)
  {
    var k := PresidentOutcomeKey(g, AsWritten);
    assert !Signed(k) by {
      assert |k| <= 12;
      assert k[0] != DIED_KEY[0];
    }
    CounterSignature(g.gameType);
  }

  lemma OppositionKeyMisses(g: Game)
    ensures OppositionKey(g, AsWritten) !in UserCounters(g.gameType)
  {
    var o := OppositionKey(g, AsWritten);
    assert !Signed(o) by {
      CounterChars(g.gameType, "oppsite", WinLose(!g.win));
      assert |o| > |DIED_KEY|;
    }
    CounterSignature(g.gameType);
  }

  lemma BonusKeyMisses(g: Game, key: string)
    requires key in BonusKeys(g, AsWritten)
    ensures key !in UserCounters(g.gameType)
  {
    var leaf :| leaf in ["nogi", "nogiRun", "nogiBackRun", "run", "backRun"]
      && key == Counter(g.gameType, "president", leaf);
    PresidentBonusMisses(g.gameType, leaf);
  }

  lemma PresidentBonusMisses(t: GameType, leaf: string)
    requires leaf in ["nogi", "nogiRun", "nogiBackRun", "run", "backRun"]
    ensures Counter(t, "president", leaf) !in UserCounters(t)
  {
    var key := Counter(t, "president", leaf);
    assert !Signed(key) by {
      assert leaf[0] != 'w' && leaf[0] != 'l';
      CounterChars(t, "president", leaf);
      assert key[8] == 'p' && key[18] == leaf[0] && |key| > |DIED_KEY|;
    }
    CounterSignature(t);
  }

  function CalcStatsIntended(g: Game): Result<seq<StatUpdate>, string> {
    Collect(g, ProvidedIds(g), UserRecord)
  }

  /** Spelled after the user record, each case's keys name counters of the user record. */
  lemma IntendedCaseKeys(g: Game, userId: Id)
    requires StatKeys(g, userId, UserRecord).Success?
    ensures forall key :: key in StatKeys(g, userId, UserRecord).value ==> key in UserCounters(g.gameType)
  {
  }

  /** Spelled after the user record, every key of every entry names one of the user's counters. */
  lemma {:induction false} IntendedKeysAreCounters(g: Game)
    requires CalcStatsIntended(g).Success?
    ensures forall k, j :: 0 <= k < |CalcStatsIntended(g).value| && 0 <= j < |CalcStatsIntended(g).value[k].updateKeys| ==>
      CalcStatsIntended(g).value[k].updateKeys[j] in UserCounters(g.gameType)
  {
    var r := CalcStatsIntended(g).value;
    forall k, j | 0 <= k < |r| && 0 <= j < |r[k].updateKeys|
      ensures r[k].updateKeys[j] in UserCounters(g.gameType)
    {
      IntendedCaseKeys(g, ProvidedIds(g)[k]);
    }
  }
}
