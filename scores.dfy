/**
 * `calcScoresByGame` (utils/game/calc-scores-by-game.ts): one game's score
 * change and role marker for every id the game names.
 */
module Scores {
  import opened Wrappers
  import opened Games
  import opened GameIds

  /** One element of the result: the id, its score change and its role markers. */
  datatype ScoreEntry = ScoreEntry(userId: Id, score: int, president: int, friend: int, opposition: int)

  /** `win ? 1 : -1`: the president's side's outcome as a sign. */
  function Outcome(win: bool): (s: int)
    ensures s == 1 || s == -1
    ensures (s > 0) == win
  {
    if win then 1 else -1
  }

  /** The signed base score `(win ? 1 : -1) * (isNogi ? 2 : 1) * (isRun ? 2 : 1)`. */
  function BaseScore(g: Game): (b: int)
    ensures (b > 0) == g.win
    ensures b in {1, 2, 4, -1, -2, -4}
  {
    Outcome(g.win) * (if g.isNogi then 2 else 1) * (if g.isRun then 2 else 1)
  }

  /** No-giru and run each double the base score, independently of each other. */
  lemma BonusesDouble(g: Game)
    ensures BaseScore(g.(isNogi := true)) == 2 * BaseScore(g.(isNogi := false))
    ensures BaseScore(g.(isRun := true)) == 2 * BaseScore(g.(isRun := false))
    ensures BaseScore(g.(isNogi := false, isRun := false)) == Outcome(g.win)
  {
  }

  /** `noFriend` as the source computes it: the friend id is the president id. */
  function NoFriend(g: Game): bool {
    g.friend == Some(g.president)
  }

  /**
   * The `switch` for one id: the president case, then the friend case, then
   * membership in the oppositions; anyone else (the died player) gets zeros.
   * `noFriend` picks the president's multiplier.
   */
  function Entry(g: Game, userId: Id, noFriend: bool): (e: ScoreEntry)
    ensures e.userId == userId && OneRole(e)
    ensures e.score == 0 <==> e.president == 0 && e.friend == 0 && e.opposition == 0
  {
    var base := BaseScore(g);
    if userId == g.president then
      ScoreEntry(userId, base * (if noFriend then 4 else 2), Outcome(g.win), 0, 0)
    else if userId == FriendText(g) then
      ScoreEntry(userId, base, 0, Outcome(g.win), 0)
    else if userId in g.oppositions then
      ScoreEntry(userId, -base, 0, 0, -Outcome(g.win))
    else
      ScoreEntry(userId, 0, 0, 0, 0)
  }

  /** At most one role marker is set, and a set marker is 1 or -1. */
  predicate OneRole(e: ScoreEntry) {
    && (e.president == 0 || e.friend == 0)
    && (e.president == 0 || e.opposition == 0)
    && (e.friend == 0 || e.opposition == 0)
    && e.president in {-1, 0, 1} && e.friend in {-1, 0, 1} && e.opposition in {-1, 0, 1}
  }

  /** `providedIds.map(...)`. */
  function EntriesFor(g: Game, ids: seq<Id>, noFriend: bool): (r: seq<ScoreEntry>)
    ensures |r| == |ids|
    ensures forall i :: 0 <= i < |r| ==> r[i].userId == ids[i] && OneRole(r[i])
    decreases |ids|
  {
    if ids == [] then [] else [Entry(g, ids[0], noFriend)] + EntriesFor(g, ids[1..], noFriend)
  }

  /** `calcScoresByGame(game)`: one entry per distinct non-empty id, in first-occurrence order. */
  function CalcScoresByGame(g: Game): (r: seq<ScoreEntry>)
    ensures |r| == |ProvidedIds(g)|
    ensures forall i :: 0 <= i < |r| ==> r[i].userId == ProvidedIds(g)[i] && OneRole(r[i])
    ensures forall i, j :: 0 <= i < j < |r| ==> r[i].userId != r[j].userId
  {
    EntriesFor(g, ProvidedIds(g), NoFriend(g))
  }

  lemma {:induction false} EntriesForAt(g: Game, ids: seq<Id>, noFriend: bool, i: nat)
    requires i < |ids|
    ensures EntriesFor(g, ids, noFriend)[i] == Entry(g, ids[i], noFriend)
    decreases |ids|
  {
    if i > 0 {
      EntriesForAt(g, ids[1..], noFriend, i - 1);
    }
  }

  /**
   * The entry of each role, with precedence president, friend, opposition:
   * an id in several slots is scored under the first of them only.
   */
  lemma {:induction false} RoleEntries(g: Game, i: nat)
    requires i < |CalcScoresByGame(g)|
    ensures var e := CalcScoresByGame(g)[i];
      && (e.userId == g.president ==>
            e.score == BaseScore(g) * (if g.friend == Some(g.president) then 4 else 2)
            && e.president == Outcome(g.win) && e.friend == 0 && e.opposition == 0)
      && (e.userId != g.president && e.userId == FriendText(g) ==>
            e.score == BaseScore(g) && e.friend == Outcome(g.win) && e.president == 0 && e.opposition == 0)
      && (e.userId != g.president && e.userId != FriendText(g) && e.userId in g.oppositions ==>
            e.score == -BaseScore(g) && e.opposition == -Outcome(g.win) && e.president == 0 && e.friend == 0)
      && (e.userId != g.president && e.userId != FriendText(g) && e.userId !in g.oppositions ==>
            e.score == 0 && e.president == 0 && e.friend == 0 && e.opposition == 0)
  {
    EntriesForAt(g, ProvidedIds(g), NoFriend(g), i);
  }

  /** A null friend gives the president twice the base, not four times. */
  lemma {:induction false} NullFriendDoubles(g: Game, i: nat)
    requires g.friend.None?
    requires i < |CalcScoresByGame(g)| && CalcScoresByGame(g)[i].userId == g.president
    ensures CalcScoresByGame(g)[i].score == 2 * BaseScore(g)
  {
    RoleEntries(g, i);
  }

  /** Without a friend, the friend case compares with the text `null`, so an id spelled `null` is scored as the friend. */
  lemma NullTextQuirk()
    ensures var g := Game(FiveM, true, false, false, "p", None, ["null", "a", "b", "c"], None);
      Entry(g, "null", NoFriend(g)).friend == 1 && Entry(g, "null", NoFriend(g)).score == 1
  {
  }

  /** The sum of the score changes. */
  function Total(r: seq<ScoreEntry>): int {
    if r == [] then 0 else r[0].score + Total(r[1..])
  }

  lemma {:induction false} TotalOfEntriesAppend(g: Game, a: seq<Id>, b: seq<Id>, noFriend: bool)
    ensures Total(EntriesFor(g, a + b, noFriend)) == Total(EntriesFor(g, a, noFriend)) + Total(EntriesFor(g, b, noFriend))
    decreases |a|
  {
    if a == [] {
      assert a + b == b;
    } else {
      assert (a + b)[0] == a[0];
      assert (a + b)[1..] == a[1..] + b;
      TotalOfEntriesAppend(g, a[1..], b, noFriend);
    }
  }

  /** Oppositions that hold no earlier role each lose the base score. */
  lemma {:induction false} OppositionsTotal(g: Game, ops: seq<Id>, noFriend: bool)
    requires forall k :: 0 <= k < |ops| ==> ops[k] in g.oppositions && ops[k] != g.president && ops[k] != FriendText(g)
    ensures Total(EntriesFor(g, ops, noFriend)) == -(|ops| * BaseScore(g))
    decreases |ops|
  {
    if ops != [] {
      OppositionsTotal(g, ops[1..], noFriend);
    }
  }

  /** What the slots of a well-formed game do not share. */
  lemma {:induction false} WellFormedSlots(g: Game)
    requires WellFormed(g)
    ensures g.friend.Some? ==> g.friend.value != g.president
    ensures forall k :: 0 <= k < |g.oppositions| ==>
      g.oppositions[k] != g.president && g.oppositions[k] != FriendText(g)
    ensures g.died.Some? ==>
      g.died.value != g.president && g.died.value != FriendText(g) && g.died.value !in g.oppositions
  {
    var slots := SlotIds(g);
    var f := OptionList(g.friend);
    assert HexId(slots[0]);
    if g.friend.Some? { assert slots[1] == g.friend.value; }
    forall k | 0 <= k < |g.oppositions|
      ensures g.oppositions[k] != g.president && g.oppositions[k] != FriendText(g)
    {
      assert slots[1 + |f| + k] == g.oppositions[k];
      assert HexId(slots[1 + |f| + k]);
    }
    if g.died.Some? {
      var dv := g.died.value;
      assert slots[|slots| - 1] == dv;
      assert HexId(dv);
      forall k | 0 <= k < |g.oppositions| ensures g.oppositions[k] != dv {
        assert slots[1 + |f| + k] == g.oppositions[k];
      }
    }
  }

  lemma TotalOfOne(g: Game, x: Id, noFriend: bool)
    ensures Total(EntriesFor(g, [x], noFriend)) == Entry(g, x, noFriend).score
  {
    assert [x][1..] == [];
  }

  /** The changes add up to the shares of the president, the friend and the oppositions when every slot holds its own id. */
  lemma {:induction false} TotalOfSlots(g: Game, noFriend: bool)
    requires g.friend.Some? ==> g.friend.value != g.president
    requires forall k :: 0 <= k < |g.oppositions| ==>
      g.oppositions[k] != g.president && g.oppositions[k] != FriendText(g)
    requires g.died.Some? ==>
      g.died.value != g.president && g.died.value != FriendText(g) && g.died.value !in g.oppositions
    ensures Total(EntriesFor(g, SlotIds(g), noFriend)) ==
      BaseScore(g) * (if noFriend then 4 else 2)
      + (if g.friend.Some? then BaseScore(g) else 0)
      - |g.oppositions| * BaseScore(g)
  {
    var b := BaseScore(g);
    var f, d := OptionList(g.friend), OptionList(g.died);
    var head := [g.president] + f;
    assert SlotIds(g) == head + g.oppositions + d;
    TotalOfEntriesAppend(g, head + g.oppositions, d, noFriend);
    TotalOfEntriesAppend(g, head, g.oppositions, noFriend);
    TotalOfEntriesAppend(g, [g.president], f, noFriend);
    var tp := Total(EntriesFor(g, [g.president], noFriend));
    var tf := Total(EntriesFor(g, f, noFriend));
    var to := Total(EntriesFor(g, g.oppositions, noFriend));
    var td := Total(EntriesFor(g, d, noFriend));
    assert Total(EntriesFor(g, SlotIds(g), noFriend)) == tp + tf + to + td;
    TotalOfOne(g, g.president, noFriend);
    assert tp == b * (if noFriend then 4 else 2);
    OppositionsTotal(g, g.oppositions, noFriend);
    assert to == -(|g.oppositions| * b);
    if g.friend.Some? {
      TotalOfOne(g, g.friend.value, noFriend);
      assert tf == b;
    } else {
      assert tf == 0;
    }
    if g.died.Some? {
      TotalOfOne(g, g.died.value, noFriend);
    }
    assert td == 0;
  }

  /** In a well-formed game the changes add up to the president's, the friend's and the oppositions' shares. */
  lemma {:induction false} TotalOfWellFormed(g: Game, noFriend: bool)
    requires WellFormed(g)
    ensures Total(EntriesFor(g, ProvidedIds(g), noFriend)) ==
      BaseScore(g) * (if noFriend then 4 else 2)
      + (if g.friend.Some? then BaseScore(g) else 0)
      - |g.oppositions| * BaseScore(g)
  {
    ProvidedIdsOfWellFormed(g);
    WellFormedSlots(g);
    TotalOfSlots(g, noFriend);
  }

  /** With a friend other than the president (and so three oppositions), the scores add up to zero. */
  lemma {:induction false} ZeroSumWithFriend(g: Game)
    requires WellFormed(g) && g.friend.Some?
    ensures Total(CalcScoresByGame(g)) == 0
  {
    assert SlotIds(g)[0] != SlotIds(g)[1];
    TotalOfWellFormed(g, NoFriend(g));
  }

  /** With a null friend (and so four oppositions), the president gets only twice the base and the sum is -2 * base. */
  lemma {:induction false} NullFriendNotZeroSum(g: Game)
    requires WellFormed(g) && g.friend.None?
    ensures Total(CalcScoresByGame(g)) == -2 * BaseScore(g) != 0
  {
    TotalOfWellFormed(g, NoFriend(g));
  }

  /** The president's multiplier as the data model describes it: four when there is no friend. */
  function CalcScoresIntended(g: Game): (r: seq<ScoreEntry>)
    ensures |r| == |ProvidedIds(g)|
    ensures forall i :: 0 <= i < |r| ==> r[i].userId == ProvidedIds(g)[i] && OneRole(r[i])
  {
    EntriesFor(g, ProvidedIds(g), g.friend.None?)
  }

  /** With `noFriend` meaning a null friend, every well-formed game is zero-sum. */
  lemma {:induction false} IntendedZeroSum(g: Game)
    requires WellFormed(g)
    ensures Total(CalcScoresIntended(g)) == 0
  {
    TotalOfWellFormed(g, g.friend.None?);
  }

  /** The two definitions differ only for the president of a game without a friend. */
  lemma {:induction false} IntendedDiffersOnlyWithoutFriend(g: Game)
    requires WellFormed(g) && g.friend.Some?
    ensures CalcScoresIntended(g) == CalcScoresByGame(g)
  {
    assert SlotIds(g)[0] != SlotIds(g)[1];
    assert NoFriend(g) == g.friend.None?;
  }
}
