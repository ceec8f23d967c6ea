/**
 * The ids a game's score and statistics entries are computed for, as both
 * utils/game/calc-scores-by-game.ts and utils/game/calc-stats-by-game.ts
 * build them: the slots in order president, friend, oppositions, died;
 * falsy values dropped; repeats removed by a `Set`, which keeps the first
 * occurrence of each id.
 */
module GameIds {
  import opened Wrappers
  import opened Games

  /** `!!value` for an id slot: `null`, `undefined` and the empty string are dropped. */
  function Truthy(s: seq<Option<Id>>): (r: seq<Id>)
    ensures forall x :: x in r <==> x != "" && Some(x) in s
  {
    if s == [] then []
    else
      var rest := Truthy(s[1..]);
      assert forall o :: o in s <==> o == s[0] || o in s[1..];
      if s[0].Some? && s[0].value != "" then [s[0].value] + rest else rest
  }

  function SomeAll(ids: seq<Id>): (r: seq<Option<Id>>)
    ensures |r| == |ids|
    ensures forall o :: o in r <==> o.Some? && o.value in ids
  {
    if ids == [] then []
    else
      assert forall x :: x in ids <==> x == ids[0] || x in ids[1..];
      [Some(ids[0])] + SomeAll(ids[1..])
  }

  /** The slot list `[_presidentId, _friendId, ..._oppositionIds, _diedId]` with falsy entries dropped. */
  function Listed(g: Game): (r: seq<Id>)
    ensures forall x :: x in r <==>
      x != "" && (x == g.president || g.friend == Some(x) || x in g.oppositions || g.died == Some(x))
  {
    Truthy([Some(g.president), g.friend] + SomeAll(g.oppositions) + [g.died])
  }

  /** `Array.from(new Set(s))`: each element once, at its first occurrence. */
  function Dedup(s: seq<Id>): (r: seq<Id>)
    ensures forall x :: x in r <==> x in s
    ensures Distinct(r)
    decreases |s|
  {
    if s == [] then []
    else
      var init, last := s[..|s| - 1], s[|s| - 1];
      assert s == init + [last];
      var d := Dedup(init);
      if last in init then d else d + [last]
  }

  /** Where `x` first occurs in `s`. */
  function FirstIndex(s: seq<Id>, x: Id): (k: nat)
    requires x in s
    ensures k < |s| && s[k] == x && x !in s[..k]
  {
    if s[0] == x then 0 else 1 + FirstIndex(s[1..], x)
  }

  lemma {:induction false} FirstIndexExtend(s: seq<Id>, y: Id, x: Id)
    requires x in s
    ensures FirstIndex(s + [y], x) == FirstIndex(s, x)
  {
    var k := FirstIndex(s, x);
    var k' := FirstIndex(s + [y], x);
    assert (s + [y])[k] == x;
    assert (s + [y])[..k] == s[..k];
  }

  /** The result lists the ids in the order of their first occurrence. */
  lemma {:induction false} DedupOrder(s: seq<Id>)
    ensures forall i, j :: 0 <= i < j < |Dedup(s)| ==>
      FirstIndex(s, Dedup(s)[i]) < FirstIndex(s, Dedup(s)[j])
    decreases |s|
  {
    if s != [] {
      var init, last := s[..|s| - 1], s[|s| - 1];
      assert s == init + [last];
      DedupOrder(init);
      var d := Dedup(init);
      forall x | x in init ensures FirstIndex(s, x) == FirstIndex(init, x) {
        FirstIndexExtend(init, last, x);
      }
      if last !in init {
        assert FirstIndex(s, last) == |init| by {
          assert s[|init|] == last;
          assert s[..|init|] == init;
        }
      }
    }
  }

  /** On a list without repeats the `Set` changes nothing. */
  lemma {:induction false} DedupOfDistinct(s: seq<Id>)
    requires Distinct(s)
    ensures Dedup(s) == s
    decreases |s|
  {
    if s != [] {
      var init, last := s[..|s| - 1], s[|s| - 1];
      assert s == init + [last];
      assert Distinct(init);
      DedupOfDistinct(init);
      assert last !in init;
    }
  }

  /** `String(_friendId)`: the text the friend case of a `switch` compares with; `String(null)` without a friend. */
  function FriendText(g: Game): (t: Id)
    ensures g.friend.Some? ==> t == g.friend.value
  {
    if g.friend.Some? then g.friend.value else "null"
  }

  /** The ids, as strings, that each get one entry. */
  function ProvidedIds(g: Game): (r: seq<Id>)
    ensures Distinct(r)
    ensures forall x :: x in r <==>
      x != "" && (x == g.president || g.friend == Some(x) || x in g.oppositions || g.died == Some(x))
  {
    Dedup(Listed(g))
  }

  /** In a well-formed game every slot is filled with a distinct id, so the entries follow the slots. */
  lemma {:induction false} ProvidedIdsOfWellFormed(g: Game)
    requires WellFormed(g)
    ensures ProvidedIds(g) == SlotIds(g)
  {
    var slots := SlotIds(g);
    var listed := [Some(g.president), g.friend] + SomeAll(g.oppositions) + [g.died];
    forall i | 0 <= i < |slots| ensures slots[i] != "" {
      assert HexId(slots[i]);
    }
    TruthyOfFilled(g);
    DedupOfDistinct(slots);
  }

  lemma {:induction false} TruthyOfFilled(g: Game)
    requires forall i :: 0 <= i < |SlotIds(g)| ==> SlotIds(g)[i] != ""
    ensures Listed(g) == SlotIds(g)
  {
    var slots := SlotIds(g);
    var opts := SomeAll(g.oppositions);
    var head := [Some(g.president), g.friend];
    assert g.president == slots[0];
    forall i | 0 <= i < |g.oppositions| ensures g.oppositions[i] != "" {
      assert g.oppositions[i] == slots[1 + |OptionList(g.friend)| + i];
    }
    if g.friend.Some? { assert g.friend.value == slots[1]; }
    if g.died.Some? { assert g.died.value == slots[|slots| - 1]; }
    TruthyAppend(head + opts, [g.died]);
    TruthyAppend(head, opts);
    TruthySome(g.oppositions);
    TruthyPair(g.president, g.friend);
    TruthyOne(g.died);
    assert Listed(g) == Truthy(head + opts + [g.died]);
  }

  lemma TruthyPair(p: Id, f: Option<Id>)
    requires p != "" && (f.Some? ==> f.value != "")
    ensures Truthy([Some(p), f]) == [p] + OptionList(f)
  {
    assert [Some(p), f][1..] == [f];
    assert [f][1..] == [];
    assert Truthy([f]) == OptionList(f);
  }

  lemma TruthyOne(d: Option<Id>)
    requires d.Some? ==> d.value != ""
    ensures Truthy([d]) == OptionList(d)
  {
    assert [d][1..] == [];
  }

  lemma {:induction false} TruthyAppend(a: seq<Option<Id>>, b: seq<Option<Id>>)
    ensures Truthy(a + b) == Truthy(a) + Truthy(b)
    decreases |a|
  {
    if a != [] {
      assert (a + b)[0] == a[0];
      assert (a + b)[1..] == a[1..] + b;
      TruthyAppend(a[1..], b);
      assert a != [] && a + b != [];
      if a[0].Some? && a[0].value != "" {
        calc {
          Truthy(a + b);
          [a[0].value] + Truthy(a[1..] + b);
          [a[0].value] + (Truthy(a[1..]) + Truthy(b));
          ([a[0].value] + Truthy(a[1..])) + Truthy(b);
        }
      } else {
        calc {
          Truthy(a + b);
          Truthy(a[1..] + b);
          Truthy(a[1..]) + Truthy(b);
        }
      }
    } else {
      assert a + b == b;
    }
  }

  lemma {:induction false} TruthySome(ids: seq<Id>)
    requires forall i :: 0 <= i < |ids| ==> ids[i] != ""
    ensures Truthy(SomeAll(ids)) == ids
    decreases |ids|
  {
    if ids != [] {
      assert SomeAll(ids)[1..] == SomeAll(ids[1..]);
      TruthySome(ids[1..]);
    }
  }
}
