/**
 * One participant's count map in the approval of a room
 * (pages/api/admin/room.ts, lines 62-65): the keys of a stat entry are
 * applied one after the other, each under the rule of lines 63-64.
 */
module Counts {
  /**
   * The rule for one key of a matched entry. As written, a truthy count goes
   * up by one and any other count, a missing one included, is set to 0; as
   * intended, the count goes up by one from 0.
   */
  datatype CountRule = Written | Intended

  /** A missing count reads as 0. */
  function CountOf(m: map<string, int>, key: string): int {
    if key in m then m[key] else 0
  }

  /** One key of an entry counted into a map under the rule. */
  function Bump(m: map<string, int>, key: string, rule: CountRule): (m': map<string, int>)
    ensures forall k :: k in m' <==> k in m || k == key
    ensures forall k :: k in m && k != key ==> m'[k] == m[k]
    ensures rule == Written ==> m'[key] == (if CountOf(m, key) != 0 then CountOf(m, key) + 1 else 0)
    ensures rule == Intended ==> m'[key] == CountOf(m, key) + 1
  {
    match rule
    case Written => if key in m && m[key] != 0 then m[key := m[key] + 1] else m[key := 0]
    case Intended => m[key := CountOf(m, key) + 1]
  }

  /** `updateKeys.forEach(...)` on one count map. */
  function BumpAll(m: map<string, int>, keys: seq<string>, rule: CountRule): map<string, int> {
    if keys == [] then m
    else Bump(BumpAll(m, keys[..|keys| - 1], rule), keys[|keys| - 1], rule)
  }

  /** Under either rule, the map's keys become its old keys plus the entry's keys. */
  lemma {:induction false} BumpAllKeys(m: map<string, int>, keys: seq<string>, rule: CountRule)
    ensures forall k :: k in BumpAll(m, keys, rule) <==> k in m || k in keys
    decreases |keys|
  {
    if keys != [] {
      var n := |keys| - 1;
      BumpAllKeys(m, keys[..n], rule);
      assert keys == keys[..n] + [keys[n]];
    }
  }

  /**
   * `updateKeys.forEach(...)`: the keys of one entry applied, one after the
   * other, to the count map of the participant the entry is routed to.
   */
  method CountKeys(start: map<string, int>, keys: seq<string>, rule: CountRule) returns (m: map<string, int>)
    ensures m == BumpAll(start, keys, rule)
  {
    m := start;
    var t := 0;
    while t < |keys|
      invariant 0 <= t <= |keys|
      invariant m == BumpAll(start, keys[..t], rule)
    {
      var key := keys[t];
      BumpAllStep(start, keys, t, rule);
      ghost var before := m;
      if rule == Intended {
        m := m[key := CountOf(m, key) + 1];
        assert m == Bump(before, key, Intended);
      } else if key in m && m[key] != 0 {
        m := m[key := m[key] + 1];
        assert m == Bump(before, key, Written);
      } else {
        m := m[key := 0];
        assert m == Bump(before, key, Written);
      }
      t := t + 1;
    }
    assert keys[..t] == keys;
  }

  lemma BumpAllStep(start: map<string, int>, keys: seq<string>, t: nat, rule: CountRule)
    requires t < |keys|
    ensures BumpAll(start, keys[..t + 1], rule) == Bump(BumpAll(start, keys[..t], rule), keys[t], rule)
  {
    assert keys[..t + 1][..t] == keys[..t];
  }

  /** Every count is 0. */
  predicate Zero(m: map<string, int>) {
    forall k :: k in m ==> m[k] == 0
  }

  lemma {:induction false} BumpAllStaysZero(m: map<string, int>, keys: seq<string>)
    requires Zero(m)
    ensures Zero(BumpAll(m, keys, Written))
    decreases |keys|
  {
    if keys != [] {
      BumpAllStaysZero(m, keys[..|keys| - 1]);
    }
  }

  lemma {:induction false} BumpAllCounts(m: map<string, int>, keys: seq<string>, key: string)
    ensures CountOf(BumpAll(m, keys, Intended), key) == CountOf(m, key) + multiset(keys)[key]
    decreases |keys|
  {
    if keys != [] {
      var n := |keys| - 1;
      BumpAllCounts(m, keys[..n], key);
      assert keys == keys[..n] + [keys[n]];
      assert multiset(keys) == multiset(keys[..n]) + multiset{keys[n]};
    }
  }

  /** A key routed twice to one participant: counted 0 as written, 2 as intended. */
  lemma RepeatedKeyCounts()
    ensures BumpAll(map[], ["stats5M.friend.win", "stats5M.friend.win"], Written) == map["stats5M.friend.win" := 0]
    ensures BumpAll(map[], ["stats5M.friend.win", "stats5M.friend.win"], Intended) == map["stats5M.friend.win" := 2]
  {
    var keys := ["stats5M.friend.win", "stats5M.friend.win"];
    assert keys[..1] == ["stats5M.friend.win"];
    assert keys[..1][..0] == [];
  }
}
