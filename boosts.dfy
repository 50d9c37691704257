/**
 * The interface of the numeric library's `Boost`: a base value and a list of
 * contributions, each with an id, an order and a transform of the running
 * value. `calculate` folds the contributions in ascending order, keeping
 * insertion order among equal orders. The library itself is not part of
 * this model; this is the behaviour the game relies on.
 */
module Boosts {

  /** What a contribution does to the running value (the source passes closures; these are the ones it uses). */
  datatype Transform =
    | Constant(v: int)   // `() => new Decimal(v)`: ignores the running value
    | Multiply(k: int)   // `(input) => input.multiply(k)`

  function ApplyTransform(t: Transform, input: int): int {
    match t
    case Constant(v) => v
    case Multiply(k) => input * k
  }

  datatype BoostEntry = BoostEntry(id: string, order: int, transform: Transform)

  datatype Boost = Boost(baseValue: int, entries: seq<BoostEntry>)

  /** A boost with no contributions. */
  function NewBoost(baseValue: int): Boost {
    Boost(baseValue, [])
  }

  /** `setBoost`: replaces the first contribution with the same id in place, or appends. */
  function SetBoost(b: Boost, e: BoostEntry): (r: Boost)
    ensures r.baseValue == b.baseValue
    ensures e in r.entries
    ensures forall x :: x in r.entries ==> x == e || x in b.entries
    ensures (forall i :: 0 <= i < |b.entries| ==> b.entries[i].id != e.id) ==> r.entries == b.entries + [e]
  {
    b.(entries := Replace(b.entries, e))
  }

  function Replace(entries: seq<BoostEntry>, e: BoostEntry): (r: seq<BoostEntry>)
    ensures e in r
    ensures forall x :: x in r ==> x == e || x in entries
    ensures (forall i :: 0 <= i < |entries| ==> entries[i].id != e.id) ==> r == entries + [e]
  {
    if entries == [] then [e]
    else if entries[0].id == e.id then [e] + entries[1..]
    else [entries[0]] + Replace(entries[1..], e)
  }

  /** `clearBoosts`: drops every contribution. */
  function ClearBoosts(b: Boost): (r: Boost)
    ensures r.baseValue == b.baseValue
    ensures Calculate(r) == b.baseValue
  {
    b.(entries := [])
  }

  /** `calculate`: the base value run through every contribution in ascending order. */
  function Calculate(b: Boost): (v: int)
    ensures b.entries == [] ==> v == b.baseValue
    ensures |b.entries| == 1 ==> v == ApplyTransform(b.entries[0].transform, b.baseValue)
  {
    FoldSingle(b.baseValue, b.entries);
    Fold(b.baseValue, SortByOrder(b.entries))
  }

  /** A single contribution is applied once to the value. */
  lemma FoldSingle(value: int, s: seq<BoostEntry>)
    ensures |s| == 1 ==> Fold(value, SortByOrder(s)) == ApplyTransform(s[0].transform, value)
  {
    if |s| == 1 {
      assert s[..0] == [] && s[1..] == [];
    }
  }

  function Fold(value: int, entries: seq<BoostEntry>): int
    decreases |entries|
  {
    if entries == [] then value
    else Fold(ApplyTransform(entries[0].transform, value), entries[1..])
  }

  /** A stable sort by `order` (insertion sort). */
  function SortByOrder(entries: seq<BoostEntry>): seq<BoostEntry> {
    if entries == [] then []
    else Insert(SortByOrder(entries[..|entries| - 1]), entries[|entries| - 1])
  }

  /** Places `e` after every element whose order is not greater than its own. */
  function Insert(sorted: seq<BoostEntry>, e: BoostEntry): seq<BoostEntry> {
    if sorted == [] || sorted[|sorted| - 1].order <= e.order then sorted + [e]
    else Insert(sorted[..|sorted| - 1], e) + [sorted[|sorted| - 1]]
  }

  ghost predicate SortedByOrder(s: seq<BoostEntry>) {
    forall i, j :: 0 <= i < j < |s| ==> s[i].order <= s[j].order
  }

  /** No two contributions share an id. */
  ghost predicate IdsUnique(s: seq<BoostEntry>) {
    forall i, j :: 0 <= i < j < |s| ==> s[i].id != s[j].id
  }

  // ---------------------------------------------------------------------------
  // Properties

  /** Inserting adds exactly the new contribution. */
  lemma {:induction false} InsertPermutation(sorted: seq<BoostEntry>, e: BoostEntry)
    ensures multiset(Insert(sorted, e)) == multiset(sorted) + multiset{e}
  {
    if sorted == [] || sorted[|sorted| - 1].order <= e.order {
    } else {
      var init := sorted[..|sorted| - 1];
      var last := sorted[|sorted| - 1];
      InsertPermutation(init, e);
      assert sorted == init + [last];
    }
  }

  /** Inserting adds one contribution and no contribution other than the new one. */
  lemma InsertMembers(sorted: seq<BoostEntry>, e: BoostEntry)
    ensures multiset(Insert(sorted, e)) == multiset(sorted) + multiset{e}
    ensures |Insert(sorted, e)| == |sorted| + 1
    ensures forall x :: x in Insert(sorted, e) ==> x == e || x in sorted
  {
    InsertPermutation(sorted, e);
    var r := Insert(sorted, e);
    assert |r| == |multiset(r)|;
    forall x | x in r ensures x == e || x in sorted {
      assert x in multiset(r);
    }
  }

  /** Inserting into a sorted sequence keeps it sorted and adds exactly the new contribution. */
  lemma {:induction false} InsertSorted(sorted: seq<BoostEntry>, e: BoostEntry)
    requires SortedByOrder(sorted)
    ensures SortedByOrder(Insert(sorted, e))
    ensures multiset(Insert(sorted, e)) == multiset(sorted) + multiset{e}
    ensures |Insert(sorted, e)| == |sorted| + 1
    ensures forall x :: x in Insert(sorted, e) ==> x == e || x in sorted
  {
    InsertMembers(sorted, e);
    if sorted == [] || sorted[|sorted| - 1].order <= e.order {
    } else {
      var init := sorted[..|sorted| - 1];
      var last := sorted[|sorted| - 1];
      InsertSorted(init, e);
      var r := Insert(init, e);
      assert Insert(sorted, e) == r + [last];
      forall x | x in r ensures x.order <= last.order {
        if x != e {
          var k :| 0 <= k < |init| && init[k] == x;
          assert sorted[k] == x;
        }
      }
      AppendSorted(r, last);
    }
  }

  /** A contribution no smaller than every element may go at the end of a sorted sequence. */
  lemma AppendSorted(s: seq<BoostEntry>, e: BoostEntry)
    requires SortedByOrder(s)
    requires forall x :: x in s ==> x.order <= e.order
    ensures SortedByOrder(s + [e])
  {
    var t := s + [e];
    forall i, j | 0 <= i < j < |t| ensures t[i].order <= t[j].order {
      assert t[i] == s[i] && s[i] in s;
      if j < |s| {
        assert t[j] == s[j];
      }
    }
  }

  /** Sorting orders the contributions by `order` and keeps exactly the same contributions. */
  lemma {:induction false} SortByOrderSortedPermutation(entries: seq<BoostEntry>)
    ensures SortedByOrder(SortByOrder(entries))
    ensures multiset(SortByOrder(entries)) == multiset(entries)
  {
    if entries != [] {
      var init := entries[..|entries| - 1];
      var last := entries[|entries| - 1];
      var sortedInit := SortByOrder(init);
      assert SortByOrder(entries) == Insert(sortedInit, last);
      SortByOrderSortedPermutation(init);
      InsertSorted(sortedInit, last);
      assert entries == init + [last];
      assert multiset(entries) == multiset(init) + multiset{last};
    }
  }

  /** The contributions whose order is `o`, in the sequence's order. */
  function WithOrder(s: seq<BoostEntry>, o: int): seq<BoostEntry> {
    if s == [] then []
    else WithOrder(s[..|s| - 1], o) + (if s[|s| - 1].order == o then [s[|s| - 1]] else [])
  }

  lemma {:induction false} WithOrderConcat(a: seq<BoostEntry>, b: seq<BoostEntry>, o: int)
    ensures WithOrder(a + b, o) == WithOrder(a, o) + WithOrder(b, o)
    decreases |b|
  {
    if b == [] {
      assert a + b == a;
    } else {
      var init := b[..|b| - 1];
      WithOrderConcat(a, init, o);
      assert (a + b)[..|a + b| - 1] == a + init;
    }
  }

  lemma WithOrderSingle(x: BoostEntry, o: int)
    ensures WithOrder([x], o) == if x.order == o then [x] else []
  {
    assert [x][..0] == [];
  }

  /** Inserting keeps, within each order, the relative position of the new contribution after the old ones. */
  lemma {:induction false} InsertStable(sorted: seq<BoostEntry>, e: BoostEntry, o: int)
    ensures WithOrder(Insert(sorted, e), o) == WithOrder(sorted + [e], o)
  {
    if sorted == [] || sorted[|sorted| - 1].order <= e.order {
    } else {
      var init := sorted[..|sorted| - 1];
      var last := sorted[|sorted| - 1];
      var r := Insert(init, e);
      assert sorted == init + [last];
      assert Insert(sorted, e) == r + [last];
      var we, wl := WithOrder([e], o), WithOrder([last], o);
      WithOrderSingle(e, o);
      WithOrderSingle(last, o);
      assert we == [] || wl == [];
      calc {
        WithOrder(Insert(sorted, e), o);
        { WithOrderConcat(r, [last], o); }
        WithOrder(r, o) + wl;
        { InsertStable(init, e, o); WithOrderConcat(init, [e], o); }
        WithOrder(init, o) + we + wl;
        WithOrder(init, o) + wl + we;
        { WithOrderConcat(init, [last], o); }
        WithOrder(sorted, o) + we;
        { WithOrderConcat(sorted, [e], o); }
        WithOrder(sorted + [e], o);
      }
    }
  }

  /** The sort is stable: contributions of equal order keep their insertion order. */
  lemma {:induction false} SortByOrderStable(entries: seq<BoostEntry>, o: int)
    ensures WithOrder(SortByOrder(entries), o) == WithOrder(entries, o)
  {
    if entries != [] {
      var init := entries[..|entries| - 1];
      var x := entries[|entries| - 1];
      var sortedInit := SortByOrder(init);
      assert entries == init + [x];
      assert SortByOrder(entries) == Insert(sortedInit, x);
      calc {
        WithOrder(Insert(sortedInit, x), o);
        { InsertStable(sortedInit, x, o); }
        WithOrder(sortedInit + [x], o);
        { WithOrderConcat(sortedInit, [x], o); }
        WithOrder(sortedInit, o) + WithOrder([x], o);
        { SortByOrderStable(init, o); }
        WithOrder(init, o) + WithOrder([x], o);
        { WithOrderConcat(init, [x], o); }
        WithOrder(entries, o);
      }
    }
  }

  /** Contributions already in order are folded exactly in insertion order. */
  lemma {:induction false} SortByOrderKeepsSorted(entries: seq<BoostEntry>)
    requires SortedByOrder(entries)
    ensures SortByOrder(entries) == entries
  {
    if entries != [] {
      var init := entries[..|entries| - 1];
      var last := entries[|entries| - 1];
      assert SortedByOrder(init) by {
        forall i, j | 0 <= i < j < |init| ensures init[i].order <= init[j].order {
          assert init[i] == entries[i] && init[j] == entries[j];
        }
      }
      SortByOrderKeepsSorted(init);
      assert SortByOrder(entries) == Insert(init, last);
      if init != [] {
        assert init[|init| - 1] == entries[|entries| - 2];
      }
      assert Insert(init, last) == init + [last];
      assert entries == init + [last];
    }
  }

  /** `setBoost` keeps ids unique, holds the new contribution, and keeps every contribution with another id. */
  lemma {:induction false} SetBoostReplaces(b: Boost, e: BoostEntry)
    requires IdsUnique(b.entries)
    ensures IdsUnique(SetBoost(b, e).entries)
    ensures e in SetBoost(b, e).entries
    ensures forall x: BoostEntry :: x.id != e.id ==> (x in SetBoost(b, e).entries <==> x in b.entries)
  {
    ReplaceProperties(b.entries, e);
  }

  lemma ReplaceProperties(s: seq<BoostEntry>, e: BoostEntry)
    requires IdsUnique(s)
    ensures IdsUnique(Replace(s, e))
    ensures forall x: BoostEntry :: x.id != e.id ==> (x in Replace(s, e) <==> x in s)
  {
    ReplaceKeepsUnique(s, e);
    ReplaceKeepsOthers(s, e);
  }

  lemma {:induction false} ReplaceKeepsOthers(s: seq<BoostEntry>, e: BoostEntry)
    ensures forall x: BoostEntry :: x.id != e.id ==> (x in Replace(s, e) <==> x in s)
  {
    if s != [] {
      assert s == [s[0]] + s[1..];
      if s[0].id != e.id {
        ReplaceKeepsOthers(s[1..], e);
        assert Replace(s, e) == [s[0]] + Replace(s[1..], e);
      } else {
        assert Replace(s, e) == [e] + s[1..];
      }
    }
  }

  lemma {:induction false} ReplaceKeepsUnique(s: seq<BoostEntry>, e: BoostEntry)
    requires IdsUnique(s)
    ensures IdsUnique(Replace(s, e))
  {
    if s != [] {
      var tail := s[1..];
      assert IdsUnique(tail) by {
        forall i, j | 0 <= i < j < |tail| ensures tail[i].id != tail[j].id {
          assert tail[i] == s[i + 1] && tail[j] == s[j + 1];
        }
      }
      if s[0].id == e.id {
        forall x | x in tail ensures x.id != e.id {
          var k :| 0 <= k < |tail| && tail[k] == x;
          assert s[k + 1] == x;
        }
        PrependUnique(e, tail);
      } else {
        ReplaceKeepsUnique(tail, e);
        var r := Replace(tail, e);
        forall x | x in r ensures x.id != s[0].id {
          if x != e {
            var k :| 0 <= k < |tail| && tail[k] == x;
            assert s[k + 1] == x;
          }
        }
        PrependUnique(s[0], r);
      }
    }
  }

  /** A contribution whose id is new may go in front of a sequence with unique ids. */
  lemma PrependUnique(h: BoostEntry, s: seq<BoostEntry>)
    requires IdsUnique(s)
    requires forall x :: x in s ==> x.id != h.id
    ensures IdsUnique([h] + s)
  {
    var t := [h] + s;
    forall i, j | 0 <= i < j < |t| ensures t[i].id != t[j].id {
      assert t[j] == s[j - 1] && s[j - 1] in s;
      if i > 0 {
        assert t[i] == s[i - 1];
      }
    }
  }

  /** Setting the same id twice keeps only the second contribution: replacement, not stacking. */
  lemma {:induction false} SetBoostTwiceSameId(b: Boost, e1: BoostEntry, e2: BoostEntry)
    requires e1.id == e2.id
    ensures SetBoost(SetBoost(b, e1), e2) == SetBoost(b, e2)
  {
    ReplaceTwice(b.entries, e1, e2);
  }

  lemma {:induction false} ReplaceTwice(s: seq<BoostEntry>, e1: BoostEntry, e2: BoostEntry)
    requires e1.id == e2.id
    ensures Replace(Replace(s, e1), e2) == Replace(s, e2)
  {
    if s != [] && s[0].id != e1.id {
      ReplaceTwice(s[1..], e1, e2);
      assert Replace(s, e1)[1..] == Replace(s[1..], e1);
    }
  }

  /** A single contribution that sets a constant makes `calculate` give that constant, whatever the base. */
  lemma ConstantAloneCalculates(baseValue: int, id: string, order: int, v: int)
    ensures Calculate(SetBoost(NewBoost(baseValue), BoostEntry(id, order, Constant(v)))) == v
  {
    var e := BoostEntry(id, order, Constant(v));
    assert SetBoost(NewBoost(baseValue), e).entries == [e];
    assert [e][..0] == [];
    assert SortByOrder([e]) == [e];
    assert [e][1..] == [];
    assert Fold(baseValue, [e]) == Fold(v, []);
  }

  /** A fold whose last contribution is a constant gives that constant, whatever came before. */
  lemma {:induction false} FoldEndsInConstant(value: int, entries: seq<BoostEntry>, v: int)
    requires entries != [] && entries[|entries| - 1].transform == Constant(v)
    ensures Fold(value, entries) == v
    decreases |entries|
  {
    if |entries| == 1 {
      assert entries[1..] == [];
    } else {
      var rest := entries[1..];
      assert rest[|rest| - 1] == entries[|entries| - 1];
      FoldEndsInConstant(ApplyTransform(entries[0].transform, value), rest, v);
    }
  }

  /**
   * The order decides between constants: a constant contribution whose order
   * is above every other contribution's is what `calculate` gives, whatever
   * the others are and in whatever order they were set.
   */
  lemma HighestConstantWins(b: Boost, e: BoostEntry, v: int)
    requires e in b.entries && e.transform == Constant(v)
    requires forall x :: x in b.entries && x != e ==> x.order < e.order
    ensures Calculate(b) == v
  {
    var sorted := SortByOrder(b.entries);
    SortByOrderSortedPermutation(b.entries);
    assert e in multiset(sorted);
    var last := sorted[|sorted| - 1];
    assert last in multiset(b.entries);
    var k :| 0 <= k < |sorted| && sorted[k] == e;
    assert k == |sorted| - 1 || sorted[k].order <= last.order;
    assert last == e;
    FoldEndsInConstant(b.baseValue, sorted, v);
  }
}
