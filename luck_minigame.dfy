/**
 * The luck minigame's inventory ledger: one entry per rarity name, seeded
 * from the registry, to which rolled amounts are added, and the coin reward
 * each rolled item earns.
 *
 * The rarity value (`Rarity.getValue`, a real-valued power curve) is a
 * parameter `value` from tier index to a real reward per item; the coin
 * currency is a real ghost counter that only `gain` changes.
 */
module LuckMinigame {
  import RarityRegistry

  /** One ledger entry: the rarity's name, its tier index and how many are owned. */
  datatype InventoryItem = InventoryItem(name: string, index: int, amount: int)

  /** The ledger, keyed by rarity name. */
  type Inventory = map<string, InventoryItem>

  /** `Object.fromEntries`: entries are added in order, a later entry replacing an earlier one with the same key. */
  function FromEntries(entries: seq<(string, InventoryItem)>): Inventory {
    if entries == [] then map[]
    else
      var last := entries[|entries| - 1];
      FromEntries(entries[..|entries| - 1])[last.0 := last.1]
  }

  /** The seed entries: one zero-amount item per registry tier, in registry order. */
  function SeedEntries(): (entries: seq<(string, InventoryItem)>)
    ensures |entries| == |RarityRegistry.Rarities|
    ensures forall i :: 0 <= i < |entries| ==>
      entries[i] == (RarityRegistry.Rarities[i].name, InventoryItem(RarityRegistry.Rarities[i].name, i, 0))
  {
    seq(|RarityRegistry.Rarities|, i requires 0 <= i < |RarityRegistry.Rarities| =>
      (RarityRegistry.Rarities[i].name, InventoryItem(RarityRegistry.Rarities[i].name, i, 0)))
  }

  /** The inventory a new game starts from. */
  function InitialInventory(): Inventory {
    FromEntries(SeedEntries())
  }

  /** One step of the update loop on the ledger: add to an existing entry, or insert the item verbatim. */
  function Credit(inv: Inventory, item: InventoryItem): Inventory {
    if item.name in inv then
      inv[item.name := inv[item.name].(amount := inv[item.name].amount + item.amount)]
    else
      inv[item.name := InventoryItem(item.name, item.index, item.amount)]
  }

  /** The ledger after crediting every item of the list, first to last. */
  function Apply(inv: Inventory, items: seq<InventoryItem>): Inventory {
    if items == [] then inv
    else Credit(Apply(inv, items[..|items| - 1]), items[|items| - 1])
  }

  /** The coins one item earns: its amount times the value of its name's tier, times 1000. */
  function Reward(item: InventoryItem, value: int -> real): real {
    TierReward(item.amount, value, RarityRegistry.IndexOfName(item.name))
  }

  /** The coins for `amount` units of tier `tier`. */
  function TierReward(amount: int, value: int -> real, tier: int): real {
    amount as real * value(tier) * 1000.0
  }

  /** The coins gained over a list: only positive rewards are paid out. */
  function Gain(items: seq<InventoryItem>, value: int -> real): real {
    if items == [] then 0.0
    else
      var r := Reward(items[|items| - 1], value);
      Gain(items[..|items| - 1], value) + (if r > 0.0 then r else 0.0)
  }

  /** One more item: the ledger credits it and the gain adds its paid reward. */
  lemma PrefixSteps(inv: Inventory, items: seq<InventoryItem>, i: nat, value: int -> real)
    requires i < |items|
    ensures Apply(inv, items[..i + 1]) == Credit(Apply(inv, items[..i]), items[i])
    ensures Gain(items[..i + 1], value) == Gain(items[..i], value) +
              (if Reward(items[i], value) > 0.0 then Reward(items[i], value) else 0.0)
  {
    assert items[..i + 1][..i] == items[..i];
  }

  /** The total amount the list carries for the name `key`. */
  function SumFor(items: seq<InventoryItem>, key: string): int {
    if items == [] then 0
    else
      var last := items[|items| - 1];
      SumFor(items[..|items| - 1], key) + (if last.name == key then last.amount else 0)
  }

  /** The names the list mentions. */
  function NamesOf(items: seq<InventoryItem>): set<string> {
    set i | 0 <= i < |items| :: items[i].name
  }

  /** The coins one item earns, looked up through a `Rarity` built from its name. */
  method CoinsFor(item: InventoryItem, value: int -> real) returns (coins: real)
    ensures coins == Reward(item, value)
  {
    var rarity := new RarityRegistry.Rarity(item.name);
    coins := TierReward(item.amount, value, rarity.rarity);
  }

  /** The stored ledger and the coin currency of one game. */
  class LuckGame {
    /** The persisted value of the "luckInventory" entry. */
    var inventory: Inventory
    /** The "luckCoins" currency owned by the host game. */
    ghost var coins: real
    /** Every value written back to the persisted entry, oldest first. */
    ghost var saves: seq<Inventory>

    /** A fresh game: the seeded inventory and no coins. */
    constructor ()
      ensures inventory == InitialInventory()
      ensures coins == 0.0 && saves == []
    {
      inventory := InitialInventory();
      coins := 0.0;
      saves := [];
    }

    /**
     * `updateInventory`: credits each item to the ledger, pays its reward
     * when positive, and writes the whole ledger back once at the end.
     */
    method UpdateInventory(items: seq<InventoryItem>, value: int -> real)
      modifies this
      ensures inventory == Apply(old(inventory), items)
      ensures coins == old(coins) + Gain(items, value)
      ensures coins >= old(coins)
      ensures saves == old(saves) + [inventory]
    {
      var inv := inventory;
      for i := 0 to |items|
        invariant inv == Apply(old(inventory), items[..i])
        invariant coins == old(coins) + Gain(items[..i], value)
        invariant saves == old(saves)
      {
        var newItem := items[i];
        PrefixSteps(old(inventory), items, i, value);
        inv := Credit(inv, newItem);
        var amountOfCoinsToGain := CoinsFor(newItem, value);
        if amountOfCoinsToGain > 0.0 {
          coins := coins + amountOfCoinsToGain;
        }
      }
      assert items[..|items|] == items;
      GainNonNegative(items, value);
      inventory := inv;
      saves := saves + [inv];
    }
  }

  // ---------------------------------------------------------------------------
  // Properties of the ledger

  /** The seed has exactly one entry per registry name, with that tier's index and amount 0. */
  lemma InitialInventorySeed()
    ensures InitialInventory().Keys == set i | 0 <= i < |RarityRegistry.Rarities| :: RarityRegistry.Rarities[i].name
    ensures forall i :: 0 <= i < |RarityRegistry.Rarities| ==>
      var name := RarityRegistry.Rarities[i].name;
      InitialInventory()[name] == InventoryItem(name, i, 0)
  {
    RarityRegistry.RegistryShape();
    var entries := SeedEntries();
    FromEntriesKeys(entries);
    forall i | 0 <= i < |entries|
      ensures FromEntries(entries)[entries[i].0] == entries[i].1
    {
      FromEntriesDistinct(entries, i);
    }
  }

  lemma {:induction false} FromEntriesKeys(entries: seq<(string, InventoryItem)>)
    ensures FromEntries(entries).Keys == set i | 0 <= i < |entries| :: entries[i].0
  {
    if entries != [] {
      var init := entries[..|entries| - 1];
      FromEntriesKeys(init);
      assert forall i :: 0 <= i < |init| ==> init[i] == entries[i];
    }
  }

  /** With distinct keys, every entry survives `fromEntries`. */
  lemma {:induction false} FromEntriesDistinct(entries: seq<(string, InventoryItem)>, i: nat)
    requires forall a, b :: 0 <= a < b < |entries| ==> entries[a].0 != entries[b].0
    requires i < |entries|
    ensures entries[i].0 in FromEntries(entries) && FromEntries(entries)[entries[i].0] == entries[i].1
  {
    if i < |entries| - 1 {
      var init := entries[..|entries| - 1];
      FromEntriesDistinct(init, i);
    }
  }

  /** Keys the list does not name keep their entry, or stay absent. */
  lemma {:induction false} ApplyUntouched(inv: Inventory, items: seq<InventoryItem>, key: string)
    requires key !in NamesOf(items)
    ensures key in Apply(inv, items) <==> key in inv
    ensures key in inv ==> Apply(inv, items)[key] == inv[key]
  {
    if items != [] {
      var init := items[..|items| - 1];
      assert NamesOf(init) <= NamesOf(items) by {
        forall n | n in NamesOf(init) ensures n in NamesOf(items) {
          var j :| 0 <= j < |init| && init[j].name == n;
          assert items[j].name == n;
        }
      }
      assert items[|items| - 1].name in NamesOf(items);
      ApplyUntouched(inv, init, key);
    }
  }

  /** An existing entry keeps its name and index, and its amount grows by the list's total for that name. */
  lemma {:induction false} ApplyExisting(inv: Inventory, items: seq<InventoryItem>, key: string)
    requires key in inv
    ensures key in Apply(inv, items)
    ensures Apply(inv, items)[key] == inv[key].(amount := inv[key].amount + SumFor(items, key))
  {
    if items != [] {
      ApplyExisting(inv, items[..|items| - 1], key);
    }
  }

  /** A missing name is inserted with the first such item's index, and collects the list's total for it. */
  lemma {:induction false} ApplyInserted(inv: Inventory, items: seq<InventoryItem>, key: string, first: nat)
    requires key !in inv
    requires first < |items| && items[first].name == key
    requires forall j :: 0 <= j < first ==> items[j].name != key
    ensures key in Apply(inv, items)
    ensures Apply(inv, items)[key] == InventoryItem(key, items[first].index, SumFor(items, key))
  {
    var init := items[..|items| - 1];
    if first == |items| - 1 {
      assert forall j :: 0 <= j < |init| ==> init[j] == items[j];
      assert key !in NamesOf(init);
      ApplyUntouched(inv, init, key);
      SumForAbsent(init, key);
    } else {
      ApplyInserted(inv, init, key, first);
    }
  }

  lemma {:induction false} SumForAbsent(items: seq<InventoryItem>, key: string)
    requires key !in NamesOf(items)
    ensures SumFor(items, key) == 0
  {
    if items != [] {
      var init := items[..|items| - 1];
      assert items[|items| - 1].name in NamesOf(items);
      assert NamesOf(init) <= NamesOf(items) by {
        forall n | n in NamesOf(init) ensures n in NamesOf(items) {
          var j :| 0 <= j < |init| && init[j].name == n;
          assert items[j].name == n;
        }
      }
      SumForAbsent(init, key);
    }
  }

  /** After the update the ledger holds the old keys and the list's names, and no others. */
  lemma {:induction false} ApplyKeys(inv: Inventory, items: seq<InventoryItem>)
    ensures Apply(inv, items).Keys == inv.Keys + NamesOf(items)
  {
    if items != [] {
      var init := items[..|items| - 1];
      ApplyKeys(inv, init);
      assert NamesOf(items) == NamesOf(init) + {items[|items| - 1].name} by {
        forall n | n in NamesOf(items) ensures n in NamesOf(init) + {items[|items| - 1].name} {
          var j :| 0 <= j < |items| && items[j].name == n;
          if j < |items| - 1 { assert init[j].name == n; }
        }
        forall n | n in NamesOf(init) ensures n in NamesOf(items) {
          var j :| 0 <= j < |init| && init[j].name == n;
          assert items[j].name == n;
        }
      }
    }
  }

  /** Two updates in a row leave the same ledger as one update with both lists. */
  lemma {:induction false} ApplyConcat(inv: Inventory, a: seq<InventoryItem>, b: seq<InventoryItem>)
    ensures Apply(Apply(inv, a), b) == Apply(inv, a + b)
  {
    if b == [] {
      assert a + b == a;
    } else {
      ApplyConcat(inv, a, b[..|b| - 1]);
      assert (a + b)[..|a + b| - 1] == a + b[..|b| - 1];
      assert (a + b)[|a + b| - 1] == b[|b| - 1];
    }
  }

  lemma {:induction false} SumForConcat(a: seq<InventoryItem>, b: seq<InventoryItem>, key: string)
    ensures SumFor(a + b, key) == SumFor(a, key) + SumFor(b, key)
  {
    if b == [] {
      assert a + b == a;
    } else {
      SumForConcat(a, b[..|b| - 1], key);
      assert (a + b)[..|a + b| - 1] == a + b[..|b| - 1];
      assert (a + b)[|a + b| - 1] == b[|b| - 1];
    }
  }

  /** A name's total does not depend on the order of the list. */
  lemma {:induction false} SumForPermutation(a: seq<InventoryItem>, b: seq<InventoryItem>, key: string)
    requires multiset(a) == multiset(b)
    ensures SumFor(a, key) == SumFor(b, key)
    decreases |a|
  {
    if a != [] {
      var last := a[|a| - 1];
      var init := a[..|a| - 1];
      assert a == init + [last];
      assert multiset(a) == multiset(init) + multiset{last};
      assert last in multiset(b);
      var j :| 0 <= j < |b| && b[j] == last;
      var rest := b[..j] + b[j + 1..];
      RemoveOne(b, j, key);
      assert multiset(init) == multiset(rest);
      SumForPermutation(init, rest, key);
      assert SumFor(a, key) == SumFor(init, key) + (if last.name == key then last.amount else 0);
    }
  }

  /** Taking one item out of a list removes it from the multiset and its amount from the name's total. */
  lemma RemoveOne(b: seq<InventoryItem>, j: int, key: string)
    requires 0 <= j < |b|
    ensures multiset(b[..j] + b[j + 1..]) == multiset(b) - multiset{b[j]}
    ensures SumFor(b, key) == SumFor(b[..j] + b[j + 1..], key) + (if b[j].name == key then b[j].amount else 0)
  {
    var x := b[j];
    assert b == b[..j] + [x] + b[j + 1..];
    assert multiset(b) == multiset(b[..j]) + multiset{x} + multiset(b[j + 1..]);
    SumForConcat(b[..j] + [x], b[j + 1..], key);
    SumForConcat(b[..j], [x], key);
    SumForConcat(b[..j], b[j + 1..], key);
    assert [x][..0] == [];
  }

  /**
   * The final amounts do not depend on the order of the list: any reordering
   * leaves the same names in the ledger with the same amounts.
   */
  lemma AmountsIndependentOfOrder(inv: Inventory, a: seq<InventoryItem>, b: seq<InventoryItem>, key: string)
    requires multiset(a) == multiset(b)
    ensures key in Apply(inv, a) <==> key in Apply(inv, b)
    ensures key in Apply(inv, a) ==> Apply(inv, a)[key].amount == Apply(inv, b)[key].amount
  {
    ApplyKeys(inv, a);
    ApplyKeys(inv, b);
    SumForPermutation(a, b, key);
    assert NamesOf(a) == NamesOf(b) by {
      forall n | n in NamesOf(a) ensures n in NamesOf(b) {
        var j :| 0 <= j < |a| && a[j].name == n;
        assert a[j] in multiset(b);
      }
      forall n | n in NamesOf(b) ensures n in NamesOf(a) {
        var j :| 0 <= j < |b| && b[j].name == n;
        assert b[j] in multiset(a);
      }
    }
    if key in inv {
      ApplyExisting(inv, a, key);
      ApplyExisting(inv, b, key);
    } else if key in NamesOf(a) {
      var fa := FirstNamed(a, key);
      var fb := FirstNamed(b, key);
      ApplyInserted(inv, a, key, fa);
      ApplyInserted(inv, b, key, fb);
    }
  }

  /** The position of the first item named `key`. */
  lemma FirstNamed(items: seq<InventoryItem>, key: string) returns (first: nat)
    requires key in NamesOf(items)
    ensures first < |items| && items[first].name == key
    ensures forall j :: 0 <= j < first ==> items[j].name != key
  {
    var j :| 0 <= j < |items| && items[j].name == key;
    first := 0;
    while items[first].name != key
      invariant first <= j
      invariant forall k :: 0 <= k < first ==> items[k].name != key
      decreases j - first
    {
      first := first + 1;
    }
  }

  /** Coins are only ever gained: the payout over any list is at least zero. */
  lemma {:induction false} GainNonNegative(items: seq<InventoryItem>, value: int -> real)
    ensures Gain(items, value) >= 0.0
  {
    if items != [] {
      GainNonNegative(items[..|items| - 1], value);
    }
  }

  /** A list in which no reward is positive pays nothing. */
  lemma {:induction false} GainSkipsNonPositive(items: seq<InventoryItem>, value: int -> real)
    requires forall i :: 0 <= i < |items| ==> Reward(items[i], value) <= 0.0
    ensures Gain(items, value) == 0.0
  {
    if items != [] {
      GainSkipsNonPositive(items[..|items| - 1], value);
    }
  }

  /**
   * One more item changes the coins gained by its reward when that is
   * positive, and not at all otherwise, wherever it stands in the list.
   */
  lemma {:induction false} GainSkipsItem(before: seq<InventoryItem>, x: InventoryItem, after: seq<InventoryItem>, value: int -> real)
    ensures Reward(x, value) <= 0.0 ==> Gain(before + [x] + after, value) == Gain(before + after, value)
    ensures Reward(x, value) > 0.0 ==> Gain(before + [x] + after, value) == Gain(before + after, value) + Reward(x, value)
    decreases |after|
  {
    if after == [] {
      assert before + [x] + after == before + [x];
      assert before + after == before;
      GainAppend(before, x, value);
    } else {
      var init := after[..|after| - 1];
      var last := after[|after| - 1];
      GainSkipsItem(before, x, init, value);
      SplitLast(before + [x], after);
      SplitLast(before, after);
      GainAppend(before + [x] + init, last, value);
      GainAppend(before + init, last, value);
    }
  }

  /** The last item of a non-empty tail is the last item of the whole list. */
  lemma SplitLast(front: seq<InventoryItem>, tail: seq<InventoryItem>)
    requires tail != []
    ensures front + tail == (front + tail[..|tail| - 1]) + [tail[|tail| - 1]]
  {
    assert tail == tail[..|tail| - 1] + [tail[|tail| - 1]];
  }

  /** Appending an item adds its reward to the gain when that is positive. */
  lemma GainAppend(items: seq<InventoryItem>, y: InventoryItem, value: int -> real)
    ensures var r := Reward(y, value);
      Gain(items + [y], value) == Gain(items, value) + (if r > 0.0 then r else 0.0)
  {
    assert (items + [y])[..|items|] == items;
  }

  /** A name missing from the registry is paid at the value of tier 0. */
  lemma UnknownNameValuedAtTierZero(item: InventoryItem, value: int -> real)
    requires RarityRegistry.FindIndex(item.name) == -1
    ensures Reward(item, value) == item.amount as real * value(0) * 1000.0
  {
  }
}
