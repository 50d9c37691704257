/**
 * The current rarity registry: an ordered list of tiers from most common to
 * rarest, the lookup from an index to the tier's display data (extended past
 * the end with Roman numerals), the lookup from a name back to an index, and
 * the index a random roll lands on.
 */
module RarityRegistry {
  import opened Wrappers
  import TierExtension
  import Roman

  /** Stand-in for the React markup a tier renders inside its display square. */
  datatype Markup = Markup(description: string)

  /** Display data of one tier; the index in the registry is the tier. */
  datatype RarityData = RarityData(name: string, divClassName: Option<string>, children: Option<Markup>)

  /** The tier names, most common first. */
  const Names: seq<string> := [
    "Common", "Uncommon", "Rare", "Epic", "Legendary", "Mythical",
    "Godlike", "Ultimate", "Transcendent", "Cosmic", "Celestial", "Divine",
    "Mystical", "Supreme", "Exalted", "Ethereal", "Unfathomable", "Mythos",
    "Apex", "Timeless", "Primordial", "Eonian", "Eternal", "Venerable",
    "Enigmatic", "Illustrious", "Singularity", "Infinite", "placeholder "
  ]

  /** Each tier's styling, in the same order: its class name and the markup it renders. */
  const Styles: seq<(Option<string>, Option<Markup>)> := [
    (Some("bg-gradient-to-r from-gray-100 to-gray-200"), None),
    (Some("bg-gradient-to-r from-green-100 to-green-200 border-green-300"), None),
    (Some("bg-gradient-to-r from-blue-100 to-blue-200 border-blue-400"), None),
    (Some("bg-gradient-to-r from-purple-100 to-purple-200 border-purple-300"), None),
    (Some("bg-gradient-to-r from-yellow-100 to-yellow-200 border-yellow-300"), None),
    (Some("bg-gradient-to-r from-pink-100 to-pink-200 border-pink-300"), None),
    (Some("bg-gradient-to-r from-cyan-100 to-cyan-200 border-cyan-300"), None),
    (None, None),
    (None, None),
    (None, None),
    (None, None),
    (None, None),
    (None, None),
    (None, None),
    (None, None),
    (None, None),
    (None, None),
    (None, None),
    (None, None),
    (None, None),
    (None, None),
    (None, None),
    (None, None),
    (None, None),
    (None, None),
    (None, None),
    (Some("rarity-singularity"), Some(Markup("empty fragment"))),
    (Some("rarity-infinite"), Some(Markup("two square effects and three orbitals"))),
    (None, None)
  ]

  /** Joins a name column and a styling column into one record per row. */
  function Join(names: seq<string>, styles: seq<(Option<string>, Option<Markup>)>): (rows: seq<RarityData>)
    requires |names| == |styles|
    ensures |rows| == |names|
    ensures forall i :: 0 <= i < |rows| ==> rows[i] == RarityData(names[i], styles[i].0, styles[i].1)
  {
    seq(|names|, i requires 0 <= i < |names| => RarityData(names[i], styles[i].0, styles[i].1))
  }

  /** The registry, most common first: one record per tier. */
  const Rarities: seq<RarityData> := Join(Names, Styles)

  /** The last registered tier, whose data every extended tier reuses. */
  function LastRarity(): RarityData {
    Rarities[|Rarities| - 1]
  }

  /** No two tiers share a name. */
  ghost predicate NamesDistinct(rs: seq<RarityData>) {
    forall i, j :: 0 <= i < j < |rs| ==> rs[i].name != rs[j].name
  }

  /**
   * `getRarityData`: the registry entry for an index inside the list; past the
   * end, the last entry with an extended name; before the start, nothing
   * (indexing a JavaScript array at a negative position gives `undefined`).
   */
  function GetRarityData(rarity: int): (r: Option<RarityData>)
    ensures r.None? <==> rarity < 0
    ensures 0 <= rarity < |Rarities| ==> r == Some(Rarities[rarity])
    ensures rarity >= |Rarities| ==>
      && r.value.divClassName == LastRarity().divClassName
      && r.value.children == LastRarity().children
      && r.value.name == TierExtension.ExtendedName(LastRarity().name, rarity, |Rarities|)
  {
    if rarity >= |Rarities| then
      Some(LastRarity().(name := TierExtension.ExtendedName(LastRarity().name, rarity, |Rarities|)))
    else if rarity < 0 then
      None
    else
      Some(Rarities[rarity])
  }

  /** `findIndex` on the registry from position `start`: the first matching position, or -1. */
  function FindIndexFrom(name: string, start: nat): (index: int)
    requires start <= |Names|
    ensures index == -1 || start <= index < |Names|
    ensures index == -1 ==> forall j :: start <= j < |Names| ==> Names[j] != name
    ensures index != -1 ==>
      Names[index] == name && forall j :: start <= j < index ==> Names[j] != name
    decreases |Names| - start
  {
    if start == |Names| then -1
    else if Names[start] == name then start
    else FindIndexFrom(name, start + 1)
  }

  /** `Rarity.rarities.findIndex((rarity) => rarity.name === name)`. */
  function FindIndex(name: string): int {
    FindIndexFrom(name, 0)
  }

  /** The index the constructor stores: the first match, or 0 for an unknown name. */
  function IndexOfName(name: string): nat {
    var index := FindIndex(name);
    if index == -1 then 0 else index
  }

  /** The name table handed to the random selector, in registry order. */
  function SelectorNames(): (names: seq<string>)
    ensures |names| == |Rarities|
    ensures forall i :: 0 <= i < |Rarities| ==> names[i] == Rarities[i].name
  {
    Names
  }

  /** A rarity object: the tier index it stands for. */
  class Rarity {
    var rarity: int
    /** Whether construction logged the "not found" warning. */
    ghost var warned: bool

    /** Looks the name up in the registry by linear search; an unknown name gives tier 0 and a warning. */
    constructor (name: string)
      ensures rarity == IndexOfName(name)
      ensures warned <==> FindIndex(name) == -1
    {
      var i := 0;
      var index := -1;
      while i < |Names|
        invariant 0 <= i <= |Names|
        invariant index == -1 ==> forall j :: 0 <= j < i ==> Names[j] != name
        invariant index == -1 ==> FindIndexFrom(name, i) == FindIndex(name)
        invariant index != -1 ==> index == FindIndex(name)
      {
        if Names[i] == name {
          index := i;
          break;
        }
        i := i + 1;
      }
      if index == -1 {
        rarity := 0;
        warned := true;
      } else {
        rarity := index;
        warned := false;
      }
    }

    /** The `rarityData` getter: the registry entry of the stored tier, extended past the end. */
    function Data(): (data: Option<RarityData>)
      reads this
      ensures data.Some? <==> rarity >= 0
      ensures 0 <= rarity < |Rarities| ==> data == Some(Rarities[rarity])
      ensures rarity >= |Rarities| ==>
        && data.value.name == TierExtension.ExtendedName(LastRarity().name, rarity, |Rarities|)
        && data.value.divClassName == LastRarity().divClassName
        && data.value.children == LastRarity().children
    {
      GetRarityData(rarity)
    }
  }

  /**
   * `getRandomRarity`: the selector picks one of its names (or nothing), and
   * the result is the rarity of that name, or of the first tier's name.
   */
  method GetRandomRarity(selected: Option<string>) returns (r: Rarity)
    requires selected.Some? ==> selected.value in SelectorNames()
    ensures fresh(r)
    ensures 0 <= r.rarity < |Rarities|
    ensures r.rarity == IndexOfName(selected.GetOr(Rarities[0].name))
  {
    r := new Rarity(selected.GetOr(Rarities[0].name));
    RandomRarityInRegistry(selected);
  }

  // ---------------------------------------------------------------------------
  // Properties of the registry and its lookups

  /**
   * A fingerprint of a name: its length and its first and third characters.
   * The registry's fingerprints are pairwise different, which is a cheap way
   * to see that its names are.
   */
  function Fingerprint(name: string): int {
    if |name| < 3 then |name| else |name| * 1000000 + (name[0] as int) * 1000 + name[2] as int
  }

  const RegistryFingerprints: seq<int> := [
    6067109, 8085099, 4082114, 4069105, 9076103, 8077116,
    7071100, 8085116, 12084097, 6067115, 9067108, 6068118,
    8077115, 7083112, 7069097, 8069104, 12085102, 6077116,
    4065101, 8084109, 10080105, 6069110, 7069101, 9086110,
    9069105, 11073108, 11083110, 8073102, 12112097
  ]

  lemma FingerprintsOfRegistry()
    ensures forall i :: 0 <= i < |Names| ==> Fingerprint(Names[i]) == RegistryFingerprints[i]
  {
    FingerprintsHead();
    FingerprintsMiddle();
    FingerprintsTail();
  }

  lemma FingerprintsHead()
    ensures forall i :: 0 <= i < 10 ==> Fingerprint(Names[i]) == RegistryFingerprints[i]
  {
  }

  lemma FingerprintsMiddle()
    ensures forall i :: 10 <= i < 20 ==> Fingerprint(Names[i]) == RegistryFingerprints[i]
  {
  }

  lemma FingerprintsTail()
    ensures forall i :: 20 <= i < |Names| ==> Fingerprint(Names[i]) == RegistryFingerprints[i]
  {
  }

  lemma FingerprintsDistinct()
    ensures forall i, j :: 0 <= i < j < |RegistryFingerprints| ==> RegistryFingerprints[i] != RegistryFingerprints[j]
  {
  }

  /** The registry has 29 tiers with distinct names; the last is "placeholder " with a trailing space. */
  lemma RegistryShape()
    ensures |Rarities| == 29
    ensures LastRarity().name == "placeholder "
    ensures NamesDistinct(Rarities)
  {
    FingerprintsOfRegistry();
    FingerprintsDistinct();
  }

  /** Every registry name is at most 12 characters long. */
  lemma RegistryNamesShort(i: int)
    requires 0 <= i < |Names|
    ensures |Names[i]| <= 12
  {
  }

  /** Name and index agree on the registry: an index's name looks up to that index. */
  lemma {:induction false} NameIndexRoundTrip(i: int)
    requires 0 <= i < |Rarities|
    ensures GetRarityData(i).Some?
    ensures FindIndex(GetRarityData(i).value.name) == i
    ensures IndexOfName(GetRarityData(i).value.name) == i
  {
    RegistryShape();
  }

  /** A name found in the registry maps to the first tier bearing it, and the tier's data carries that name. */
  lemma KnownNameLookup(name: string)
    requires FindIndex(name) != -1
    ensures GetRarityData(IndexOfName(name)) == Some(Rarities[IndexOfName(name)])
    ensures Rarities[IndexOfName(name)].name == name
  {
  }

  /** Extended names are never registry names, so looking one up falls back to tier 0. */
  lemma ExtendedNameUnknown(i: int)
    requires i >= |Rarities|
    ensures FindIndex(GetRarityData(i).value.name) == -1
    ensures IndexOfName(GetRarityData(i).value.name) == 0
  {
    var name := GetRarityData(i).value.name;
    assert |name| >= 16;
    forall j | 0 <= j < |Names|
      ensures Names[j] != name
    {
      RegistryNamesShort(j);
    }
  }

  /** The first two tiers past the end are "placeholder  (I)" and "placeholder  (II)" (two spaces). */
  lemma ExtendedFirstTwo()
    ensures GetRarityData(|Rarities|).value.name == "placeholder  (I)"
    ensures GetRarityData(|Rarities| + 1).value.name == "placeholder  (II)"
  {
    TierExtension.SuffixFirstTwo();
  }

  /** Once the numeral runs out the name ends in " (???)"; before that it never does. */
  lemma ExtendedFallback(i: int)
    requires i >= |Rarities|
    ensures GetRarityData(i).value.name == LastRarity().name + " (???)"
        <==> i > |Rarities| - 1 + Roman.MaxRoman
  {
    TierExtension.ExtendedNameFallback(LastRarity().name, i, |Rarities|);
  }

  /** The tier of an extended name can be recovered from its numeral while the numeral exists. */
  lemma ExtendedTierReadsBack(i: int)
    requires |Rarities| <= i <= |Rarities| - 1 + Roman.MaxRoman
    ensures var name := GetRarityData(i).value.name;
      Roman.RomanValue(name[|LastRarity().name| + 2..|name| - 1]) + |Rarities| - 1 == i
  {
    TierExtension.ExtendedNameReadsBack(LastRarity().name, i, |Rarities|);
  }

  /** Distinct indices past the end have distinct names while the numeral exists. */
  lemma ExtendedNamesDistinct(a: int, b: int)
    requires |Rarities| <= a <= |Rarities| - 1 + Roman.MaxRoman
    requires |Rarities| <= b <= |Rarities| - 1 + Roman.MaxRoman
    requires GetRarityData(a).value.name == GetRarityData(b).value.name
    ensures a == b
  {
    TierExtension.ExtendedNameInjective(LastRarity().name, a, b, |Rarities|);
  }

  /** A random rarity always lands inside the registry, on the selected name's tier. */
  lemma RandomRarityInRegistry(selected: Option<string>)
    requires selected.Some? ==> selected.value in SelectorNames()
    ensures 0 <= IndexOfName(selected.GetOr(Rarities[0].name)) < |Rarities|
    ensures Rarities[IndexOfName(selected.GetOr(Rarities[0].name))].name == selected.GetOr(Rarities[0].name)
  {
    var name := selected.GetOr(Rarities[0].name);
    var names := SelectorNames();
    var k :| 0 <= k < |names| && names[k] == name;
    assert Rarities[k].name == name;
  }
}
