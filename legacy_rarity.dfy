/**
 * The older rarity registry: a plain list of 44 tier names, most common
 * first, with the same Roman-numeral extension past the end. Unlike the
 * current registry, some names occur twice.
 */
module LegacyRarity {
  import opened Wrappers
  import TierExtension
  import Roman

  /** The names, in order from most common to rarest. */
  const Rarities: seq<string> := [
    "Common", "Uncommon", "Rare", "Very Rare", "Ultra Rare", "Epic", "Legendary", "Mythical",
    "Godlike", "Transcendent", "Cosmic", "Celestial", "Divine", "Supreme", "Exalted", "Peerless",
    "Grandmaster", "Ethereal", "Mythos", "Primordial", "Timeless", "Infinite", "Omnipotent", "Ultimate",
    "Apex", "Transcendent", "Ultimate", "Unfathomable", "Mystical", "Mythos", "Primordial", "Omnipotent",
    "Exalted", "Eonian", "Timeless", "Eternal", "Supreme", "Cosmic", "Grand", "Infinite",
    "Venerable", "Enigmatic", "Illustrious", "Singularity"
  ]

  /** The last name, "Singularity", which every extended name starts with. */
  function LastName(): string {
    Rarities[|Rarities| - 1]
  }

  /**
   * `getRarityName`: the registry name inside the list, the extended last
   * name past the end, nothing before the start (a negative array index
   * gives `undefined`).
   */
  function GetRarityName(rarity: int): (r: Option<string>)
    ensures r.None? <==> rarity < 0
    ensures 0 <= rarity < |Rarities| ==> r == Some(Rarities[rarity])
    ensures rarity >= |Rarities| ==> |r.value| > |LastName()| && r.value[..|LastName()|] == LastName()
  {
    if rarity >= |Rarities| then
      Some(TierExtension.ExtendedName(LastName(), rarity, |Rarities|))
    else if rarity < 0 then
      None
    else
      Some(Rarities[rarity])
  }

  /** The list holds 44 names and ends with "Singularity". */
  lemma RegistryShape()
    ensures |Rarities| == 44 && LastName() == "Singularity"
  {
  }

  /** Past the end, the name is "Singularity " followed by the numeral of the distance past the end plus one. */
  lemma ExtendedName(i: int)
    requires i >= |Rarities|
    ensures GetRarityName(i) == Some("Singularity " + TierExtension.Suffix(i - 44 + 1))
  {
    RegistryShape();
    assert "Singularity" + " " == "Singularity ";
  }

  /** The first two extended names are "Singularity (I)" and "Singularity (II)". */
  lemma ExtendedFirstTwo()
    ensures GetRarityName(44) == Some("Singularity (I)")
    ensures GetRarityName(45) == Some("Singularity (II)")
  {
    TierExtension.SuffixFirstTwo();
    ExtendedName(44);
    ExtendedName(45);
    assert "Singularity " + "(I)" == "Singularity (I)";
    assert "Singularity " + "(II)" == "Singularity (II)";
  }

  /** With no numeral the name is "Singularity (???)", and only then. */
  lemma ExtendedFallback(i: int)
    requires i >= |Rarities|
    ensures GetRarityName(i) == Some(LastName() + " (???)") <==> i > |Rarities| - 1 + Roman.MaxRoman
  {
    TierExtension.ExtendedNameFallback(LastName(), i, |Rarities|);
  }

  /** Successive extended indices get successive, hence different, numerals. */
  lemma ExtendedNamesDistinct(a: int, b: int)
    requires |Rarities| <= a <= |Rarities| - 1 + Roman.MaxRoman
    requires |Rarities| <= b <= |Rarities| - 1 + Roman.MaxRoman
    requires GetRarityName(a) == GetRarityName(b)
    ensures a == b
  {
    TierExtension.ExtendedNameInjective(LastName(), a, b, |Rarities|);
  }

  /** No extended name is a registry name: registry names are at most 12 characters long. */
  lemma ExtendedNameNotRegistered(i: int, j: int)
    requires i >= |Rarities| && 0 <= j < |Rarities|
    ensures GetRarityName(i) != GetRarityName(j)
  {
    assert |Rarities[j]| <= 12;
  }

  /** The lookup is not injective on the registry: two names occur twice. */
  lemma DuplicateNames()
    ensures GetRarityName(9) == GetRarityName(25) == Some("Transcendent")
    ensures GetRarityName(23) == GetRarityName(26) == Some("Ultimate")
  {
  }
}
