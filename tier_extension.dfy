/**
 * The open-ended naming rule shared by both rarity registries: an index past
 * the end of the list reuses the last name, followed by a space and the
 * bracketed Roman numeral of how far past the end it lies, counting from one.
 */
module TierExtension {
  import opened Wrappers
  import Roman

  /** "(I)", "(II)", ... for the `k`-th index past the end; "(???)" when there is no numeral. */
  function Suffix(k: int): string {
    match Roman.ToRoman(k)
    case Some(numeral) => "(" + numeral + ")"
    case None => "(???)"
  }

  /** The name shown for `rarity >= count`, built from the last registry name. */
  function ExtendedName(lastName: string, rarity: int, count: nat): (name: string)
    ensures |name| >= |lastName| + 4
    ensures name[..|lastName|] == lastName
  {
    lastName + " " + Suffix(rarity - count + 1)
  }

  lemma SuffixFirstTwo()
    ensures Suffix(1) == "(I)" && Suffix(2) == "(II)"
  {
    Roman.ToRomanOneTwo();
  }

  /** Outside the numeral range the suffix is the fallback "(???)", and only there. */
  lemma SuffixFallback(k: int)
    ensures Suffix(k) == "(???)" <==> !(1 <= k <= Roman.MaxRoman)
  {
    if 1 <= k <= Roman.MaxRoman {
      var numeral := Roman.ToRoman(k).value;
      assert Suffix(k)[1] == numeral[0];
      assert Roman.LetterValue(numeral[0]) > 0;
    }
  }

  /**
   * The tier can be read back off an extended name: between the last name's
   * " (" and the closing bracket stands a numeral whose value is the distance
   * past the end, counting from one.
   */
  lemma ExtendedNameReadsBack(lastName: string, rarity: int, count: nat)
    requires 1 <= rarity - count + 1 <= Roman.MaxRoman
    ensures var name := ExtendedName(lastName, rarity, count);
      && name[|name| - 1] == ')'
      && Roman.RomanValue(name[|lastName| + 2..|name| - 1]) == rarity - count + 1
  {
    var k := rarity - count + 1;
    var numeral := Roman.ToRoman(k).value;
    var name := ExtendedName(lastName, rarity, count);
    assert Suffix(k) == "(" + numeral + ")";
    var prefix := lastName + " (";
    assert name == prefix + numeral + ")" by {
      assert name == lastName + " " + ("(" + numeral + ")");
    }
    Middle(prefix, numeral, ")");
    Roman.ToRomanReadsBack(k);
  }

  /** The middle of a three-part concatenation is found between the outer parts. */
  lemma Middle(prefix: string, middle: string, suffix: string)
    ensures var whole := prefix + middle + suffix;
      whole[|prefix|..|whole| - |suffix|] == middle
  {
    var whole := prefix + middle + suffix;
    assert forall i :: 0 <= i < |middle| ==> whole[|prefix| + i] == middle[i];
  }

  /** Equal strings with a common prefix have equal remainders. */
  lemma PrefixCancel(prefix: string, x: string, y: string)
    requires prefix + x == prefix + y
    ensures x == y
  {
    assert x == (prefix + x)[|prefix|..];
    assert y == (prefix + y)[|prefix|..];
  }

  /** An extended name ends in " (???)" exactly when its numeral does not exist. */
  lemma ExtendedNameFallback(lastName: string, rarity: int, count: nat)
    ensures ExtendedName(lastName, rarity, count) == lastName + " (???)"
        <==> !(1 <= rarity - count + 1 <= Roman.MaxRoman)
  {
    var suffix := Suffix(rarity - count + 1);
    SuffixFallback(rarity - count + 1);
    assert lastName + " (???)" == (lastName + " ") + "(???)";
    if ExtendedName(lastName, rarity, count) == lastName + " (???)" {
      PrefixCancel(lastName + " ", suffix, "(???)");
    }
  }

  /** Distinct indices past the end get distinct names while the numeral exists. */
  lemma ExtendedNameInjective(lastName: string, a: int, b: int, count: nat)
    requires 1 <= a - count + 1 <= Roman.MaxRoman && 1 <= b - count + 1 <= Roman.MaxRoman
    requires ExtendedName(lastName, a, count) == ExtendedName(lastName, b, count)
    ensures a == b
  {
    PrefixCancel(lastName + " ", Suffix(a - count + 1), Suffix(b - count + 1));
    SuffixInjective(a - count + 1, b - count + 1);
  }

  /** Successive indices past the end get different suffixes while numerals exist. */
  lemma SuffixInjective(a: int, b: int)
    requires 1 <= a <= Roman.MaxRoman && 1 <= b <= Roman.MaxRoman
    requires Suffix(a) == Suffix(b)
    ensures a == b
  {
    var na, nb := Roman.ToRoman(a).value, Roman.ToRoman(b).value;
    assert Suffix(a) == "(" + na + ")";
    assert na == Suffix(a)[1..|Suffix(a)| - 1];
    assert nb == Suffix(b)[1..|Suffix(b)| - 1];
    Roman.ToRomanInjective(a, b);
  }
}
