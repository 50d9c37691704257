/**
 * Roman numerals, standing in for `Decimal.toRoman` of the numeric library.
 *
 * The library's conversion is not part of this model; it is assumed to give
 * the standard subtractive encoding for 1..3999 and no string outside that
 * range (the source then shows "(???)").
 */
module Roman {
  import opened Wrappers

  /** Largest number with a standard subtractive Roman encoding (an assumption about the library). */
  const MaxRoman := 3999

  /** The value of a single numeral letter; 0 for any other character. */
  function LetterValue(c: char): nat {
    match c
    case 'I' => 1
    case 'V' => 5
    case 'X' => 10
    case 'L' => 50
    case 'C' => 100
    case 'D' => 500
    case 'M' => 1000
    case _ => 0
  }

  /** The encoding table, largest value first, subtractive pairs included. */
  const Values: seq<nat> := [1000, 900, 500, 400, 100, 90, 50, 40, 10, 9, 5, 4, 1]
  const Symbols: seq<string> := ["M", "CM", "D", "CD", "C", "XC", "L", "XL", "X", "IX", "V", "IV", "I"]

  /** What is left to encode once the table is past entry `i - 1`: less than that entry's value. */
  const Bounds: seq<nat> := [MaxRoman + 1, 1000, 900, 500, 400, 100, 90, 50, 40, 10, 9, 5, 4, 1]

  /** The largest letter any symbol from entry `i` on can contain. */
  const Largest: seq<nat> := [1000, 1000, 500, 500, 100, 100, 50, 50, 10, 10, 5, 5, 1, 1]

  /** Reading one table symbol gives its value; its last letter is the largest from that entry on. */
  lemma SymbolFacts(i: nat)
    requires i < |Values|
    ensures |Symbols[i]| > 0 && RomanValue(Symbols[i]) == Values[i] && Values[i] > 0
    ensures LetterValue(Symbols[i][|Symbols[i]| - 1]) == Largest[i]
    ensures forall k :: 0 <= k < |Symbols[i]| ==> 0 < LetterValue(Symbols[i][k]) <= Largest[i]
  {
    assert RomanValue("M") == 1000 && RomanValue("D") == 500 && RomanValue("C") == 100;
    assert RomanValue("L") == 50 && RomanValue("X") == 10 && RomanValue("V") == 5 && RomanValue("I") == 1;
    assert "CM"[1..] == "M" && "CD"[1..] == "D" && "XC"[1..] == "C";
    assert "XL"[1..] == "L" && "IX"[1..] == "X" && "IV"[1..] == "V";
  }

  /**
   * Greedy encoding from table entry `i`: take the entry while it fits,
   * then move on to the next one.
   */
  function Greedy(n: nat, i: nat): (s: string)
    requires i <= |Values| && n < Bounds[i]
    ensures n > 0 ==> |s| > 0
    ensures forall k :: 0 <= k < |s| ==> 0 < LetterValue(s[k]) <= Largest[i]
    decreases |Values| - i, n
  {
    if i == |Values| then ""
    else if n >= Values[i] then
      SymbolFacts(i);
      Symbols[i] + Greedy(n - Values[i], i)
    else Greedy(n, i + 1)
  }

  /** The subtractive encoding of `n`, or None when `n` is outside 1..MaxRoman. */
  function ToRoman(n: int): (r: Option<string>)
    ensures r.Some? <==> 1 <= n <= MaxRoman
    ensures r.Some? ==> |r.value| > 0
    ensures r.Some? ==> forall i :: 0 <= i < |r.value| ==> LetterValue(r.value[i]) > 0
  {
    if 1 <= n <= MaxRoman then Some(Greedy(n, 0)) else None
  }

  /**
   * Reads a numeral back: a letter counts negatively when a larger letter
   * follows it, positively otherwise.
   */
  function RomanValue(s: string): int {
    if |s| == 0 then 0
    else if |s| >= 2 && LetterValue(s[0]) < LetterValue(s[1]) then RomanValue(s[1..]) - LetterValue(s[0])
    else LetterValue(s[0]) + RomanValue(s[1..])
  }

  /** Reading a concatenation: no subtraction happens across a non-increasing seam. */
  lemma {:induction false} RomanValueAppend(a: string, b: string)
    requires a == [] || b == [] || LetterValue(a[|a| - 1]) >= LetterValue(b[0])
    ensures RomanValue(a + b) == RomanValue(a) + RomanValue(b)
  {
    if a == [] {
      assert a + b == b;
    } else if b == [] {
      assert a + b == a;
    } else {
      assert (a + b)[0] == a[0];
      assert (a + b)[1..] == a[1..] + b;
      if |a| >= 2 {
        assert (a + b)[1] == a[1];
        RomanValueAppend(a[1..], b);
      } else {
        assert a[1..] == [];
        assert (a + b)[1..] == b;
      }
    }
  }

  /** The greedy encoding reads back as the number encoded. */
  lemma {:induction false} GreedyValue(n: nat, i: nat)
    requires i <= |Values| && n < Bounds[i]
    ensures RomanValue(Greedy(n, i)) == n
    decreases |Values| - i, n
  {
    if i == |Values| {
    } else if n >= Values[i] {
      SymbolFacts(i);
      var symbol, rest := Symbols[i], Greedy(n - Values[i], i);
      assert Greedy(n, i) == symbol + rest;
      if rest != [] {
        assert LetterValue(symbol[|symbol| - 1]) >= LetterValue(rest[0]);
      }
      RomanValueAppend(symbol, rest);
      GreedyValue(n - Values[i], i);
    } else {
      assert Greedy(n, i) == Greedy(n, i + 1);
      GreedyValue(n, i + 1);
    }
  }

  /** Decoding inverts encoding on the whole range. */
  lemma ToRomanReadsBack(n: int)
    requires 1 <= n <= MaxRoman
    ensures RomanValue(ToRoman(n).value) == n
  {
    GreedyValue(n, 0);
  }

  /** Below four only the last entry, "I", is ever taken. */
  lemma {:induction false} GreedyOneTwo(i: nat)
    requires i < |Values|
    ensures Greedy(1, i) == "I" && Greedy(2, i) == "II"
    decreases |Values| - i
  {
    if i < |Values| - 1 {
      GreedyOneTwo(i + 1);
    } else {
      assert Greedy(0, i) == Greedy(0, i + 1) == "";
      assert Greedy(1, i) == "I" + Greedy(0, i);
      assert Greedy(2, i) == "I" + Greedy(1, i);
    }
  }

  /** The first two numerals. */
  lemma ToRomanOneTwo()
    ensures ToRoman(1) == Some("I") && ToRoman(2) == Some("II")
  {
    GreedyOneTwo(0);
  }

  /** Distinct numbers in range get distinct numerals. */
  lemma ToRomanInjective(a: int, b: int)
    requires ToRoman(a).Some? && ToRoman(a) == ToRoman(b)
    ensures a == b
  {
    ToRomanReadsBack(a);
    ToRomanReadsBack(b);
  }
}
