/**
 * The one piece of logic of the report page: `getOrdinal`, which writes a final
 * standing as "1st", "2nd", "11th" and so on. It is a single JavaScript
 * expression, so the model spells out the two JavaScript behaviours it leans on:
 * `%` keeps the sign of the dividend, and `s[i] || t` falls through to `t` when
 * the index is outside the array (the element is `undefined`).
 */
module ReportView {
  import opened Wrappers
  import Decimal
  import Copy

  const Suffixes: seq<string> := ["th", "st", "nd", "rd"]

  /** `s[i]` on a JavaScript array: `undefined` outside its bounds. */
  function Lookup(s: seq<string>, i: int): (r: Option<string>)
    ensures r.Some? <==> 0 <= i < |s|
    ensures r.Some? ==> r.value == s[i]
  {
    if 0 <= i < |s| then Some(s[i]) else None
  }

  /** `a || b`: `a` when it is a non-empty string, `b` otherwise (undefined and "" are falsy). */
  function OrElse(a: Option<string>, b: Option<string>): (r: Option<string>)
    ensures r == a || r == b
    ensures a.Some? && a.value != "" ==> r == a
  {
    if a.Some? && a.value != "" then a else b
  }

  /** `String(x)` of a string or `undefined`, as `+` writes it. */
  function Display(o: Option<string>): string {
    match o
    case Some(x) => x
    case None => "undefined"
  }

  /** The operand `s[(v - 20) % 10] || s[v] || s[0]` of getOrdinal, with `v = n % 100`. */
  function SuffixOf(n: int): Option<string> {
    var v := Copy.JsRem(n, 100);
    OrElse(OrElse(Lookup(Suffixes, Copy.JsRem(v - 20, 10)), Lookup(Suffixes, v)), Lookup(Suffixes, 0))
  }

  /** getOrdinal: the number followed by its suffix. */
  function Ordinal(n: int): string {
    Decimal.IntToString(n) + Display(SuffixOf(n))
  }

  /** The English rule the expression encodes: 11, 12 and 13 take "th"; otherwise a last digit 1, 2 or 3 takes "st", "nd" or "rd"; everything else "th". */
  function EnglishSuffix(n: nat): string {
    if 11 <= n % 100 <= 13 then "th"
    else if n % 10 == 1 then "st"
    else if n % 10 == 2 then "nd"
    else if n % 10 == 3 then "rd"
    else "th"
  }

  /** The last two digits decide the last digit. */
  lemma LastDigitOfLastTwo(n: nat)
    ensures (n % 100) % 10 == n % 10
  {
    var q := n / 100;
    assert n == 100 * q + n % 100;
    assert n == 10 * (10 * q + (n % 100) / 10) + (n % 100) % 10;
    Copy.ModUnique(n, 10, 10 * q + (n % 100) / 10, (n % 100) % 10);
  }

  /** For a non-negative number the suffix is the English one. */
  lemma SuffixIsEnglish(n: nat)
    ensures SuffixOf(n) == Some(EnglishSuffix(n))
  {
    var v := n % 100;
    assert Copy.JsRem(n, 100) == v;
    LastDigitOfLastTwo(n);
    if v >= 20 {
      assert Copy.JsRem(v - 20, 10) == v % 10;
    } else if v == 0 || v == 10 {
      assert Copy.JsRem(v - 20, 10) == 0;
    } else {
      assert Copy.JsRem(v - 20, 10) < 0;
    }
  }

  /** A negative number always ends in "th": every index the expression tries is negative except 0. */
  lemma NegativeIsTh(n: int)
    requires n < 0
    ensures SuffixOf(n) == Some("th")
  {
    var v := Copy.JsRem(n, 100);
    assert Copy.JsRem(v - 20, 10) <= 0;
  }

  /** The ordinal is the decimal of the number followed by a two-letter suffix from the table. */
  lemma OrdinalShape(n: int)
    ensures SuffixOf(n).Some? && SuffixOf(n).value in Suffixes
    ensures Ordinal(n) == Decimal.IntToString(n) + SuffixOf(n).value
    ensures |Ordinal(n)| == |Decimal.IntToString(n)| + 2
  {
    if n >= 0 {
      SuffixIsEnglish(n);
    } else {
      NegativeIsTh(n);
    }
  }
}
