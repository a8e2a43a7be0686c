/**
 * Character and string helpers: the ASCII case mapping behind
 * `capitalizeFirstLetter`, the decimal rendering of numbers in a template
 * literal, and splitting a query string at its separators.
 */
module Text {
  import opened Wrappers
  import opened JsValues

  predicate IsLowerAscii(c: char)
  {
    'a' <= c <= 'z'
  }

  predicate IsUpperAscii(c: char)
  {
    'A' <= c <= 'Z'
  }

  /** `toUpperCase` on one character: 'a'..'z' map to 'A'..'Z', everything else is kept. */
  function UpperCase(c: char): (u: char)
    ensures IsLowerAscii(c) ==> IsUpperAscii(u) && u as int - 'A' as int == c as int - 'a' as int
    ensures !IsLowerAscii(c) ==> u == c
    ensures !IsLowerAscii(u)
  {
    if IsLowerAscii(c) then (c as int - 'a' as int + 'A' as int) as char else c
  }

  /**
   * `capitalizeFirstLetter(str)`: `null` (None) unless `str` is a non-empty
   * string; otherwise the string with its first character upper-cased.
   * An absent argument takes the default `""` and so also gives `null`.
   */
  function CapitalizeFirstLetter(v: JsValue): (r: Option<string>)
    ensures r.Some? <==> v.JsString? && |v.s| > 0
    ensures r.Some? ==> |r.value| == |v.s| && r.value[1..] == v.s[1..]
    ensures r.Some? ==> r.value[0] == UpperCase(v.s[0]) && !IsLowerAscii(r.value[0])
  {
    match v
    case JsString(s) => if |s| == 0 then None else Some([UpperCase(s[0])] + s[1..])
    case _ => None
  }

  /** Capitalizing an already capitalized string changes nothing. */
  lemma CapitalizeIdempotent(v: JsValue)
    requires CapitalizeFirstLetter(v).Some?
    ensures CapitalizeFirstLetter(JsString(CapitalizeFirstLetter(v).value)) == CapitalizeFirstLetter(v)
  {
  }

  // ---------------------------------------------------------------------
  // Decimal numerals, as a non-negative integer appears inside `${...}`

  predicate IsDigit(c: char)
  {
    '0' <= c <= '9'
  }

  predicate AllDigits(s: string)
  {
    forall i :: 0 <= i < |s| ==> IsDigit(s[i])
  }

  function Digit(d: nat): (c: char)
    requires d < 10
    ensures IsDigit(c) && c as int - '0' as int == d
  {
    ('0' as int + d) as char
  }

  function DigitValue(c: char): (d: nat)
    requires IsDigit(c)
    ensures d < 10
  {
    c as int - '0' as int
  }

  /** The shortest decimal numeral of `n`: digits only, and no leading zero. */
  function DecimalString(n: nat): (s: string)
    ensures |s| > 0 && AllDigits(s)
    ensures s[0] == '0' ==> n == 0
    ensures n < 10 <==> |s| == 1
    decreases n
  {
    if n < 10 then [Digit(n)] else DecimalString(n / 10) + [Digit(n % 10)]
  }

  /** The value of a numeral, most significant digit first. */
  function ParseDecimal(s: string): nat
    requires AllDigits(s)
    decreases |s|
  {
    if |s| == 0 then 0 else 10 * ParseDecimal(s[..|s| - 1]) + DigitValue(s[|s| - 1])
  }

  /** Reading back a rendered number gives the number. */
  lemma {:induction false} ParseDecimalString(n: nat)
    ensures ParseDecimal(DecimalString(n)) == n
  {
    if n >= 10 {
      var s := DecimalString(n);
      assert s[..|s| - 1] == DecimalString(n / 10);
      ParseDecimalString(n / 10);
    }
  }

  /** Two numbers render alike only when they are equal. */
  lemma DecimalStringInjective(m: nat, n: nat)
    requires DecimalString(m) == DecimalString(n)
    ensures m == n
  {
    ParseDecimalString(m);
    ParseDecimalString(n);
  }

  // ---------------------------------------------------------------------
  // Separators

  /** `s.split(sep)`: the pieces between the occurrences of `sep`. */
  function Split(s: string, sep: char): (parts: seq<string>)
    ensures |parts| > 0
    ensures forall i :: 0 <= i < |parts| ==> sep !in parts[i]
    decreases |s|
  {
    if |s| == 0 then [""]
    else
      var rest := Split(s[1..], sep);
      if s[0] == sep then [""] + rest else [[s[0]] + rest[0]] + rest[1..]
  }

  /** `parts.join(sep)` for a non-empty list of pieces. */
  function Join(parts: seq<string>, sep: char): string
    requires |parts| > 0
    decreases |parts|
  {
    if |parts| == 1 then parts[0] else parts[0] + [sep] + Join(parts[1..], sep)
  }

  lemma {:induction false} SplitNoSeparator(a: string, sep: char)
    requires sep !in a
    ensures Split(a, sep) == [a]
    decreases |a|
  {
    if |a| > 0 {
      SplitNoSeparator(a[1..], sep);
      assert [a[0]] + a[1..] == a;
    }
  }

  lemma {:induction false} SplitAtFirst(a: string, sep: char, b: string)
    requires sep !in a
    ensures Split(a + [sep] + b, sep) == [a] + Split(b, sep)
    decreases |a|
  {
    var s := a + [sep] + b;
    if |a| == 0 {
      assert s[1..] == b;
    } else {
      assert s[1..] == a[1..] + [sep] + b;
      SplitAtFirst(a[1..], sep, b);
      assert [a[0]] + a[1..] == a;
    }
  }

  /** Splitting a join of separator-free pieces gives the pieces back. */
  lemma {:induction false} SplitJoin(parts: seq<string>, sep: char)
    requires |parts| > 0
    requires forall i :: 0 <= i < |parts| ==> sep !in parts[i]
    ensures Split(Join(parts, sep), sep) == parts
    decreases |parts|
  {
    if |parts| == 1 {
      SplitNoSeparator(parts[0], sep);
    } else {
      SplitAtFirst(parts[0], sep, Join(parts[1..], sep));
      SplitJoin(parts[1..], sep);
      assert [parts[0]] + parts[1..] == parts;
    }
  }

  /** Cuts `s` at the first `sep`: what comes before it and what comes after; `(s, "")` if there is none. */
  function BreakAt(s: string, sep: char): (kv: (string, string))
    ensures sep !in kv.0
    decreases |s|
  {
    if |s| == 0 then ("", "")
    else if s[0] == sep then ("", s[1..])
    else
      var rest := BreakAt(s[1..], sep);
      ([s[0]] + rest.0, rest.1)
  }

  lemma {:induction false} BreakAtJoin(k: string, sep: char, v: string)
    requires sep !in k
    ensures BreakAt(k + [sep] + v, sep) == (k, v)
    decreases |k|
  {
    var s := k + [sep] + v;
    if |k| == 0 {
      assert s[1..] == v;
    } else {
      assert s[1..] == k[1..] + [sep] + v;
      BreakAtJoin(k[1..], sep, v);
      assert [k[0]] + k[1..] == k;
    }
  }
}
