/** The behaviour of the Java library calls the scrapers rely on: String.trim, String.contains,
    String.split with a one-character pattern, Long.parseLong / Integer.parseInt, Long.toString,
    the truncating division of `long`, replaceAll("\\D+", "") and an ASCII toLowerCase.
    Exceptions are modelled as the `Err` case of `Result`. */
module JavaLang {

  /** The exceptions the scrapers can throw once process output has been captured. */
  datatype Exception =
    | NumberFormat(input: string)              // NumberFormatException: For input string
    | IndexOutOfBounds(index: int, length: int) // ArrayIndexOutOfBoundsException

  datatype Result<T> = Ok(value: T) | Err(error: Exception)

  const LONG_MIN: int := -0x8000_0000_0000_0000
  const LONG_MAX: int := 0x7FFF_FFFF_FFFF_FFFF
  const INT_MIN: int := -0x8000_0000
  const INT_MAX: int := 0x7FFF_FFFF

  // ---------------------------------------------------------------- trim

  /** String.trim removes every character whose code is at most U+0020. */
  predicate IsTrimmed(c: char) { c <= ' ' }

  ghost predicate AllTrimmed(s: string) {
    forall i :: 0 <= i < |s| ==> IsTrimmed(s[i])
  }

  function TrimStart(s: string): string {
    if s != [] && IsTrimmed(s[0]) then TrimStart(s[1..]) else s
  }

  function TrimEnd(s: string): string {
    if s != [] && IsTrimmed(s[|s| - 1]) then TrimEnd(s[..|s| - 1]) else s
  }

  /** String.trim: drop low characters at the front, then at the back. */
  function Trim(s: string): string {
    TrimEnd(TrimStart(s))
  }

  /** TrimStart removes a run of low characters and stops at the first visible one. */
  lemma {:induction false} TrimStartSpec(s: string)
    ensures var r := TrimStart(s);
      |r| <= |s| && r == s[|s| - |r|..] && (r == [] || !IsTrimmed(r[0])) && AllTrimmed(s[..|s| - |r|])
  {
    if s != [] && IsTrimmed(s[0]) {
      TrimStartSpec(s[1..]);
      var r := TrimStart(s);
      assert s[..|s| - |r|] == [s[0]] + s[1..][..|s[1..]| - |r|];
    }
  }

  /** TrimEnd removes a run of low characters and stops at the last visible one. */
  lemma {:induction false} TrimEndSpec(s: string)
    ensures var r := TrimEnd(s);
      |r| <= |s| && r == s[..|r|] && (r == [] || !IsTrimmed(r[|r| - 1])) && AllTrimmed(s[|r|..])
  {
    if s != [] && IsTrimmed(s[|s| - 1]) {
      var p := s[..|s| - 1];
      TrimEndSpec(p);
      var r := TrimEnd(s);
      assert s[|r|..] == p[|r|..] + [s[|s| - 1]];
    }
  }

  /** trim returns an infix of its argument that starts and ends with a visible character (or is
      empty), and everything it drops on either side is a low character. */
  lemma TrimSpec(s: string)
    ensures var r, k := Trim(s), |s| - |TrimStart(s)|;
      0 <= k && k + |r| <= |s| && r == s[k..k + |r|]
      && (r == [] || (!IsTrimmed(r[0]) && !IsTrimmed(r[|r| - 1])))
      && AllTrimmed(s[..k]) && AllTrimmed(s[k + |r|..])
  {
    var t := TrimStart(s);
    var r := TrimEnd(t);
    var k := |s| - |t|;
    TrimStartSpec(s);
    TrimEndSpec(t);
    assert s[k..] == t;
    assert t[..|r|] == s[k..k + |r|];
    assert t[|r|..] == s[k + |r|..];
  }

  lemma {:induction false} TrimStartSkips(a: string, t: string)
    requires AllTrimmed(a)
    requires t == [] || !IsTrimmed(t[0])
    ensures TrimStart(a + t) == t
  {
    if a == [] {
      assert a + t == t;
    } else {
      assert (a + t)[1..] == a[1..] + t;
      TrimStartSkips(a[1..], t);
    }
  }

  lemma {:induction false} TrimEndSkips(t: string, b: string)
    requires AllTrimmed(b)
    requires t == [] || !IsTrimmed(t[|t| - 1])
    ensures TrimEnd(t + b) == t
  {
    if b == [] {
      assert t + b == t;
    } else {
      assert (t + b)[..|t + b| - 1] == t + b[..|b| - 1];
      TrimEndSkips(t, b[..|b| - 1]);
    }
  }

  /** Trim is determined by the decomposition it promises: whatever is wrapped in low characters
      and starts and ends with a visible character is what trim returns. */
  lemma TrimOfPadded(a: string, m: string, b: string)
    requires AllTrimmed(a) && AllTrimmed(b)
    requires m == [] || (!IsTrimmed(m[0]) && !IsTrimmed(m[|m| - 1]))
    ensures Trim(a + m + b) == m
  {
    if m == [] {
      assert a + m + b == (a + b) + [];
      TrimStartSkips(a + b, []);
      assert TrimStart(a + m + b) == [];
    } else {
      assert a + m + b == a + (m + b);
      TrimStartSkips(a, m + b);
      TrimEndSkips(m, b);
    }
  }

  lemma TrimIdempotent(s: string)
    ensures Trim(Trim(s)) == Trim(s)
  {
    TrimSpec(s);
    TrimOfPadded([], Trim(s), []);
    assert [] + Trim(s) + [] == Trim(s);
  }

  // ---------------------------------------------------------------- contains

  predicate StartsWith(s: string, p: string) {
    |p| <= |s| && s[..|p|] == p
  }

  /** String.contains: `t` occurs somewhere in `s`. */
  predicate Contains(s: string, t: string)
    decreases |s|
  {
    StartsWith(s, t) || (s != [] && Contains(s[1..], t))
  }

  ghost predicate OccursAt(s: string, t: string, i: int) {
    0 <= i && i + |t| <= |s| && s[i..i + |t|] == t
  }

  lemma {:induction false} ContainsIff(s: string, t: string)
    ensures Contains(s, t) <==> exists i :: OccursAt(s, t, i)
    decreases |s|
  {
    if StartsWith(s, t) {
      assert OccursAt(s, t, 0);
    } else if s == [] {
    } else {
      ContainsIff(s[1..], t);
      if exists i :: OccursAt(s[1..], t, i) {
        var i :| OccursAt(s[1..], t, i);
        assert s[1..][i..i + |t|] == s[i + 1..i + 1 + |t|];
        assert OccursAt(s, t, i + 1);
      }
      if exists i :: OccursAt(s, t, i) {
        var i :| OccursAt(s, t, i);
        assert i != 0;
        assert s[1..][i - 1..i - 1 + |t|] == s[i..i + |t|];
        assert OccursAt(s[1..], t, i - 1);
      }
    }
  }

  /** A string lacking one character of `t` cannot contain `t`. */
  lemma {:induction false} MissingCharNotContained(s: string, t: string, c: char)
    requires c in t && c !in s
    ensures !Contains(s, t)
    decreases |s|
  {
    if s != [] {
      MissingCharNotContained(s[1..], t, c);
    }
  }

  /** One occurrence is enough for contains. */
  lemma OccurrenceContained(s: string, t: string, i: int)
    requires OccursAt(s, t, i)
    ensures Contains(s, t)
  {
    ContainsIff(s, t);
  }

  // ---------------------------------------------------------------- split

  /** Every field between occurrences of `sep`, trailing empty ones included. */
  function SplitAll(s: string, sep: char): (r: seq<string>)
    ensures |r| >= 1
  {
    if s == [] then [[]]
    else
      var rest := SplitAll(s[1..], sep);
      if s[0] == sep then [[]] + rest else [[s[0]] + rest[0]] + rest[1..]
  }

  /** One field more than there are separators, and no separator inside a field. */
  lemma {:induction false} SplitAllFields(s: string, sep: char)
    ensures |SplitAll(s, sep)| == multiset(s)[sep] + 1
    ensures forall i :: 0 <= i < |SplitAll(s, sep)| ==> sep !in SplitAll(s, sep)[i]
  {
    if s != [] {
      SplitAllFields(s[1..], sep);
      assert s == [s[0]] + s[1..];
      var rest := SplitAll(s[1..], sep);
      if s[0] != sep {
        assert forall i :: 1 <= i < |SplitAll(s, sep)| ==> SplitAll(s, sep)[i] == rest[i];
      } else {
        assert forall i :: 1 <= i < |SplitAll(s, sep)| ==> SplitAll(s, sep)[i] == rest[i - 1];
      }
    }
  }

  /** The inverse of SplitAll: the fields with `sep` between them. */
  function Join(fields: seq<string>, sep: char): string {
    if |fields| == 0 then []
    else if |fields| == 1 then fields[0]
    else fields[0] + [sep] + Join(fields[1..], sep)
  }

  lemma {:induction false} JoinSplitAll(s: string, sep: char)
    ensures Join(SplitAll(s, sep), sep) == s
  {
    if s != [] {
      var rest := SplitAll(s[1..], sep);
      JoinSplitAll(s[1..], sep);
      if s[0] == sep {
        assert ([[]] + rest)[1..] == rest;
      } else if |rest| == 1 {
        assert [s[0]] + s[1..] == s;
      } else {
        var r := [[s[0]] + rest[0]] + rest[1..];
        assert r[1..] == rest[1..];
        assert Join(rest, sep) == rest[0] + [sep] + Join(rest[1..], sep);
        assert [s[0]] + s[1..] == s;
      }
    }
  }

  lemma {:induction false} SplitAllFree(w: string, sep: char)
    requires sep !in w
    ensures SplitAll(w, sep) == [w]
  {
    if w != [] {
      SplitAllFree(w[1..], sep);
      assert [w[0]] + w[1..] == w;
    }
  }

  lemma {:induction false} SplitAllField(w: string, sep: char, rest: string)
    requires sep !in w
    ensures SplitAll(w + [sep] + rest, sep) == [w] + SplitAll(rest, sep)
  {
    if w == [] {
      assert w + [sep] + rest == [sep] + rest;
      assert ([sep] + rest)[1..] == rest;
    } else {
      assert (w + [sep] + rest)[1..] == w[1..] + [sep] + rest;
      SplitAllField(w[1..], sep, rest);
      assert [w[0]] + w[1..] == w;
    }
  }

  lemma {:induction false} SplitAllJoin(fields: seq<string>, sep: char)
    requires |fields| >= 1
    requires forall i :: 0 <= i < |fields| ==> sep !in fields[i]
    ensures SplitAll(Join(fields, sep), sep) == fields
  {
    if |fields| == 1 {
      SplitAllFree(fields[0], sep);
    } else {
      SplitAllJoin(fields[1..], sep);
      SplitAllField(fields[0], sep, Join(fields[1..], sep));
      assert [fields[0]] + fields[1..] == fields;
    }
  }

  /** What String.split(regex) does with a zero limit: drop the empty fields at the end. */
  function DropTrailingEmpty(fields: seq<string>): (r: seq<string>)
    ensures |r| <= |fields| && r == fields[..|r|]
    ensures r == [] || r[|r| - 1] != []
  {
    if fields != [] && fields[|fields| - 1] == [] then DropTrailingEmpty(fields[..|fields| - 1])
    else fields
  }

  /** String.split with a one-character pattern that is no regular-expression metacharacter.
      A string without the separator comes back as the only element, even when it is empty. */
  function Split(s: string, sep: char): seq<string> {
    if sep !in s then [s] else DropTrailingEmpty(SplitAll(s, sep))
  }

  lemma {:induction false} DropTrailingEmptyDropsEmpty(fields: seq<string>)
    ensures forall i :: |DropTrailingEmpty(fields)| <= i < |fields| ==> fields[i] == []
  {
    if fields != [] && fields[|fields| - 1] == [] {
      DropTrailingEmptyDropsEmpty(fields[..|fields| - 1]);
    }
  }

  /** For a non-empty string, index `k` of Split exists exactly when some field at `k` or later
      is non-empty, and it is then the k-th field between separators. */
  lemma SplitIndex(s: string, sep: char, k: nat)
    requires s != []
    ensures k < |Split(s, sep)| <==> exists j :: k <= j < |SplitAll(s, sep)| && SplitAll(s, sep)[j] != []
    ensures k < |Split(s, sep)| ==> Split(s, sep)[k] == SplitAll(s, sep)[k]
  {
    var all := SplitAll(s, sep);
    if sep !in s {
      SplitAllFree(s, sep);
    } else {
      var r := DropTrailingEmpty(all);
      DropTrailingEmptyDropsEmpty(all);
      if k < |r| {
        assert r[|r| - 1] == all[|r| - 1];
        assert k <= |r| - 1 < |all| && all[|r| - 1] != [];
        assert Split(s, sep) == r;
        assert exists j :: k <= j < |SplitAll(s, sep)| && SplitAll(s, sep)[j] != [];
        assert Split(s, sep)[k] == SplitAll(s, sep)[k];
      } else {
        forall j | k <= j < |all| ensures all[j] == [] {
          assert |r| <= j;
        }
      }
    }
  }

  // ---------------------------------------------------------------- numbers

  predicate IsDigit(c: char) { '0' <= c <= '9' }

  predicate AllDigits(s: string) {
    forall i :: 0 <= i < |s| ==> IsDigit(s[i])
  }

  function DigitValue(c: char): nat
    requires IsDigit(c)
  {
    (c as int) - ('0' as int)
  }

  function DigitChar(d: nat): char
    requires d < 10
  {
    (('0' as int) + d) as char
  }

  /** The number a string of decimal digits denotes (0 for the empty string). */
  function DigitsValue(d: string): nat
    requires AllDigits(d)
  {
    if d == [] then 0 else DigitsValue(d[..|d| - 1]) * 10 + DigitValue(d[|d| - 1])
  }

  /** The parse shared by Long.parseLong and Integer.parseInt in radix 10: an optional '+' or '-',
      at least one digit, nothing else, and a value in [lo, hi]. */
  function ParseDecimal(s: string, lo: int, hi: int): (r: Result<int>)
    ensures r.Ok? ==> lo <= r.value <= hi
    ensures r.Err? ==> r.error == NumberFormat(s)
  {
    var signed := s != [] && (s[0] == '-' || s[0] == '+');
    var body := if signed then s[1..] else s;
    if body == [] || !AllDigits(body) then Err(NumberFormat(s))
    else
      var n: int := DigitsValue(body);
      var v := if s[0] == '-' then -n else n;
      if lo <= v <= hi then Ok(v) else Err(NumberFormat(s))
  }

  function ParseLong(s: string): Result<int> {
    ParseDecimal(s, LONG_MIN, LONG_MAX)
  }

  function ParseInt(s: string): Result<int> {
    ParseDecimal(s, INT_MIN, INT_MAX)
  }

  /** Decimal digits of a natural number, without leading zeros. */
  function NatToDecimal(n: nat): (r: string)
    ensures r != [] && AllDigits(r) && DigitsValue(r) == n
    ensures r[0] == '0' ==> r == "0"
  {
    if n < 10 then [DigitChar(n)]
    else
      var r := NatToDecimal(n / 10) + [DigitChar(n % 10)];
      assert r[..|r| - 1] == NatToDecimal(n / 10);
      r
  }

  /** The decimal text of n is that of n / 10 followed by its last digit. */
  lemma DecimalStep(n: nat, s: string)
    requires n >= 10 && NatToDecimal(n / 10) == s
    ensures NatToDecimal(n) == s + [DigitChar(n % 10)]
  {
  }

  /** Long.toString, and so the text `"..." + n` gives for a long `n`. */
  function LongToString(n: int): string {
    if n < 0 then "-" + NatToDecimal(-n) else NatToDecimal(n)
  }

  /** parseLong reads back what toString writes. */
  lemma ParseLongToString(n: int)
    requires LONG_MIN <= n <= LONG_MAX
    ensures ParseLong(LongToString(n)) == Ok(n)
  {
    var s := LongToString(n);
    if n < 0 {
      assert s[1..] == NatToDecimal(-n);
    } else {
      assert s[0] != '-' && s[0] != '+';
    }
  }

  /** A string made of digits only parses to the number it denotes, when that fits. */
  lemma ParseLongDigits(d: string)
    requires d != [] && AllDigits(d)
    ensures ParseLong(d) == if DigitsValue(d) <= LONG_MAX then Ok(DigitsValue(d)) else Err(NumberFormat(d))
  {
    assert IsDigit(d[0]);
  }

  lemma ParseIntDigits(d: string)
    requires d != [] && AllDigits(d)
    ensures ParseInt(d) == if DigitsValue(d) <= INT_MAX then Ok(DigitsValue(d)) else Err(NumberFormat(d))
  {
    assert IsDigit(d[0]);
  }

  /** The empty string, a lone sign and any stray non-digit make parseLong throw. */
  lemma ParseLongRejects(s: string, i: nat)
    requires s == [] || (i < |s| && !IsDigit(s[i]) && !(i == 0 && |s| > 1 && (s[0] == '-' || s[0] == '+')))
    ensures ParseLong(s) == Err(NumberFormat(s)) && ParseInt(s) == Err(NumberFormat(s))
  {
    if s != [] && (s[0] == '-' || s[0] == '+') && i > 0 {
      assert s[1..][i - 1] == s[i];
    }
  }

  /** A sign followed by digits: the digits' value, negated for '-', when it lies in [lo, hi]. */
  lemma ParseSigned(c: char, d: string, lo: int, hi: int)
    requires (c == '+' || c == '-') && d != [] && AllDigits(d)
    ensures var v: int := if c == '-' then -(DigitsValue(d) as int) else DigitsValue(d);
            ParseDecimal([c] + d, lo, hi) == if lo <= v <= hi then Ok(v) else Err(NumberFormat([c] + d))
  {
    assert ([c] + d)[0] == c;
    assert ([c] + d)[1..] == d;
  }

  /** The `/` of Java's `long`: the quotient rounded toward zero. */
  function JavaDiv(a: int, b: int): (q: int)
    requires b > 0
    ensures a >= 0 ==> 0 <= a - b * q < b
    ensures a < 0 ==> -b < a - b * q <= 0
  {
    if a >= 0 then a / b else -((-a) / b)
  }

  /** replaceAll("\\D+", ""): keep the ASCII digits, in order. */
  function DigitsOnly(s: string): (r: string)
    ensures AllDigits(r) && |r| <= |s|
  {
    if s == [] then [] else (if IsDigit(s[0]) then [s[0]] else []) + DigitsOnly(s[1..])
  }

  lemma {:induction false} DigitsOnlyAppend(a: string, b: string)
    ensures DigitsOnly(a + b) == DigitsOnly(a) + DigitsOnly(b)
  {
    if a != [] {
      assert (a + b)[1..] == a[1..] + b;
      DigitsOnlyAppend(a[1..], b);
    } else {
      assert a + b == b;
    }
  }

  lemma {:induction false} DigitsOnlyKeepsDigits(s: string)
    ensures AllDigits(s) <==> DigitsOnly(s) == s
  {
    if s != [] {
      DigitsOnlyKeepsDigits(s[1..]);
      assert [s[0]] + s[1..] == s;
      if DigitsOnly(s) == s {
        assert |DigitsOnly(s[1..])| <= |s[1..]|;
        assert IsDigit(s[0]);
        assert DigitsOnly(s[1..]) == s[1..];
      }
    }
  }

  // ---------------------------------------------------------------- case

  function LowerChar(c: char): char {
    if 'A' <= c <= 'Z' then ((c as int) + 32) as char else c
  }

  /** String.toLowerCase on ASCII letters. */
  function ToLower(s: string): (r: string)
    ensures |r| == |s|
  {
    if s == [] then [] else [LowerChar(s[0])] + ToLower(s[1..])
  }

  /** toLowerCase maps each character on its own: upper-case ASCII letters to their lower-case
      form, every other character to itself. */
  lemma {:induction false} ToLowerAt(s: string, i: int)
    requires 0 <= i < |s|
    ensures ToLower(s)[i] == LowerChar(s[i])
    ensures 'a' <= ToLower(s)[i] <= 'z' <==> ('a' <= s[i] <= 'z' || 'A' <= s[i] <= 'Z')
    decreases |s|
  {
    if i > 0 {
      ToLowerAt(s[1..], i - 1);
    }
  }
}
