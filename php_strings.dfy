/**
 * The PHP string primitives the plugin relies on, stated over `seq<char>`:
 * `empty()`, the byte-wise string order of `ORDER BY`, `stripos`/`preg_match`
 * substring tests, `explode`, `strtok`, `rtrim` and `ltrim`.
 */
module PhpStrings {

  /** PHP's `empty()` on a string value: true for "" and for "0". */
  predicate IsEmpty(s: string) {
    s == "" || s == "0"
  }

  // ---------------------------------------------------------------------------
  // Lexicographic order on code points (the order `ORDER BY` is taken to use)
  // ---------------------------------------------------------------------------

  predicate StrLe(a: string, b: string)
    decreases |a|
  {
    |a| == 0 || (|b| > 0 && (a[0] < b[0] || (a[0] == b[0] && StrLe(a[1..], b[1..]))))
  }

  predicate StrLt(a: string, b: string) {
    StrLe(a, b) && a != b
  }

  lemma {:induction false} StrLeReflexive(a: string)
    ensures StrLe(a, a)
    decreases |a|
  {
    if |a| > 0 {
      StrLeReflexive(a[1..]);
    }
  }

  lemma {:induction false} StrLeTotal(a: string, b: string)
    ensures StrLe(a, b) || StrLe(b, a)
    decreases |a|
  {
    if |a| > 0 && |b| > 0 && a[0] == b[0] {
      StrLeTotal(a[1..], b[1..]);
    }
  }

  lemma {:induction false} StrLeTransitive(a: string, b: string, c: string)
    requires StrLe(a, b) && StrLe(b, c)
    ensures StrLe(a, c)
    decreases |a|
  {
    if |a| > 0 && a[0] == b[0] && b[0] == c[0] {
      StrLeTransitive(a[1..], b[1..], c[1..]);
    }
  }

  lemma {:induction false} StrLeAntisymmetric(a: string, b: string)
    requires StrLe(a, b) && StrLe(b, a)
    ensures a == b
    decreases |a|
  {
    if |a| > 0 {
      StrLeAntisymmetric(a[1..], b[1..]);
      assert a == [a[0]] + a[1..] && b == [b[0]] + b[1..];
    }
  }

  // ---------------------------------------------------------------------------
  // Substrings and ASCII case folding
  // ---------------------------------------------------------------------------

  /** `needle` occurs in `hay` (`preg_match('/needle/', hay)` for a literal needle). */
  predicate Contains(hay: string, needle: string)
    decreases |hay|
  {
    needle <= hay || (hay != [] && Contains(hay[1..], needle))
  }

  function AsciiLower(c: char): char {
    if 'A' <= c <= 'Z' then (c as int + 32) as char else c
  }

  function Lower(s: string): (r: string)
    ensures |r| == |s|
    ensures forall i :: 0 <= i < |s| ==> r[i] == AsciiLower(s[i])
  {
    seq(|s|, i requires 0 <= i < |s| => AsciiLower(s[i]))
  }

  /** `stripos(hay, needle) !== false`: substring test ignoring ASCII case. */
  predicate ContainsIgnoringCase(hay: string, needle: string) {
    Contains(Lower(hay), Lower(needle))
  }

  // ---------------------------------------------------------------------------
  // explode, strtok, rtrim, ltrim
  // ---------------------------------------------------------------------------

  /** The number of occurrences of `d` in `s`. */
  function Count(s: string, d: char): nat {
    if s == [] then 0 else (if s[0] == d then 1 else 0) + Count(s[1..], d)
  }

  /** `explode(d, s)`: the pieces of `s` between the occurrences of `d`. */
  function Split(s: string, d: char): (parts: seq<string>)
    ensures |parts| >= 1
    ensures forall i :: 0 <= i < |parts| ==> d !in parts[i]
    decreases |s|
  {
    if s == [] then [""]
    else
      var rest := Split(s[1..], d);
      if s[0] == d then [""] + rest
      else [[s[0]] + rest[0]] + rest[1..]
  }

  /** `implode(d, parts)`. */
  function Join(parts: seq<string>, d: char): string
    decreases |parts|
  {
    if |parts| <= 1 then (if parts == [] then "" else parts[0])
    else parts[0] + [d] + Join(parts[1..], d)
  }

  /** `explode` yields one more piece than there are separators. */
  lemma {:induction false} SplitCount(s: string, d: char)
    ensures |Split(s, d)| == Count(s, d) + 1
    decreases |s|
  {
    if s != [] {
      SplitCount(s[1..], d);
    }
  }

  /** `implode` undoes `explode`. */
  lemma {:induction false} SplitJoin(s: string, d: char)
    ensures Join(Split(s, d), d) == s
    decreases |s|
  {
    if s != [] {
      var rest := Split(s[1..], d);
      SplitJoin(s[1..], d);
      if s[0] == d {
        assert Split(s, d) == [""] + rest;
        if |rest| == 1 {
          assert Join(Split(s, d), d) == "" + [d] + rest[0];
        } else {
          assert ([""] + rest)[1..] == rest;
        }
        assert s == [s[0]] + s[1..];
      } else {
        var parts := [[s[0]] + rest[0]] + rest[1..];
        assert Split(s, d) == parts;
        if |rest| == 1 {
          assert Join(parts, d) == [s[0]] + rest[0];
        } else {
          assert parts[1..] == rest[1..];
          assert Join(rest, d) == rest[0] + [d] + Join(rest[1..], d);
        }
        assert s == [s[0]] + s[1..];
      }
    }
  }

  /** `s` with its leading occurrences of `c` removed (`ltrim(s, c)`). */
  function TrimLeft(s: string, c: char): (r: string)
    ensures |r| <= |s| && r == s[|s| - |r|..]
    ensures r == [] || r[0] != c
    ensures forall i :: 0 <= i < |s| - |r| ==> s[i] == c
    decreases |s|
  {
    if s != [] && s[0] == c then TrimLeft(s[1..], c) else s
  }

  /** `s` with its trailing occurrences of `c` removed (`rtrim(s, c)`). */
  function TrimRight(s: string, c: char): (r: string)
    ensures |r| <= |s| && r == s[..|r|]
    ensures r == [] || r[|r| - 1] != c
    ensures forall i :: |r| <= i < |s| ==> s[i] == c
    decreases |s|
  {
    if s != [] && s[|s| - 1] == c then TrimRight(s[..|s| - 1], c) else s
  }

  /** The prefix of `s` before the first `d`. */
  function TakeUntil(s: string, d: char): (r: string)
    ensures d !in r
    ensures |r| <= |s| && r == s[..|r|]
    ensures |r| == |s| || s[|r|] == d
    decreases |s|
  {
    if s == [] || s[0] == d then [] else [s[0]] + TakeUntil(s[1..], d)
  }

  /**
   * `strtok(s, d)` on a fresh string: skip leading separators, then take the
   * token up to the next separator. PHP returns `false` when no token is left;
   * stored as order meta that reads as "", which is what this returns then.
   */
  function Strtok(s: string, d: char): string
    decreases |s|
  {
    if s != [] && s[0] == d then Strtok(s[1..], d) else TakeUntil(s, d)
  }

  /**
   * `tok` occurs in `s` at offset `k` and is followed by the separator `d`
   * or by the end of `s`.
   */
  ghost predicate TokenAt(s: string, k: int, tok: string, d: char) {
    && 0 <= k && k + |tok| <= |s|
    && s[k..k + |tok|] == tok
    && (k + |tok| == |s| || s[k + |tok|] == d)
  }

  /**
   * The token `Strtok` returns holds no separator and is the first one in
   * `s`: only separators come before it, and a separator or the end of `s`
   * right after it.
   */
  lemma StrtokIsFirstToken(s: string, d: char)
    ensures d !in Strtok(s, d)
    ensures forall i :: 0 <= i < |s| - |TrimLeft(s, d)| ==> s[i] == d
    ensures TokenAt(s, |s| - |TrimLeft(s, d)|, Strtok(s, d), d)
  {
    var rest := TrimLeft(s, d);
    StrtokSkipsSeparators(s, d);
    TokenInSuffix(s, rest, TakeUntil(rest, d), d);
  }

  /** `Strtok` is `ltrim` followed by the prefix up to the first separator. */
  lemma {:induction false} StrtokSkipsSeparators(s: string, d: char)
    ensures Strtok(s, d) == TakeUntil(TrimLeft(s, d), d)
    decreases |s|
  {
    if s != [] && s[0] == d {
      StrtokSkipsSeparators(s[1..], d);
    }
  }

  /** A prefix `tok` of the suffix `rest` of `s` sits in `s` right where `rest` starts. */
  lemma TokenInSuffix(s: string, rest: string, tok: string, d: char)
    requires |rest| <= |s| && rest == s[|s| - |rest|..]
    requires |tok| <= |rest| && tok == rest[..|tok|]
    requires |tok| == |rest| || rest[|tok|] == d
    ensures TokenAt(s, |s| - |rest|, tok, d)
  {
    var k := |s| - |rest|;
    assert s[k..][..|tok|] == s[k..k + |tok|];
    if k + |tok| < |s| {
      assert s[k + |tok|] == rest[|tok|];
    }
  }

  // ---------------------------------------------------------------------------
  // Decimal integers: PHP's int-to-string conversion and WordPress `absint`
  // ---------------------------------------------------------------------------

  predicate IsDigit(c: char) {
    '0' <= c <= '9'
  }

  predicate AllDigits(s: string) {
    forall i :: 0 <= i < |s| ==> IsDigit(s[i])
  }

  function DigitChar(d: nat): (c: char)
    requires d < 10
    ensures IsDigit(c)
  {
    ('0' as int + d) as char
  }

  /** The decimal digits of `n`, most significant first, without leading zeros. */
  function NatToString(n: nat): (r: string)
    ensures 1 <= |r| && AllDigits(r)
    ensures r[0] == '0' ==> n == 0
    decreases n
  {
    if n < 10 then [DigitChar(n)] else NatToString(n / 10) + [DigitChar(n % 10)]
  }

  /** PHP's conversion of an `int` to a string (`(string)$i`, `"{$i}"`). */
  function IntToString(i: int): (r: string)
    ensures 1 <= |r|
    ensures i >= 0 ==> AllDigits(r)
    ensures i < 0 ==> r[0] == '-' && AllDigits(r[1..])
  {
    if i < 0 then "-" + NatToString(-i) else NatToString(i)
  }

  /** The longest prefix of `s` made of digits. */
  function LeadingDigits(s: string): (r: string)
    ensures |r| <= |s| && r == s[..|r|] && AllDigits(r)
    ensures |r| == |s| || !IsDigit(s[|r|])
    decreases |s|
  {
    if s != [] && IsDigit(s[0]) then [s[0]] + LeadingDigits(s[1..]) else []
  }

  /** The value of a string of decimal digits. */
  function DigitsValue(ds: string): nat
    requires AllDigits(ds)
    decreases |ds|
  {
    if ds == [] then 0 else DigitsValue(ds[..|ds| - 1]) * 10 + (ds[|ds| - 1] as int - '0' as int)
  }

  predicate IsSpace(c: char) {
    c == ' ' || c == '\t' || c == '\n' || c == '\r' || c == '\U{000B}' || c == '\U{000C}'
  }

  function SkipSpaces(s: string): (r: string)
    ensures |r| <= |s| && r == s[|s| - |r|..]
    ensures r == [] || !IsSpace(r[0])
    decreases |s|
  {
    if s != [] && IsSpace(s[0]) then SkipSpaces(s[1..]) else s
  }

  /**
   * PHP's `(int)` cast of a string written in plain decimal: leading white
   * space, an optional sign, then the longest run of digits; no digits gives 0.
   */
  function Intval(s: string): int {
    var t := SkipSpaces(s);
    if t != [] && t[0] == '-' then -(DigitsValue(LeadingDigits(t[1..])) as int)
    else if t != [] && t[0] == '+' then DigitsValue(LeadingDigits(t[1..]))
    else DigitsValue(LeadingDigits(t))
  }

  /** WordPress `absint`: the absolute value of the `(int)` cast. */
  function Absint(s: string): (n: nat)
    ensures n == Intval(s) || n == -Intval(s)
  {
    var i := Intval(s);
    if i < 0 then -i else i
  }

  lemma {:induction false} DigitsValueOfNat(n: nat)
    ensures DigitsValue(NatToString(n)) == n
    decreases n
  {
    var r := NatToString(n);
    if n >= 10 {
      DigitsValueOfNat(n / 10);
      assert r[..|r| - 1] == NatToString(n / 10);
    }
  }

  lemma {:induction false} LeadingDigitsOfDigits(s: string)
    requires AllDigits(s)
    ensures LeadingDigits(s) == s
    decreases |s|
  {
    if s != [] {
      LeadingDigitsOfDigits(s[1..]);
    }
  }

  /** PHP's `(int)` cast reads back what `IntToString` wrote. */
  lemma IntvalOfIntToString(i: int)
    ensures Intval(IntToString(i)) == i
  {
    if i < 0 {
      var n: nat := -i;
      var ds := NatToString(n);
      assert Intval("-" + ds) == i by {
        ValueOfNatToString(n);
        IntvalOfNegative(ds);
      }
      assert IntToString(i) == "-" + ds;
    } else {
      var ds := NatToString(i);
      assert Intval(ds) == i by {
        ValueOfNatToString(i);
        IntvalOfDigits(ds);
      }
      assert IntToString(i) == ds;
    }
  }

  /** A minus sign followed by digits casts to the negated value of the digits. */
  lemma IntvalOfNegative(ds: string)
    requires AllDigits(ds)
    ensures Intval("-" + ds) == -(DigitsValue(LeadingDigits(ds)) as int)
  {
    var r := "-" + ds;
    assert r[0] == '-' && !IsSpace(r[0]);
    var t := SkipSpaces(r);
    assert t == r;
    assert t[1..] == ds;
  }

  /** A non-empty run of digits casts to its value. */
  lemma IntvalOfDigits(ds: string)
    requires ds != [] && AllDigits(ds)
    ensures Intval(ds) == DigitsValue(LeadingDigits(ds))
  {
    assert IsDigit(ds[0]) && !IsSpace(ds[0]);
    assert SkipSpaces(ds) == ds;
  }

  /** The digits `NatToString` writes read back as the number. */
  lemma ValueOfNatToString(n: nat)
    ensures DigitsValue(LeadingDigits(NatToString(n))) == n
  {
    LeadingDigitsOfDigits(NatToString(n));
    DigitsValueOfNat(n);
  }

  /** Reading back what `IntToString` wrote with `absint` gives the number again, sign aside. */
  lemma AbsintOfIntToString(i: int)
    ensures Absint(IntToString(i)) == if i < 0 then -i else i
  {
    IntvalOfIntToString(i);
  }

  /** Different integers have different decimal texts. */
  lemma IntToStringInjective(i: int, j: int)
    requires IntToString(i) == IntToString(j)
    ensures i == j
  {
    IntvalOfIntToString(i);
    IntvalOfIntToString(j);
  }

  /** A text that has no occurrence of `c` has no occurrence of any text containing `c`. */
  lemma {:induction false} MissingCharRulesOut(hay: string, needle: string, c: char)
    requires c in needle && c !in hay
    ensures !Contains(hay, needle)
    decreases |hay|
  {
    if hay != [] {
      MissingCharRulesOut(hay[1..], needle, c);
    }
  }
}
