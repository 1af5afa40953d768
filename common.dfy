// Text and value helpers shared by every component of the plate tracker:
// an Option type, the JavaScript whitespace class and case mapping, decimal
// text for integers (template literals, `toString`, `parseInt(s, 10)`),
// code-point lexicographic order (string `<`, `.sort()`, `sorted`), and
// join/split on a separator.

module Common {

  datatype Option<+T> = None | Some(value: T)

  // ---------------------------------------------------------------------
  // Characters

  /** The characters matched by `\s` in a JavaScript regular expression
      (WhiteSpace and LineTerminator of ECMA-262); also what `trim` removes. */
  predicate IsJsWhitespace(c: char)
  {
    c == ' ' || c == '\t' || c == '\n' || c == '\U{000B}' || c == '\U{000C}' || c == '\r'
    || c == '\U{00A0}' || c == '\U{1680}' || ('\U{2000}' <= c <= '\U{200A}')
    || c == '\U{2028}' || c == '\U{2029}' || c == '\U{202F}' || c == '\U{205F}'
    || c == '\U{3000}' || c == '\U{FEFF}'
  }

  predicate IsDigit(c: char) { '0' <= c <= '9' }

  function UpperChar(c: char): char
  {
    if 'a' <= c <= 'z' then (c as int - 32) as char else c
  }

  function LowerChar(c: char): char
  {
    if 'A' <= c <= 'Z' then (c as int + 32) as char else c
  }

  // ---------------------------------------------------------------------
  // Case mapping and whitespace removal

  /** `s.toUpperCase()` on the ASCII letters. */
  function ToUpper(s: string): (r: string)
  {
    seq(|s|, i requires 0 <= i < |s| => UpperChar(s[i]))
  }

  /** `s.toLowerCase()` on the ASCII letters. */
  function ToLower(s: string): (r: string)
  {
    seq(|s|, i requires 0 <= i < |s| => LowerChar(s[i]))
  }

  /** `s.replace(/\s/g, '')`. */
  function StripWhitespace(s: string): (r: string)
    ensures |r| <= |s|
  {
    if s == [] then []
    else if IsJsWhitespace(s[0]) then StripWhitespace(s[1..])
    else [s[0]] + StripWhitespace(s[1..])
  }

  /** `s.toUpperCase().replace(/\s/g, '')`: the normalised plate key used by
      the detection worker and by the plate search. */
  function NormalizePlate(s: string): string
  {
    StripWhitespace(ToUpper(s))
  }

  function TrimStart(s: string): (r: string)
    ensures |r| <= |s| && r == s[|s| - |r|..]
    ensures r == [] || !IsJsWhitespace(r[0])
  {
    if s != [] && IsJsWhitespace(s[0]) then TrimStart(s[1..]) else s
  }

  function TrimEnd(s: string): (r: string)
    ensures |r| <= |s| && r == s[..|r|]
    ensures r == [] || !IsJsWhitespace(r[|r| - 1])
  {
    if s != [] && IsJsWhitespace(s[|s| - 1]) then TrimEnd(s[..|s| - 1]) else s
  }

  /** `s.trim()`. */
  function Trim(s: string): string
  {
    TrimEnd(TrimStart(s))
  }

  /** No whitespace survives the removal. */
  lemma {:induction false} StripWhitespaceClean(s: string)
    ensures forall i :: 0 <= i < |StripWhitespace(s)| ==> !IsJsWhitespace(StripWhitespace(s)[i])
  {
    if s != [] {
      StripWhitespaceClean(s[1..]);
    }
  }

  /** Text without whitespace is left as it is. */
  lemma StripWhitespaceOfClean(s: string)
    requires forall i :: 0 <= i < |s| ==> !IsJsWhitespace(s[i])
    ensures StripWhitespace(s) == s
  {
    if s != [] {
      StripWhitespaceOfClean(s[1..]);
    }
  }

  lemma {:induction false} StripWhitespaceAppend(a: string, b: string)
    ensures StripWhitespace(a + b) == StripWhitespace(a) + StripWhitespace(b)
  {
    if a == [] {
      assert a + b == b;
    } else {
      assert (a + b)[1..] == a[1..] + b;
      StripWhitespaceAppend(a[1..], b);
    }
  }

  lemma {:induction false} UpperOfUpperChar(c: char)
    ensures UpperChar(UpperChar(c)) == UpperChar(c)
    ensures IsJsWhitespace(UpperChar(c)) == IsJsWhitespace(c)
  {
  }

  lemma {:induction false} StripWhitespaceOfUpper(s: string)
    ensures ToUpper(StripWhitespace(s)) == StripWhitespace(ToUpper(s))
  {
    if s != [] {
      StripWhitespaceOfUpper(s[1..]);
      UpperOfUpperChar(s[0]);
      assert ToUpper(s)[1..] == ToUpper(s[1..]);
      assert ToUpper([s[0]] + StripWhitespace(s[1..])) == [UpperChar(s[0])] + ToUpper(StripWhitespace(s[1..]));
    }
  }

  /** Normalising an already normalised plate changes nothing, so the
      normalised text is a canonical key. */
  lemma {:induction false} NormalizePlateIdempotent(s: string)
    ensures NormalizePlate(NormalizePlate(s)) == NormalizePlate(s)
  {
    var n := NormalizePlate(s);
    StripWhitespaceOfUpper(ToUpper(s));
    assert ToUpper(ToUpper(s)) == ToUpper(s) by {
      forall i | 0 <= i < |s| ensures ToUpper(ToUpper(s))[i] == ToUpper(s)[i] {
        UpperOfUpperChar(s[i]);
      }
    }
    assert ToUpper(n) == n;
    StripWhitespaceClean(ToUpper(s));
    StripWhitespaceOfClean(n);
  }

  /** Every character of a normalised plate is neither whitespace nor a
      lower-case ASCII letter. */
  lemma {:induction false} NormalizePlateClean(s: string)
    ensures forall i :: 0 <= i < |NormalizePlate(s)| ==>
      !IsJsWhitespace(NormalizePlate(s)[i]) && !('a' <= NormalizePlate(s)[i] <= 'z')
  {
    StripWhitespaceOfUpper(s);
    var t := StripWhitespace(s);
    StripWhitespaceClean(s);
    assert NormalizePlate(s) == ToUpper(t);
    forall i | 0 <= i < |t| ensures !IsJsWhitespace(ToUpper(t)[i]) {
      UpperOfUpperChar(t[i]);
    }
  }

  /** Whitespace anywhere in the input does not affect the key. */
  lemma {:induction false} NormalizePlateDropsWhitespace(a: string, w: string, b: string)
    requires forall i :: 0 <= i < |w| ==> IsJsWhitespace(w[i])
    ensures NormalizePlate(a + w + b) == NormalizePlate(a + b)
  {
    StripAllWhitespace(w);
    assert ToUpper(a + w + b) == ToUpper(a) + ToUpper(w) + ToUpper(b);
    assert ToUpper(a + b) == ToUpper(a) + ToUpper(b);
    forall i | 0 <= i < |w| ensures IsJsWhitespace(ToUpper(w)[i]) {
      UpperOfUpperChar(w[i]);
    }
    StripAllWhitespace(ToUpper(w));
    StripWhitespaceAppend(ToUpper(a) + ToUpper(w), ToUpper(b));
    StripWhitespaceAppend(ToUpper(a), ToUpper(w));
    StripWhitespaceAppend(ToUpper(a), ToUpper(b));
  }

  lemma {:induction false} StripAllWhitespace(w: string)
    requires forall i :: 0 <= i < |w| ==> IsJsWhitespace(w[i])
    ensures StripWhitespace(w) == []
  {
    if w != [] {
      StripAllWhitespace(w[1..]);
    }
  }

  /** Lower-case ASCII letters give the same key as their upper-case
      forms. */
  lemma {:induction false} NormalizePlateIgnoresCase(s: string)
    ensures NormalizePlate(ToLower(s)) == NormalizePlate(s)
  {
    assert ToUpper(ToLower(s)) == ToUpper(s);
  }

  // ---------------------------------------------------------------------
  // Prefixes, suffixes, substrings

  predicate StartsWith(s: string, p: string) { |p| <= |s| && s[..|p|] == p }

  predicate EndsWith(s: string, p: string) { |p| <= |s| && s[|s| - |p|..] == p }

  /** `s.includes(sub)`. */
  predicate Contains(s: string, sub: string)
    decreases |s|
  {
    StartsWith(s, sub) || (s != [] && Contains(s[1..], sub))
  }

  lemma {:induction false} ContainsSelf(s: string, sub: string)
    requires StartsWith(s, sub)
    ensures Contains(s, sub)
  {
  }

  lemma {:induction false} ContainsAppendLeft(a: string, s: string, sub: string)
    requires Contains(s, sub)
    ensures Contains(a + s, sub)
    decreases |a|
  {
    if a == [] {
      assert a + s == s;
    } else {
      ContainsAppendLeft(a[1..], s, sub);
      assert (a + s)[1..] == a[1..] + s;
      assert a + s != [];
    }
  }

  lemma {:induction false} ContainsAppendRight(s: string, b: string, sub: string)
    requires Contains(s, sub)
    ensures Contains(s + b, sub)
    decreases |s|
  {
    if StartsWith(s, sub) {
      assert (s + b)[..|sub|] == s[..|sub|];
    } else {
      ContainsAppendRight(s[1..], b, sub);
      assert (s + b)[1..] == s[1..] + b;
    }
  }

  /** Index of the first occurrence of `pat` in `s` at or after `from`. */
  function IndexOfFrom(s: string, pat: string, from: nat): (r: Option<nat>)
    requires from <= |s|
    ensures r.Some? ==> from <= r.value && r.value + |pat| <= |s| && s[r.value..r.value + |pat|] == pat
    ensures r.Some? ==> forall j :: from <= j < r.value ==> !StartsWith(s[j..], pat)
    ensures r.None? ==> forall j :: from <= j <= |s| ==> !StartsWith(s[j..], pat)
    decreases |s| - from
  {
    if StartsWith(s[from..], pat) then Some(from)
    else if from == |s| then None
    else IndexOfFrom(s, pat, from + 1)
  }

  /** `s.replace(pat, rep)` with a string pattern: only the first occurrence
      is replaced. */
  function ReplaceFirst(s: string, pat: string, rep: string): (r: string)
  {
    match IndexOfFrom(s, pat, 0)
    case None => s
    case Some(i) => s[..i] + rep + s[i + |pat|..]
  }

  /** A pattern found at `k` and nowhere before is what `IndexOfFrom`
      returns. */
  lemma {:induction false} IndexOfFromFirst(s: string, pat: string, k: nat)
    requires k + |pat| <= |s| && s[k..k + |pat|] == pat
    requires forall j :: 0 <= j < k ==> !StartsWith(s[j..], pat)
    ensures IndexOfFrom(s, pat, 0) == Some(k)
  {
    assert StartsWith(s[k..], pat) by {
      assert s[k..][..|pat|] == s[k..k + |pat|];
    }
    match IndexOfFrom(s, pat, 0) {
      case None =>
      case Some(i) =>
        assert s[i..][..|pat|] == s[i..i + |pat|];
    }
  }

  /** Replacing a pattern that opens the text by "" removes it. */
  lemma {:induction false} ReplaceFirstOfPrefix(pat: string, rest: string)
    ensures ReplaceFirst(pat + rest, pat, "") == rest
  {
    var s := pat + rest;
    assert StartsWith(s[0..], pat) by {
      assert s[0..][..|pat|] == pat;
    }
    assert IndexOfFrom(s, pat, 0) == Some(0);
    assert s[..0] + "" + s[|pat|..] == rest;
  }

  /** Replacing a pattern that first occurs at the end by "" removes it. */
  lemma {:induction false} ReplaceFirstOfSuffix(a: string, pat: string)
    requires forall j :: 0 <= j < |a| ==> !StartsWith((a + pat)[j..], pat)
    ensures ReplaceFirst(a + pat, pat, "") == a
  {
    var s := a + pat;
    assert s[|a|..|a| + |pat|] == pat;
    IndexOfFromFirst(s, pat, |a|);
    assert s[..|a|] + "" + s[|a| + |pat|..] == a;
  }

  /** `s.replace(/c/g, d)` for a single character `c`. */
  function ReplaceAllChar(s: string, c: char, d: char): (r: string)
    ensures |r| == |s|
    ensures forall i :: 0 <= i < |s| ==> r[i] == (if s[i] == c then d else s[i])
  {
    seq(|s|, i requires 0 <= i < |s| => if s[i] == c then d else s[i])
  }

  // ---------------------------------------------------------------------
  // Decimal text

  function DigitChar(d: nat): char
    requires d < 10
  {
    ('0' as int + d) as char
  }

  function DigitValue(c: char): nat
    requires IsDigit(c)
  {
    c as int - '0' as int
  }

  predicate AllDigits(s: string) { forall i :: 0 <= i < |s| ==> IsDigit(s[i]) }

  /** Decimal text of a natural number, without leading zeros. */
  function NatToString(n: nat): (r: string)
    ensures r != [] && AllDigits(r)
    ensures |r| > 1 ==> r[0] != '0'
  {
    if n < 10 then [DigitChar(n)] else NatToString(n / 10) + [DigitChar(n % 10)]
  }

  /** `String(i)` / `${i}` for an integer `i`. */
  function IntToString(i: int): (r: string)
    ensures r != []
  {
    if i < 0 then "-" + NatToString(-i) else NatToString(i)
  }

  /** The value of a string of decimal digits. */
  function DigitsValue(s: string): nat
    requires AllDigits(s)
  {
    if s == [] then 0 else 10 * DigitsValue(s[..|s| - 1]) + DigitValue(s[|s| - 1])
  }

  lemma {:induction false} NatToStringValue(n: nat)
    ensures DigitsValue(NatToString(n)) == n
  {
    if n >= 10 {
      NatToStringValue(n / 10);
      var s := NatToString(n);
      assert s[..|s| - 1] == NatToString(n / 10);
    }
  }

  /** The longest prefix of `s` made of decimal digits. */
  function DigitPrefix(s: string): (r: string)
    ensures AllDigits(r) && StartsWith(s, r)
    ensures |r| < |s| ==> !IsDigit(s[|r|])
  {
    if s != [] && IsDigit(s[0]) then [s[0]] + DigitPrefix(s[1..]) else []
  }

  lemma {:induction false} DigitPrefixOfDigits(s: string, rest: string)
    requires AllDigits(s)
    requires rest == [] || !IsDigit(rest[0])
    ensures DigitPrefix(s + rest) == s
  {
    if s != [] {
      DigitPrefixOfDigits(s[1..], rest);
      assert (s + rest)[1..] == s[1..] + rest;
    }
  }

  /** `parseInt(s, 10)`: leading whitespace, an optional sign, then the
      longest run of decimal digits; `None` stands for `NaN` (no digits). */
  function ParseInt(s: string): (r: Option<int>)
  {
    var t := TrimStart(s);
    var body := SignStripped(t);
    var ds := DigitPrefix(body);
    if ds == [] then None
    else
      var v: int := DigitsValue(ds);
      if t != [] && t[0] == '-' then Some(-v) else Some(v)
  }

  function SignStripped(t: string): string
  {
    if t != [] && (t[0] == '-' || t[0] == '+') then t[1..] else t
  }

  lemma {:induction false} NoWhitespaceLead(c: char)
    requires IsDigit(c) || c == '-'
    ensures !IsJsWhitespace(c)
  {
  }

  lemma {:induction false} ParseIntOfDigits(t: string, ds: string)
    requires t == ds || t == "-" + ds
    requires ds != [] && AllDigits(ds)
    ensures t == ds ==> ParseInt(t) == Some(DigitsValue(ds))
    ensures t != ds ==> ParseInt(t) == Some(-(DigitsValue(ds) as int))
  {
    assert TrimStart(t) == t by {
      NoWhitespaceLead(t[0]);
    }
    assert SignStripped(t) == ds;
    assert DigitPrefix(ds) == ds by {
      DigitPrefixOfDigits(ds, []);
      assert ds + [] == ds;
    }
    assert (t != [] && t[0] == '-') <==> t != ds;
  }

  /** `parseInt` reads back what `String(i)` writes, for every integer. */
  lemma {:induction false} ParseIntOfIntToString(i: int)
    ensures ParseInt(IntToString(i)) == Some(i)
  {
    var n: nat := if i < 0 then -i else i;
    NatToStringValue(n);
    ParseIntOfDigits(IntToString(i), NatToString(n));
  }

  /** Whole-string decimal text: surrounding whitespace, an optional sign
      and at least one digit, nothing else (`None` otherwise). */
  function DecimalText(s: string): (r: Option<int>)
    ensures r.Some? ==> Trim(s) != []
  {
    var t := Trim(s);
    var body := SignStripped(t);
    if t != [] && body != [] && AllDigits(body) then
      var v: int := DigitsValue(body);
      Some(if t[0] == '-' then -v else v)
    else None
  }

  lemma {:induction false} TrimOfIntToString(i: int)
    ensures Trim(IntToString(i)) == IntToString(i)
  {
    var t := IntToString(i);
    var ds := NatToString(if i < 0 then -i else i);
    assert t[|t| - 1] == ds[|ds| - 1];
    NoWhitespaceLead(t[0]);
    NoWhitespaceLead(t[|t| - 1]);
    assert TrimStart(t) == t;
  }

  /** Whole-string decimal reading inverts `String(i)`. */
  lemma {:induction false} DecimalTextOfIntToString(i: int)
    ensures DecimalText(IntToString(i)) == Some(i)
  {
    var n: nat := if i < 0 then -i else i;
    var t := IntToString(i);
    var ds := NatToString(n);
    NatToStringValue(n);
    TrimOfIntToString(i);
    if i < 0 {
      assert t == "-" + ds && t[0] == '-';
      assert SignStripped(t) == ds;
    } else {
      assert t == ds && IsDigit(t[0]);
      assert SignStripped(t) == ds;
    }
  }

  /** `k` digits denote a number below `10^k`. */
  lemma {:induction false} DigitsValueBound(s: string)
    requires AllDigits(s)
    ensures DigitsValue(s) < Pow10(|s|)
  {
    if s != [] {
      DigitsValueBound(s[..|s| - 1]);
    }
  }

  function Pow10(k: nat): (r: nat)
    ensures r >= 1
  {
    if k == 0 then 1 else 10 * Pow10(k - 1)
  }

  // ---------------------------------------------------------------------
  // Lexicographic order by code point

  /** `a < b` on strings in Python, and the order JavaScript's default
      `.sort()` uses (see README for the UTF-16 caveat). */
  predicate LexLess(a: string, b: string)
  {
    if a == [] then b != []
    else if b == [] then false
    else a[0] < b[0] || (a[0] == b[0] && LexLess(a[1..], b[1..]))
  }

  predicate LexLessEq(a: string, b: string) { a == b || LexLess(a, b) }

  lemma {:induction false} LexLessIrreflexive(a: string)
    ensures !LexLess(a, a)
  {
    if a != [] {
      LexLessIrreflexive(a[1..]);
    }
  }

  lemma {:induction false} LexLessTransitive(a: string, b: string, c: string)
    requires LexLess(a, b) && LexLess(b, c)
    ensures LexLess(a, c)
  {
    if a != [] && b != [] && c != [] && a[0] == b[0] && b[0] == c[0] {
      LexLessTransitive(a[1..], b[1..], c[1..]);
    }
  }

  lemma {:induction false} LexLessTotal(a: string, b: string)
    ensures a == b || LexLess(a, b) || LexLess(b, a)
  {
    if a != [] && b != [] && a[0] == b[0] {
      LexLessTotal(a[1..], b[1..]);
      if a[1..] == b[1..] {
        assert a == [a[0]] + a[1..] && b == [b[0]] + b[1..];
      }
    }
  }

  lemma {:induction false} LexLessAsymmetric(a: string, b: string)
    requires LexLess(a, b)
    ensures !LexLess(b, a)
  {
    if a != [] && b != [] && a[0] == b[0] {
      LexLessAsymmetric(a[1..], b[1..]);
    }
  }

  lemma LexLessEqTransitive(a: string, b: string, c: string)
    requires LexLessEq(a, b) && LexLessEq(b, c)
    ensures LexLessEq(a, c)
  {
    if a != b && b != c {
      LexLessTransitive(a, b, c);
    }
  }

  /** Two strings with a common prefix compare like their remainders. */
  lemma {:induction false} LexLessCommonPrefix(p: string, a: string, b: string)
    ensures LexLess(p + a, p + b) == LexLess(a, b)
  {
    if p == [] {
      assert p + a == a && p + b == b;
    } else {
      assert (p + a)[1..] == p[1..] + a;
      assert (p + b)[1..] == p[1..] + b;
      LexLessCommonPrefix(p[1..], a, b);
    }
  }

  // ---------------------------------------------------------------------
  // Join and split

  /** Ascending string order: the default `Array.prototype.sort()` and
      Python's `list.sort()` on strings. */
  function SortNames(s: seq<string>): (r: seq<string>)
    ensures SortedNames(r) && multiset(r) == multiset(s)
  {
    if s == [] then []
    else
      assert s == [s[0]] + s[1..];
      var sorted := SortNames(s[1..]);
      InsertNameSorted(s[0], sorted);
      InsertName(s[0], sorted)
  }

  predicate SortedNames(s: seq<string>)
  {
    forall i, j :: 0 <= i < j < |s| ==> LexLessEq(s[i], s[j])
  }

  /** `x` placed before the first element it does not exceed. */
  function InsertName(x: string, s: seq<string>): (r: seq<string>)
    ensures multiset(r) == multiset(s) + multiset{x}
  {
    if s == [] then [x]
    else if LexLessEq(x, s[0]) then [x] + s
    else
      assert s == [s[0]] + s[1..];
      [s[0]] + InsertName(x, s[1..])
  }

  lemma {:induction false} InsertNameSorted(x: string, s: seq<string>)
    requires SortedNames(s)
    ensures SortedNames(InsertName(x, s))
  {
    if s == [] {
    } else if LexLessEq(x, s[0]) {
      forall k | 0 <= k < |s| ensures LexLessEq(x, s[k]) {
        if k > 0 { LexLessEqTransitive(x, s[0], s[k]); }
      }
      SortedCons(x, s);
    } else {
      var tail := s[1..];
      InsertNameSorted(x, tail);
      var rest := InsertName(x, tail);
      assert LexLessEq(s[0], x) by {
        LexLessTotal(x, s[0]);
      }
      forall k | 0 <= k < |rest| ensures LexLessEq(s[0], rest[k]) {
        var y := rest[k];
        assert y in multiset(tail) + multiset{x} by {
          assert y in multiset(rest);
        }
        if y != x {
          var j :| 0 <= j < |tail| && tail[j] == y;
          assert s[j + 1] == y;
        }
      }
      SortedCons(s[0], rest);
    }
  }

  /** A head below every element of a sorted sequence keeps it sorted. */
  lemma {:induction false} SortedCons(h: string, rest: seq<string>)
    requires SortedNames(rest)
    requires forall k :: 0 <= k < |rest| ==> LexLessEq(h, rest[k])
    ensures SortedNames([h] + rest)
  {
    var r := [h] + rest;
    forall i, j | 0 <= i < j < |r| ensures LexLessEq(r[i], r[j]) {
      if i == 0 {
        assert r[j] == rest[j - 1];
      } else {
        assert r[i] == rest[i - 1] && r[j] == rest[j - 1];
      }
    }
  }

  /** `parts.join(sep)`. */
  function Join(parts: seq<string>, sep: string): string
  {
    if parts == [] then ""
    else if |parts| == 1 then parts[0]
    else parts[0] + sep + Join(parts[1..], sep)
  }

  /** Index of the first `c` in `s`, or `|s|` when there is none. */
  function FirstIndexOf(s: string, c: char): (k: nat)
    ensures k <= |s|
    ensures forall j :: 0 <= j < k ==> s[j] != c
    ensures k < |s| ==> s[k] == c
  {
    if s == [] || s[0] == c then 0 else 1 + FirstIndexOf(s[1..], c)
  }

  /** `s.split(c)` for a one-character separator. */
  function Split(s: string, c: char): (r: seq<string>)
    ensures r != []
    decreases |s|
  {
    var k := FirstIndexOf(s, c);
    if k == |s| then [s] else [s[..k]] + Split(s[k + 1..], c)
  }

  predicate Excludes(s: string, c: char) { forall i :: 0 <= i < |s| ==> s[i] != c }

  lemma {:induction false} ExcludesConcat(a: string, b: string, c: char)
    ensures Excludes(a + b, c) <==> Excludes(a, c) && Excludes(b, c)
  {
    if Excludes(a, c) && Excludes(b, c) {
      forall i | 0 <= i < |a + b| ensures (a + b)[i] != c {
        if i >= |a| { assert (a + b)[i] == b[i - |a|]; }
      }
    }
    if Excludes(a + b, c) {
      forall i | 0 <= i < |a| ensures a[i] != c {
        assert (a + b)[i] == a[i];
      }
      forall i | 0 <= i < |b| ensures b[i] != c {
        assert (a + b)[|a| + i] == b[i];
      }
    }
  }

  /** Splitting on the separator gives back the joined lines, as long as no
      line contains it. */
  lemma {:induction false} SplitJoin(lines: seq<string>, c: char)
    requires lines != []
    requires forall k :: 0 <= k < |lines| ==> Excludes(lines[k], c)
    ensures Split(Join(lines, [c]), c) == lines
  {
    var first := lines[0];
    if |lines| == 1 {
      FirstIndexOfAbsent(first, c);
    } else {
      var rest := Join(lines[1..], [c]);
      var s := first + [c] + rest;
      FirstIndexOfAbsent(first, c);
      FirstIndexOfPrefix(first, [c] + rest, c);
      assert s == first + ([c] + rest);
      assert FirstIndexOf(s, c) == |first|;
      assert s[..|first|] == first;
      assert s[|first| + 1..] == rest;
      SplitJoin(lines[1..], c);
    }
  }

  lemma {:induction false} FirstIndexOfAbsent(s: string, c: char)
    requires Excludes(s, c)
    ensures FirstIndexOf(s, c) == |s|
  {
    if s != [] {
      FirstIndexOfAbsent(s[1..], c);
    }
  }

  lemma {:induction false} FirstIndexOfPrefix(a: string, b: string, c: char)
    requires Excludes(a, c)
    requires b != [] && b[0] == c
    ensures FirstIndexOf(a + b, c) == |a|
  {
    if a != [] {
      assert (a + b)[1..] == a[1..] + b;
      FirstIndexOfPrefix(a[1..], b, c);
    }
  }
}
