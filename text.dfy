/** Models of the Go standard-library routines the printer tool relies on:
    strings.TrimSpace, strings.ToLower, strings.Contains, strings.HasPrefix,
    strings.TrimPrefix, strings.Split, fmt's "%d" formatting and fmt.Sscanf's
    "%d" scanning. Strings are sequences of Unicode scalar values (Go runes). */
module Text {

  datatype Option<T> = None | Some(value: T)

  const MIN_INT64: int := -0x8000_0000_0000_0000
  const MAX_INT64: int := 0x7FFF_FFFF_FFFF_FFFF

  /** Go's `int` on the 64-bit target the tool is built for. */
  type int64 = x: int | MIN_INT64 <= x <= MAX_INT64

  // ---------------------------------------------------------------------------
  // White space and trimming

  /** unicode.IsSpace; fmt's scanner uses the same set. */
  predicate IsSpace(c: char) {
    || (9 <= c as int <= 13) || c == ' '
    || c as int == 0x85 || c as int == 0xA0 || c as int == 0x1680
    || (0x2000 <= c as int <= 0x200A)
    || c as int == 0x2028 || c as int == 0x2029
    || c as int == 0x202F || c as int == 0x205F || c as int == 0x3000
  }

  /** The first index at or after i that does not hold white space. */
  function SkipSpace(s: string, i: nat): (j: nat)
    requires i <= |s|
    ensures i <= j <= |s|
    ensures j < |s| ==> !IsSpace(s[j])
    decreases |s| - i
  {
    if i < |s| && IsSpace(s[i]) then SkipSpace(s, i + 1) else i
  }

  /** The end of s[..j] once the white space before j is dropped. */
  function SkipSpaceBack(s: string, j: nat): (i: nat)
    requires j <= |s|
    ensures i <= j
    ensures i > 0 ==> !IsSpace(s[i - 1])
    decreases j
  {
    if j > 0 && IsSpace(s[j - 1]) then SkipSpaceBack(s, j - 1) else j
  }

  /** SkipSpace passes over white space only. */
  lemma {:induction false} SkipSpaceSkipsSpace(s: string, i: nat)
    requires i <= |s|
    ensures forall k :: i <= k < SkipSpace(s, i) ==> IsSpace(s[k])
    decreases |s| - i
  {
    if i < |s| && IsSpace(s[i]) {
      SkipSpaceSkipsSpace(s, i + 1);
    }
  }

  /** SkipSpaceBack passes over white space only. */
  lemma {:induction false} SkipSpaceBackSkipsSpace(s: string, j: nat)
    requires j <= |s|
    ensures forall k :: SkipSpaceBack(s, j) <= k < j ==> IsSpace(s[k])
    decreases j
  {
    if j > 0 && IsSpace(s[j - 1]) {
      SkipSpaceBackSkipsSpace(s, j - 1);
    }
  }

  /** strings.TrimLeftFunc(s, unicode.IsSpace): drops the leading white space. */
  function TrimLeft(s: string): (r: string)
    ensures |r| <= |s|
    ensures r == [] || !IsSpace(r[0])
  {
    s[SkipSpace(s, 0)..]
  }

  /** strings.TrimRightFunc(s, unicode.IsSpace): drops the trailing white space. */
  function TrimRight(s: string): (r: string)
    ensures |r| <= |s|
    ensures r == [] || !IsSpace(r[|r| - 1])
  {
    s[..SkipSpaceBack(s, |s|)]
  }

  /** strings.TrimSpace */
  function TrimSpace(s: string): string {
    TrimRight(TrimLeft(s))
  }

  /** A string with no white space at either end is its own trimmed form. */
  lemma TrimmedIsFixed(s: string)
    requires s == [] || (!IsSpace(s[0]) && !IsSpace(s[|s| - 1]))
    ensures TrimSpace(s) == s
  {
    assert SkipSpace(s, 0) == 0;
    assert s[0..] == s;
    assert SkipSpaceBack(s, |s|) == |s|;
    assert s[..|s|] == s;
  }

  /** A string that does not start with white space is its own left trim. */
  lemma NoLeadingSpace(s: string)
    requires s == [] || !IsSpace(s[0])
    ensures TrimLeft(s) == s
  {
    assert SkipSpace(s, 0) == 0;
    assert s[0..] == s;
  }

  /** Trimming twice is trimming once. */
  lemma TrimSpaceIdempotent(s: string)
    ensures TrimSpace(TrimSpace(s)) == TrimSpace(s)
  {
    var l := TrimLeft(s);
    var t := TrimSpace(s);
    if t != [] {
      assert t[0] == l[0];
    }
    TrimmedIsFixed(t);
  }

  /** TrimSpace(s) is the slice of s between its leading and its trailing
      white space. */
  lemma TrimSpaceIsSlice(s: string) returns (a: nat)
    ensures a + |TrimSpace(s)| <= |s|
    ensures TrimSpace(s) == s[a..a + |TrimSpace(s)|]
    ensures forall k :: 0 <= k < a ==> IsSpace(s[k])
    ensures forall k :: a + |TrimSpace(s)| <= k < |s| ==> IsSpace(s[k])
  {
    a := SkipSpace(s, 0);
    var l := s[a..];
    var b := SkipSpaceBack(l, |l|);
    SkipSpaceSkipsSpace(s, 0);
    SkipSpaceBackSkipsSpace(l, |l|);
    assert TrimSpace(s) == l[..b] == s[a..a + b];
    forall k | a + b <= k < |s| ensures IsSpace(s[k]) {
      assert s[k] == l[k - a];
    }
  }

  // ---------------------------------------------------------------------------
  // Case folding, substrings and prefixes

  /** unicode.ToLower on ASCII letters. Go also lowers non-ASCII letters; none
      of those lowers to an ASCII letter other than 'i' and 'k', so this model
      agrees with Go on every search for "paper" and "error". */
  function LowerChar(c: char): char {
    if 'A' <= c <= 'Z' then (c as int + 32) as char else c
  }

  /** strings.ToLower, rune by rune. */
  function ToLower(s: string): (r: string)
    ensures |r| == |s|
    ensures forall k {:trigger r[k]} :: 0 <= k < |s| ==> r[k] == LowerChar(s[k])
  {
    seq(|s|, k requires 0 <= k < |s| => LowerChar(s[k]))
  }

  /** strings.Contains */
  predicate Contains(s: string, sub: string) {
    exists i :: 0 <= i <= |s| - |sub| && OccursAt(s, sub, i)
  }

  /** sub occurs in s starting at index i. */
  predicate OccursAt(s: string, sub: string, i: int) {
    0 <= i <= |s| - |sub| && s[i..i + |sub|] == sub
  }

  /** strings.HasPrefix */
  predicate HasPrefix(s: string, prefix: string) {
    |prefix| <= |s| && s[..|prefix|] == prefix
  }

  /** A string that differs from prefix at some position within both does not
      start with prefix. */
  lemma DiffersAt(s: string, prefix: string, i: nat)
    requires i < |prefix| && i < |s| && s[i] != prefix[i]
    ensures !HasPrefix(s, prefix)
  {
    if |prefix| <= |s| {
      assert s[..|prefix|][i] == s[i];
    }
  }

  /** strings.TrimPrefix */
  function TrimPrefix(s: string, prefix: string): (r: string)
    ensures HasPrefix(s, prefix) ==> s == prefix + r
    ensures !HasPrefix(s, prefix) ==> r == s
  {
    if HasPrefix(s, prefix) then s[|prefix|..] else s
  }

  /** A case-insensitive search for a word without white space finds the same
      occurrences before and after trimming: the occurrence lies inside the
      trimmed part. */
  lemma ContainsLowerSurvivesTrim(s: string, word: string)
    requires word != []
    requires forall k :: 0 <= k < |word| ==> !IsSpace(word[k])
    requires Contains(ToLower(s), word)
    ensures Contains(ToLower(TrimSpace(s)), word)
  {
    var j := TrimmedOccurrence(s, word);
  }

  lemma TrimmedOccurrence(s: string, word: string) returns (j: int)
    requires word != []
    requires forall k :: 0 <= k < |word| ==> !IsSpace(word[k])
    requires Contains(ToLower(s), word)
    ensures OccursAt(ToLower(TrimSpace(s)), word, j)
  {
    var i, a := OccurrenceInsideTrim(s, word);
    OccurrenceInSlice(s, word, TrimSpace(s), a, i);
    j := i - a;
  }

  /** An occurrence of a word without white space lies between the leading and
      the trailing white space. */
  lemma OccurrenceInsideTrim(s: string, word: string) returns (i: int, a: nat)
    requires word != []
    requires forall k :: 0 <= k < |word| ==> !IsSpace(word[k])
    requires Contains(ToLower(s), word)
    ensures a + |TrimSpace(s)| <= |s| && TrimSpace(s) == s[a..a + |TrimSpace(s)|]
    ensures OccursAt(ToLower(s), word, i)
    ensures a <= i && i + |word| <= a + |TrimSpace(s)|
  {
    a := TrimSpaceIsSlice(s);
    i :| OccursAt(ToLower(s), word, i);
    NoSpaceInOccurrence(s, word, i);
    assert !IsSpace(s[i]) && !IsSpace(s[i + |word| - 1]);
  }

  lemma NoSpaceInOccurrence(s: string, word: string, i: int)
    requires forall k :: 0 <= k < |word| ==> !IsSpace(word[k])
    requires OccursAt(ToLower(s), word, i)
    ensures forall k :: i <= k < i + |word| ==> !IsSpace(s[k])
  {
    var ls := ToLower(s);
    forall k | i <= k < i + |word| ensures !IsSpace(s[k]) {
      assert ls[k] == ls[i..i + |word|][k - i] == word[k - i];
    }
  }

  lemma OccurrenceInSlice(s: string, word: string, t: string, a: nat, i: nat)
    requires a + |t| <= |s| && t == s[a..a + |t|]
    requires OccursAt(ToLower(s), word, i)
    requires a <= i && i + |word| <= a + |t|
    ensures OccursAt(ToLower(t), word, i - a)
  {
    LowerOfSlice(s, a, a + |t|);
    var x := ToLower(s);
    forall k | 0 <= k < |word| ensures x[a..a + |t|][i - a + k] == word[k] {
      assert x[i + k] == x[i..i + |word|][k];
    }
  }

  /** Lower-casing commutes with slicing. */
  lemma LowerOfSlice(s: string, a: nat, b: nat)
    requires a <= b <= |s|
    ensures ToLower(s[a..b]) == ToLower(s)[a..b]
  {
  }

  // ---------------------------------------------------------------------------
  // strings.Split with a single-character separator, and its inverse

  /** strings.Split(s, [sep]): the pieces between separators, in order; an
      empty string gives one empty piece. */
  function Split(s: string, sep: char): (parts: seq<string>)
    ensures |parts| >= 1
    decreases |s|
  {
    if s == [] then [[]]
    else
      var rest := Split(s[1..], sep);
      if s[0] == sep then [[]] + rest else [[s[0]] + rest[0]] + rest[1..]
  }

  /** No piece of a split contains the separator. */
  lemma {:induction false} SplitPiecesLackSeparator(s: string, sep: char)
    ensures forall k :: 0 <= k < |Split(s, sep)| ==> sep !in Split(s, sep)[k]
    decreases |s|
  {
    if s != [] {
      var rest := Split(s[1..], sep);
      SplitPiecesLackSeparator(s[1..], sep);
      var parts := Split(s, sep);
      if s[0] == sep {
        forall k | 1 <= k < |parts| ensures sep !in parts[k] {
          assert parts[k] == rest[k - 1];
        }
      } else {
        assert sep !in rest[0];
        forall k | 1 <= k < |parts| ensures sep !in parts[k] {
          assert parts[k] == rest[k];
        }
      }
    }
  }

  /** strings.Join(parts, [sep]) */
  function Join(parts: seq<string>, sep: char): string
    requires |parts| >= 1
  {
    if |parts| == 1 then parts[0] else parts[0] + [sep] + Join(parts[1..], sep)
  }

  /** Joining the pieces of a split gives back the text. */
  lemma {:induction false} JoinSplit(s: string, sep: char)
    ensures Join(Split(s, sep), sep) == s
    decreases |s|
  {
    if s != [] {
      var rest := Split(s[1..], sep);
      JoinSplit(s[1..], sep);
      if s[0] == sep {
        assert Split(s, sep)[1..] == rest;
      } else {
        var parts := Split(s, sep);
        if |rest| == 1 {
          assert parts == [[s[0]] + rest[0]];
        } else {
          assert parts[1..] == rest[1..];
          assert Join(rest, sep) == rest[0] + [sep] + Join(rest[1..], sep);
        }
      }
    }
  }

  lemma {:induction false} SplitWithoutSeparator(p: string, sep: char)
    requires sep !in p
    ensures Split(p, sep) == [p]
    decreases |p|
  {
    if p != [] {
      SplitWithoutSeparator(p[1..], sep);
      assert [p[0]] + p[1..] == p;
    }
  }

  lemma {:induction false} SplitAtSeparator(p: string, sep: char, rest: string)
    requires sep !in p
    ensures Split(p + [sep] + rest, sep) == [p] + Split(rest, sep)
    decreases |p|
  {
    var s := p + [sep] + rest;
    if p == [] {
      assert s[1..] == rest;
    } else {
      assert s[1..] == p[1..] + [sep] + rest;
      SplitAtSeparator(p[1..], sep, rest);
      assert [p[0]] + p[1..] == p;
    }
  }

  /** Splitting a join of separator-free pieces gives back the pieces. */
  lemma {:induction false} SplitJoin(parts: seq<string>, sep: char)
    requires |parts| >= 1
    requires forall k :: 0 <= k < |parts| ==> sep !in parts[k]
    ensures Split(Join(parts, sep), sep) == parts
    decreases |parts|
  {
    if |parts| == 1 {
      SplitWithoutSeparator(parts[0], sep);
    } else {
      SplitJoin(parts[1..], sep);
      SplitAtSeparator(parts[0], sep, Join(parts[1..], sep));
      assert [parts[0]] + parts[1..] == parts;
    }
  }

  // ---------------------------------------------------------------------------
  // Decimal integers: fmt's "%d" and Sscanf's "%d"

  predicate IsDigit(c: char) {
    '0' <= c <= '9'
  }

  function DigitChar(d: nat): (c: char)
    requires d < 10
    ensures IsDigit(c)
  {
    ('0' as int + d) as char
  }

  /** The decimal digits of n, most significant first, without leading zeros. */
  function NatToString(n: nat): (r: string)
    ensures |r| >= 1
    ensures forall k :: 0 <= k < |r| ==> IsDigit(r[k])
    decreases n
  {
    if n < 10 then [DigitChar(n)] else NatToString(n / 10) + [DigitChar(n % 10)]
  }

  /** fmt.Sprintf("%d", n) */
  function IntToString(n: int): (r: string)
    ensures |r| >= 1
  {
    if n < 0 then "-" + NatToString(-n) else NatToString(n)
  }

  /** The value of a run of decimal digits. */
  function DigitsValue(ds: string): nat
    requires forall k :: 0 <= k < |ds| ==> IsDigit(ds[k])
  {
    if ds == [] then 0
    else DigitsValue(ds[..|ds| - 1]) * 10 + DigitValue(ds[|ds| - 1])
  }

  function DigitValue(c: char): (d: nat)
    requires IsDigit(c)
    ensures d < 10
  {
    c as int - '0' as int
  }

  /** The first index at or after i that does not hold a decimal digit. */
  function SkipDigits(s: string, i: nat): (j: nat)
    requires i <= |s|
    ensures i <= j <= |s|
    ensures j < |s| ==> !IsDigit(s[j])
    decreases |s| - i
  {
    if i < |s| && IsDigit(s[i]) then SkipDigits(s, i + 1) else i
  }

  /** SkipDigits passes over digits only. */
  lemma {:induction false} SkipDigitsSkipsDigits(s: string, i: nat)
    requires i <= |s|
    ensures forall k :: i <= k < SkipDigits(s, i) ==> IsDigit(s[k])
    decreases |s| - i
  {
    if i < |s| && IsDigit(s[i]) {
      SkipDigitsSkipsDigits(s, i + 1);
    }
  }

  /** How many decimal digits s starts with. */
  function DigitRunLength(s: string): (n: nat)
    ensures n <= |s|
    ensures n < |s| ==> !IsDigit(s[n])
  {
    SkipDigits(s, 0)
  }

  /** The run DigitRunLength measures consists of digits only. */
  lemma DigitRunIsDigits(s: string)
    ensures forall k :: 0 <= k < DigitRunLength(s) ==> IsDigit(s[k])
  {
    SkipDigitsSkipsDigits(s, 0);
  }

  /** fmt.Sscanf's "%d" verb on the text left after the literal part of the
      format: white space is skipped (Sscanf stops with an error at a newline
      instead; the lines scanned here never hold one), an optional sign is
      read, then as many decimal digits as follow (at least one). A value outside Go's int range
      is a scan error. None is a scan error, which leaves the target variable
      as it was; text after the digits is not read. */
  function ScanInt(s: string): Option<int64> {
    var t := TrimLeft(s);
    var negative := |t| > 0 && t[0] == '-';
    var u := if |t| > 0 && (t[0] == '+' || t[0] == '-') then t[1..] else t;
    match Magnitude(u)
    case None => None
    case Some(m) =>
      var v: int := if negative then -(m as int) else m;
      if MIN_INT64 <= v <= MAX_INT64 then Some(v) else None
  }

  /** The value of the decimal digits u starts with, if it starts with one. */
  function Magnitude(u: string): Option<nat> {
    var n := DigitRunLength(u);
    if n == 0 then None
    else
      DigitRunIsDigits(u);
      Some(DigitsValue(u[..n]))
  }

  lemma {:induction false} DigitsValueOfNatToString(n: nat)
    ensures DigitsValue(NatToString(n)) == n
    decreases n
  {
    if n >= 10 {
      var s := NatToString(n);
      assert s[..|s| - 1] == NatToString(n / 10);
      DigitsValueOfNatToString(n / 10);
    }
  }

  /** Digits followed by a non-digit (or by nothing) form a run of their own length. */
  lemma DigitRunOfDigits(ds: string, rest: string)
    requires forall k :: 0 <= k < |ds| ==> IsDigit(ds[k])
    requires rest == [] || !IsDigit(rest[0])
    ensures DigitRunLength(ds + rest) == |ds|
  {
    SkipDigitsOver(ds + rest, |ds|, 0);
  }

  lemma {:induction false} SkipDigitsOver(s: string, n: nat, i: nat)
    requires i <= n <= |s|
    requires forall k :: i <= k < n ==> IsDigit(s[k])
    requires n < |s| ==> !IsDigit(s[n])
    ensures SkipDigits(s, i) == n
    decreases n - i
  {
    if i < n {
      SkipDigitsOver(s, n, i + 1);
    }
  }

  lemma MagnitudeOfDigits(ds: string, rest: string)
    requires ds != [] && forall k :: 0 <= k < |ds| ==> IsDigit(ds[k])
    requires rest == [] || !IsDigit(rest[0])
    ensures Magnitude(ds + rest) == Some(DigitsValue(ds))
  {
    DigitRunOfDigits(ds, rest);
    assert (ds + rest)[..|ds|] == ds;
  }

  /** Scanning reads back what formatting wrote, whatever non-digit text follows:
      the "%d" of Sscanf inverts the "%d" of Sprintf on Go's int range. */
  lemma ScanIntReadsFormattedInt(n: int64, rest: string)
    requires rest == [] || !IsDigit(rest[0])
    ensures ScanInt(IntToString(n) + rest) == Some(n)
  {
    if n < 0 {
      var m: nat := -(n as int);
      var ds := NatToString(m);
      DigitsValueOfNatToString(m);
      assert IntToString(n) + rest == ['-'] + (ds + rest);
      MagnitudeOfDigits(ds, rest);
      ScanNegative(ds + rest, m);
    } else {
      DigitsValueOfNatToString(n);
      ScanNonNegative(NatToString(n), rest);
    }
  }

  lemma ScanNonNegative(ds: string, rest: string)
    requires ds != [] && forall k :: 0 <= k < |ds| ==> IsDigit(ds[k])
    requires rest == [] || !IsDigit(rest[0])
    requires DigitsValue(ds) <= MAX_INT64
    ensures ScanInt(ds + rest) == Some(DigitsValue(ds))
  {
    var s := ds + rest;
    assert s[0] == ds[0];
    MagnitudeOfDigits(ds, rest);
    ScanWithoutSign(s);
  }

  lemma ScanNegative(u: string, m: nat)
    requires Magnitude(u) == Some(m) && -(m as int) >= MIN_INT64
    ensures ScanInt(['-'] + u) == Some(-(m as int))
  {
    ScanWithMinus(u);
  }

  /** Text that starts with a digit is scanned as an unsigned run of digits. */
  lemma ScanWithoutSign(s: string)
    requires s != [] && IsDigit(s[0])
    ensures ScanInt(s) == match Magnitude(s)
      case None => None
      case Some(m) => if m <= MAX_INT64 then Some(m) else None
  {
    NoLeadingSpace(s);
  }

  /** Text that starts with a minus sign is scanned as a negated run of digits. */
  lemma ScanWithMinus(u: string)
    ensures ScanInt(['-'] + u) == match Magnitude(u)
      case None => None
      case Some(m) => if -(m as int) >= MIN_INT64 then Some(-(m as int)) else None
  {
    var s := ['-'] + u;
    NoLeadingSpace(s);
    assert s[1..] == u;
  }
}
