/**
 * The Kotlin and Java string operations the core relies on, written out:
 * indexOf / lastIndexOf, substringBefore / substringAfter (and their -Last forms,
 * which return the whole string when the delimiter is missing), contains,
 * single-character replace, split on a literal delimiter, Long.parseLong and
 * Long.toString. Characters are classified in ASCII only.
 */
module Text {
  import opened Wrappers

  const LONG_MIN: int := -0x8000_0000_0000_0000
  const LONG_MAX: int := 0x7FFF_FFFF_FFFF_FFFF

  predicate IsDigit(c: char) {
    '0' <= c <= '9'
  }

  predicate IsLetter(c: char) {
    'a' <= c <= 'z' || 'A' <= c <= 'Z'
  }

  /** Lower-casing of ASCII letters; every other character is left alone. */
  function ToLower(c: char): char {
    if 'A' <= c <= 'Z' then (c as int + 32) as char else c
  }

  /** String.equalsIgnoreCase on ASCII text. */
  predicate EqualsIgnoreCase(a: string, b: string) {
    |a| == |b| && forall i :: 0 <= i < |a| ==> ToLower(a[i]) == ToLower(b[i])
  }

  predicate AllDigits(s: string) {
    forall i :: 0 <= i < |s| ==> IsDigit(s[i])
  }

  predicate StartsWith(s: string, prefix: string) {
    prefix <= s
  }

  /** `sub` occurs in `s` starting at index `i`. */
  predicate OccursAt(s: string, sub: string, i: nat) {
    i + |sub| <= |s| && s[i..i + |sub|] == sub
  }

  /** The first index at or after `from` where `sub` occurs (Kotlin `indexOf(sub, from)`). */
  function IndexOfFrom(s: string, sub: string, from: nat): (r: Option<nat>)
    ensures r.Some? ==> from <= r.value && OccursAt(s, sub, r.value)
    ensures r.Some? ==> forall j :: from <= j < r.value ==> !OccursAt(s, sub, j)
    ensures r.None? ==> forall j :: from <= j ==> !OccursAt(s, sub, j)
    decreases |s| - from
  {
    if from + |sub| > |s| then None
    else if s[from..from + |sub|] == sub then Some(from)
    else IndexOfFrom(s, sub, from + 1)
  }

  function IndexOf(s: string, sub: string): Option<nat> {
    IndexOfFrom(s, sub, 0)
  }

  /** The greatest index at most `upto` where `sub` occurs. */
  function LastIndexUpTo(s: string, sub: string, upto: nat): (r: Option<nat>)
    ensures r.Some? ==> r.value <= upto && OccursAt(s, sub, r.value)
    ensures r.Some? ==> forall j :: r.value < j <= upto ==> !OccursAt(s, sub, j)
    ensures r.None? ==> forall j: nat :: j <= upto ==> !OccursAt(s, sub, j)
    decreases upto
  {
    if OccursAt(s, sub, upto) then Some(upto)
    else if upto == 0 then None
    else LastIndexUpTo(s, sub, upto - 1)
  }

  /** Kotlin `lastIndexOf(sub)`: the start of the last occurrence. */
  function LastIndexOf(s: string, sub: string): (r: Option<nat>)
    ensures r.Some? ==> OccursAt(s, sub, r.value)
    ensures r.Some? ==> forall j :: r.value < j ==> !OccursAt(s, sub, j)
    ensures r.None? ==> forall j: nat :: !OccursAt(s, sub, j)
  {
    if |sub| > |s| then None else LastIndexUpTo(s, sub, |s| - |sub|)
  }

  /** An occurrence with none before it is what indexOf finds. */
  lemma IndexOfIs(s: string, sub: string, i: nat)
    requires OccursAt(s, sub, i)
    requires forall j :: 0 <= j < i ==> !OccursAt(s, sub, j)
    ensures IndexOf(s, sub) == Some(i)
  {
  }

  predicate Contains(s: string, sub: string) {
    IndexOf(s, sub).Some?
  }

  lemma ContainsAt(s: string, sub: string, i: nat)
    requires OccursAt(s, sub, i)
    ensures Contains(s, sub)
  {
  }

  function SubstringBefore(s: string, delim: string): string {
    match IndexOf(s, delim)
    case None => s
    case Some(i) => s[..i]
  }

  function SubstringAfter(s: string, delim: string): string {
    match IndexOf(s, delim)
    case None => s
    case Some(i) => s[i + |delim|..]
  }

  function SubstringBeforeLast(s: string, delim: string): string {
    match LastIndexOf(s, delim)
    case None => s
    case Some(i) => s[..i]
  }

  function SubstringAfterLast(s: string, delim: string): string {
    match LastIndexOf(s, delim)
    case None => s
    case Some(i) => s[i + |delim|..]
  }

  /** Kotlin `replace(c.toString(), repl)`: every occurrence of `c` becomes `repl`. */
  function ReplaceChar(s: string, c: char, repl: string): (r: string)
    ensures c !in repl ==> c !in r
    ensures forall x :: x in r ==> x in s || x in repl
    ensures forall x :: x in s && x != c ==> x in r
  {
    if s == [] then []
    else (if s[0] == c then repl else [s[0]]) + ReplaceChar(s[1..], c, repl)
  }

  /** Kotlin `split(sep)` with a literal, non-empty delimiter and no limit. */
  function Split(s: string, sep: string): (r: seq<string>)
    requires |sep| > 0
    ensures |r| >= 1
    decreases |s|
  {
    match IndexOf(s, sep)
    case None => [s]
    case Some(i) => [s[..i]] + Split(s[i + |sep|..], sep)
  }

  function Join(parts: seq<string>, sep: string): string {
    if |parts| == 0 then ""
    else if |parts| == 1 then parts[0]
    else parts[0] + sep + Join(parts[1..], sep)
  }

  /** Splitting loses nothing: the pieces joined with the delimiter give back the string. */
  lemma {:induction false} SplitJoin(s: string, sep: string)
    requires |sep| > 0
    ensures Join(Split(s, sep), sep) == s
    decreases |s|
  {
    match IndexOf(s, sep)
    case None =>
    case Some(i) =>
      var rest := s[i + |sep|..];
      var pieces := Split(rest, sep);
      SplitJoin(rest, sep);
      assert Split(s, sep) == [s[..i]] + pieces;
      assert ([s[..i]] + pieces)[1..] == pieces;
      assert Join([s[..i]] + pieces, sep) == s[..i] + sep + Join(pieces, sep);
      assert s == s[..i] + sep + rest;
  }

  /** No piece of a split contains the delimiter. */
  lemma {:induction false} SplitPiecesFree(s: string, sep: string)
    requires |sep| > 0
    ensures forall k :: 0 <= k < |Split(s, sep)| ==> !Contains(Split(s, sep)[k], sep)
    decreases |s|
  {
    match IndexOf(s, sep)
    case None =>
    case Some(i) =>
      var rest := s[i + |sep|..];
      SplitPiecesFree(rest, sep);
      var head := s[..i];
      if Contains(head, sep) {
        var j := IndexOf(head, sep).value;
        assert head[j..j + |sep|] == s[j..j + |sep|];
        assert OccursAt(s, sep, j);
      }
  }

  /** A one-character string occurs exactly where that character stands. */
  lemma OccursChar(s: string, c: char, j: nat)
    ensures OccursAt(s, [c], j) <==> j < |s| && s[j] == c
  {
    if j < |s| {
      assert s[j..j + 1] == [s[j]];
    }
  }

  lemma IndexOfAbsent(s: string, c: char)
    requires c !in s
    ensures IndexOf(s, [c]) == None
  {
    if IndexOf(s, [c]).Some? {
      OccursChar(s, c, IndexOf(s, [c]).value);
    }
  }

  /** The last occurrence of a character is the one with no copy after it. */
  lemma LastIndexOfChar(s: string, c: char, j: nat)
    requires j < |s| && s[j] == c
    requires forall k :: j < k < |s| ==> s[k] != c
    ensures LastIndexOf(s, [c]) == Some(j)
  {
    OccursChar(s, c, j);
    var r := LastIndexOf(s, [c]);
    OccursChar(s, c, r.value);
  }

  /** Joining on a character no piece contains, then splitting on it, gives the pieces back. */
  lemma {:induction false} JoinSplit(parts: seq<string>, c: char)
    requires |parts| >= 1
    requires forall k :: 0 <= k < |parts| ==> c !in parts[k]
    ensures Split(Join(parts, [c]), [c]) == parts
    decreases |parts|
  {
    var p := parts[0];
    if |parts| == 1 {
      IndexOfAbsent(p, c);
    } else {
      var rest := parts[1..];
      var s := p + [c] + Join(rest, [c]);
      assert Join(parts, [c]) == s;
      OccursChar(s, c, |p|);
      forall j | 0 <= j < |p| ensures !OccursAt(s, [c], j) {
        OccursChar(s, c, j);
        assert s[j] == p[j];
      }
      IndexOfIs(s, [c], |p|);
      assert s[..|p|] == p;
      assert s[|p| + 1..] == Join(rest, [c]);
      JoinSplit(rest, c);
    }
  }

  function DigitValue(c: char): nat
    requires IsDigit(c)
  {
    c as int - '0' as int
  }

  function DigitChar(d: nat): (c: char)
    requires d < 10
    ensures IsDigit(c) && DigitValue(c) == d
  {
    ('0' as int + d) as char
  }

  /** The number a run of decimal digits denotes. */
  function DigitsValue(s: string): nat
    requires AllDigits(s)
    decreases |s|
  {
    if s == [] then 0 else DigitsValue(s[..|s| - 1]) * 10 + DigitValue(s[|s| - 1])
  }

  /** java.lang.Long.parseLong: an optional sign, one or more digits, a value in the 64-bit range. */
  function ParseLong(s: string): Option<int> {
    var body := if |s| > 0 && (s[0] == '-' || s[0] == '+') then s[1..] else s;
    if |body| == 0 || !AllDigits(body) then None
    else
      var v: int := if |s| > 0 && s[0] == '-' then 0 - DigitsValue(body) as int else DigitsValue(body);
      if LONG_MIN <= v <= LONG_MAX then Some(v) else None
  }

  /** Decimal rendering of a natural number, without leading zeros. */
  function NatToString(n: nat): (r: string)
    ensures |r| >= 1 && AllDigits(r)
    decreases n
  {
    if n < 10 then [DigitChar(n)] else NatToString(n / 10) + [DigitChar(n % 10)]
  }

  /** Long.toString. */
  function LongToString(x: int): string {
    if x < 0 then "-" + NatToString(-x) else NatToString(x)
  }

  lemma {:induction false} NatToStringValue(n: nat)
    ensures DigitsValue(NatToString(n)) == n
    decreases n
  {
    if n >= 10 {
      NatToStringValue(n / 10);
      var s := NatToString(n);
      assert s[..|s| - 1] == NatToString(n / 10);
    }
  }

  /** Long.parseLong inverts Long.toString on the whole 64-bit range. */
  lemma ParseLongToString(x: int)
    requires LONG_MIN <= x <= LONG_MAX
    ensures ParseLong(LongToString(x)) == Some(x)
  {
    if x < 0 {
      var t := NatToString(-x);
      NatToStringValue(-x);
      assert ("-" + t)[0] == '-' && ("-" + t)[1..] == t;
      assert DigitsValue(t) == -x;
    } else {
      var t := NatToString(x);
      NatToStringValue(x);
      assert t[0] != '-' && t[0] != '+';
      assert DigitsValue(t) == x;
    }
  }

  /** DigitsValue of a concatenation: the left part is shifted by the length of the right part. */
  lemma {:induction false} DigitsValueAppend(a: string, b: string)
    requires AllDigits(a) && AllDigits(b)
    ensures AllDigits(a + b)
    ensures DigitsValue(a + b) == DigitsValue(a) * Pow10(|b|) + DigitsValue(b)
    decreases |b|
  {
    assert AllDigits(a + b) by {
      forall i | 0 <= i < |a + b| ensures IsDigit((a + b)[i]) {
        if i < |a| { assert (a + b)[i] == a[i]; } else { assert (a + b)[i] == b[i - |a|]; }
      }
    }
    if b != [] {
      var b' := b[..|b| - 1];
      var last := DigitValue(b[|b| - 1]);
      assert (a + b)[..|a + b| - 1] == a + b';
      assert (a + b)[|a + b| - 1] == b[|b| - 1];
      DigitsValueAppend(a, b');
      var x, p, y := DigitsValue(a), Pow10(|b'|), DigitsValue(b');
      calc {
        DigitsValue(a + b);
        DigitsValue(a + b') * 10 + last;
        (x * p + y) * 10 + last;
        { ShiftDigit(x, p, y, last); }
        x * (10 * p) + (y * 10 + last);
        x * Pow10(|b|) + DigitsValue(b);
      }
    } else {
      assert a + b == a;
    }
  }

  lemma ShiftDigit(x: nat, p: nat, y: nat, d: nat)
    ensures (x * p + y) * 10 + d == x * (10 * p) + (y * 10 + d)
  {
  }

  function Pow10(k: nat): (r: nat)
    ensures r >= 1
  {
    if k == 0 then 1 else 10 * Pow10(k - 1)
  }

  /** Leading zeros do not change the value of a run of digits. */
  lemma LeadingZeros(k: nat, s: string)
    requires AllDigits(s)
    ensures AllDigits(Zeros(k) + s) && DigitsValue(Zeros(k) + s) == DigitsValue(s)
  {
    ZerosValue(k);
    DigitsValueAppend(Zeros(k), s);
  }

  function Zeros(k: nat): (r: string)
    ensures |r| == k && AllDigits(r)
  {
    seq(k, _ => '0')
  }

  lemma {:induction false} ZerosValue(k: nat)
    ensures DigitsValue(Zeros(k)) == 0
  {
    if k > 0 {
      assert Zeros(k)[..k - 1] == Zeros(k - 1);
      ZerosValue(k - 1);
    }
  }
}
