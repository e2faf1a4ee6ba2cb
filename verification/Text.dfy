/** Strings the way Python's `str` methods treat them. */
module Text {

  // --- Decimal numerals ----------------------------------------------------

  predicate IsDigit(ch: char) {
    '0' <= ch <= '9'
  }

  function Digit(n: nat): char
    requires n < 10
  {
    (n as char) + '0'
  }

  function Decimal(n: nat): (s: string)
    ensures s != "" && forall i :: 0 <= i < |s| ==> IsDigit(s[i])
  {
    if n < 10 then [Digit(n)] else Decimal(n / 10) + [Digit(n % 10)]
  }

  lemma {:induction false} DecimalInjective(m: nat, n: nat)
    requires Decimal(m) == Decimal(n)
    ensures m == n
  {
    assert Decimal(m)[|Decimal(m)| - 1] == Digit(m % 10) && Decimal(n)[|Decimal(n)| - 1] == Digit(n % 10);
    if m >= 10 && n >= 10 {
      assert Decimal(m)[..|Decimal(m)| - 1] == Decimal(m / 10) && Decimal(n)[..|Decimal(n)| - 1] == Decimal(n / 10);
      DecimalInjective(m / 10, n / 10);
    }
  }

  // --- Stripping -----------------------------------------------------------

  /** What `str.strip()` removes. */
  predicate Blank(ch: char) {
    var n := ch as int;
    || 0x09 <= n <= 0x0D || 0x1C <= n <= 0x20 || n == 0x85 || n == 0xA0 || n == 0x1680
    || 0x2000 <= n <= 0x200A || n == 0x2028 || n == 0x2029 || n == 0x202F || n == 0x205F || n == 0x3000
  }

  function TrimLeft(s: string, p: char -> bool): (r: string)
    ensures |r| <= |s| && r == s[|s| - |r|..] && (r != "" ==> !p(r[0]))
    ensures forall i :: 0 <= i < |s| - |r| ==> p(s[i])
  {
    if s != "" && p(s[0]) then TrimLeft(s[1..], p) else s
  }

  function TrimRight(s: string, p: char -> bool): (r: string)
    ensures r <= s && (r != "" ==> !p(r[|r| - 1]))
    ensures forall i :: |r| <= i < |s| ==> p(s[i])
  {
    if s != "" && p(s[|s| - 1]) then TrimRight(s[..|s| - 1], p) else s
  }

  function Trim(s: string, p: char -> bool): string {
    TrimRight(TrimLeft(s, p), p)
  }

  function Strip(s: string): string {
    Trim(s, Blank)
  }

  /** Trimming leaves alone exactly what has nothing to trim at either end. */
  lemma TrimIsNothingIff(s: string, p: char -> bool)
    ensures |Trim(s, p)| <= |s| && (|Trim(s, p)| == |s| ==> Trim(s, p) == s)
    ensures Trim(s, p) == s <==> s == "" || (!p(s[0]) && !p(s[|s| - 1]))
    ensures Trim(s, p) != "" ==> !p(Trim(s, p)[0]) && !p(Trim(s, p)[|Trim(s, p)| - 1])
  {
  }

  lemma TrimTwice(s: string, p: char -> bool)
    ensures Trim(Trim(s, p), p) == Trim(s, p)
  {
    TrimIsNothingIff(s, p);
    TrimIsNothingIff(Trim(s, p), p);
  }

  // --- Splitting -----------------------------------------------------------

  /** The position of the first character of the kind, or the length. */
  function First(s: string, p: char -> bool): (k: nat)
    ensures k <= |s| && (k < |s| ==> p(s[k])) && forall i :: 0 <= i < k ==> !p(s[i])
  {
    if s == "" || p(s[0]) then 0 else 1 + First(s[1..], p)
  }

  /** `s.split(sep)`, where `p` says which characters separate. */
  function Split(s: string, p: char -> bool): (parts: seq<string>)
    ensures parts != [] && forall i :: 0 <= i < |parts| ==> Free(parts[i], p)
    decreases |s|
  {
    var k := First(s, p);
    if k == |s| then [s] else [s[..k]] + Split(s[k + 1..], p)
  }

  /** No character of the kind occurs. */
  predicate Free(s: string, p: char -> bool) {
    forall i :: 0 <= i < |s| ==> !p(s[i])
  }

  function Join(parts: seq<string>, sep: char): string
    requires parts != []
  {
    if |parts| == 1 then parts[0] else parts[0] + [sep] + Join(parts[1..], sep)
  }

  lemma FirstIn(a: string, sep: char, rest: string, p: char -> bool)
    requires Free(a, p) && p(sep)
    ensures First(a + [sep] + rest, p) == |a|
  {
    var s := a + [sep] + rest;
    assert s[|a|] == sep && forall i :: 0 <= i < |a| ==> s[i] == a[i];
  }

  /** Splitting undoes joining, when no part holds a separator. */
  lemma {:induction false} SplitJoin(parts: seq<string>, sep: char, p: char -> bool)
    requires parts != [] && p(sep) && forall i :: 0 <= i < |parts| ==> Free(parts[i], p)
    ensures Split(Join(parts, sep), p) == parts
    decreases |parts|
  {
    if |parts| > 1 {
      var rest := Join(parts[1..], sep);
      FirstIn(parts[0], sep, rest, p);
      SplitJoin(parts[1..], sep, p);
      var s := parts[0] + [sep] + rest;
      assert s[..|parts[0]|] == parts[0] && s[|parts[0]| + 1..] == rest;
    } else {
      assert Free(parts[0], p);
    }
  }
}
