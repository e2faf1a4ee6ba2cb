/** Text in lines, the way `str.splitlines` takes it apart. */
module Lines {
  import opened Text

  /** The characters `str.splitlines` breaks at. */
  predicate Breaks(ch: char) {
    var n := ch as int;
    0x0A <= n <= 0x0D || 0x1C <= n <= 0x1E || n == 0x85 || n == 0x2028 || n == 0x2029
  }

  /** The end of the first line, its break included; a CR LF pair is one break. */
  function LineEnd(s: string): (n: nat)
    requires s != ""
    ensures 0 < n <= |s|
    decreases |s|
  {
    if s[0] == '\r' && |s| > 1 && s[1] == '\n' then 2
    else if Breaks(s[0]) || |s| == 1 then 1
    else 1 + LineEnd(s[1..])
  }

  /** `text.splitlines(keepends=True)` */
  function Entries(s: string): (es: seq<string>)
    ensures forall i :: 0 <= i < |es| ==> es[i] != ""
    decreases |s|
  {
    if s == "" then [] else [s[..LineEnd(s)]] + Entries(s[LineEnd(s)..])
  }

  /** A line without its break. */
  function Body(entry: string): (line: string)
    requires entry != ""
  {
    var n := |entry|;
    if n > 1 && entry[n - 2] == '\r' && entry[n - 1] == '\n' then entry[..n - 2]
    else if Breaks(entry[n - 1]) then entry[..n - 1]
    else entry
  }

  /** `text.splitlines()` */
  function SplitLines(s: string): seq<string>
    decreases |s|
  {
    if s == "" then [] else [Body(s[..LineEnd(s)])] + SplitLines(s[LineEnd(s)..])
  }

  /** Every line followed by a line feed. */
  function Terminated(lines: seq<string>): string {
    if lines == [] then "" else lines[0] + "\n" + Terminated(lines[1..])
  }

  lemma {:induction false} LineEndOf(line: string, rest: string)
    requires Free(line, Breaks)
    ensures LineEnd(line + "\n" + rest) == |line| + 1
  {
    var s := line + "\n" + rest;
    if line == "" {
      assert s[0] == '\n';
    } else {
      assert s[0] == line[0] && s[1..] == line[1..] + "\n" + rest && |s| > 1;
      assert Breaks('\r') && !Breaks(line[0]);
      LineEndOf(line[1..], rest);
    }
  }

  lemma BodyOf(line: string)
    requires Free(line, Breaks)
    ensures Body(line + "\n") == line
  {
    var entry := line + "\n";
    assert Breaks('\r') && (line != "" ==> entry[|entry| - 2] == line[|line| - 1]);
  }

  /** What was written line by line is read back line by line. */
  lemma {:induction false} SplitTerminated(lines: seq<string>)
    requires forall i :: 0 <= i < |lines| ==> Free(lines[i], Breaks)
    ensures SplitLines(Terminated(lines)) == lines
    decreases |lines|
  {
    if lines != [] {
      hide LineEnd, Breaks;
      var s := Terminated(lines);
      var line, rest := lines[0], Terminated(lines[1..]);
      LineEndOf(line, rest);
      SplitTerminated(lines[1..]);
      var entry := line + "\n";
      assert s[..|line| + 1] == entry && s[|line| + 1..] == rest;
      BodyOf(line);
      assert SplitLines(s) == [Body(s[..LineEnd(s)])] + SplitLines(s[LineEnd(s)..]);
    }
  }

  /** Up to its break a line has none. */
  lemma {:induction false} NoBreakBeforeEnd(s: string, i: nat)
    requires s != "" && i < LineEnd(s) - 1
    ensures !Breaks(s[i]) || (i == LineEnd(s) - 2 && s[i] == '\r' && s[i + 1] == '\n')
  {
    if i > 0 && !(s[0] == '\r' && |s| > 1 && s[1] == '\n') {
      NoBreakBeforeEnd(s[1..], i - 1);
    }
  }

  lemma {:induction false} SplitLinesFree(s: string)
    ensures forall i :: 0 <= i < |SplitLines(s)| ==> Free(SplitLines(s)[i], Breaks)
    decreases |s|
  {
    if s != "" {
      var n := LineEnd(s);
      var line := Body(s[..n]);
      forall i | 0 <= i < |line| ensures !Breaks(line[i]) {
        if i < n - 1 {
          NoBreakBeforeEnd(s, i);
        }
      }
      SplitLinesFree(s[n..]);
    }
  }
}
