/** What the per-user configuration file gives back of what was written into it. */
module UserConfigRoundTrip {
  import opened Options
  import opened Text
  import opened Lines
  import opened UserConfigFile

  // --- One value -----------------------------------------------------------

  /** What the parser makes of a value the renderer wrote. */
  function Back(v: string): string {
    Trim(Strip(v[..First(v, IsHash)]), IsQuote)
  }

  /** Nothing the parser would cut off: no comment sign, no blank and no quote at either end. */
  ghost predicate Unframed(v: string) {
    Free(v, IsHash)
    && (v == "" || (!Blank(v[0]) && !Blank(v[|v| - 1]) && !IsQuote(v[0]) && !IsQuote(v[|v| - 1])))
  }

  lemma BackIsSameIff(v: string)
    ensures Back(v) == v <==> Unframed(v)
  {
    hide Trim, Blank, IsQuote;
    var cut := v[..First(v, IsHash)];
    TrimIsNothingIff(cut, Blank);
    TrimIsNothingIff(Strip(cut), IsQuote);
    if |cut| == |v| {
      assert cut == v;
    } else {
      assert IsHash(v[|cut|]);
    }
  }

  // --- One line ------------------------------------------------------------

  lemma {:induction false} FirstAfter(front: string, s: string, p: char -> bool)
    requires Free(front, p)
    ensures First(front + s, p) == |front| + First(s, p)
  {
    if front == "" {
      assert front + s == s;
    } else {
      assert (front + s)[0] == front[0] && (front + s)[1..] == front[1..] + s;
      FirstAfter(front[1..], s, p);
    }
  }

  ghost predicate Only(s: string, p: char -> bool) {
    forall i :: 0 <= i < |s| ==> p(s[i])
  }

  lemma OnlyAppend(a: string, b: string, p: char -> bool)
    ensures Only(a + b, p) <==> Only(a, p) && Only(b, p)
  {
    var s := a + b;
    assert forall i :: 0 <= i < |a| ==> s[i] == a[i];
    assert forall i :: 0 <= i < |b| ==> s[|a| + i] == b[i];
  }

  /** Neither end would be trimmed. */
  predicate Bare(m: string, p: char -> bool) {
    m == "" || (!p(m[0]) && !p(m[|m| - 1]))
  }

  lemma TrimLeftIs(a: string, rest: string, p: char -> bool)
    requires Only(a, p) && (rest != "" ==> !p(rest[0]))
    ensures TrimLeft(a + rest, p) == rest
  {
    var s := a + rest;
    var left := TrimLeft(s, p);
    assert rest != "" ==> s[|a|] == rest[0];
    assert forall i :: 0 <= i < |a| ==> s[i] == a[i];
    assert left != "" ==> left[0] == s[|s| - |left|];
    assert s[|a|..] == rest;
  }

  lemma {:induction false} TrimRightAfter(front: string, s: string, p: char -> bool)
    requires front != "" && !p(front[|front| - 1])
    ensures TrimRight(front + s, p) == front + TrimRight(s, p)
  {
    if s == "" {
      assert front + s == front;
    } else {
      assert (front + s)[..|front + s| - 1] == front + s[..|s| - 1];
      TrimRightAfter(front, s[..|s| - 1], p);
      assert front + s == front + (s[..|s| - 1] + [s[|s| - 1]]);
    }
  }

  lemma AllTrimmed(s: string, p: char -> bool)
    requires Only(s, p)
    ensures TrimRight(s, p) == "" && Trim(s, p) == ""
  {
    assert TrimLeft(s, p) == "";
  }

  /** What is left between two stretches that are trimmed away. */
  lemma TrimIs(a: string, m: string, b: string, p: char -> bool)
    requires Only(a, p) && Only(b, p) && Bare(m, p)
    ensures Trim(a + m + b, p) == m
  {
    hide TrimLeft, TrimRight, Only;
    if m == "" {
      OnlyAppend(a, b, p);
      assert a + m + b == a + b;
      AllTrimmed(a + b, p);
    } else {
      assert a + m + b == a + (m + b);
      TrimLeftIs(a, m + b, p);
      TrimRightAfter(m, b, p);
      AllTrimmed(b, p);
    }
  }

  lemma TrimLeftParts(s: string, p: char -> bool) returns (a: string)
    ensures s == a + TrimLeft(s, p) && Only(a, p)
  {
    hide TrimLeft;
    a := s[..|s| - |TrimLeft(s, p)|];
  }

  lemma TrimRightParts(s: string, p: char -> bool) returns (b: string)
    ensures s == TrimRight(s, p) + b && Only(b, p)
  {
    hide TrimRight;
    b := s[|TrimRight(s, p)|..];
  }

  lemma TrimParts(s: string, p: char -> bool) returns (a: string, b: string)
    ensures s == a + Trim(s, p) + b && Only(a, p) && Only(b, p) && Bare(Trim(s, p), p)
  {
    hide TrimLeft, TrimRight, Only;
    a := TrimLeftParts(s, p);
    b := TrimRightParts(TrimLeft(s, p), p);
  }

  lemma TrimAgain(front: string, m: string, back: string, p: char -> bool)
    requires Only(front, p) && Only(back, p) && Bare(m, p) && m != ""
    ensures Trim(TrimRight(front + m + back, p), p) == m
  {
    hide Trim, TrimRight, Only;
    var s := front + m;
    assert s[|s| - 1] == m[|m| - 1];
    TrimRightAfter(s, back, p);
    AllTrimmed(back, p);
    OnlyNothing(p);
    assert s + "" == s && front + m + "" == s;
    TrimIs(front, m, "", p);
  }

  lemma OnlyNothing(p: char -> bool)
    ensures Only("", p)
  {
  }

  lemma OneBlank()
    ensures Only(" ", Blank)
  {
  }

  /** A value behind a blank, with its own trailing blanks already gone, strips to the same. */
  lemma StripBehindBlank(c: string)
    ensures Strip(TrimRight(" " + c, Blank)) == Strip(c)
  {
    hide Blank, Trim, TrimRight, Only, Bare;
    var a, b := TrimParts(c, Blank);
    var m := Trim(c, Blank);
    OneBlank();
    OnlyAppend(" ", a, Blank);
    if m == "" {
      OnlyAppend(" " + a, b, Blank);
      assert " " + c == (" " + a) + b;
      AllTrimmed(" " + c, Blank);
      OnlyNothing(Blank);
      AllTrimmed("", Blank);
    } else {
      assert " " + c == (" " + a) + m + b;
      TrimAgain(" " + a, m, b, Blank);
    }
  }

  /** The line written for a key and a value stores under that key what comes back of the value. */
  lemma LineParses(c: Config, k: Keyword, v: string)
    ensures ParseLine(c, LineFor(k, v)) == Store(c, k, Back(v))
  {
    hide Spelling, KeywordOf, First, Trim, Store, TrimRight, LineFor, Strip, Blank;
    var cut := v[..First(v, IsHash)];
    CleanLine(k, v);
    KeyPart(k, TrimRight(" " + cut, Blank));
    StripBehindBlank(cut);
    StripTwice(TrimRight(" " + cut, Blank));
    KeywordFound(k);
  }

  lemma StripTwice(s: string)
    ensures Strip(Strip(s)) == Strip(s)
  {
    TrimTwice(s, Blank);
  }

  /** After the comment is cut and the line stripped. */
  lemma CleanLine(k: Keyword, v: string)
    ensures
      var line := LineFor(k, v);
      Strip(line[..First(line, IsHash)]) == Spelling(k) + " =" + TrimRight(" " + v[..First(v, IsHash)], Blank)
  {
    SpellingPlain(k);
    hide Spelling;
    var front := Spelling(k) + " = ";
    var line := LineFor(k, v);
    var cut := v[..First(v, IsHash)];
    FrontFree(k);
    FirstAfter(front, v, IsHash);
    assert line[..First(line, IsHash)] == front + cut;
    var keyed := Spelling(k) + " =";
    assert front + cut == keyed + (" " + cut);
    assert !Blank((front + cut)[0]);
    TrimRightAfter(keyed, " " + cut, Blank);
  }

  lemma FrontFree(k: Keyword)
    ensures Free(Spelling(k) + " = ", IsHash)
  {
    SpellingPlain(k);
    hide Spelling;
  }

  lemma KeyPart(k: Keyword, rest: string)
    ensures
      var clean := Spelling(k) + " =" + rest;
      var eq := First(clean, IsEquals);
      eq < |clean| && Strip(clean[..eq]) == Spelling(k) && clean[eq + 1..] == rest
  {
    SpellingPlain(k);
    hide Spelling;
    var word := Spelling(k) + " ";
    var clean := Spelling(k) + " =" + rest;
    assert clean == word + ['='] + rest;
    FirstIn(word, '=', rest, IsEquals);
    assert clean[..|word|] == word;
    assert "" + Spelling(k) + " " == word;
    OnlyNothing(Blank);
    OneBlank();
    TrimIs("", Spelling(k), " ", Blank);
  }

  // --- All values of a key -------------------------------------------------

  function AllBack(words: seq<string>): seq<string> {
    seq(|words|, i requires 0 <= i < |words| => Back(words[i]))
  }

  function ValueBack(v: Value): Value {
    match v
    case Words(words) => Words(AllBack(words))
    case Word(word) => Word(Back(word))
    case _ => v
  }

  lemma {:induction false} FoldAppend(c: Config, a: seq<string>, b: seq<string>)
    ensures Fold(c, a + b) == Fold(Fold(c, a), b)
    decreases |a|
  {
    hide ParseLine;
    if a == [] {
      assert a + b == b;
    } else {
      assert (a + b)[1..] == a[1..] + b;
      FoldAppend(ParseLine(c, a[0]), a[1..], b);
    }
  }

  lemma FoldOne(c: Config, line: string)
    ensures Fold(c, [line]) == ParseLine(c, line)
  {
    hide ParseLine;
    assert [line][1..] == [];
  }

  lemma StoreWord(c: Config, k: Keyword, had: seq<string>, v: string)
    requires KindOf(k).Repeated? && k in c && c[k] == Words(had)
    ensures Store(c, k, v) == c[k := Words(had + [v])]
  {
    hide KindOf, ParseInt, ParseBool;
  }

  lemma {:induction false} FoldWords(c: Config, k: Keyword, had: seq<string>, words: seq<string>)
    requires KindOf(k).Repeated? && k in c && c[k] == Words(had)
    ensures Fold(c, LinesFor(k, Words(words))) == c[k := Words(had + AllBack(words))]
    decreases |words|
  {
    hide ParseLine, LineFor, Back, Store, KindOf, Fold;
    if words == [] {
      assert had + AllBack(words) == had;
      assert c[k := Words(had)] == c;
      FoldNothing(c);
    } else {
      var first, rest := words[0], words[1..];
      var next := had + [Back(first)];
      var c1 := c[k := Words(next)];
      FirstLine(k, words);
      hide LinesFor;
      FoldAppend(c, [LineFor(k, first)], LinesFor(k, Words(rest)));
      FoldOne(c, LineFor(k, first));
      LineParses(c, k, first);
      StoreWord(c, k, had, Back(first));
      FoldWords(c1, k, next, rest);
      AllBackParts(words);
      hide AllBack;
      assert had + ([Back(first)] + AllBack(rest)) == next + AllBack(rest);
      assert c1[k := Words(next + AllBack(rest))] == c[k := Words(next + AllBack(rest))];
    }
  }

  lemma FoldNothing(c: Config)
    ensures Fold(c, []) == c
  {
  }

  lemma FirstLine(k: Keyword, words: seq<string>)
    requires words != []
    ensures LinesFor(k, Words(words)) == [LineFor(k, words[0])] + LinesFor(k, Words(words[1..]))
  {
    hide LineFor;
  }

  lemma AllBackParts(words: seq<string>)
    requires words != []
    ensures AllBack(words) == [Back(words[0])] + AllBack(words[1..])
  {
    hide Back;
  }

  lemma PlainBack(s: string)
    requires Plain(s)
    ensures Back(s) == s
  {
    BackIsSameIff(s);
    hide Back;
  }

  lemma DecimalPlain(n: nat)
    ensures Plain(Decimal(n))
  {
    hide Decimal;
  }

  /** The lines of one key, read into a configuration that has nothing of it yet. */
  lemma FoldKey(c: Config, k: Keyword, v: Value)
    requires Fits(k, v) && (if KindOf(k).Repeated? then k in c && c[k] == Words([]) else k !in c)
    ensures Fold(c, LinesFor(k, v)) == c[k := ValueBack(v)]
  {
    hide ParseLine, Back, LineFor, Plain, ParseInt, ParseBool, Decimal;
    match v
    case Words(words) =>
      FoldWords(c, k, [], words);
      assert [] + AllBack(words) == AllBack(words);
    case Word(word) =>
      FoldOne(c, LineFor(k, word));
      LineParses(c, k, word);
    case Number(n) =>
      FoldOne(c, LineFor(k, Decimal(n)));
      LineParses(c, k, Decimal(n));
      DecimalPlain(n);
      PlainBack(Decimal(n));
      ParseIntOfDecimal(n);
    case Truth(b) =>
      FoldOne(c, LineFor(k, TruthText(b)));
      LineParses(c, k, TruthText(b));
      TruthTextPlain(b);
      PlainBack(TruthText(b));
      ParseBoolOfTruth(b);
  }

  // --- The whole file ------------------------------------------------------

  ghost function AllValuesBack(c: Config): Config {
    map k: Keyword | k in c :: ValueBack(c[k])
  }

  /** What has been read after the first `i` keys of the file. */
  ghost function ReadSoFar(c: Config, i: nat): Config {
    map k: Keyword | (Rank(k) < i && k in c) || KindOf(k).Repeated? ::
      if Rank(k) < i && k in c then ValueBack(c[k]) else Words([])
  }

  lemma OneMoreKey(c: Config, i: nat)
    requires Typed(c) && i < |ORDER|
    ensures
      var k := ORDER[i];
      ReadSoFar(c, i + 1) == if k in c then ReadSoFar(c, i)[k := ValueBack(c[k])] else ReadSoFar(c, i)
    ensures
      var k := ORDER[i];
      if KindOf(k).Repeated? then k in ReadSoFar(c, i) && ReadSoFar(c, i)[k] == Words([]) else k !in ReadSoFar(c, i)
  {
    hide ORDER, ValueBack, Rank, Fits;
    var k := ORDER[i];
    forall j: Keyword ensures Rank(j) == i <==> j == k {
      OrderRanks(i);
      InOrder(j);
    }
    hide KindOf;
    var next := if k in c then ReadSoFar(c, i)[k := ValueBack(c[k])] else ReadSoFar(c, i);
    assert ReadSoFar(c, i + 1).Keys == next.Keys;
  }

  lemma {:induction false} FoldFrom(c: Config, i: nat)
    requires Typed(c) && i <= |ORDER|
    ensures Fold(ReadSoFar(c, i), LinesFrom(c, i)) == ReadSoFar(c, |ORDER|)
    decreases |ORDER| - i
  {
    hide ORDER, Rank, LinesFor, ValueBack, ReadSoFar, Fits, KindOf, ParseLine;
    if i < |ORDER| {
      var k := ORDER[i];
      OneMoreKey(c, i);
      FoldFrom(c, i + 1);
      var now := if k in c then LinesFor(k, c[k]) else [];
      FoldAppend(ReadSoFar(c, i), now, LinesFrom(c, i + 1));
      if k in c {
        FoldKey(ReadSoFar(c, i), k, c[k]);
      }
    }
  }

  lemma ReadNothing(c: Config)
    ensures ReadSoFar(c, 0) == Empty()
  {
  }

  lemma ReadAll(c: Config)
    requires Typed(c)
    ensures ReadSoFar(c, |ORDER|) == AllValuesBack(c)
  {
    forall k: Keyword ensures Rank(k) < |ORDER| {
      InOrder(k);
    }
    hide ORDER, Rank, ValueBack;
  }

  lemma HeaderFree()
    ensures Free(HEADER, Breaks)
  {
    var a, b, c := "# Generated by ", "korserver. Manual edits ", "may be overwritten.";
    assert Free(a, Breaks) && Free(b, Breaks) && Free(c, Breaks);
    assert HEADER == a + b + c;
  }

  lemma HeaderIgnored(c: Config)
    ensures ParseLine(c, HEADER) == c && Free(HEADER, Breaks)
  {
    HeaderFree();
    assert HEADER[0] == "# Generated by "[0] == '#';
    hide HEADER, Store, KeywordOf, Breaks;
    assert HEADER[..First(HEADER, IsHash)] == "";
  }

  ghost predicate WordsFree(words: seq<string>, p: char -> bool) {
    forall i :: 0 <= i < |words| ==> Free(words[i], p)
  }

  /** No string in the value has a character of the kind. */
  ghost predicate ValueFree(v: Value, p: char -> bool) {
    match v
    case Words(words) => WordsFree(words, p)
    case Word(word) => Free(word, p)
    case _ => true
  }

  ghost predicate OneLineValues(c: Config) {
    forall k: Keyword :: k in c ==> ValueFree(c[k], Breaks)
  }

  lemma LineForFree(k: Keyword, v: string)
    requires Free(v, Breaks)
    ensures Free(LineFor(k, v), Breaks)
  {
    SpellingPlain(k);
    hide Spelling;
  }

  lemma LinesForFree(k: Keyword, v: Value)
    requires ValueFree(v, Breaks)
    ensures WordsFree(LinesFor(k, v), Breaks)
  {
    hide LineFor, Breaks;
    match v
    case Words(words) =>
      forall i | 0 <= i < |words| ensures Free(LineFor(k, words[i]), Breaks) {
        LineForFree(k, words[i]);
      }
    case Word(word) => LineForFree(k, word);
    case Number(n) =>
      NumberFree(n);
      LineForFree(k, if n < 0 then "-" + Decimal(-n) else Decimal(n));
    case Truth(b) =>
      TruthFree(b);
      LineForFree(k, TruthText(b));
  }

  lemma NumberFree(n: int)
    ensures Free(if n < 0 then "-" + Decimal(-n) else Decimal(n), Breaks)
  {
    hide Decimal;
  }

  lemma TruthFree(b: bool)
    ensures Free(TruthText(b), Breaks)
  {
    TruthTextPlain(b);
  }

  lemma {:induction false} LinesFromFree(c: Config, i: nat)
    requires OneLineValues(c) && i <= |ORDER|
    ensures WordsFree(LinesFrom(c, i), Breaks)
    decreases |ORDER| - i
  {
    hide ORDER, LinesFor, Breaks, ValueFree;
    if i < |ORDER| {
      LinesFromFree(c, i + 1);
      if ORDER[i] in c {
        LinesForFree(ORDER[i], c[ORDER[i]]);
      }
    }
  }

  /** With one-line values the file reads back value by value, each as the parser leaves it. */
  lemma ParsedBack(c: Config)
    requires Typed(c) && OneLineValues(c)
    ensures Parse(Render(c)) == AllValuesBack(c)
  {
    hide Fold, ParseLine, LinesFrom, Breaks, SplitLines, Empty, HEADER, ReadSoFar, ORDER;
    var rest := LinesFrom(c, 0);
    LinesFromFree(c, 0);
    HeaderIgnored(Empty());
    SplitTerminated([HEADER] + rest);
    FoldAppend(Empty(), [HEADER], rest);
    FoldOne(Empty(), HEADER);
    ReadNothing(c);
    FoldFrom(c, 0);
    ReadAll(c);
  }

  // --- Exactly when it is the same -----------------------------------------

  ghost predicate WordsUnframed(words: seq<string>) {
    forall i :: 0 <= i < |words| ==> Unframed(words[i])
  }

  ghost predicate ValueUnframed(v: Value) {
    match v
    case Words(words) => WordsUnframed(words)
    case Word(word) => Unframed(word)
    case _ => true
  }

  lemma ValueBackIsSameIff(v: Value)
    ensures ValueBack(v) == v <==> ValueUnframed(v)
  {
    hide Back, Unframed;
    match v
    case Words(words) =>
      forall i | 0 <= i < |words| ensures AllBack(words)[i] == words[i] <==> Unframed(words[i]) {
        BackIsSameIff(words[i]);
      }
      assert AllBack(words) == words <==> forall i :: 0 <= i < |words| ==> AllBack(words)[i] == words[i];
    case Word(word) => BackIsSameIff(word);
    case _ =>
  }

  /** Whatever the parser takes out of lines has no line break in it. */
  lemma {:induction false} FoldStaysOneLine(c: Config, lines: seq<string>)
    requires OneLineValues(c) && WordsFree(lines, Breaks)
    ensures OneLineValues(Fold(c, lines))
    decreases |lines|
  {
    hide ParseLine, Breaks, ValueFree;
    if lines != [] {
      LineStaysOneLine(c, lines[0]);
      FoldStaysOneLine(ParseLine(c, lines[0]), lines[1..]);
    }
  }

  lemma StoreStaysOneLine(c: Config, k: Keyword, v: string)
    requires OneLineValues(c) && Free(v, Breaks)
    ensures OneLineValues(Store(c, k, v))
  {
    hide ParseInt, ParseBool, Breaks, Free;
    var after := Store(c, k, v);
    forall j: Keyword | j in after ensures ValueFree(after[j], Breaks) {
      assert j in c ==> ValueFree(c[j], Breaks);
    }
  }

  lemma TrimFree(s: string, p: char -> bool, q: char -> bool)
    requires Free(s, q)
    ensures Free(Trim(s, p), q)
  {
  }

  lemma SliceFree(s: string, i: nat, j: nat, q: char -> bool)
    requires Free(s, q) && i <= j <= |s|
    ensures Free(s[i..j], q)
  {
  }

  lemma LineStaysOneLine(c: Config, line: string)
    requires OneLineValues(c) && Free(line, Breaks)
    ensures OneLineValues(ParseLine(c, line))
  {
    hide Free, Breaks, Blank, First, KeywordOf, Store, Trim, OneLineValues;
    var cut := line[..First(line, IsHash)];
    SliceFree(line, 0, First(line, IsHash), Breaks);
    assert cut == line[0..First(line, IsHash)];
    TrimFree(cut, Blank, Breaks);
    var clean := Strip(cut);
    var eq := First(clean, IsEquals);
    if eq < |clean| {
      var raw := clean[eq + 1..];
      SliceFree(clean, eq + 1, |clean|, Breaks);
      assert raw == clean[eq + 1..|clean|];
      TrimFree(raw, Blank, Breaks);
      TrimFree(Strip(raw), Blank, Breaks);
      TrimFree(Strip(Strip(raw)), IsQuote, Breaks);
      var key := KeywordOf(Strip(clean[..eq]));
      if key.Some? {
        StoreStaysOneLine(c, key.value, Trim(Strip(Strip(raw)), IsQuote));
      }
    }
  }

  lemma ParsedIsOneLine(text: string)
    ensures OneLineValues(Parse(text))
  {
    hide Fold, SplitLines, Breaks;
    SplitLinesFree(text);
    FoldStaysOneLine(Empty(), SplitLines(text));
  }

  /**
    Reading back what was rendered gives the same configuration if and only if
    no string value in it has a line break or a comment sign, or a blank or a
    quote at either end.
   */
  lemma RoundTripIff(c: Config)
    requires Typed(c)
    ensures Parse(Render(c)) == c
       <==> OneLineValues(c) && forall k: Keyword :: k in c ==> ValueUnframed(c[k])
  {
    hide Parse, Render, ValueFree, ValueBack, ValueUnframed, Typed;
    ParsedIsOneLine(Render(c));
    if OneLineValues(c) {
      ParsedBack(c);
      forall k: Keyword | k in c ensures ValueBack(c[k]) == c[k] <==> ValueUnframed(c[k]) {
        ValueBackIsSameIff(c[k]);
      }
      var back := AllValuesBack(c);
      assert back == c <==> forall k: Keyword :: k in c ==> back[k] == c[k];
    }
  }

  /** What `restrict-user-to-ports` may hold: its pattern lets any white space through. */
  predicate PortRule(s: string) {
    s != "" && forall i :: 0 <= i < |s| ==>
      NameLike(s[i]) || s[i] == '(' || s[i] == ')' || s[i] == ',' || s[i] == '!' || s[i] == ':' || Blank(s[i])
  }

  predicate NameLike(ch: char) {
    'A' <= ch <= 'Z' || 'a' <= ch <= 'z' || IsDigit(ch) || ch == '_' || ch == '-'
  }

  lemma TwoLineRule()
    ensures PortRule("80\n443") && !Free("80\n443", Breaks)
  {
    assert Breaks("80\n443"[2]);
  }

  lemma OneFieldTyped(v: string)
    ensures Typed(Empty()[RestrictUserToPorts := Word(v)])
  {
  }

  /** So a value that passes validation need not come back: port rules on two lines do not. */
  lemma PortRulesMayNotComeBack()
    ensures
      var c := Empty()[RestrictUserToPorts := Word("80\n443")];
      PortRule("80\n443") && Typed(c) && Parse(Render(c)) != c
  {
    TwoLineRule();
    hide Parse, Render, Breaks, PortRule, Free, Typed;
    var c := Empty()[RestrictUserToPorts := Word("80\n443")];
    assert RestrictUserToPorts in c && !ValueFree(c[RestrictUserToPorts], Breaks);
    OneFieldTyped("80\n443");
    RoundTripIff(c);
  }

  // --- The loops -----------------------------------------------------------

  lemma NextLines(c: Config, i: nat, done: seq<string>)
    requires i < |ORDER|
    ensures
      var k := ORDER[i];
      done + LinesFrom(c, i) == done + (if k in c then LinesFor(k, c[k]) else []) + LinesFrom(c, i + 1)
  {
    hide LinesFor, ORDER;
  }

  lemma NoMoreLines(c: Config)
    ensures LinesFrom(c, |ORDER|) == []
  {
  }

  method RenderUserConfig(c: Config) returns (text: string)
    ensures text == Render(c)
  {
    hide LinesFor, LinesFrom, ORDER, HEADER, Terminated;
    var lines := [HEADER];
    for i := 0 to |ORDER|
      invariant lines + LinesFrom(c, i) == [HEADER] + LinesFrom(c, 0)
    {
      NextLines(c, i, lines);
      if ORDER[i] in c {
        lines := lines + LinesFor(ORDER[i], c[ORDER[i]]);
      } else {
        assert lines + [] == lines;
      }
    }
    NoMoreLines(c);
    assert lines + [] == lines;
    text := Terminated(lines);
  }

  method ParseUserConfigFile(text: string) returns (parsed: Config)
    ensures parsed == Parse(text)
  {
    hide ParseLine, SplitLines;
    parsed := Empty();
    var lines := SplitLines(text);
    for i := 0 to |lines|
      invariant Fold(parsed, lines[i..]) == Fold(Empty(), lines)
    {
      assert lines[i..][0] == lines[i] && lines[i..][1..] == lines[i + 1..];
      parsed := ParseLine(parsed, lines[i]);
    }
  }
}
