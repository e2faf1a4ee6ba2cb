/**
  Timestamps for log lines that carry none (services/logs.py, `_record_marker`,
  `_stamp_lines`): every poll notes the file's size, and a line gets the time of
  the first poll that had seen its end.
 */
module LogStamps {
  import opened Lines
  import opened Text

  // --- The text of a log ---------------------------------------------------

  /** Bytes of a character in UTF-8. */
  function Width(ch: char): (w: nat)
    ensures 1 <= w <= 4
  {
    var n := ch as int;
    if n < 0x80 then 1 else if n < 0x800 then 2 else if n < 0x1_0000 then 3 else 4
  }

  function Bytes(s: string): nat {
    if s == "" then 0 else Width(s[0]) + Bytes(s[1..])
  }

  /** The byte offset at which entry `i` ends. */
  function OffsetOf(es: seq<string>, i: nat): nat
    requires i <= |es|
  {
    if i == 0 then 0 else OffsetOf(es, i - 1) + Bytes(es[i - 1])
  }

  /** The entry can no longer change: something follows it, or it ends in a line feed. */
  predicate Complete(es: seq<string>, i: nat)
    requires i < |es|
  {
    i + 1 < |es| || (es[i] != "" && es[i][|es[i]| - 1] == '\n')
  }

  lemma {:induction false} LineEndStays(s: string, more: string)
    requires s != ""
    requires LineEnd(s) < |s| || s[|s| - 1] == '\n'
    ensures LineEnd(s + more) == LineEnd(s)
    decreases |s|
  {
    var t := s + more;
    assert t[0] == s[0] && (|s| > 1 ==> t[1] == s[1]);
    if !(s[0] == '\r' && |s| > 1 && s[1] == '\n') && !Breaks(s[0]) {
      assert t[1..] == s[1..] + more;
      LineEndStays(s[1..], more);
    }
  }

  /** Appending to a log leaves its complete entries, and where they end, as they are. */
  lemma {:induction false} CompleteEntriesStay(s: string, more: string, i: nat)
    requires i < |Entries(s)| && Complete(Entries(s), i)
    ensures i < |Entries(s + more)|
    ensures Entries(s + more)[..i + 1] == Entries(s)[..i + 1]
    ensures Complete(Entries(s + more), i)
    decreases |s|
  {
    hide LineEnd;
    var n := LineEnd(s);
    var t := s + more;
    var es := Entries(s);
    assert es[0] == s[..n];
    if n == |s| {
      assert s[n..] == "" && Entries(s[n..]) == [] && s[..n] == s;
      assert es == [s[..n]] + Entries(s[n..]);
    }
    LineEndStays(s, more);
    assert t[..n] == s[..n] && t[n..] == s[n..] + more;
    assert Entries(t) == [s[..n]] + Entries(t[n..]);
    if i > 0 {
      assert Entries(s[n..])[i - 1] == es[i];
      CompleteEntriesStay(s[n..], more, i - 1);
      assert Entries(t)[..i + 1] == [s[..n]] + Entries(t[n..])[..i];
      assert es[..i + 1] == [s[..n]] + Entries(s[n..])[..i];
    }
  }

  lemma {:induction false} OffsetOfPrefix(a: seq<string>, b: seq<string>, i: nat)
    requires i <= |a| && i <= |b| && a[..i] == b[..i]
    ensures OffsetOf(a, i) == OffsetOf(b, i)
  {
    if i > 0 {
      assert a[..i - 1] == a[..i][..i - 1] && b[..i - 1] == b[..i][..i - 1];
      assert a[i - 1] == a[..i][i - 1] && b[i - 1] == b[..i][i - 1];
      OffsetOfPrefix(a, b, i - 1);
    }
  }

  lemma {:induction false} BytesAppend(s: string, t: string)
    ensures Bytes(s + t) == Bytes(s) + Bytes(t)
  {
    if s == "" {
      assert s + t == t;
    } else {
      assert (s + t)[1..] == s[1..] + t;
      BytesAppend(s[1..], t);
    }
  }

  lemma {:induction false} OffsetShift(e: string, es: seq<string>, i: nat)
    requires i <= |es|
    ensures OffsetOf([e] + es, i + 1) == Bytes(e) + OffsetOf(es, i)
  {
    if i > 0 {
      OffsetShift(e, es, i - 1);
      assert ([e] + es)[i] == es[i - 1];
    } else {
      assert OffsetOf([e] + es, 0) == 0;
    }
  }

  /** The entries make up the whole file: the last one ends where the file does. */
  lemma {:induction false} EntriesCoverFile(s: string)
    ensures OffsetOf(Entries(s), |Entries(s)|) == Bytes(s)
    decreases |s|
  {
    if s != "" {
      var n := LineEnd(s);
      EntriesCoverFile(s[n..]);
      OffsetShift(s[..n], Entries(s[n..]), |Entries(s[n..])|);
      BytesAppend(s[..n], s[n..]);
      assert s == s[..n] + s[n..];
    }
  }

  lemma {:induction false} OffsetsAscend(es: seq<string>, i: nat, j: nat)
    requires i <= j <= |es|
    ensures OffsetOf(es, i) <= OffsetOf(es, j)
  {
    if i < j {
      OffsetsAscend(es, i, j - 1);
    }
  }

  // --- Markers -------------------------------------------------------------

  datatype Marker = Marker(size: nat, time: int)

  const MAX_MARKERS_PER_FILE := 200

  function Recorded(ms: seq<Marker>, size: nat, now: int): seq<Marker> {
    var kept := if ms != [] && size < ms[|ms| - 1].size then [] else ms;
    if kept == [] || size > kept[|kept| - 1].size then
      var longer := kept + [Marker(size, now)];
      if |longer| > MAX_MARKERS_PER_FILE then longer[|longer| - MAX_MARKERS_PER_FILE..] else longer
    else kept
  }

  /** Strictly growing sizes at times that never go back. */
  ghost predicate InOrder(ms: seq<Marker>) {
    forall i, j :: 0 <= i < j < |ms| ==> ms[i].size < ms[j].size && ms[i].time <= ms[j].time
  }

  ghost predicate Ascending(ms: seq<Marker>) {
    |ms| <= MAX_MARKERS_PER_FILE && InOrder(ms)
  }

  ghost predicate NotAfter(ms: seq<Marker>, now: int) {
    forall i :: 0 <= i < |ms| ==> ms[i].time <= now
  }

  lemma LongerInOrder(ms: seq<Marker>, m: Marker)
    requires InOrder(ms) && NotAfter(ms, m.time) && (ms != [] ==> ms[|ms| - 1].size < m.size)
    ensures InOrder(ms + [m]) && NotAfter(ms + [m], m.time)
  {
  }

  lemma TailInOrder(ms: seq<Marker>, n: nat, now: int)
    requires InOrder(ms) && NotAfter(ms, now) && n <= |ms|
    ensures InOrder(ms[n..]) && NotAfter(ms[n..], now)
  {
  }

  lemma NothingInOrder(now: int)
    ensures InOrder([]) && NotAfter([], now)
  {
  }

  /** Every poll, also one that finds the file rotated, keeps the markers in order and ends them at the file's size. */
  lemma RecordedKeepsOrder(ms: seq<Marker>, size: nat, now: int)
    requires Ascending(ms) && NotAfter(ms, now)
    ensures
      var r := Recorded(ms, size, now);
      Ascending(r) && NotAfter(r, now) && r != [] && r[|r| - 1].size == size
  {
    NothingInOrder(now);
    hide InOrder, NotAfter;
    var kept := if ms != [] && size < ms[|ms| - 1].size then [] else ms;
    if kept == [] || size > kept[|kept| - 1].size {
      LongerInOrder(kept, Marker(size, now));
      TailInOrder(kept + [Marker(size, now)], 1, now);
    }
  }

  /** A poll of a file that has not shrunk adds at most one marker behind and drops at most one in front. */
  lemma RecordedExtends(ms: seq<Marker>, size: nat, now: int) returns (gone: nat, added: seq<Marker>)
    requires ms != [] && Ascending(ms) && NotAfter(ms, now) && ms[|ms| - 1].size <= size
    ensures Extends(ms, Recorded(ms, size, now), gone, added) && gone <= 1
    ensures gone > 0 ==> |Recorded(ms, size, now)| == MAX_MARKERS_PER_FILE
  {
    added := if size > ms[|ms| - 1].size then [Marker(size, now)] else [];
    gone := |ms + added| - |Recorded(ms, size, now)|;
    assert forall i :: 0 <= i < |ms| ==> ms[i].size <= ms[|ms| - 1].size;
  }

  /**
    When a poll forgets: exactly when the last recorded size exceeds the new one,
    and then everything. Otherwise at most the oldest marker goes.
   */
  lemma RecordingForgetsIff(ms: seq<Marker>, size: nat, now: int)
    requires ms != [] && Ascending(ms)
    ensures
      var r := Recorded(ms, size, now);
      && (ms[|ms| - 1] !in r <==> ms[|ms| - 1].size > size)
      && (ms[|ms| - 1].size > size ==> r == [Marker(size, now)])
      && (ms[|ms| - 1].size <= size ==> ms <= r || ms[1..] <= r)
  {
    var last := ms[|ms| - 1];
    var r := Recorded(ms, size, now);
    if last.size <= size {
      if size > last.size && |ms| == MAX_MARKERS_PER_FILE {
        assert r == ms[1..] + [Marker(size, now)] && r[|ms| - 2] == last;
      } else {
        assert ms <= r && r[|ms| - 1] == last;
      }
    }
  }

  /**
    The file is read before the markers are locked. When two polls record their
    sizes in the other order, the smaller one looks like a truncation: every
    older marker is forgotten, whatever there was.
   */
  lemma OutOfOrderPollsForget(ms: seq<Marker>, smaller: nat, larger: nat, first: int, second: int)
    requires Ascending(ms) && smaller < larger
    ensures Recorded(Recorded(ms, larger, first), smaller, second) == [Marker(smaller, second)]
  {
    var r := Recorded(ms, larger, first);
    assert r != [] && r[|r| - 1].size == larger;
  }

  /** The first marker at least `offset` bytes into the file, or how many there are. */
  function FirstCovering(ms: seq<Marker>, offset: nat): (k: nat)
    ensures k <= |ms| && (forall i :: 0 <= i < k ==> ms[i].size < offset)
    ensures k < |ms| ==> ms[k].size >= offset
  {
    if ms == [] || ms[0].size >= offset then 0 else 1 + FirstCovering(ms[1..], offset)
  }

  function StampFor(ms: seq<Marker>, offset: nat): int
    requires ms != []
  {
    var k := FirstCovering(ms, offset);
    if k < |ms| then ms[k].time else ms[|ms| - 1].time
  }

  /** Right after a poll every line of the file is covered: the fallback is never taken. */
  lemma FallbackNeverNeeded(ms: seq<Marker>, now: int, text: string, i: nat)
    requires Ascending(ms) && NotAfter(ms, now) && i <= |Entries(text)|
    ensures
      var r := Recorded(ms, Bytes(text), now);
      FirstCovering(r, OffsetOf(Entries(text), i)) < |r|
  {
    hide Recorded, FirstCovering, Entries, OffsetOf, Bytes;
    RecordedKeepsOrder(ms, Bytes(text), now);
    EntriesCoverFile(text);
    OffsetsAscend(Entries(text), i, |Entries(text)|);
  }

  /** Down the file the stamps never go back. */
  lemma StampsAscend(ms: seq<Marker>, a: nat, b: nat)
    requires ms != [] && Ascending(ms) && a <= b
    ensures StampFor(ms, a) <= StampFor(ms, b)
  {
    var k, l := FirstCovering(ms, a), FirstCovering(ms, b);
    assert k <= l;
  }

  // --- Polls of a growing file ---------------------------------------------

  datatype Poll = Poll(size: nat, now: int)

  function AfterPolls(ms: seq<Marker>, polls: seq<Poll>): seq<Marker>
    decreases |polls|
  {
    if polls == [] then ms
    else AfterPolls(Recorded(ms, polls[0].size, polls[0].now), polls[1..])
  }

  /** The file has not shrunk, nor the clock gone back, from one poll to the next. */
  ghost predicate Growing(size: nat, now: int, polls: seq<Poll>)
    decreases |polls|
  {
    polls == []
    || (size <= polls[0].size && now <= polls[0].now && Growing(polls[0].size, polls[0].now, polls[1..]))
  }

  /** The markers then are the ones before, less some at the front, plus some that reach further and are no older. */
  ghost predicate Extends(ms: seq<Marker>, later: seq<Marker>, gone: nat, added: seq<Marker>) {
    && gone <= |ms + added| && later == (ms + added)[gone..]
    && forall i, j :: 0 <= i < |ms| && 0 <= j < |added| ==> ms[i].size < added[j].size && ms[i].time <= added[j].time
  }

  lemma {:induction false} PollsExtend(ms: seq<Marker>, now: int, polls: seq<Poll>) returns (gone: nat, added: seq<Marker>)
    requires ms != [] && Ascending(ms) && NotAfter(ms, now) && Growing(ms[|ms| - 1].size, now, polls)
    ensures Extends(ms, AfterPolls(ms, polls), gone, added)
    ensures gone > 0 ==> |AfterPolls(ms, polls)| == MAX_MARKERS_PER_FILE
    ensures Ascending(AfterPolls(ms, polls)) && AfterPolls(ms, polls) != []
    decreases |polls|
  {
    hide Recorded, InOrder, Extends;
    if polls == [] {
      gone, added := 0, [];
      Unextended(ms);
    } else {
      var p := polls[0];
      var next := Recorded(ms, p.size, p.now);
      RecordedKeepsOrder(ms, p.size, p.now);
      var cut, first := RecordedExtends(ms, p.size, p.now);
      var g, a := PollsExtend(next, p.now, polls[1..]);
      Compose(ms, next, AfterPolls(ms, polls), cut, first, g, a);
      gone, added := cut + g, first + a;
    }
  }

  lemma Unextended(ms: seq<Marker>)
    ensures Extends(ms, ms, 0, [])
  {
    assert (ms + [])[0..] == ms;
  }

  lemma Compose(ms: seq<Marker>, next: seq<Marker>, later: seq<Marker>, cut: nat, first: seq<Marker>, g: nat, a: seq<Marker>)
    requires Extends(ms, next, cut, first) && Extends(next, later, g, a) && next != []
    requires InOrder(ms) && InOrder(next) && cut <= 1
    ensures Extends(ms, later, cut + g, first + a)
  {
    assert next + a == (ms + (first + a))[cut..];
    assert later == (ms + (first + a))[cut + g..];
    var last := next[|next| - 1];
    assert forall i :: 0 <= i < |ms| ==> ms[i].size <= last.size && ms[i].time <= last.time;
  }

  /**
    A line keeps its stamp at every later poll for as long as the marker it got
    it from is there. It is evicted only once two hundred newer ones are; the
    line then takes the oldest marker left, which is no earlier.
   */
  lemma StampStableUntilEvicted(ms: seq<Marker>, now: int, polls: seq<Poll>, offset: nat)
    requires ms != [] && Ascending(ms) && NotAfter(ms, now) && Growing(ms[|ms| - 1].size, now, polls)
    requires offset <= ms[|ms| - 1].size
    ensures
      var later := AfterPolls(ms, polls);
      var source := ms[FirstCovering(ms, offset)];
      && later != []
      && (source in later ==> StampFor(later, offset) == StampFor(ms, offset))
      && (source !in later ==>
            |later| == MAX_MARKERS_PER_FILE && StampFor(later, offset) == later[0].time >= StampFor(ms, offset))
  {
    var gone, added := PollsExtend(ms, now, polls);
    hide AfterPolls, Growing, NotAfter;
    var later := AfterPolls(ms, polls);
    var k := FirstCovering(ms, offset);
    if gone <= k {
      StillCovering(ms, later, gone, added, offset);
    } else {
      Evicted(ms, later, gone, added, offset);
    }
  }

  lemma StillCovering(ms: seq<Marker>, later: seq<Marker>, gone: nat, added: seq<Marker>, offset: nat)
    requires InOrder(ms) && InOrder(later) && Extends(ms, later, gone, added)
    requires FirstCovering(ms, offset) < |ms| && gone <= FirstCovering(ms, offset)
    ensures FirstCovering(later, offset) < |later|
    ensures later[FirstCovering(later, offset)] == ms[FirstCovering(ms, offset)]
  {
    var k := FirstCovering(ms, offset);
    assert forall i :: 0 <= i < k - gone ==> later[i] == ms[gone + i];
    assert later[k - gone] == ms[k];
  }

  lemma Evicted(ms: seq<Marker>, later: seq<Marker>, gone: nat, added: seq<Marker>, offset: nat)
    requires InOrder(ms) && Extends(ms, later, gone, added) && later != []
    requires FirstCovering(ms, offset) < |ms| && gone > FirstCovering(ms, offset)
    ensures FirstCovering(later, offset) == 0
    ensures forall m :: m in later ==> m.size > ms[FirstCovering(ms, offset)].size
    ensures later[0].time >= ms[FirstCovering(ms, offset)].time
  {
    var k := FirstCovering(ms, offset);
    forall i | 0 <= i < |later| ensures later[i].size > ms[k].size && later[i].time >= ms[k].time {
      assert later[i] == (ms + added)[gone + i];
      assert gone + i >= |ms| ==> later[i] == added[gone + i - |ms|];
    }
  }

  /** The clock does not go back; the file may shrink, grow or be replaced at will. */
  ghost predicate ClockForward(now: int, polls: seq<Poll>)
    decreases |polls|
  {
    polls == [] || (now <= polls[0].now && ClockForward(polls[0].now, polls[1..]))
  }

  lemma {:induction false} AlwaysAscending(ms: seq<Marker>, now: int, polls: seq<Poll>)
    requires Ascending(ms) && NotAfter(ms, now) && ClockForward(now, polls)
    ensures Ascending(AfterPolls(ms, polls))
    decreases |polls|
  {
    hide Recorded, InOrder;
    if polls != [] {
      RecordedKeepsOrder(ms, polls[0].size, polls[0].now);
      AlwaysAscending(Recorded(ms, polls[0].size, polls[0].now), polls[0].now, polls[1..]);
    }
  }

  // --- What is shown -------------------------------------------------------

  datatype Shown = Plain(line: string) | Stamped(time: int, line: string)

  predicate IsLineFeed(ch: char) {
    ch == '\n'
  }

  predicate IsReturn(ch: char) {
    ch == '\r'
  }

  /** `dated` is the pattern for lines that start with a date of their own; it is not part of this model. */
  function ShowEntry(dated: string -> bool, es: seq<string>, i: nat, ms: seq<Marker>): Shown
    requires i < |es| && ms != []
  {
    var line := TrimRight(TrimRight(es[i], IsLineFeed), IsReturn);
    if line == "" || dated(line) then Plain(line) else Stamped(StampFor(ms, OffsetOf(es, i + 1)), line)
  }

  method Offsets(entries: seq<string>) returns (offsets: seq<nat>)
    ensures |offsets| == |entries| && forall j :: 0 <= j < |entries| ==> offsets[j] == OffsetOf(entries, j + 1)
  {
    hide Bytes;
    offsets := [];
    var acc := 0;
    for i := 0 to |entries|
      invariant |offsets| == i && acc == OffsetOf(entries, i)
      invariant forall j :: 0 <= j < i ==> offsets[j] == OffsetOf(entries, j + 1)
    {
      acc := acc + Bytes(entries[i]);
      offsets := offsets + [acc];
    }
  }

  /** The last `lines` entries, each as `ShowEntry` gives it. */
  method StampLines(dated: string -> bool, text: string, lines: nat, ms: seq<Marker>) returns (shown: seq<Shown>)
    requires ms != []
    ensures
      var es := Entries(text);
      var start := if |es| > lines then |es| - lines else 0;
      |shown| == |es| - start && forall k :: 0 <= k < |shown| ==> shown[k] == ShowEntry(dated, es, start + k, ms)
  {
    hide Entries, OffsetOf, TrimRight, FirstCovering, Bytes;
    var entries := Entries(text);
    var offsets := Offsets(entries);
    var start := if |entries| > lines then |entries| - lines else 0;
    shown := [];
    for index := start to |entries|
      invariant |shown| == index - start
      invariant forall k :: 0 <= k < |shown| ==> shown[k] == ShowEntry(dated, entries, start + k, ms)
    {
      var line := TrimRight(TrimRight(entries[index], IsLineFeed), IsReturn);
      if line == "" || dated(line) {
        shown := shown + [Plain(line)];
      } else {
        var k := FirstCovering(ms, offsets[index]);
        var stamp := if k < |ms| then ms[k].time else ms[|ms| - 1].time;
        shown := shown + [Stamped(stamp, line)];
      }
    }
  }

  /**
    Whatever is polled in between, a complete line of a log that only grows is
    shown the same at every later poll until its marker is evicted; then the
    line itself is still the same and its stamp no earlier.
   */
  lemma ShownLineIsStable(dated: string -> bool, text: string, more: string, i: nat,
                          ms: seq<Marker>, now: int, polls: seq<Poll>)
    requires ms != [] && Ascending(ms) && NotAfter(ms, now) && ms[|ms| - 1].size == Bytes(text)
    requires Growing(Bytes(text), now, polls)
    requires i < |Entries(text)| && Complete(Entries(text), i)
    ensures i < |Entries(text + more)| && AfterPolls(ms, polls) != []
    ensures
      var before := ShowEntry(dated, Entries(text), i, ms);
      var later := AfterPolls(ms, polls);
      var after := ShowEntry(dated, Entries(text + more), i, later);
      && after.line == before.line && (after.Plain? <==> before.Plain?)
      && (before.Stamped? ==> before.time <= after.time)
      && FirstCovering(ms, OffsetOf(Entries(text), i + 1)) < |ms|
      && (ms[FirstCovering(ms, OffsetOf(Entries(text), i + 1))] in later ==> after == before)
  {
    hide Entries, Complete, FirstCovering, StampFor, OffsetOf, Bytes, InOrder, AfterPolls, Growing, TrimRight;
    CompleteEntriesStay(text, more, i);
    var es, fs := Entries(text), Entries(text + more);
    assert fs[i] == fs[..i + 1][i] == es[..i + 1][i] == es[i];
    OffsetOfPrefix(es, fs, i + 1);
    EntriesCoverFile(text);
    OffsetsAscend(es, i + 1, |es|);
    StampStableUntilEvicted(ms, now, polls, OffsetOf(es, i + 1));
  }

  /** The markers are shared by all requests; each poll runs under one lock, so it is one step. */
  class LogService {
    var markers: map<string, seq<Marker>>

    ghost function Of(key: string): seq<Marker>
      reads this
    {
      if key in markers then markers[key] else []
    }

    method RecordMarker(key: string, size: nat, now: int) returns (result: seq<Marker>)
      modifies this
      ensures markers == old(markers)[key := Recorded(old(Of(key)), size, now)]
      ensures result == markers[key]
    {
      var ms := if key in markers then markers[key] else [];
      if ms != [] && size < ms[|ms| - 1].size {
        ms := [];
      }
      if ms == [] || size > ms[|ms| - 1].size {
        ms := ms + [Marker(size, now)];
        if |ms| > MAX_MARKERS_PER_FILE {
          ms := ms[|ms| - MAX_MARKERS_PER_FILE..];
        }
      }
      markers := markers[key := ms];
      result := ms;
    }

    /** Every line shown takes its stamp from a marker that covers it. */
    method Tail(dated: string -> bool, key: string, text: string, lines: nat, now: int) returns (shown: seq<Shown>)
      requires Ascending(Of(key)) && NotAfter(Of(key), now)
      modifies this
      ensures markers == old(markers)[key := Recorded(old(Of(key)), Bytes(text), now)]
      ensures Ascending(Of(key)) && NotAfter(Of(key), now) && Of(key) != []
      ensures
        var es := Entries(text);
        var start := if |es| > lines then |es| - lines else 0;
        |shown| == |es| - start && forall k :: 0 <= k < |shown| ==>
          && shown[k] == ShowEntry(dated, es, start + k, Of(key))
          && FirstCovering(Of(key), OffsetOf(es, start + k + 1)) < |Of(key)|
    {
      hide Recorded, Ascending, NotAfter, Entries, Bytes, FirstCovering, OffsetOf, ShowEntry;
      ghost var was := Of(key);
      RecordedKeepsOrder(was, Bytes(text), now);
      var ms := RecordMarker(key, Bytes(text), now);
      shown := StampLines(dated, text, lines, ms);
      forall i: nat | i <= |Entries(text)| ensures FirstCovering(ms, OffsetOf(Entries(text), i)) < |ms| {
        FallbackNeverNeeded(was, now, text, i);
      }
    }
  }
}
