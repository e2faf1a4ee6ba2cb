/**
  Which time a log line shows, told by the polls (services/logs.py): the time of
  the first poll whose size reached the line's end, as long as that is among the
  last two hundred that found the file grown.
 */
module LogTimes {
  import opened Lines
  import opened LogStamps
  import opened Text

  /** A poll stamps with its own time whatever no earlier one had seen; after a truncation that is everything. */
  lemma NewLinesGetPollTime(ms: seq<Marker>, size: nat, now: int, offset: nat)
    requires Ascending(ms) && offset <= size
    requires ms == [] || size < ms[|ms| - 1].size || ms[|ms| - 1].size < offset
    ensures
      var r := Recorded(ms, size, now);
      r != [] && StampFor(r, offset) == now
  {
    var r := Recorded(ms, size, now);
    assert forall i :: 0 <= i < |ms| ==> ms[i].size <= ms[|ms| - 1].size;
    assert r != [] && r[|r| - 1] == Marker(size, now);
    assert forall m :: m in r[..|r| - 1] ==> m in ms;
    hide Recorded;
    forall i | 0 <= i < |r| - 1 ensures r[i].size < offset {
      assert r[..|r| - 1][i] == r[i];
    }
    assert FirstCovering(r, offset) == |r| - 1;
  }

  // --- A growing file from its first poll ----------------------------------

  /** Neither the file shrinks nor the clock goes back. */
  ghost predicate Forward(polls: seq<Poll>) {
    forall i, j :: 0 <= i < j < |polls| ==> polls[i].size <= polls[j].size && polls[i].now <= polls[j].now
  }

  /** Poll `n` found the file grown, as the first one does. */
  predicate Growth(polls: seq<Poll>, n: nat)
    requires n < |polls|
  {
    n == 0 || polls[n].size > polls[n - 1].size
  }

  /** The polls that found the file grown. */
  function Grew(polls: seq<Poll>): (g: seq<nat>)
    ensures forall i :: 0 <= i < |g| ==> g[i] < |polls|
    ensures forall i, j :: 0 <= i < j < |g| ==> g[i] < g[j]
  {
    if polls == [] then []
    else
      var n := |polls| - 1;
      if Growth(polls, n) then Grew(polls[..n]) + [n] else Grew(polls[..n])
  }

  lemma {:induction false} GrewExactly(polls: seq<Poll>, n: nat)
    requires n < |polls|
    ensures n in Grew(polls) <==> Growth(polls, n)
    decreases |polls|
  {
    var last := |polls| - 1;
    if n < last {
      GrewExactly(polls[..last], n);
      assert Growth(polls[..last], n) <==> Growth(polls, n);
    } else {
      assert n !in Grew(polls[..last]);
    }
  }

  function MarkersAt(polls: seq<Poll>, g: seq<nat>): (ms: seq<Marker>)
    requires forall i :: 0 <= i < |g| ==> g[i] < |polls|
    ensures |ms| == |g|
  {
    seq(|g|, i requires 0 <= i < |g| => Marker(polls[g[i]].size, polls[g[i]].now))
  }

  /** How many markers have been dropped in front. */
  function Dropped(n: nat): nat {
    if n > 200 then n - 200 else 0
  }

  lemma {:induction false} AfterOneMore(ms: seq<Marker>, polls: seq<Poll>, p: Poll)
    ensures AfterPolls(ms, polls + [p]) == Recorded(AfterPolls(ms, polls), p.size, p.now)
    decreases |polls|
  {
    hide Recorded;
    if polls == [] {
      assert polls + [p] == [p] && [p][1..] == [];
      assert AfterPolls(Recorded(ms, p.size, p.now), []) == Recorded(ms, p.size, p.now);
    } else {
      assert (polls + [p])[1..] == polls[1..] + [p] && (polls + [p])[0] == polls[0];
      AfterOneMore(Recorded(ms, polls[0].size, polls[0].now), polls[1..], p);
    }
  }

  lemma GrewNext(polls: seq<Poll>)
    requires polls != []
    ensures
      var n := |polls| - 1;
      Grew(polls) == if Growth(polls, n) then Grew(polls[..n]) + [n] else Grew(polls[..n])
  {
  }

  /** The last poll that found the file grown has seen the file as it is. */
  lemma {:induction false} LastGrowth(polls: seq<Poll>)
    requires polls != [] && Forward(polls)
    ensures
      var g := Grew(polls);
      g != [] && polls[g[|g| - 1]].size == polls[|polls| - 1].size
    decreases |polls|
  {
    hide Grew;
    GrewNext(polls);
    var n := |polls| - 1;
    if n > 0 && polls[n].size <= polls[n - 1].size {
      assert polls[n - 1].size <= polls[n].size;
      LastGrowth(polls[..n]);
      var g := Grew(polls[..n]);
      assert polls[..n][g[|g| - 1]] == polls[g[|g| - 1]];
    }
  }

  /** The markers are exactly the polls that found the file grown, with their own times, less the oldest. */
  lemma {:induction false} MarkersAreGrowths(polls: seq<Poll>)
    requires Forward(polls)
    ensures
      var g := Grew(polls);
      AfterPolls([], polls) == MarkersAt(polls, g)[Dropped(|g|)..]
    decreases |polls|
  {
    hide Grew, Recorded, AfterPolls, MarkersAt, Forward, Dropped, Growth;
    if polls == [] {
      NoPolls();
    } else {
      FrontForward(polls);
      MarkersAreGrowths(polls[..|polls| - 1]);
      if |polls| == 1 {
        FirstPoll(polls);
      } else {
        GrowthStep(polls);
      }
    }
  }

  lemma FirstPoll(polls: seq<Poll>)
    requires |polls| == 1
    ensures Grew(polls) == [0] && AfterPolls([], polls) == MarkersAt(polls, [0])[Dropped(1)..]
  {
    NoPolls();
    RecordsFirst(polls[0].size, polls[0].now);
    AfterOneMore([], [], polls[0]);
    assert polls == [] + [polls[0]] && polls[..0] == [];
    hide AfterPolls, Recorded;
    assert MarkersAt(polls, [0]) == [Marker(polls[0].size, polls[0].now)];
  }

  lemma GrowthStep(polls: seq<Poll>)
    requires |polls| > 1 && Forward(polls)
    requires
      var front := polls[..|polls| - 1];
      AfterPolls([], front) == MarkersAt(front, Grew(front))[Dropped(|Grew(front)|)..]
    ensures AfterPolls([], polls) == MarkersAt(polls, Grew(polls))[Dropped(|Grew(polls)|)..]
  {
    hide Grew, Recorded, AfterPolls, MarkersAt, Forward, Dropped;
    var n := |polls| - 1;
    var front, p := polls[..n], polls[n];
    assert polls == front + [p];
    FrontForward(polls);
    AfterOneMore([], front, p);
    GrewNext(polls);
    LastGrowth(front);
    var g := Grew(front);
    SameMarkers(polls, g);
    MarkersShape(polls, g);
    assert front[g[|g| - 1]] == polls[g[|g| - 1]];
    OneMoreMarker(MarkersAt(polls, g), p.size, p.now);
  }

  lemma FrontForward(polls: seq<Poll>)
    requires polls != [] && Forward(polls)
    ensures
      var n := |polls| - 1;
      Forward(polls[..n]) && (n > 0 ==> polls[..n][n - 1].size <= polls[n].size && polls[..n][n - 1] == polls[n - 1])
  {
  }

  /** Only the polls before it matter to the markers before a poll. */
  lemma SameMarkers(polls: seq<Poll>, g: seq<nat>)
    requires polls != [] && forall i :: 0 <= i < |g| ==> g[i] < |polls| - 1
    ensures
      var n := |polls| - 1;
      && MarkersAt(polls[..n], g) == MarkersAt(polls, g)
      && MarkersAt(polls, g + [n]) == MarkersAt(polls, g) + [Marker(polls[n].size, polls[n].now)]
  {
  }

  lemma MarkersShape(polls: seq<Poll>, g: seq<nat>)
    requires g != [] && forall i :: 0 <= i < |g| ==> g[i] < |polls|
    ensures MarkersAt(polls, g)[|g| - 1].size == polls[g[|g| - 1]].size
  {
  }

  lemma NoPolls()
    ensures Grew([]) == [] && AfterPolls([], []) == [] && MarkersAt([], [])[Dropped(0)..] == []
  {
  }

  lemma RecordsFirst(size: nat, now: int)
    ensures Recorded([], size, now) == [Marker(size, now)]
  {
  }

  lemma OneMoreMarker(all: seq<Marker>, size: nat, now: int)
    requires all != [] && all[|all| - 1].size <= size
    ensures
      var ms := all[Dropped(|all|)..];
      Recorded(ms, size, now)
      == if size > all[|all| - 1].size then (all + [Marker(size, now)])[Dropped(|all| + 1)..] else ms
  {
    var ms := all[Dropped(|all|)..];
    assert ms != [] && ms[|ms| - 1] == all[|all| - 1];
    var longer := ms + [Marker(size, now)];
    assert longer == (all + [Marker(size, now)])[Dropped(|all|)..];
  }

  /** The first poll whose size reached the offset. */
  ghost predicate FirstToSee(polls: seq<Poll>, offset: nat, j: nat) {
    j < |polls| && offset <= polls[j].size && forall i :: 0 <= i < j ==> polls[i].size < offset
  }

  /**
    However often a growing log is polled, what ends at `offset` shows the time
    of the first poll that had seen it; once two hundred later polls have found
    the file grown, that of the oldest of those.
   */
  lemma StampIsFirstPoll(polls: seq<Poll>, offset: nat, j: nat)
    requires Forward(polls) && FirstToSee(polls, offset, j)
    ensures
      var g := Grew(polls);
      && AfterPolls([], polls) != [] && j in g
      && var oldest := g[Dropped(|g|)];
         StampFor(AfterPolls([], polls), offset) == polls[if j < oldest then oldest else j].now
  {
    hide AfterPolls, Grew, Forward, StampFor;
    var g := Grew(polls);
    MarkersAreGrowths(polls);
    FirstToSeeGrew(polls, offset, j);
    var at :| 0 <= at < |g| && g[at] == j;
    Positions(polls, g, offset, j, at);
    var d := Dropped(|g|);
    TailStamp(MarkersAt(polls, g), d, at, offset);
    assert at < d ==> g[at] < g[d];
    assert d < at ==> g[d] < g[at];
  }

  lemma FirstToSeeGrew(polls: seq<Poll>, offset: nat, j: nat)
    requires FirstToSee(polls, offset, j)
    ensures j in Grew(polls)
  {
    assert j > 0 ==> polls[j - 1].size < offset;
    GrewExactly(polls, j);
  }

  lemma TailStamp(all: seq<Marker>, d: nat, at: nat, offset: nat)
    requires at < |all| && d < |all|
    requires forall i :: 0 <= i < at ==> all[i].size < offset
    requires forall i :: at <= i < |all| ==> all[i].size >= offset
    ensures StampFor(all[d..], offset) == all[if at < d then d else at].time
  {
    var ms := all[d..];
    var k := FirstCovering(ms, offset);
    var want := if at < d then 0 else at - d;
    assert ms[want] == all[if at < d then d else at];
    assert forall i :: 0 <= i < want ==> ms[i] == all[d + i] && ms[i].size < offset;
    assert k == want;
  }

  lemma Positions(polls: seq<Poll>, g: seq<nat>, offset: nat, j: nat, at: nat)
    requires Forward(polls) && FirstToSee(polls, offset, j)
    requires (forall i :: 0 <= i < |g| ==> g[i] < |polls|) && forall i, k :: 0 <= i < k < |g| ==> g[i] < g[k]
    requires at < |g| && g[at] == j
    ensures forall i :: 0 <= i < at ==> MarkersAt(polls, g)[i].size < offset
    ensures forall i :: at <= i < |g| ==> MarkersAt(polls, g)[i].size >= offset
  {
    forall i | at <= i < |g| ensures MarkersAt(polls, g)[i].size >= offset {
      assert i > at ==> g[at] < g[i];
    }
    forall i | 0 <= i < at ensures MarkersAt(polls, g)[i].size < offset {
      assert g[i] < g[at];
    }
  }

  /** A line is shown without its line end; it gets no stamp exactly when it is empty or bears a date of its own. */
  lemma ShownLine(dated: string -> bool, es: seq<string>, i: nat, ms: seq<Marker>, line: string, end: string)
    requires i < |es| && ms != [] && es[i] == line + end && (end == "" || end == "\n" || end == "\r\n")
    requires line != "" ==> line[|line| - 1] != '\n' && line[|line| - 1] != '\r'
    ensures
      var shown := ShowEntry(dated, es, i, ms);
      && shown.line == line
      && (shown.Plain? <==> line == "" || dated(line))
      && (shown.Stamped? ==> shown.time == StampFor(ms, OffsetOf(es, i + 1)))
  {
    hide OffsetOf, StampFor;
    TrimmedEnd(line, end);
  }

  lemma TrimmedEnd(line: string, end: string)
    requires end == "" || end == "\n" || end == "\r\n"
    requires line != "" ==> line[|line| - 1] != '\n' && line[|line| - 1] != '\r'
    ensures TrimRight(TrimRight(line + end, IsLineFeed), IsReturn) == line
  {
    assert IsLineFeed('\n') && IsReturn('\r');
    KeptRight(line, IsLineFeed);
    KeptRight(line, IsReturn);
    if end == "" {
      assert line + end == line;
    } else if end == "\n" {
      CutRight(line, '\n', IsLineFeed);
      assert line + end == line + ['\n'];
    } else {
      CutRight(line + ['\r'], '\n', IsLineFeed);
      KeptRight(line + ['\r'], IsLineFeed);
      CutRight(line, '\r', IsReturn);
      assert line + end == line + ['\r'] + ['\n'];
    }
  }

  lemma KeptRight(s: string, p: char -> bool)
    requires s == "" || !p(s[|s| - 1])
    ensures TrimRight(s, p) == s
  {
  }

  lemma CutRight(s: string, ch: char, p: char -> bool)
    requires p(ch)
    ensures TrimRight(s + [ch], p) == TrimRight(s, p)
  {
    assert (s + [ch])[..|s|] == s;
  }
}
