/** The segmenter: it collapses a tempo curve (parallel sequences of times and
    tempos) into maximal runs whose tempos agree once rounded to two decimals. */
module Segmenter {
  import opened Rounding

  /** One constant-tempo region: `[start, end]` in session time, and the
      unrounded tempo of the sample that opened it. */
  datatype Segment = Segment(start: real, end: real, tempo: real)

  /** The curve's tempos rounded to two decimals: the values the scan compares. */
  function Rounded(tempos: seq<real>): (keys: seq<real>)
    ensures |keys| == |tempos|
    ensures forall i :: 0 <= i < |tempos| ==> keys[i] == Round2(tempos[i])
  {
    seq(|tempos|, i requires 0 <= i < |tempos| => Round2(tempos[i]))
  }

  /** The number of `(time, tempo)` pairs visited: `zip` stops at the shorter sequence. */
  function Paired(times: seq<real>, tempos: seq<real>): (n: nat)
    ensures n <= |times| && n <= |tempos|
    ensures n == |times| || n == |tempos|
  {
    if |times| < |tempos| then |times| else |tempos|
  }

  /** The values never decrease. */
  ghost predicate Sorted(s: seq<real>) {
    forall i, j :: 0 <= i <= j < |s| ==> s[i] <= s[j]
  }

  /** The indices of the samples that open a run, among the first `n` samples,
      as the scan finds them: a sample opens a run when its rounded tempo
      differs from the rounded tempo of the sample that opened the current run. */
  function RunStarts(keys: seq<real>, n: nat): (s: seq<nat>)
    requires 0 < n <= |keys|
    ensures 0 < |s| <= n && s[0] == 0
    ensures forall k :: 0 <= k < |s| ==> s[k] < n
    decreases n
  {
    if n == 1 then [0]
    else
      var prev := RunStarts(keys, n - 1);
      if keys[prev[|prev| - 1]] == keys[n - 1] then prev else prev + [n - 1]
  }

  /** One past the last sample of run `k`. */
  function RunEnd(s: seq<nat>, k: nat, n: nat): nat
    requires k < |s|
  {
    if k + 1 < |s| then s[k + 1] else n
  }

  /** `s` cuts the first `n` samples into maximal runs: it starts at 0, it is
      strictly increasing, every sample of a run rounds like the sample that
      opens it, and the openers of adjacent runs round differently. */
  ghost predicate IsRuns(keys: seq<real>, n: nat, s: seq<nat>)
    requires n <= |keys|
  {
    && |s| > 0 && s[0] == 0
    && (forall k :: 0 <= k < |s| ==> s[k] < n)
    && (forall j, k :: 0 <= j < k < |s| ==> s[j] < s[k])
    && (forall k, i {:trigger keys[i], RunEnd(s, k, n)} ::
          0 <= k < |s| && s[k] <= i < RunEnd(s, k, n) ==> keys[s[k]] == keys[i])
    && (forall j, k :: 0 <= j && j + 1 == k < |s| ==> keys[s[j]] != keys[s[k]])
  }

  /** The segments the scan builds from the run openers `s`: each run spans from
      its opener's time to the next opener's time, the last one to the last time
      of the curve, all shifted by `offset`; each carries its opener's tempo. */
  function SegmentsFor(times: seq<real>, tempos: seq<real>, offset: real, s: seq<nat>): (r: seq<Segment>)
    requires |times| > 0
    requires forall k :: 0 <= k < |s| ==> s[k] < |times| && s[k] < |tempos|
    ensures |r| == |s|
  {
    seq(|s|, k requires 0 <= k < |s| =>
      Segment(times[s[k]] + offset,
              (if k + 1 < |s| then times[s[k + 1]] else times[|times| - 1]) + offset,
              tempos[s[k]]))
  }

  /** A sample that rounds like the opener of the last run extends that run. */
  lemma ExtendLastRun(keys: seq<real>, n: nat, s: seq<nat>)
    requires 0 < n < |keys|
    requires IsRuns(keys, n, s)
    requires keys[s[|s| - 1]] == keys[n]
    ensures IsRuns(keys, n + 1, s)
  {
    var L := |s| - 1;
    forall k, i | 0 <= k < |s| && s[k] <= i < RunEnd(s, k, n + 1)
      ensures keys[s[k]] == keys[i]
    {
      if i == n {
        assert k == L;
      } else {
        assert s[k] <= i < RunEnd(s, k, n);
      }
    }
  }

  /** A sample that rounds differently from the opener of the last run opens a new run. */
  lemma OpenRun(keys: seq<real>, n: nat, s: seq<nat>)
    requires 0 < n < |keys|
    requires IsRuns(keys, n, s)
    requires keys[s[|s| - 1]] != keys[n]
    ensures IsRuns(keys, n + 1, s + [n])
  {
    var s' := s + [n];
    var L := |s| - 1;
    forall k, i | 0 <= k < |s'| && s'[k] <= i < RunEnd(s', k, n + 1)
      ensures keys[s'[k]] == keys[i]
    {
      if k <= L {
        assert s'[k] == s[k] && RunEnd(s', k, n + 1) == RunEnd(s, k, n);
      }
    }
    forall j, k | 0 <= j && j + 1 == k < |s'| ensures keys[s'[j]] != keys[s'[k]] {
      if k <= L {
        assert s'[j] == s[j] && s'[k] == s[k];
      }
    }
  }

  /** The openers the scan finds do cut the curve into maximal runs. */
  lemma {:induction false} RunStartsAreRuns(keys: seq<real>, n: nat)
    requires 0 < n <= |keys|
    ensures IsRuns(keys, n, RunStarts(keys, n))
    decreases n
  {
    if n > 1 {
      var prev := RunStarts(keys, n - 1);
      RunStartsAreRuns(keys, n - 1);
      if keys[prev[|prev| - 1]] == keys[n - 1] {
        assert RunStarts(keys, n) == prev;
        ExtendLastRun(keys, n - 1, prev);
      } else {
        assert RunStarts(keys, n) == prev + [n - 1];
        OpenRun(keys, n - 1, prev);
      }
    }
  }

  /** Forgetting the last sample, when it opened a run of its own, drops that run. */
  lemma DropLastRun(keys: seq<real>, n: nat, s: seq<nat>)
    requires 1 < n <= |keys|
    requires IsRuns(keys, n, s)
    requires s[|s| - 1] == n - 1
    ensures |s| > 1
    ensures IsRuns(keys, n - 1, s[..|s| - 1])
  {
    var L := |s| - 1;
    var front := s[..L];
    forall k, i | 0 <= k < |front| && front[k] <= i < RunEnd(front, k, n - 1)
      ensures keys[front[k]] == keys[i]
    {
      assert RunEnd(front, k, n - 1) == RunEnd(s, k, n);
    }
    forall k | 0 <= k < |front| ensures front[k] < n - 1 {
      assert s[k] < s[L];
    }
  }

  /** Forgetting the last sample, when it did not open a run, shortens the last run. */
  lemma ShortenLastRun(keys: seq<real>, n: nat, s: seq<nat>)
    requires 1 < n <= |keys|
    requires IsRuns(keys, n, s)
    requires s[|s| - 1] != n - 1
    ensures IsRuns(keys, n - 1, s)
    ensures keys[s[|s| - 1]] == keys[n - 1]
  {
    var L := |s| - 1;
    forall k | 0 <= k < |s| ensures s[k] < n - 1 {
      if k < L { assert s[k] < s[L]; }
    }
    forall k, i | 0 <= k < |s| && s[k] <= i < RunEnd(s, k, n - 1)
      ensures keys[s[k]] == keys[i]
    {
      assert s[k] <= i < RunEnd(s, k, n);
    }
    assert s[L] <= n - 1 < RunEnd(s, L, n);
  }

  /** Maximal runs are unique: any cut into maximal runs is the one the scan finds. */
  lemma {:induction false} RunsAreUnique(keys: seq<real>, n: nat, s: seq<nat>)
    requires 0 < n <= |keys|
    requires IsRuns(keys, n, s)
    ensures s == RunStarts(keys, n)
    decreases n
  {
    var L := |s| - 1;
    if n == 1 {
      if L > 0 {
        assert false;
      }
      assert s == [0];
    } else if s[L] == n - 1 {
      DropLastRun(keys, n, s);
      RunsAreUnique(keys, n - 1, s[..L]);
      assert keys[s[L - 1]] != keys[s[L]];
      assert s == s[..L] + [n - 1];
    } else {
      ShortenLastRun(keys, n, s);
      RunsAreUnique(keys, n - 1, s);
    }
  }

  /** Both directions: `s` cuts the curve into maximal runs exactly when it is
      what the scan finds. */
  lemma RunsCharacterised(keys: seq<real>, n: nat, s: seq<nat>)
    requires 0 < n <= |keys|
    ensures IsRuns(keys, n, s) <==> s == RunStarts(keys, n)
  {
    RunStartsAreRuns(keys, n);
    if IsRuns(keys, n, s) {
      RunsAreUnique(keys, n, s);
    }
  }

  /** The samples whose rounded tempo differs from the sample just before them. */
  function ChangePoints(keys: seq<real>, n: nat): seq<nat>
    requires 0 < n <= |keys|
    decreases n
  {
    if n == 1 then [0]
    else ChangePoints(keys, n - 1) + (if keys[n - 2] == keys[n - 1] then [] else [n - 1])
  }

  /** How many times the rounded tempo changes between consecutive samples. */
  function ChangeCount(keys: seq<real>, n: nat): nat
    requires 0 < n <= |keys|
    decreases n
  {
    if n == 1 then 0
    else ChangeCount(keys, n - 1) + (if keys[n - 2] == keys[n - 1] then 0 else 1)
  }

  /** Comparing each sample with the opener of its run finds the same runs as
      comparing it with the sample just before it, so there are exactly
      `1 + ChangeCount` runs. */
  lemma {:induction false} RunStartsAreChangePoints(keys: seq<real>, n: nat)
    requires 0 < n <= |keys|
    ensures RunStarts(keys, n) == ChangePoints(keys, n)
    ensures |RunStarts(keys, n)| == 1 + ChangeCount(keys, n)
    decreases n
  {
    if n > 1 {
      RunStartsAreChangePoints(keys, n - 1);
      RunStartsAreRuns(keys, n - 1);
      var prev := RunStarts(keys, n - 1);
      var L := |prev| - 1;
      assert prev[L] <= n - 2 < RunEnd(prev, L, n - 1);
      assert keys[prev[L]] == keys[n - 2];
    }
  }

  /** The scan yields a single run exactly when every sample rounds like the first. */
  lemma SingleRunIff(keys: seq<real>, n: nat)
    requires 0 < n <= |keys|
    ensures RunStarts(keys, n) == [0] <==> forall i :: 0 <= i < n ==> keys[0] == keys[i]
  {
    RunStartsAreRuns(keys, n);
    var s := RunStarts(keys, n);
    if s == [0] {
      forall i | 0 <= i < n ensures keys[0] == keys[i] {
        assert s[0] <= i < RunEnd(s, 0, n);
      }
    }
    if forall i :: 0 <= i < n ==> keys[0] == keys[i] {
      assert IsRuns(keys, n, [0]);
      RunsAreUnique(keys, n, [0]);
    }
  }

  /** What a segmentation of a tempo curve with frame times `times`, reported
      shifted by `offset`, looks like: at least one segment; the first starts
      at the first time and the last ends at the last time; each segment ends
      where the next one starts; neighbouring segments differ in rounded
      tempo; and over sorted times no segment ends before it starts. */
  ghost predicate Segmentation(times: seq<real>, offset: real, segs: seq<Segment>)
    requires |times| > 0
  {
    && |segs| >= 1
    && segs[0].start == times[0] + offset
    && segs[|segs| - 1].end == times[|times| - 1] + offset
    && (forall k :: 0 <= k < |segs| - 1 ==> segs[k].end == segs[k + 1].start)
    && (forall k :: 0 <= k < |segs| - 1 ==> Round2(segs[k].tempo) != Round2(segs[k + 1].tempo))
    && (Sorted(times) ==> forall k :: 0 <= k < |segs| ==> segs[k].start <= segs[k].end)
  }

  /** Neighbouring segments differ in rounded tempo when neighbouring openers do. */
  lemma BoundariesDiffer(times: seq<real>, tempos: seq<real>, offset: real, s: seq<nat>)
    requires |times| > 0
    requires forall k :: 0 <= k < |s| ==> s[k] < |times| && s[k] < |tempos|
    requires forall j, k :: 0 <= j && j + 1 == k < |s| ==> Round2(tempos[s[j]]) != Round2(tempos[s[k]])
    ensures var segs := SegmentsFor(times, tempos, offset, s);
      forall k :: 0 <= k < |segs| - 1 ==> Round2(segs[k].tempo) != Round2(segs[k + 1].tempo)
  {
    var segs := SegmentsFor(times, tempos, offset, s);
    forall k | 0 <= k < |segs| - 1 ensures Round2(segs[k].tempo) != Round2(segs[k + 1].tempo) {
      assert Round2(tempos[s[k]]) != Round2(tempos[s[k + 1]]);
    }
  }

  /** Over sorted times, increasing openers give segments that do not end
      before they start. */
  lemma SegmentsOrdered(times: seq<real>, tempos: seq<real>, offset: real, s: seq<nat>)
    requires |times| > 0 && Sorted(times)
    requires forall k :: 0 <= k < |s| ==> s[k] < |times| && s[k] < |tempos|
    requires forall a, b :: 0 <= a < b < |s| ==> s[a] < s[b]
    ensures var segs := SegmentsFor(times, tempos, offset, s);
      forall k :: 0 <= k < |segs| ==> segs[k].start <= segs[k].end
  {
    var segs := SegmentsFor(times, tempos, offset, s);
    forall k | 0 <= k < |segs| ensures segs[k].start <= segs[k].end {
      if k + 1 < |s| {
        assert s[k] < s[k + 1];
      }
    }
  }

  /** Cutting a curve along its runs gives a segmentation. */
  lemma SegmentsOfRuns(times: seq<real>, tempos: seq<real>, offset: real, n: nat, s: seq<nat>)
    requires 0 < n <= |tempos| && n <= |times|
    requires IsRuns(Rounded(tempos), n, s)
    ensures Segmentation(times, offset, SegmentsFor(times, tempos, offset, s))
  {
    var keys := Rounded(tempos);
    forall j, k | 0 <= j && j + 1 == k < |s| ensures Round2(tempos[s[j]]) != Round2(tempos[s[k]]) {
      assert keys[s[j]] != keys[s[k]];
    }
    BoundariesDiffer(times, tempos, offset, s);
    if Sorted(times) {
      SegmentsOrdered(times, tempos, offset, s);
    }
  }

  /** The segments of every run of `s` but the last, which is still open. */
  function ClosedSegments(times: seq<real>, tempos: seq<real>, offset: real, s: seq<nat>): (r: seq<Segment>)
    requires |s| > 0
    requires forall k :: 0 <= k < |s| ==> s[k] < |times| && s[k] < |tempos|
    ensures |r| == |s| - 1
  {
    seq(|s| - 1, k requires 0 <= k < |s| - 1 =>
      Segment(times[s[k]] + offset, times[s[k + 1]] + offset, tempos[s[k]]))
  }

  /** Opening a run at sample `i` closes the run before it at `times[i]`. */
  lemma CloseRunAt(times: seq<real>, tempos: seq<real>, offset: real, s: seq<nat>, i: nat)
    requires |s| > 0 && i < |times| && i < |tempos|
    requires forall k :: 0 <= k < |s| ==> s[k] < |times| && s[k] < |tempos|
    ensures ClosedSegments(times, tempos, offset, s + [i])
      == ClosedSegments(times, tempos, offset, s) + [Segment(times[s[|s| - 1]] + offset, times[i] + offset, tempos[s[|s| - 1]])]
  {
    var s' := s + [i];
    assert forall k :: 0 <= k < |s| ==> s'[k] == s[k];
  }

  /** Closing the last run at the curve's last time completes the segments of `s`. */
  lemma CloseLastRun(times: seq<real>, tempos: seq<real>, offset: real, s: seq<nat>)
    requires |times| > 0 && |s| > 0
    requires forall k :: 0 <= k < |s| ==> s[k] < |times| && s[k] < |tempos|
    ensures ClosedSegments(times, tempos, offset, s)
        + [Segment(times[s[|s| - 1]] + offset, times[|times| - 1] + offset, tempos[s[|s| - 1]])]
      == SegmentsFor(times, tempos, offset, s)
  {
  }

  /** The segments `segmentize` returns for a curve: those of the runs the scan
      finds among the paired samples. They form a segmentation of the curve. */
  function ScanSegments(times: seq<real>, tempos: seq<real>, offset: real): (r: seq<Segment>)
    requires |times| > 0 && |tempos| > 0
    ensures Segmentation(times, offset, r)
  {
    var n := Paired(times, tempos);
    RunStartsAreRuns(Rounded(tempos), n);
    SegmentsOfRuns(times, tempos, offset, n, RunStarts(Rounded(tempos), n));
    SegmentsFor(times, tempos, offset, RunStarts(Rounded(tempos), n))
  }

  /** The segments the scan has closed after its first `i` samples. */
  function ClosedAfter(times: seq<real>, tempos: seq<real>, offset: real, i: nat): seq<Segment>
    requires 0 < i <= |times| && i <= |tempos|
  {
    ClosedSegments(times, tempos, offset, RunStarts(Rounded(tempos), i))
  }

  /** The sample that opened the run still open after the scan's first `i` samples. */
  function OpenerAfter(tempos: seq<real>, i: nat): (j: nat)
    requires 0 < i <= |tempos|
    ensures j < i
  {
    var s := RunStarts(Rounded(tempos), i);
    s[|s| - 1]
  }

  /** The scan's state after its first `i` samples: the closed segments, and
      the time and unrounded tempo of the sample that opened the open run. */
  ghost predicate ScannedUpTo(times: seq<real>, tempos: seq<real>, offset: real, i: nat,
                              segments: seq<Segment>, start: real, currTempo: real)
    requires 0 < i <= |times| && i <= |tempos|
  {
    && segments == ClosedAfter(times, tempos, offset, i)
    && start == times[OpenerAfter(tempos, i)]
    && currTempo == tempos[OpenerAfter(tempos, i)]
  }

  /** A sample that rounds unlike the open run closes it and opens a new one. */
  lemma ScanClose(times: seq<real>, tempos: seq<real>, offset: real, i: nat,
                  segments: seq<Segment>, start: real, currTempo: real)
    requires 0 < i < |times| && i < |tempos|
    requires ScannedUpTo(times, tempos, offset, i, segments, start, currTempo)
    requires Round2(currTempo) != Round2(tempos[i])
    ensures ScannedUpTo(times, tempos, offset, i + 1,
                        segments + [Segment(start + offset, times[i] + offset, currTempo)], times[i], tempos[i])
  {
    var prev := RunStarts(Rounded(tempos), i);
    assert RunStarts(Rounded(tempos), i + 1) == prev + [i];
    CloseRunAt(times, tempos, offset, prev, i);
  }

  /** A sample that rounds like the open run extends it. */
  lemma ScanKeep(times: seq<real>, tempos: seq<real>, offset: real, i: nat,
                 segments: seq<Segment>, start: real, currTempo: real)
    requires 0 < i < |times| && i < |tempos|
    requires ScannedUpTo(times, tempos, offset, i, segments, start, currTempo)
    requires Round2(currTempo) == Round2(tempos[i])
    ensures ScannedUpTo(times, tempos, offset, i + 1, segments, start, currTempo)
  {
  }

  /** After the last paired sample, closing the open run at the curve's last
      time gives the segments of the runs the scan finds. */
  lemma FinishScan(times: seq<real>, tempos: seq<real>, offset: real,
                   segments: seq<Segment>, start: real, currTempo: real)
    requires |times| > 0 && |tempos| > 0
    requires ScannedUpTo(times, tempos, offset, Paired(times, tempos), segments, start, currTempo)
    ensures segments + [Segment(start + offset, times[|times| - 1] + offset, currTempo)]
      == ScanSegments(times, tempos, offset)
  {
    CloseLastRun(times, tempos, offset, RunStarts(Rounded(tempos), Paired(times, tempos)));
  }

  /** There is one segment more than there are changes of rounded tempo
      between consecutive paired samples. */
  lemma SegmentCount(times: seq<real>, tempos: seq<real>, offset: real)
    requires |times| > 0 && |tempos| > 0
    ensures |ScanSegments(times, tempos, offset)| == 1 + ChangeCount(Rounded(tempos), Paired(times, tempos))
  {
    RunStartsAreChangePoints(Rounded(tempos), Paired(times, tempos));
  }

  /** The scan yields a single segment exactly when every paired sample rounds
      like the first. */
  lemma SingleSegmentIff(times: seq<real>, tempos: seq<real>, offset: real)
    requires |times| > 0 && |tempos| > 0
    ensures |ScanSegments(times, tempos, offset)| == 1
      <==> forall i :: 0 <= i < Paired(times, tempos) ==> Round2(tempos[0]) == Round2(tempos[i])
  {
    var n := Paired(times, tempos);
    var keys := Rounded(tempos);
    SingleRunIff(keys, n);
    assert (forall i :: 0 <= i < n ==> keys[0] == keys[i])
      <==> (forall i :: 0 <= i < n ==> Round2(tempos[0]) == Round2(tempos[i]));
    var s := RunStarts(keys, n);
    assert |s| == 1 ==> s == [0];
  }

  /** Segment `k` starts at the time of the sample that opens run `k` and stores
      that sample's unrounded tempo, and every sample of the run rounds like it. */
  lemma SegmentTempos(times: seq<real>, tempos: seq<real>, offset: real)
    requires |times| > 0 && |tempos| > 0
    ensures var n := Paired(times, tempos);
      var s := RunStarts(Rounded(tempos), n);
      var segs := ScanSegments(times, tempos, offset);
      && |segs| == |s|
      && (forall k :: 0 <= k < |s| ==> segs[k].start == times[s[k]] + offset && segs[k].tempo == tempos[s[k]])
      && (forall k, i :: 0 <= k < |s| && s[k] <= i < RunEnd(s, k, n) ==> Round2(tempos[i]) == Round2(segs[k].tempo))
  {
    var n := Paired(times, tempos);
    var keys := Rounded(tempos);
    var s := RunStarts(keys, n);
    RunStartsAreRuns(keys, n);
    forall k, i | 0 <= k < |s| && s[k] <= i < RunEnd(s, k, n) ensures Round2(tempos[i]) == Round2(tempos[s[k]]) {
      assert keys[s[k]] == keys[i];
    }
  }

  /** `Tempos.segmentize`: one pass over the paired (time, tempo) samples after
      the first, closing the open run whenever the rounded tempo changes, then
      closing the last run at the last frame time. */
  method Segmentize(times: seq<real>, tempos: seq<real>, offset: real) returns (segments: seq<Segment>)
    requires |times| > 0 && |tempos| > 0
    ensures segments == ScanSegments(times, tempos, offset)
    ensures Segmentation(times, offset, segments)
  {
    var n := Paired(times, tempos);
    segments := [];
    var start := times[0];
    var currTempo := tempos[0];
    var i := 1;
    while i < n
      invariant 1 <= i <= n
      invariant ScannedUpTo(times, tempos, offset, i, segments, start, currTempo)
    {
      var time, tempo := times[i], tempos[i];
      if Round2(currTempo) != Round2(tempo) {
        ScanClose(times, tempos, offset, i, segments, start, currTempo);
        segments := segments + [Segment(start + offset, time + offset, currTempo)];
        start := time;
        currTempo := tempo;
      } else {
        ScanKeep(times, tempos, offset, i, segments, start, currTempo);
      }
      i := i + 1;
    }
    FinishScan(times, tempos, offset, segments, start, currTempo);
    segments := segments + [Segment(start + offset, times[|times| - 1] + offset, currTempo)];
  }

  /** The run that sample `i` falls in: the last opener at or before it. */
  function RunOf(s: seq<nat>, i: nat): (k: nat)
    requires |s| > 0
    ensures k < |s|
    decreases |s|
  {
    if |s| == 1 || s[|s| - 1] <= i then |s| - 1 else RunOf(s[..|s| - 1], i)
  }

  /** A sample between the opener of run `k` and the next opener lies in run `k`. */
  lemma {:induction false} RunOfSample(s: seq<nat>, n: nat, k: nat, i: nat)
    requires k < |s|
    requires forall a, b :: 0 <= a < b < |s| ==> s[a] < s[b]
    requires s[k] <= i < RunEnd(s, k, n)
    ensures RunOf(s, i) == k
    decreases |s|
  {
    var L := |s| - 1;
    if k < L {
      assert s[k + 1] <= s[L];
      RunOfSample(s[..L], s[L], k, i);
    }
  }

  /** The first `n` samples rebuilt from the openers `s`: each takes the
      unrounded tempo of the opener of its run. */
  function Rebuild(tempos: seq<real>, s: seq<nat>, n: nat): (r: seq<real>)
    requires |s| > 0 && n <= |tempos|
    requires forall k :: 0 <= k < |s| ==> s[k] < n
    ensures |r| == n
  {
    seq(n, i requires 0 <= i < n => tempos[s[RunOf(s, i)]])
  }

  /** Every sample of a rebuilt run holds its opener's tempo. */
  lemma RebuildSamples(tempos: seq<real>, s: seq<nat>, n: nat)
    requires |s| > 0 && n <= |tempos|
    requires forall k :: 0 <= k < |s| ==> s[k] < n
    requires forall a, b :: 0 <= a < b < |s| ==> s[a] < s[b]
    ensures forall k, i :: 0 <= k < |s| && s[k] <= i < RunEnd(s, k, n) ==> Rebuild(tempos, s, n)[i] == tempos[s[k]]
  {
    forall k, i | 0 <= k < |s| && s[k] <= i < RunEnd(s, k, n) ensures Rebuild(tempos, s, n)[i] == tempos[s[k]] {
      RunOfSample(s, n, k, i);
    }
  }

  /** The runs of a curve are also the runs of the curve rebuilt from them. */
  lemma RebuildRuns(tempos: seq<real>, n: nat, s: seq<nat>)
    requires n <= |tempos|
    requires IsRuns(Rounded(tempos), n, s)
    ensures IsRuns(Rounded(Rebuild(tempos, s, n)), n, s)
  {
    var keys := Rounded(tempos);
    var again := Rebuild(tempos, s, n);
    var keys' := Rounded(again);
    RebuildSamples(tempos, s, n);
    forall k, i | 0 <= k < |s| && s[k] <= i < RunEnd(s, k, n) ensures keys'[i] == keys[s[k]] {
      assert again[i] == tempos[s[k]];
    }
    forall k | 0 <= k < |s| ensures keys'[s[k]] == keys[s[k]] {
      assert s[k] <= s[k] < RunEnd(s, k, n);
    }
  }

  /** Segments depend on the tempos only at the openers. */
  lemma SegmentsAtOpeners(times: seq<real>, a: seq<real>, b: seq<real>, offset: real, s: seq<nat>)
    requires |times| > 0
    requires forall k :: 0 <= k < |s| ==> s[k] < |times| && s[k] < |a| && s[k] < |b| && a[s[k]] == b[s[k]]
    ensures SegmentsFor(times, a, offset, s) == SegmentsFor(times, b, offset, s)
  {
  }

  /** The curve rebuilt from its segments: every paired sample takes the
      unrounded tempo of the segment it falls in. */
  function Reconstructed(times: seq<real>, tempos: seq<real>): (r: seq<real>)
    requires |times| > 0 && |tempos| > 0
    ensures |r| == Paired(times, tempos)
  {
    Rebuild(tempos, RunStarts(Rounded(tempos), Paired(times, tempos)), Paired(times, tempos))
  }

  /** Segmenting again the curve rebuilt from the segments gives the same segments. */
  lemma ResegmentIsIdentity(times: seq<real>, tempos: seq<real>, offset: real)
    requires |times| > 0 && |tempos| > 0
    ensures |Reconstructed(times, tempos)| > 0
    ensures ScanSegments(times, Reconstructed(times, tempos), offset) == ScanSegments(times, tempos, offset)
  {
    var n := Paired(times, tempos);
    var s := RunStarts(Rounded(tempos), n);
    var again := Rebuild(tempos, s, n);
    RunStartsAreRuns(Rounded(tempos), n);
    RebuildRuns(tempos, n, s);
    RunsAreUnique(Rounded(again), n, s);
    assert Paired(times, again) == n;
    RebuildSamples(tempos, s, n);
    forall k | 0 <= k < |s| ensures again[s[k]] == tempos[s[k]] {
      assert s[k] <= s[k] < RunEnd(s, k, n);
    }
    SegmentsAtOpeners(times, again, tempos, offset, s);
  }
}
