/** The analysis session of `src/tempos.py`: a `Tempos` object loads a
    recording, cuts it to the requested window, estimates a static tempo and a
    tempo curve with a two-pass seed, segments the curve and mixes a click track
    into the analysed audio. The librosa calls it makes are parameters. */
module Tempos {
  import opened Rounding
  import opened Segmenter
  import opened Mixer

  datatype Option<T> = None | Some(value: T)

  /** What `librosa.beat.beat_track(..., units="time")` returns: a tempo
      estimate and the beat times in seconds. */
  datatype BeatTrack = BeatTrack(tempo: real, beats: seq<real>)

  /** The librosa calls the session makes, left uninterpreted. Arguments are
      in the order of the keyword arguments at the call sites:
      - `getDuration(y, sr)`;
      - `timeToSamples(t, sr)`;
      - `beatTrack(y, sr, hop_length, start_bpm, tightness, trim)`;
      - `tempo(y, sr, hop_length, std_bpm, start_bpm, ac_size, max_tempo)`, with no aggregation;
      - `beatTrackWithBpm(y, sr, hop_length, start_bpm, bpm, trim, tightness)`;
      - `clicks(times, sr, hop_length, click_freq, click_duration, length)`. */
  datatype Librosa = Librosa(
    getDuration: (seq<real>, nat) -> real,
    timeToSamples: (real, nat) -> int,
    beatTrack: (seq<real>, nat, nat, real, real, bool) -> BeatTrack,
    tempo: (seq<real>, nat, nat, real, real, real, real) -> seq<real>,
    beatTrackWithBpm: (seq<real>, nat, nat, real, seq<real>, bool, real) -> BeatTrack,
    clicks: (seq<real>, nat, nat, real, real, nat) -> seq<real>)

  /** What the model assumes of librosa: the unaggregated tempo curve has at
      least one frame, and `clicks` returns exactly the requested length. */
  ghost predicate Honours(lib: Librosa) {
    && (forall y, sr, hop, std, seed, ac, top :: |lib.tempo(y, sr, hop, std, seed, ac, top)| > 0)
    && (forall times, sr, hop, freq, duration, length ::
          |lib.clicks(times, sr, hop, freq, duration, length)| == length)
  }

  /** The window end: `end == 0` or `end is None` stands for the whole duration. */
  function ResolveEnd(end: Option<real>, duration: real): (e: real)
    ensures end == None || end == Some(0.0) ==> e == duration
    ensures end.Some? && end.value != 0.0 ==> e == end.value
  {
    if end == None || end == Some(0.0) then duration else end.value
  }

  /** A Python slice bound: a negative index counts from the end, and indices
      outside the sequence are clamped to it. */
  function SliceIndex(i: int, n: nat): (j: nat)
    ensures j <= n
    ensures 0 <= i <= n ==> j == i
    ensures -(n as int) <= i < 0 ==> j == i + n
    ensures i > n ==> j == n
    ensures i < -(n as int) ==> j == 0
  {
    if i < 0 then (if i + n < 0 then 0 else i + n) else if i > n then n else i
  }

  /** Python's `s[lo:hi]`. */
  function PySlice(s: seq<real>, lo: int, hi: int): (r: seq<real>)
    ensures |r| <= |s|
    ensures SliceIndex(lo, |s|) + |r| <= |s|
    ensures r == s[SliceIndex(lo, |s|)..SliceIndex(lo, |s|) + |r|]
    ensures |r| == if SliceIndex(lo, |s|) < SliceIndex(hi, |s|) then SliceIndex(hi, |s|) - SliceIndex(lo, |s|) else 0
  {
    var a, b := SliceIndex(lo, |s|), SliceIndex(hi, |s|);
    if a < b then s[a..b] else []
  }

  /** A negative bound counts from the end: a window starting one sample
      before the end keeps the last sample, and one ending one sample before
      the end drops it. A window whose start lies after its end is empty,
      with no error. */
  lemma SliceNegativeAndInverted(s: seq<real>)
    requires |s| > 0
    ensures PySlice(s, -1, |s|) == [s[|s| - 1]]
    ensures PySlice(s, 0, -1) == s[..|s| - 1]
    ensures forall lo, hi :: 0 <= hi <= lo ==> PySlice(s, lo, hi) == []
  {
  }

  /** A window from sample 0 to at least the last sample keeps the whole buffer. */
  lemma SliceWhole(s: seq<real>, hi: int)
    requires hi >= |s|
    ensures PySlice(s, 0, hi) == s
  {
  }

  /** Two adjacent in-range slices make up the slice that spans them both. */
  lemma SliceConcat(s: seq<real>, lo: int, mid: int, hi: int)
    requires 0 <= lo <= mid <= hi <= |s|
    ensures PySlice(s, lo, mid) + PySlice(s, mid, hi) == PySlice(s, lo, hi)
  {
  }

  /** `librosa.times_like`: the time of frame `k` is `k * hop_length / sr`. */
  function TimesLike(n: nat, sr: nat, hop: nat): (r: seq<real>)
    requires sr > 0
    ensures |r| == n
    ensures n > 0 ==> r[0] == 0.0
    ensures forall k :: 0 <= k < n - 1 ==> r[k + 1] - r[k] == hop as real / sr as real
  {
    seq(n, k requires 0 <= k < n => (k * hop) as real / sr as real)
  }

  /** Frame times are non-decreasing. */
  lemma TimesLikeSorted(n: nat, sr: nat, hop: nat)
    requires sr > 0
    ensures Sorted(TimesLike(n, sr, hop))
  {
    var r := TimesLike(n, sr, hop);
    forall i, j | 0 <= i <= j < n ensures r[i] <= r[j] {
      assert i * hop <= j * hop by {
        assert (j - i) * hop >= 0;
      }
    }
  }

  /** Every time moved by `offset`. */
  function Shift(times: seq<real>, offset: real): (r: seq<real>)
    ensures |r| == |times|
    ensures forall k :: 0 <= k < |times| ==> r[k] - offset == times[k]
  {
    seq(|times|, k requires 0 <= k < |times| => times[k] + offset)
  }

  /** Shifting keeps the order of the times. */
  lemma ShiftSorted(times: seq<real>, offset: real)
    requires Sorted(times)
    ensures Sorted(Shift(times, offset))
  {
  }

  /** One analysis session over a decoded recording. The constructor sets
      every field once and nothing changes them afterwards. */
  class Tempos {
    const lib: Librosa
    const startBpm: real
    const stdBpm: real
    const maxBpm: real
    const tightness: real
    const hopLength: nat
    const acSize: real
    const trim: bool
    const y: seq<real>
    const sr: nat
    const start: real
    const end: real
    const staticTempo: real
    const beatTimes: seq<real>
    const tempoDynamic: seq<real>
    const tempoTimes: seq<real>
    const beatsTimeDynamic: seq<real>
    const tempoDynamicPlot: (seq<real>, seq<real>)
    const segments: seq<Segment>

    /** Runs the pipeline: `decoded` and `rate` are what `librosa.load` gave
        for the file. The seed of the second pass, of the tempo curve and of
        the dynamic beats is the rounded first-pass estimate when
        `startBpmAuto` holds, and the caller's `startBpm` otherwise. */
    constructor (lib: Librosa, decoded: seq<real>, rate: nat, start: real, end: Option<real>,
                 startBpm: real, stdBpm: real, maxBpm: real, tightness: real, hopLength: nat,
                 acSize: real, trim: bool, startBpmAuto: bool)
      requires Honours(lib) && rate > 0
      ensures this.lib == lib && this.sr == rate && this.start == start
      ensures this.stdBpm == stdBpm && this.maxBpm == maxBpm && this.tightness == tightness
      ensures this.hopLength == hopLength && this.acSize == acSize && this.trim == trim
      ensures this.end == ResolveEnd(end, lib.getDuration(decoded, rate))
      ensures y == PySlice(decoded, lib.timeToSamples(start, rate), lib.timeToSamples(this.end, rate))
      ensures startBpmAuto ==> this.startBpm == Round2(lib.beatTrack(y, rate, hopLength, startBpm, tightness, trim).tempo)
      ensures !startBpmAuto ==> this.startBpm == startBpm
      ensures staticTempo == Round2(lib.beatTrack(y, rate, hopLength, this.startBpm, tightness, trim).tempo)
      ensures beatTimes == lib.beatTrack(y, rate, hopLength, this.startBpm, tightness, trim).beats
      ensures tempoDynamic == lib.tempo(y, rate, hopLength, stdBpm, this.startBpm, acSize, maxBpm)
      ensures tempoTimes == TimesLike(|tempoDynamic|, rate, hopLength)
      ensures beatsTimeDynamic ==
        lib.beatTrackWithBpm(y, rate, hopLength, this.startBpm, tempoDynamic, trim, tightness).beats
      ensures tempoDynamicPlot == (Shift(tempoTimes, start), tempoDynamic)
      ensures |tempoDynamicPlot.0| > 0 && tempoDynamicPlot.0[0] == start && Sorted(tempoDynamicPlot.0)
      ensures segments == ScanSegments(tempoTimes, tempoDynamic, start)
      ensures Sorted(tempoTimes) && tempoTimes[0] == 0.0 && Segmentation(tempoTimes, start, segments)
    {
      // The steps of the Python constructor, on locals; the fields are set
      // from them at the end.
      var seed := startBpm;
      var duration := lib.getDuration(decoded, rate);
      var windowEnd := ResolveEnd(end, duration);
      var window := PySlice(decoded, lib.timeToSamples(start, rate), lib.timeToSamples(windowEnd, rate));
      var staticTempo: real, beatTimes: seq<real>;
      if startBpmAuto {
        var first := lib.beatTrack(window, rate, hopLength, seed, tightness, trim);
        staticTempo, beatTimes := first.tempo, first.beats;
        seed := Round2(first.tempo);
      }
      var second := lib.beatTrack(window, rate, hopLength, seed, tightness, trim);
      staticTempo, beatTimes := Round2(second.tempo), second.beats;
      var curve := lib.tempo(window, rate, hopLength, stdBpm, seed, acSize, maxBpm);
      var times := TimesLike(|curve|, rate, hopLength);
      var dynamicBeats := lib.beatTrackWithBpm(window, rate, hopLength, seed, curve, trim, tightness).beats;
      TimesLikeSorted(|curve|, rate, hopLength);
      ShiftSorted(times, start);
      var segments := Segmentize(times, curve, start);
      this.lib := lib;
      this.startBpm, this.stdBpm, this.maxBpm, this.tightness := seed, stdBpm, maxBpm, tightness;
      this.hopLength, this.acSize, this.trim := hopLength, acSize, trim;
      this.y, this.sr, this.start, this.end := window, rate, start, windowEnd;
      this.staticTempo, this.beatTimes := staticTempo, beatTimes;
      this.tempoDynamic, this.tempoTimes, this.beatsTimeDynamic := curve, times, dynamicBeats;
      this.tempoDynamicPlot := (Shift(times, start), curve);
      this.segments := segments;
    }

    /** The analysed audio with a click at every dynamic beat: the click track
        is as long as the buffer, the buffer is scaled by `volume / 100`, and
        the sum is normalised by its mean when that mean exceeds 1.0. The
        sample rate is the session's. */
    method Audio(volume: real, clickFreq: real, clickDuration: real) returns (samples: seq<real>, rate: nat)
      requires Honours(lib)
      ensures rate == sr
      ensures samples == Mix(y, lib.clicks(beatsTimeDynamic, sr, hopLength, clickFreq, clickDuration, |y|), volume)
      ensures |samples| == |y|
    {
      var clickDynamic := lib.clicks(beatsTimeDynamic, sr, hopLength, clickFreq, clickDuration, |y|);
      var combined := Combine(y, clickDynamic, volume);
      if |combined| > 0 && Mean(combined) > 1.0 {
        combined := Scale(combined, Mean(combined));
      }
      return combined, sr;
    }
  }
}
