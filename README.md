# Tempo analysis session, modelled in Dafny

This project models the analysis core of a tempo-estimation tool: the class
`Tempos` in `src/tempos.py`. A session takes a decoded recording and then:

1. cuts the samples to a time window, where an `end` of `0` or `None` means the
   whole duration;
2. estimates a static tempo with a beat tracker. When `start_bpm_auto` is set, a
   first pass seeded by the caller's `start_bpm` supplies the seed: that
   estimate, rounded to two decimals;
3. estimates a tempo curve (one value per hop) and the time of each hop;
4. derives beat times that follow the curve;
5. collapses the curve into segments of constant rounded tempo;
6. on request, mixes a click track into the analysed audio. The mix is divided
   by its mean when that mean exceeds 1.0.

The model has four modules:

- `Rounding` (`rounding.dfy`): Python's `round(x, 2)` on exact reals. It
  rounds to the nearest hundredth, and a tie goes to the even neighbour.
- `Segmenter` (`segmenter.dfy`): `segmentize`.
  - `Segmentize` is an imperative method that keeps the source's loop. It is
    proved to return `ScanSegments`, the segments of the runs that `RunStarts` finds.
  - `IsRuns` is an independent characterisation of maximal runs. It says that
    every sample of a run rounds like the run's opener, and that neighbouring
    openers round differently.
  - Proved: `RunStarts` meets `IsRuns`, and it is the only cut that does.
    From this follow coverage, contiguity, distinct rounded tempos at every
    boundary, ordered boundaries, the segment count and idempotence.
- `Mixer` (`mixer.dfy`): the mix and normalise arithmetic of `audio`, as
  functions over `seq<real>`.
- `Tempos` (`tempos.dfy`): the `Tempos` class. Its constructor runs the
  pipeline and states every field it sets. The fields are `const`: the
  constructor sets each once and nothing changes them afterwards. `Audio`
  returns the mix and the sample rate.
  - The librosa calls are fields of a `Librosa` value of function type, so they
    stay uninterpreted.
  - Python's slicing is `PySlice`.
  - `librosa.times_like` is `TimesLike`.

The code checks none of its arguments, and the model follows the code:

- The window is not validated: neither `start >= end` nor `start < 0` raises.
  The sample indices of the bounds go straight into a Python slice. There a
  negative bound counts from the end of the buffer, a bound past the end is
  clamped to it, and a window whose start is at or after its end is empty.
  `PySlice` models exactly that, and `SliceNegativeAndInverted` spells out the
  negative and inverted cases.
- `audio` takes any number as `volume`; so does the model.
- `Tempos` stores `beat_times` but not a first beat time. The web interface
  (`web.py`) adds the window start to the first beat itself. The model stores
  `beatTimes` and goes no further.

## Model

| member | source | states |
|---|---|---|
| Rounding.Hundredths | src/tempos.py:79 | the integer nearest to 100·x, the even neighbour on a tie, which pins the result down uniquely |
| Rounding.Round2 | src/tempos.py:62-64 | `round(x, 2)` lies within half a hundredth (0.005) of x |
| Rounding.Round2Idempotent | src/tempos.py:62-64 | rounding a rounded value changes nothing |
| Segmenter.Rounded | src/tempos.py:79 | the rounded keys the scan compares, one per tempo, each `round(tempo, 2)` |
| Segmenter.Paired | src/tempos.py:78 | `zip` visits as many pairs as the shorter of times and tempos |
| Segmenter.RunStarts | src/tempos.py:76-82 | the scan's run openers: non-empty, start at sample 0, all within the paired samples |
| Segmenter.SegmentsFor | src/tempos.py:80-85 | one segment per run opener |
| Segmenter.ExtendLastRun | src/tempos.py:79 | a sample rounding like the open run's opener extends a maximal-run cut |
| Segmenter.OpenRun | src/tempos.py:79-82 | a sample rounding differently opens a new run and the cut stays maximal |
| Segmenter.RunStartsAreRuns | src/tempos.py:76-82 | the openers the scan finds cut the curve into maximal runs (`IsRuns`) |
| Segmenter.DropLastRun | src/tempos.py:79-82 | removing a last sample that opened its own run drops that run from a maximal cut |
| Segmenter.ShortenLastRun | src/tempos.py:79 | removing a last sample that did not open a run keeps the cut maximal |
| Segmenter.RunsAreUnique | src/tempos.py:76-82 | any cut into maximal runs equals the scan's openers |
| Segmenter.RunsCharacterised | src/tempos.py:76-82 | a cut is maximal if and only if it is the scan's |
| Segmenter.RunStartsAreChangePoints | src/tempos.py:78-82 | comparing with the run opener finds the same runs as comparing with the previous sample; runs = 1 + number of changes |
| Segmenter.SingleRunIff | src/tempos.py:78-82 | a single run exactly when every paired sample rounds like the first |
| Segmenter.BoundariesDiffer | src/tempos.py:79-80 | neighbouring segments have different rounded tempos |
| Segmenter.SegmentsOrdered | src/tempos.py:80-85 | over sorted times no segment ends before it starts |
| Segmenter.SegmentsOfRuns | src/tempos.py:76-85 | cutting along maximal runs gives at least one segment, first start = `times[0] + start`, last end = `times[-1] + start`, no gaps, distinct rounded neighbours, ordered over sorted times |
| Segmenter.ClosedSegments | src/tempos.py:80 | the segments closed so far: one fewer than the openers |
| Segmenter.CloseRunAt | src/tempos.py:79-82 | opening a run at sample i closes the previous one at `times[i] + start` with its opener's tempo |
| Segmenter.CloseLastRun | src/tempos.py:83-85 | closing the last run at `times[-1] + start` completes the segments |
| Segmenter.OpenerAfter | src/tempos.py:76-82 | the open run's opener precedes the next sample scanned |
| Segmenter.ScanClose | src/tempos.py:79-82 | the loop step that closes a run preserves the loop invariant |
| Segmenter.ScanKeep | src/tempos.py:79 | the loop step that keeps the run preserves the loop invariant |
| Segmenter.FinishScan | src/tempos.py:83-85 | after the loop, the final append yields exactly the segments of the runs |
| Segmenter.ScanSegments | src/tempos.py:74-86 | the segments of the curve form a segmentation: at least one, the first starts at `times[0] + start`, the last ends at `times[-1] + start`, no gaps, neighbours differ in rounded tempo, none ends before it starts over sorted times |
| Segmenter.SegmentCount | src/tempos.py:78-82 | the number of segments is 1 + the number of changes of rounded tempo |
| Segmenter.SingleSegmentIff | src/tempos.py:74-86 | exactly one segment if and only if every paired sample rounds like the first |
| Segmenter.SegmentTempos | src/tempos.py:76-82 | each segment starts at its opener's time and stores the opener's unrounded tempo; every sample of its run rounds like it |
| Segmenter.Segmentize | src/tempos.py:74-86 | the loop returns exactly the segments of the maximal runs, and they form a segmentation |
| Segmenter.RunOf | src/tempos.py:78-82 | the run a sample falls in is one of the runs |
| Segmenter.RunOfSample | src/tempos.py:78-82 | a sample between opener k and the next opener lies in run k |
| Segmenter.Rebuild | src/tempos.py:80-85 | the curve rebuilt from openers has one sample per paired sample |
| Segmenter.RebuildSamples | src/tempos.py:80-85 | every rebuilt sample holds its run's opening tempo |
| Segmenter.RebuildRuns | src/tempos.py:76-85 | the runs of a curve are the runs of the curve rebuilt from its segments |
| Segmenter.SegmentsAtOpeners | src/tempos.py:80-85 | segments depend on the tempos only at the openers |
| Segmenter.Reconstructed | src/tempos.py:74-86 | the curve sampled back from the segments has one value per paired sample |
| Segmenter.ResegmentIsIdentity | src/tempos.py:74-86 | segmenting the curve rebuilt from the segments gives the same segments (idempotence) |
| Mixer.SumOfConstant | src/tempos.py:100 | the sum behind `np.mean`: a constant signal sums to its length times its value, a silent one to zero |
| Mixer.MeanOfConstant | src/tempos.py:100 | `np.mean` of a constant signal is its value |
| Mixer.Normalises | src/tempos.py:100-101 | the mix is divided exactly when the buffer is non-empty and its samples sum to more than their number (mean above 1.0); an empty buffer, whose mean is NaN, is not divided |
| Mixer.Scale | src/tempos.py:102 | dividing by m: every output sample times m is the input sample |
| Mixer.Combine | src/tempos.py:97-99 | the combined signal is as long as the buffer |
| Mixer.Normalise | src/tempos.py:100-102 | normalisation keeps the length |
| Mixer.Mix | src/tempos.py:97-103 | the mix is as long as the analysed buffer |
| Mixer.SumScale | src/tempos.py:102 | dividing every sample by m divides the sum by m |
| Mixer.NormaliseDividesByMean | src/tempos.py:100-102 | when the mean exceeds 1.0 every sample is divided by exactly that mean; otherwise the signal is unchanged (including the empty one) |
| Mixer.NormalisedMean | src/tempos.py:100-102 | the normalised mean is 1.0 when the old mean exceeded 1.0, and the old mean otherwise |
| Mixer.NormaliseIdempotent | src/tempos.py:100-102 | normalising a normalised signal changes nothing |
| Mixer.NormaliseIsNotPeakLimiting | src/tempos.py:100-102 | a signal of mean 1.0 keeps a sample of 3.0: the rule bounds the mean, not the peak |
| Mixer.CombineVolume | src/tempos.py:97-99 | each combined sample minus its click is the buffer sample times volume/100; volume 100 adds buffer and clicks, volume 0 leaves only the clicks |
| Mixer.MixSilence | src/tempos.py:97-103 | volume 0 with a silent click track gives an all-zero mix |
| Tempos.ResolveEnd | src/tempos.py:51-54 | `end` of `None` or `0` resolves to the duration; any other value is kept |
| Tempos.SliceIndex | src/tempos.py:55-59 | a Python slice bound: negative counts from the end, out of range is clamped |
| Tempos.PySlice | src/tempos.py:55-59 | the analysed buffer is a contiguous run of the decoded samples, of length hi − lo after normalising the bounds, empty when lo ≥ hi |
| Tempos.SliceNegativeAndInverted | src/tempos.py:55-59 | a start of −1 keeps only the last sample, an end of −1 drops it, and a window whose start is at or after its end is empty |
| Tempos.SliceWhole | src/tempos.py:55-59 | a window from 0 to at least the length keeps every sample |
| Tempos.SliceConcat | src/tempos.py:55-59 | adjacent windows concatenate to the window spanning both |
| Tempos.TimesLike | src/tempos.py:117-120 | hop times start at 0 and step by hop_length/sr |
| Tempos.TimesLikeSorted | src/tempos.py:117-120 | hop times are non-decreasing |
| Tempos.Shift | src/tempos.py:68-71 | plot times are the hop times moved by the window start |
| Tempos.ShiftSorted | src/tempos.py:68-71 | shifting keeps the times sorted |
| Tempos.Tempos.constructor | src/tempos.py:42-72 | every field: parameters stored, end resolved, buffer sliced, seed = rounded first estimate iff `start_bpm_auto`, static tempo = rounded second estimate with the operative seed, curve and dynamic beats with the operative seed, hop times, shifted plot, segments = the scan's and a segmentation |
| Tempos.Tempos.Audio | src/tempos.py:88-103 | returns the session's sample rate and the mix of the analysed buffer with clicks at the dynamic beats, of the buffer's length |

## Left out

- The librosa computations (`get_duration`, `time_to_samples`,
  `beat.beat_track`, `feature.tempo`, `clicks`) are uninterpreted functions. Only
  `times_like` is given its frame-to-time formula `k * hop_length / sr`.
- `Honours`: the model makes two assumptions about librosa, whose code is not
  part of this model:
  - the unaggregated tempo curve has at least one frame, which the model assumes;
  - `clicks(..., length=n)` returns exactly n samples, as librosa documents.
- Decoding the file is I/O. The constructor takes the decoded samples and the
  sample rate that `librosa.load` returns, and requires that rate to be positive.
- IEEE floating point, numpy's float32 buffers and their rounding are not
  modelled. Samples, times and tempos are exact reals, and `round(x, 2)` is
  taken on exact reals.
- Tempos.Tempos.constructor: the steps are computed on locals and the fields
  are set together at the end. No code can observe the object in between, so
  only the final values are stated. Defaults of the keyword arguments are not
  modelled: callers pass every value.
- Tempos.Tempos.Audio: default values of `volume`, `click_freq` and
  `click_duration` are not modelled; `volume` is a real.
- Argument checks the code does not make are not modelled, e.g. a
  non-positive `hop_length` or `std_bpm`, or an inverted window. Such errors
  would arise inside librosa.
- The web interface (`web.py`) and the launcher (`run.py`) are presentation
  layers outside the core.
