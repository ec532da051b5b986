/** Decoded audio and the hand-off to the feature extractor.

    Decoding (`soundfile.read`) and the librosa feature computations are not
    modelled: both are parameters of the analyser, returning `None` wherever
    the Python code would raise. */
module Audio {
  import opened Optional
  import opened Stats

  /** One sample instant of a multi-channel recording: a value per channel.
      `soundfile` returns a 2-D array only for recordings with channels, so a
      frame is never empty. */
  type Frame = row: seq<real> | |row| > 0 witness [0.0]

  /** The sample array `soundfile.read` returns: 1-D for mono, 2-D (frames by channels) otherwise. */
  datatype Samples = Mono(data: seq<real>) | Multi(frames: seq<Frame>)

  /** The `(audio_data, sr)` pair of `soundfile.read`. */
  datatype Decoded = Decoded(samples: Samples, rate: int)

  /** `soundfile.read(path)`; `None` when it raises. */
  type Decoder = string -> Option<Decoded>

  /** `EmotionAnalyzer.extract_features(audio_data, sr)` followed by `.flatten()`;
      `None` when librosa raises. The length of the vector is not guaranteed. */
  type Extractor = (Samples, int) -> Option<seq<real>>

  /** `np.mean(audio_data, axis=1)`: each frame becomes the mean of its channels. */
  function MonoMix(frames: seq<Frame>): (mono: seq<real>)
    ensures |mono| == |frames|
    ensures forall i :: 0 <= i < |frames| ==> mono[i] == Mean(frames[i])
  {
    seq(|frames|, i requires 0 <= i < |frames| => Mean(frames[i]))
  }

  /** Mixing down a recording whose channels all carry the same signal gives that signal back. */
  lemma MonoMixOfIdenticalChannels(frames: seq<Frame>, signal: seq<real>)
    requires |signal| == |frames|
    requires forall i, c :: 0 <= i < |frames| && 0 <= c < |frames[i]| ==> frames[i][c] == signal[i]
    ensures MonoMix(frames) == signal
  {
    forall i | 0 <= i < |frames|
      ensures MonoMix(frames)[i] == signal[i]
    {
      MeanOfConstant(frames[i], signal[i]);
    }
  }

  /** Each mixed sample lies between the quietest and the loudest channel of its frame. */
  lemma MonoMixWithinChannels(frames: seq<Frame>, i: nat)
    requires i < |frames|
    ensures MinOf(frames[i]) <= MonoMix(frames)[i] <= MaxOf(frames[i])
  {
    MeanWithinBounds(frames[i]);
  }

  /** The batch path's "ensure mono" step (lines 76-77): 2-D audio is mixed down, 1-D audio is kept. */
  function EnsureMono(samples: Samples): (r: Samples)
    ensures r.Mono?
    ensures samples.Mono? ==> r == samples
    ensures samples.Multi? ==> |r.data| == |samples.frames|
    ensures samples.Multi? ==> r.data == MonoMix(samples.frames)
  {
    match samples
    case Mono(_) => samples
    case Multi(frames) => Mono(MonoMix(frames))
  }
}
