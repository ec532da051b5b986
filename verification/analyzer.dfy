/** `EmotionAnalyzer.analyze_emotion` (lines 37-63): raw valence and arousal
    of one file, without corpus normalisation. The analyser holds no state,
    so the method becomes a function of the decoder and the extractor. */
module SingleFile {
  import opened Optional
  import opened Stats
  import opened Audio
  import opened FeatureLayout

  /** Lines 49-57 on an extracted vector. Indexing `features[16]` raises
      `IndexError` on a vector of 16 or fewer values, which the `except`
      turns into `(None, None)`; the slices `4:16`, `21:26` and `34:39`
      are clamped by NumPy and never raise. */
  function RawAffect(f: seq<real>): (r: Option<(real, real)>)
    ensures r.Some? <==> |f| > 16
  {
    if |f| <= 16 then None
    else
      var valence := Mean(Slice(f, 4, 16) + [f[1]] + Slice(f, 21, 26));
      var arousal := Mean([f[0], f[2], f[16]] + Slice(f, 34, 39));
      Some((valence, arousal))
  }

  /** The whole of `analyze_emotion`: decode, extract (the audio is passed on
      as decoded, without the batch path's mix-down), map; every failure is `None`. */
  function AnalyzeEmotion(path: string, decode: Decoder, extract: Extractor): (r: Option<(real, real)>)
    ensures r.Some? <==>
      decode(path).Some? &&
      extract(decode(path).value.samples, decode(path).value.rate).Some? &&
      |extract(decode(path).value.samples, decode(path).value.rate).value| > 16
    ensures r.Some? ==>
      r == RawAffect(extract(decode(path).value.samples, decode(path).value.rate).value)
  {
    match decode(path)
    case None => None
    case Some(d) =>
      match extract(d.samples, d.rate)
      case None => None
      case Some(f) => RawAffect(f)
  }

  /** On a vector of at least 39 values (so on every well-formed 43-value
      vector), valence is the mean of the 18 values at columns 4-15, 1 and
      21-25, and arousal the mean of the 8 values at columns 0, 2, 16 and 34-38. */
  lemma RawAffectOnFullVector(f: seq<real>)
    requires |f| >= 39
    ensures RawAffect(f) == Some((Mean(Pick(f, SingleValenceColumns)), Mean(Pick(f, SingleArousalColumns))))
  {
    var v := Slice(f, 4, 16) + [f[1]] + Slice(f, 21, 26);
    var pv := Pick(f, SingleValenceColumns);
    assert |v| == |pv| == 18;
    forall k | 0 <= k < 18 ensures v[k] == pv[k] {
      if k < 12 { } else if k == 12 { } else { }
    }
    assert v == pv;
    var a := [f[0], f[2], f[16]] + Slice(f, 34, 39);
    var pa := Pick(f, SingleArousalColumns);
    assert |a| == |pa| == 8;
    forall k | 0 <= k < 8 ensures a[k] == pa[k] {
      if k < 3 { } else { }
    }
    assert a == pa;
  }

  /** A vector of 17 to 21 values is not rejected: its valence averages only
      the 13 chroma and centroid values, and its arousal only the three scalar
      features, because the MFCC slices come back empty. */
  lemma RawAffectOnShortVector(f: seq<real>)
    requires 16 < |f| <= 21
    ensures RawAffect(f) == Some((Mean(Pick(f, SingleValenceColumns[..13])), Mean(Pick(f, SingleArousalColumns[..3]))))
  {
    var v := Slice(f, 4, 16) + [f[1]] + Slice(f, 21, 26);
    var pv := Pick(f, SingleValenceColumns[..13]);
    assert |v| == |pv| == 13;
    forall k | 0 <= k < 13 ensures v[k] == pv[k] {
      if k < 12 { } else { }
    }
    assert v == pv;
    var a := [f[0], f[2], f[16]] + Slice(f, 34, 39);
    assert a == Pick(f, SingleArousalColumns[..3]);
  }
}
