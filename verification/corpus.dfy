/** Corpus collection (lines 65-89): walk the directory listing, keep the
    `.wav` files whose features can be extracted with the expected length,
    and build the feature list and the file-name list side by side. */
module CorpusCollection {
  import opened Optional
  import opened Audio
  import opened FileNames
  import opened FeatureLayout

  /** The two parallel lists `features_list` and `filenames`. */
  datatype Corpus = Corpus(vectors: seq<seq<real>>, names: seq<string>)

  /** Lines 74-78 for one file: decode, mix down to mono, extract; `None` where
      any step raises. Mono audio reaches the extractor as decoded, multi-channel
      audio as the mean of its channels, at the decoded rate either way. */
  function Load(name: string, decode: Decoder, extract: Extractor): (r: Option<seq<real>>)
    ensures decode(name).None? ==> r.None?
    ensures decode(name).Some? && decode(name).value.samples.Mono? ==>
      r == extract(decode(name).value.samples, decode(name).value.rate)
    ensures decode(name).Some? && decode(name).value.samples.Multi? ==>
      r == extract(Mono(MonoMix(decode(name).value.samples.frames)), decode(name).value.rate)
  {
    match decode(name)
    case None => None
    case Some(d) => extract(EnsureMono(d.samples), d.rate)
  }

  /** A listed file enters the corpus: its name passes the `.wav` filter,
      nothing raised, and the vector has exactly 43 values. */
  predicate Admitted(name: string, decode: Decoder, extract: Extractor)
    ensures Admitted(name, decode, extract) ==> |name| >= 4 && name[|name| - 4] == '.'
    ensures decode(name).None? ==> !Admitted(name, decode, extract)
  {
    IsWav(name) && Load(name, decode, extract).Some? && |Load(name, decode, extract).value| == FeatureCount
  }

  /** The lists have equal length and entry `i` of one belongs to entry `i` of the other. */
  predicate Aligned(c: Corpus, decode: Decoder, extract: Extractor)
  {
    |c.vectors| == |c.names| &&
    forall i :: 0 <= i < |c.names| ==>
      Admitted(c.names[i], decode, extract) && Load(c.names[i], decode, extract) == Some(c.vectors[i])
  }

  /** The corpus the loop builds from a listing, processed in listing order. */
  function Collect(listing: seq<string>, decode: Decoder, extract: Extractor): (c: Corpus)
    ensures Aligned(c, decode, extract)
    ensures forall i :: 0 <= i < |c.vectors| ==> |c.vectors[i]| == FeatureCount
    ensures |c.names| <= |listing|
  {
    if listing == [] then Corpus([], [])
    else
      var before := Collect(listing[..|listing| - 1], decode, extract);
      var name := listing[|listing| - 1];
      if Admitted(name, decode, extract)
      then Corpus(before.vectors + [Load(name, decode, extract).value], before.names + [name])
      else before
  }

  /** The loop of lines 69-86. */
  method CollectCorpus(listing: seq<string>, decode: Decoder, extract: Extractor) returns (corpus: Corpus)
    ensures corpus == Collect(listing, decode, extract)
  {
    var featuresList: seq<seq<real>> := [];
    var filenames: seq<string> := [];
    for i := 0 to |listing|
      invariant Corpus(featuresList, filenames) == Collect(listing[..i], decode, extract)
    {
      var filename := listing[i];
      assert listing[..i + 1][..i] == listing[..i];
      if IsWav(filename) {
        var decoded := decode(filename);
        if decoded.Some? {
          var audio := EnsureMono(decoded.value.samples);
          var features := extract(audio, decoded.value.rate);
          if features.Some? && |features.value| == FeatureCount {
            featuresList := featuresList + [features.value];
            filenames := filenames + [filename];
          }
        }
      }
    }
    assert listing[..|listing|] == listing;
    corpus := Corpus(featuresList, filenames);
  }

  /** A file is in the corpus exactly when it is listed and admitted. */
  lemma {:induction false} CollectMembership(listing: seq<string>, name: string, decode: Decoder, extract: Extractor)
    ensures name in Collect(listing, decode, extract).names <==> name in listing && Admitted(name, decode, extract)
  {
    if listing != [] {
      var front := listing[..|listing| - 1];
      CollectMembership(front, name, decode, extract);
      assert listing == front + [listing[|listing| - 1]];
    }
  }

  /** Files are processed independently: collecting a listing in two parts
      and concatenating gives the corpus of the whole listing. */
  lemma {:induction false} CollectConcat(a: seq<string>, b: seq<string>, decode: Decoder, extract: Extractor)
    ensures Collect(a + b, decode, extract) ==
      Corpus(Collect(a, decode, extract).vectors + Collect(b, decode, extract).vectors,
             Collect(a, decode, extract).names + Collect(b, decode, extract).names)
  {
    if b == [] {
      assert a + b == a;
    } else {
      var front := b[..|b| - 1];
      CollectConcat(a, front, decode, extract);
      assert (a + b)[..|a + b| - 1] == a + front;
      var last := b[|b| - 1];
      if Admitted(last, decode, extract) {
        var ca, cf := Collect(a, decode, extract), Collect(front, decode, extract);
        var v := Load(last, decode, extract).value;
        assert (ca.vectors + cf.vectors) + [v] == ca.vectors + (cf.vectors + [v]);
        assert (ca.names + cf.names) + [last] == ca.names + (cf.names + [last]);
      }
    }
  }

  /** A file that fails to decode or extract, or yields the wrong length,
      contributes nothing and changes nothing for the other files. */
  lemma SkipIsolation(a: seq<string>, bad: string, b: seq<string>, decode: Decoder, extract: Extractor)
    requires !Admitted(bad, decode, extract)
    ensures Collect(a + [bad] + b, decode, extract) == Collect(a + b, decode, extract)
  {
    CollectConcat(a + [bad], b, decode, extract);
    CollectConcat(a, [bad], decode, extract);
    CollectConcat(a, b, decode, extract);
    assert [bad][..0] == [];
  }

  /** A directory listing has no repeated names, so neither has the corpus. */
  lemma {:induction false} CollectNoDuplicates(listing: seq<string>, decode: Decoder, extract: Extractor)
    requires NoDuplicates(listing)
    ensures NoDuplicates(Collect(listing, decode, extract).names)
  {
    if listing != [] {
      var front := listing[..|listing| - 1];
      var last := listing[|listing| - 1];
      CollectNoDuplicates(front, decode, extract);
      CollectMembership(front, last, decode, extract);
    }
  }
}
