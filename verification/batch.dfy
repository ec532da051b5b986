/** `rename_files_with_nuanced_valence_arousal` (lines 65-126): list the
    directory, collect the corpus, score it, rename every scored file. */
module Batch {
  import opened Audio
  import opened FileNames
  import opened CorpusCollection
  import opened Scoring
  import opened Renaming

  /** Line 116-117 for every scored file: its new name from its pair and its own extension. */
  function NewNames(names: seq<string>, pairs: seq<AffectPair>, fmt: Formatter): (r: seq<string>)
    requires |pairs| == |names|
    ensures |r| == |names|
    ensures forall i :: 0 <= i < |names| ==>
      r[i] == NewName(pairs[i].valence, pairs[i].arousal, Extension(names[i]), fmt)
  {
    seq(|names|, i requires 0 <= i < |names| =>
      NewName(pairs[i].valence, pairs[i].arousal, Extension(names[i]), fmt))
  }

  /** The whole batch. The listing, the corpus it produced and the new names
      are returned as ghost results so that the postconditions can speak of them. */
  method RenameFilesWithNuancedValenceArousal(dir: Directory, decode: Decoder, extract: Extractor,
                                              sqrt: real -> real, fmt: Formatter)
    returns (ghost listing: seq<string>, ghost corpus: Corpus, ghost targets: seq<string>)
    requires NonNegativeRoot(sqrt)
    modifies dir
    ensures NoDuplicates(listing) && forall n :: n in listing <==> n in old(dir.names)
    ensures corpus == Collect(listing, decode, extract)
    ensures corpus.names == [] ==> dir.names == old(dir.names)
    ensures corpus.names != [] ==>
      && targets == NewNames(corpus.names, Score(corpus.vectors, sqrt), fmt)
      && Renamable(old(dir.names), corpus.names, targets)
      && dir.names == RenameSeq(old(dir.names), corpus.names, targets)
    ensures (forall n :: n in old(dir.names) ==> !Admitted(n, decode, extract)) ==> dir.names == old(dir.names)
    ensures |dir.names| == |old(dir.names)|
    ensures forall n :: n in old(dir.names) && !Admitted(n, decode, extract) ==> n in dir.names
  {
    var names := dir.List();
    listing := names;
    var collected := CollectCorpus(names, decode, extract);
    corpus := collected;
    NothingAdmitted(names, decode, extract);
    if collected.vectors == [] {
      targets := [];
      return;
    }
    var pairs := Score(collected.vectors, sqrt);
    var newNames := NewNames(collected.names, pairs, fmt);
    targets := newNames;
    RenameCorpusFacts(dir.names, names, decode, extract, newNames);
    RenameAll(dir, collected.names, newNames);
  }

  /** What renaming the corpus does to the directory it was listed from: the
      loop's preconditions hold, no name is lost, and every file outside the
      corpus stays where it is. */
  lemma RenameCorpusFacts(names: set<string>, listing: seq<string>, decode: Decoder, extract: Extractor,
                          targets: seq<string>)
    requires NoDuplicates(listing) && forall n :: n in listing <==> n in names
    requires |targets| == |Collect(listing, decode, extract).names|
    ensures Renamable(names, Collect(listing, decode, extract).names, targets)
    ensures |RenameSeq(names, Collect(listing, decode, extract).names, targets)| == |names|
    ensures forall n :: n in names && !Admitted(n, decode, extract) ==>
      n in RenameSeq(names, Collect(listing, decode, extract).names, targets)
  {
    var srcs := Collect(listing, decode, extract).names;
    CollectNoDuplicates(listing, decode, extract);
    forall k | 0 <= k < |srcs|
      ensures srcs[k] in names
    {
      CollectMembership(listing, srcs[k], decode, extract);
    }
    forall n | n in names && !Admitted(n, decode, extract)
      ensures n in RenameSeq(names, srcs, targets)
    {
      CollectMembership(listing, n, decode, extract);
      RenameSeqKeepsOthers(names, srcs, targets, n);
    }
  }

  /** An empty corpus means no listed file was admitted, and conversely. */
  lemma NothingAdmitted(listing: seq<string>, decode: Decoder, extract: Extractor)
    ensures Collect(listing, decode, extract).names == [] <==>
      forall n :: n in listing ==> !Admitted(n, decode, extract)
  {
    forall n | n in listing
      ensures n in Collect(listing, decode, extract).names <==> Admitted(n, decode, extract)
    {
      CollectMembership(listing, n, decode, extract);
    }
    var names := Collect(listing, decode, extract).names;
    if names != [] {
      CollectMembership(listing, names[0], decode, extract);
    }
  }
}
