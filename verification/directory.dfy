/** The directory the batch renames in, as the set of names it holds, and the
    rename loop of lines 115-126 that changes it step by step. */
module Renaming {
  import opened FileNames

  /** A directory: the file system calls the analyser makes on it
      (`os.listdir`, `os.path.exists`, `os.rename`) act on its set of names. */
  class Directory {
    var names: set<string>

    constructor (initial: set<string>)
      ensures names == initial
    {
      names := initial;
    }

    /** `os.listdir`: every name exactly once, in an order the file system chooses. */
    method List() returns (listing: seq<string>)
      ensures NoDuplicates(listing)
      ensures forall n :: n in listing <==> n in names
    {
      var rest := names;
      listing := [];
      while rest != {}
        invariant rest <= names
        invariant forall n :: n in listing <==> n in names && n !in rest
        invariant NoDuplicates(listing)
        decreases |rest|
      {
        var n :| n in rest;
        listing := listing + [n];
        rest := rest - {n};
      }
    }

    /** `os.path.exists`. */
    method Exists(name: string) returns (present: bool)
      ensures present <==> name in names
    {
      present := name in names;
    }

    /** `os.rename(src, dst)` with POSIX semantics: the source must exist
        (otherwise `FileNotFoundError`, which the loop does not catch); an
        existing destination would be replaced. */
    method Rename(src: string, dst: string)
      requires src in names
      modifies this
      ensures names == old(names) - {src} + {dst}
    {
      names := names - {src} + {dst};
    }
  }

  /** One iteration of the loop: nothing when the source is the destination,
      a skip when the destination exists, otherwise the source is renamed. */
  function RenameStep(names: set<string>, src: string, dst: string): (r: set<string>)
    requires src in names
    ensures |r| == |names|
    ensures dst in r
    ensures forall n :: n in names && n != src ==> n in r
    ensures r <= names + {dst}
    ensures src in r <==> src == dst || dst in names
  {
    if src == dst || dst in names then names
    else
      var rest := names - {src};
      assert |rest| == |names| - 1;
      rest + {dst}
  }

  /** Preconditions of the loop: as many new names as files, the files are
      distinct and all present in the directory. */
  ghost predicate Renamable(names: set<string>, srcs: seq<string>, dsts: seq<string>)
  {
    |srcs| == |dsts| && NoDuplicates(srcs) && forall k :: 0 <= k < |srcs| ==> srcs[k] in names
  }

  /** The whole loop, file by file in corpus order; each existence check sees
      the names created by the iterations before it. No file is lost and none
      is overwritten: the directory holds as many names afterwards. */
  function RenameSeq(names: set<string>, srcs: seq<string>, dsts: seq<string>): (r: set<string>)
    requires Renamable(names, srcs, dsts)
    ensures |r| == |names|
    decreases |srcs|
  {
    if srcs == [] then names
    else RenameSeq(RenameStep(names, srcs[0], dsts[0]), srcs[1..], dsts[1..])
  }

  /** The loop of lines 115-126. Every `os.rename` finds its source, so the
      loop never raises. */
  method RenameAll(dir: Directory, srcs: seq<string>, dsts: seq<string>)
    requires Renamable(dir.names, srcs, dsts)
    modifies dir
    ensures dir.names == RenameSeq(old(dir.names), srcs, dsts)
  {
    for i := 0 to |srcs|
      invariant Renamable(dir.names, srcs[i..], dsts[i..])
      invariant RenameSeq(dir.names, srcs[i..], dsts[i..]) == RenameSeq(old(dir.names), srcs, dsts)
    {
      var src, dst := srcs[i], dsts[i];
      assert srcs[i..][1..] == srcs[i + 1..] && dsts[i..][1..] == dsts[i + 1..];
      if src != dst {
        var taken := dir.Exists(dst);
        if !taken {
          dir.Rename(src, dst);
        }
      }
    }
  }

  /** A file that is not being renamed is still there afterwards. */
  lemma {:induction false} RenameSeqKeepsOthers(names: set<string>, srcs: seq<string>, dsts: seq<string>, n: string)
    requires Renamable(names, srcs, dsts)
    requires n in names && n !in srcs
    ensures n in RenameSeq(names, srcs, dsts)
    decreases |srcs|
  {
    if srcs != [] {
      RenameSeqKeepsOthers(RenameStep(names, srcs[0], dsts[0]), srcs[1..], dsts[1..], n);
    }
  }

  /** The only names that can appear are the new names. */
  lemma {:induction false} RenameSeqOnlyAddsTargets(names: set<string>, srcs: seq<string>, dsts: seq<string>, n: string)
    requires Renamable(names, srcs, dsts)
    requires n in RenameSeq(names, srcs, dsts)
    ensures n in names || n in dsts
    decreases |srcs|
  {
    if srcs != [] {
      RenameSeqOnlyAddsTargets(RenameStep(names, srcs[0], dsts[0]), srcs[1..], dsts[1..], n);
    }
  }

  /** A destination already in the directory is a skip, and so is one created
      by an earlier iteration: two files scoring the same keep the first rename only. */
  lemma RenameCollisions()
    ensures RenameSeq({"a.wav", "x.wav"}, ["a.wav"], ["x.wav"]) == {"a.wav", "x.wav"}
    ensures RenameSeq({"a.wav", "b.wav"}, ["a.wav", "b.wav"], ["x.wav", "x.wav"]) == {"x.wav", "b.wav"}
    ensures RenameSeq({"a.wav"}, ["a.wav"], ["a.wav"]) == {"a.wav"}
  {
    var first := RenameStep({"a.wav", "b.wav"}, "a.wav", "x.wav");
    assert first == {"x.wav", "b.wav"};
    assert ["a.wav", "b.wav"][1..] == ["b.wav"];
    assert ["x.wav", "x.wav"][1..] == ["x.wav"];
  }
}
