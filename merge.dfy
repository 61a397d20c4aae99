/** The combined initramfs: the raw concatenation of the `--initrd` inputs
    in the order given, with the first unreadable input ending the merge. */
module Merge {
  import opened Io

  /** Byte-exact concatenation, no framing. */
  function Concat(chunks: seq<seq<byte>>): (bytes: seq<byte>) {
    if chunks == [] then [] else chunks[0] + Concat(chunks[1..])
  }

  function TotalLength(chunks: seq<seq<byte>>): (n: nat) {
    if chunks == [] then 0 else |chunks[0]| + TotalLength(chunks[1..])
  }

  predicate AllRegular(files: Files, paths: seq<Path>) {
    forall i | 0 <= i < |paths| :: IsRegularFile(files, paths[i])
  }

  /** The contents of the inputs, one chunk per path. */
  function Contents(files: Files, paths: seq<Path>): (cs: seq<seq<byte>>)
    requires AllRegular(files, paths)
    ensures |cs| == |paths|
    ensures forall i | 0 <= i < |paths| :: cs[i] == files[paths[i]].data
  {
    seq(|paths|, i requires 0 <= i < |paths| => files[paths[i]].data)
  }

  /** What the copy loop produces: the bytes appended so far, or the error
      of the first input that could not be opened or read. The last input is
      read only once every earlier one has been appended. */
  function MergeInputs(files: Files, paths: seq<Path>): (r: Result<seq<byte>>)
    ensures r.Ok? <==> AllRegular(files, paths)
    ensures r.Err? ==> r.error.Os?
    decreases |paths|
  {
    if paths == [] then Ok([])
    else match MergeInputs(files, paths[..|paths| - 1])
      case Err(e) => Err(e)
      case Ok(merged) =>
        match ReadAll(files, paths[|paths| - 1])
        case Err(e) => Err(e)
        case Ok(data) => Ok(merged + data)
  }

  lemma {:induction false} ConcatLength(chunks: seq<seq<byte>>)
    ensures |Concat(chunks)| == TotalLength(chunks)
  {
    if chunks != [] {
      ConcatLength(chunks[1..]);
    }
  }

  lemma {:induction false} ConcatSnoc(chunks: seq<seq<byte>>, c: seq<byte>)
    ensures Concat(chunks + [c]) == Concat(chunks) + c
  {
    if chunks == [] {
      assert [c][1..] == [];
    } else {
      assert (chunks + [c])[1..] == chunks[1..] + [c];
      ConcatSnoc(chunks[1..], c);
    }
  }

  /** The merge succeeds exactly when every input is a regular file; then
      the result is the in-order concatenation of their contents, as long as
      all of them together. With no inputs the result is empty. */
  lemma {:induction false} MergeSucceeds(files: Files, paths: seq<Path>)
    ensures MergeInputs(files, paths).Ok? <==> AllRegular(files, paths)
    ensures AllRegular(files, paths) ==>
      MergeInputs(files, paths).value == Concat(Contents(files, paths))
      && |MergeInputs(files, paths).value| == TotalLength(Contents(files, paths))
    decreases |paths|
  {
    if paths != [] {
      var n := |paths| - 1;
      var init := paths[..n];
      MergeSucceeds(files, init);
      assert AllRegular(files, paths) ==> AllRegular(files, init);
      assert AllRegular(files, init) && IsRegularFile(files, paths[n]) ==> AllRegular(files, paths);
      if AllRegular(files, paths) {
        assert Contents(files, paths) == Contents(files, init) + [files[paths[n]].data];
        ConcatSnoc(Contents(files, init), files[paths[n]].data);
        ConcatLength(Contents(files, paths));
      }
    }
  }

  /** The merge fails with the error of the first input that is not a
      regular file: NotFound when it is missing; inputs after it play no part. */
  lemma {:induction false} MergeFirstFailure(files: Files, paths: seq<Path>, k: nat)
    requires k < |paths| && AllRegular(files, paths[..k]) && !IsRegularFile(files, paths[k])
    ensures MergeInputs(files, paths) == Err(ReadAll(files, paths[k]).error)
    ensures MergeInputs(files, paths).error.kind == NotFound <==> paths[k] !in files
    decreases |paths|
  {
    var n := |paths| - 1;
    if k == n {
      assert paths[..n] == paths[..k];
      MergeSucceeds(files, paths[..k]);
    } else {
      assert paths[..n][..k] == paths[..k];
      MergeFirstFailure(files, paths[..n], k);
    }
  }

  /** Once a prefix of the inputs fails, the whole merge fails the same way. */
  lemma {:induction false} MergePrefixFailure(files: Files, paths: seq<Path>, i: nat)
    requires i <= |paths| && MergeInputs(files, paths[..i]).Err?
    ensures MergeInputs(files, paths) == MergeInputs(files, paths[..i])
    decreases |paths| - i
  {
    if i < |paths| {
      assert paths[..i + 1][..i] == paths[..i];
      MergePrefixFailure(files, paths, i + 1);
    } else {
      assert paths[..i] == paths;
    }
  }
}
