/** dirSize: adding up the sizes in a remote directory. */
module TreeSize {
  import opened Common
  import opened TreeWalk
  import opened Listing
  import TreeDownload

  type Remote = TreeDownload.Remote

  /** The size the server reports for each path size() succeeds on. */
  type Sizes = string -> nat

  const SizeFailed: FtpError := FtpError(General, "unable to get size of folder from server")

  /** dirSize of `node` at the remote path `dir`. Subdirectories are
      walked with dirSize's default policy, without failfast, whatever
      `failfast` says, and what they return is dropped. The listing of
      `dir` is not inside a try block. */
  function DirSize(node: Remote, dir: string, failfast: bool, reply: Oracle, sizes: Sizes): (w: Walk<nat>)
    decreases node, 2, 0
  {
    match reply(List(dir))
    case Some(e) => Walk([Step(List(dir), Some(e))], Err(e))
    case None => Then([Step(List(dir), None)], SizeEntries(node, 0, dir, failfast, reply, sizes, false, 0))
  }

  /** The loop over the listing from entry i on, with the running total
      `sum`. */
  function SizeEntries(node: Remote, i: nat, dir: string, failfast: bool, reply: Oracle, sizes: Sizes,
                       failed: bool, sum: nat): (w: Walk<nat>)
    requires i <= |node.entries|
    decreases node, 1, |node.entries| - i
  {
    if i == |node.entries| then Walk([], if failed then Err(SizeFailed) else Ok(sum))
    else
      var child := node.entries[i];
      var w := SizeEntry(child, dir, reply, sizes);
      match w.result
      case Ok(n) =>
        Then(w.trace, SizeEntries(node, i + 1, dir, failfast, reply, sizes, failed,
                                  if child.kind == Directory then sum else sum + n))
      case Err(e) =>
        if failfast || !Catchable(e) then Walk(w.trace, Err(e))
        else Then(w.trace, SizeEntries(node, i + 1, dir, failfast, reply, sizes, true, sum))
  }

  /** One entry of the listing: a directory is walked by dirSize without
      failfast; anything else is asked for its size. */
  function SizeEntry(child: Remote, dir: string, reply: Oracle, sizes: Sizes): (w: Walk<nat>)
    decreases child, 3, 0
  {
    var path := dir + "/" + child.name;
    if child.kind == Directory then DirSize(child, path, false, reply, sizes)
    else match reply(SizeOf(path))
      case Some(e) => Walk([Step(SizeOf(path), Some(e))], Err(e))
      case None => Walk([Step(SizeOf(path), None)], Ok(sizes(path)))
  }

  lemma {:induction false} DirSizeSettles(node: Remote, dir: string, failfast: bool, reply: Oracle, sizes: Sizes)
    ensures Settles(DirSize(node, dir, failfast, reply, sizes), false)
    ensures OnlyCatchable(reply) && DirSize(node, dir, failfast, reply, sizes).result.Err?
            ==> Catchable(DirSize(node, dir, failfast, reply, sizes).result.error)
    decreases node, 2, 0
  {
    var list := Step(List(dir), reply(List(dir)));
    OneStep(list);
    if list.error.None? {
      SizeEntriesSettles(node, 0, dir, failfast, reply, sizes, false, 0);
      var w := SizeEntries(node, 0, dir, failfast, reply, sizes, false, 0);
      CleanJoin([list], w.trace);
      if w.result.Err? && !Catchable(w.result.error) {
        StopsAtJoin([list], w.trace, w.result.error);
      }
    }
  }

  lemma {:induction false} SizeEntriesSettles(node: Remote, i: nat, dir: string, failfast: bool, reply: Oracle,
                                              sizes: Sizes, failed: bool, sum: nat)
    requires i <= |node.entries|
    ensures Settles(SizeEntries(node, i, dir, failfast, reply, sizes, failed, sum), failed)
    ensures OnlyCatchable(reply) && SizeEntries(node, i, dir, failfast, reply, sizes, failed, sum).result.Err?
            ==> Catchable(SizeEntries(node, i, dir, failfast, reply, sizes, failed, sum).result.error)
    decreases node, 1, |node.entries| - i
  {
    if i < |node.entries| {
      var child := node.entries[i];
      var w := SizeEntry(child, dir, reply, sizes);
      SizeEntrySettles(child, dir, reply, sizes);
      if w.result.Ok? {
        var next := if child.kind == Directory then sum else sum + w.result.value;
        SizeEntriesSettles(node, i + 1, dir, failfast, reply, sizes, failed, next);
        var rest := SizeEntries(node, i + 1, dir, failfast, reply, sizes, failed, next);
        CleanJoin(w.trace, rest.trace);
        if rest.result.Err? && !Catchable(rest.result.error) {
          StopsAtJoin(w.trace, rest.trace, rest.result.error);
        }
      } else if !failfast && Catchable(w.result.error) {
        SizeEntriesSettles(node, i + 1, dir, failfast, reply, sizes, true, sum);
        var rest := SizeEntries(node, i + 1, dir, failfast, reply, sizes, true, sum);
        CleanJoin(w.trace, rest.trace);
        if !Catchable(rest.result.error) {
          StopsAtJoin(w.trace, rest.trace, rest.result.error);
        }
      }
    }
  }

  lemma {:induction false} SizeEntrySettles(child: Remote, dir: string, reply: Oracle, sizes: Sizes)
    ensures Settles(SizeEntry(child, dir, reply, sizes), false)
    ensures OnlyCatchable(reply) && SizeEntry(child, dir, reply, sizes).result.Err?
            ==> Catchable(SizeEntry(child, dir, reply, sizes).result.error)
    decreases child, 3, 0
  {
    var path := dir + "/" + child.name;
    if child.kind == Directory {
      DirSizeSettles(child, path, false, reply, sizes);
    } else {
      OneStep(Step(SizeOf(path), reply(SizeOf(path))));
    }
  }

  /** The sizes of the entries from i on that are not directories. */
  function FileBytes(node: Remote, i: nat, dir: string, sizes: Sizes): nat
    requires i <= |node.entries|
    decreases |node.entries| - i
  {
    if i == |node.entries| then 0
    else (if node.entries[i].kind == Directory then 0 else sizes(dir + "/" + node.entries[i].name))
         + FileBytes(node, i + 1, dir, sizes)
  }

  /** The sizes of every non-directory in the tree below `node`. */
  function TreeBytes(node: Remote, dir: string, sizes: Sizes): nat
    decreases node, |node.entries| + 1
  {
    TreeBytesFrom(node, 0, dir, sizes)
  }

  function TreeBytesFrom(node: Remote, i: nat, dir: string, sizes: Sizes): nat
    requires i <= |node.entries|
    decreases node, |node.entries| - i
  {
    if i == |node.entries| then 0
    else
      var child := node.entries[i];
      var path := dir + "/" + child.name;
      (if child.kind == Directory then TreeBytes(child, path, sizes) else sizes(path))
      + TreeBytesFrom(node, i + 1, dir, sizes)
  }

  lemma {:induction false} SizeEntriesSum(node: Remote, i: nat, dir: string, failfast: bool, reply: Oracle,
                                          sizes: Sizes, failed: bool, sum: nat)
    requires i <= |node.entries|
    ensures SizeEntries(node, i, dir, failfast, reply, sizes, failed, sum).result.Ok?
            ==> SizeEntries(node, i, dir, failfast, reply, sizes, failed, sum).result.value
                == sum + FileBytes(node, i, dir, sizes)
    decreases |node.entries| - i
  {
    if i < |node.entries| {
      var child := node.entries[i];
      var w := SizeEntry(child, dir, reply, sizes);
      if w.result.Ok? {
        SizeEntriesSum(node, i + 1, dir, failfast, reply, sizes, failed,
                       if child.kind == Directory then sum else sum + w.result.value);
      } else if !failfast && Catchable(w.result.error) {
        SizeEntriesSettles(node, i + 1, dir, failfast, reply, sizes, true, sum);
      }
    }
  }

  /** When dirSize succeeds it returns the sizes of the directory's own
      non-directory entries: what the subdirectories hold is not added. */
  lemma DirSizeIsImmediate(node: Remote, dir: string, failfast: bool, reply: Oracle, sizes: Sizes)
    ensures DirSize(node, dir, failfast, reply, sizes).result.Ok?
            ==> DirSize(node, dir, failfast, reply, sizes).result.value == FileBytes(node, 0, dir, sizes)
  {
    SizeEntriesSum(node, 0, dir, failfast, reply, sizes, false, 0);
  }

  /** The operations the entries i..k-1 attempt, each on its own, one
      after the other. */
  function SizeSiblings(node: Remote, i: nat, k: nat, dir: string, reply: Oracle, sizes: Sizes): seq<Step>
    requires i <= k <= |node.entries|
    decreases k - i
  {
    if i == k then []
    else SizeEntry(node.entries[i], dir, reply, sizes).trace + SizeSiblings(node, i + 1, k, dir, reply, sizes)
  }

  /** Some entry from i on fails on its own. */
  predicate SomeSizeFails(node: Remote, i: nat, dir: string, reply: Oracle, sizes: Sizes)
    requires i <= |node.entries|
  {
    exists j :: i <= j < |node.entries| && SizeEntry(node.entries[j], dir, reply, sizes).result.Err?
  }

  lemma SomeSizeFailsCons(node: Remote, i: nat, dir: string, reply: Oracle, sizes: Sizes)
    requires i < |node.entries|
    ensures SomeSizeFails(node, i, dir, reply, sizes)
            <==> SizeEntry(node.entries[i], dir, reply, sizes).result.Err? || SomeSizeFails(node, i + 1, dir, reply, sizes)
  {
    if SomeSizeFails(node, i, dir, reply, sizes) && SizeEntry(node.entries[i], dir, reply, sizes).result.Ok? {
      var j :| i <= j < |node.entries| && SizeEntry(node.entries[j], dir, reply, sizes).result.Err?;
      assert j != i;
    }
  }

  /** Without failfast, a catchable failure of entry i only sets the
      flag, and the loop goes on with the next entry. */
  lemma SizeEntriesStep(node: Remote, i: nat, dir: string, reply: Oracle, sizes: Sizes, failed: bool, sum: nat)
    requires i < |node.entries| && OnlyCatchable(reply)
    ensures var child := node.entries[i];
            var w := SizeEntry(child, dir, reply, sizes);
            && (w.result.Ok? && child.kind != Directory ==> w.result.value == sizes(dir + "/" + child.name))
            && SizeEntries(node, i, dir, false, reply, sizes, failed, sum)
               == Then(w.trace, SizeEntries(node, i + 1, dir, false, reply, sizes, failed || w.result.Err?,
                                            if w.result.Ok? && child.kind != Directory then sum + w.result.value else sum))
  {
    SizeEntrySettles(node.entries[i], dir, reply, sizes);
  }

  lemma {:induction false} SizeEntriesBestEffort(node: Remote, i: nat, dir: string, reply: Oracle, sizes: Sizes,
                                                 failed: bool, sum: nat)
    requires i <= |node.entries| && OnlyCatchable(reply)
    ensures SizeEntries(node, i, dir, false, reply, sizes, failed, sum).trace
            == SizeSiblings(node, i, |node.entries|, dir, reply, sizes)
    ensures SizeEntries(node, i, dir, false, reply, sizes, failed, sum).result
            == if failed || SomeSizeFails(node, i, dir, reply, sizes) then Err(SizeFailed)
               else Ok(sum + FileBytes(node, i, dir, sizes))
    decreases |node.entries| - i
  {
    if i < |node.entries| {
      var child := node.entries[i];
      var w := SizeEntry(child, dir, reply, sizes);
      SizeEntriesStep(node, i, dir, reply, sizes, failed, sum);
      SomeSizeFailsCons(node, i, dir, reply, sizes);
      var next := if w.result.Ok? && child.kind != Directory then sum + w.result.value else sum;
      SizeEntriesBestEffort(node, i + 1, dir, reply, sizes, failed || w.result.Err?, next);
    }
  }

  /** Without failfast, and with only catchable exceptions, dirSize of a
      directory whose listing succeeds asks about every listed entry in
      listing order, each exactly as it would on its own, and throws the
      aggregate exception exactly when one of them failed; otherwise it
      returns the sizes of its own files. */
  lemma DirSizeBestEffort(node: Remote, dir: string, reply: Oracle, sizes: Sizes)
    requires OnlyCatchable(reply) && reply(List(dir)).None?
    ensures DirSize(node, dir, false, reply, sizes).trace
            == [Step(List(dir), None)] + SizeSiblings(node, 0, |node.entries|, dir, reply, sizes)
    ensures DirSize(node, dir, false, reply, sizes).result
            == if SomeSizeFails(node, 0, dir, reply, sizes) then Err(SizeFailed) else Ok(FileBytes(node, 0, dir, sizes))
  {
    SizeEntriesBestEffort(node, 0, dir, reply, sizes, false, 0);
  }

  lemma {:induction false} SizeEntriesFailfast(node: Remote, i: nat, dir: string, reply: Oracle, sizes: Sizes,
                                               failed: bool, sum: nat, j: nat)
    requires i <= j < |node.entries|
    requires forall k :: i <= k < j ==> SizeEntry(node.entries[k], dir, reply, sizes).result.Ok?
    requires SizeEntry(node.entries[j], dir, reply, sizes).result.Err?
    ensures SizeEntries(node, i, dir, true, reply, sizes, failed, sum).trace
            == SizeSiblings(node, i, j + 1, dir, reply, sizes)
    ensures SizeEntries(node, i, dir, true, reply, sizes, failed, sum).result
            == SizeEntry(node.entries[j], dir, reply, sizes).result
    decreases j - i
  {
    var child := node.entries[i];
    var w := SizeEntry(child, dir, reply, sizes);
    if i < j {
      SizeEntriesFailfast(node, i + 1, dir, reply, sizes, failed,
                          if child.kind == Directory then sum else sum + w.result.value, j);
    }
  }

  /** With failfast, dirSize of a directory whose listing succeeds stops
      at the first listed entry that fails: the entries before it and
      that entry itself are attempted, nothing after it, and its own
      exception is what dirSize throws. */
  lemma DirSizeFailfast(node: Remote, dir: string, reply: Oracle, sizes: Sizes, j: nat)
    requires reply(List(dir)).None? && j < |node.entries|
    requires forall k :: 0 <= k < j ==> SizeEntry(node.entries[k], dir, reply, sizes).result.Ok?
    requires SizeEntry(node.entries[j], dir, reply, sizes).result.Err?
    ensures DirSize(node, dir, true, reply, sizes).trace
            == [Step(List(dir), None)] + SizeSiblings(node, 0, j + 1, dir, reply, sizes)
    ensures DirSize(node, dir, true, reply, sizes).result == SizeEntry(node.entries[j], dir, reply, sizes).result
  {
    SizeEntriesFailfast(node, 0, dir, reply, sizes, false, 0, j);
  }

  /** A directory /r holding a file f of 5 bytes and a subdirectory d
      with files a and b of 10 and 20 bytes. */
  function SampleTree(): Remote
  {
    TreeDownload.Remote("r", Directory, [
      TreeDownload.Remote("f", File, []),
      TreeDownload.Remote("d", Directory, [TreeDownload.Remote("a", File, []), TreeDownload.Remote("b", File, [])])])
  }

  function SampleSizes(): Sizes
  {
    p => if p == "/r/f" then 5 else if p == "/r/d/a" then 10 else if p == "/r/d/b" then 20 else 0
  }

  /** With every operation succeeding, dirSize of the sample reports 5,
      where its tree holds 35 bytes. */
  lemma SampleDirSize()
    ensures DirSize(SampleTree(), "/r", false, _ => None, SampleSizes()).result == Ok(5)
    ensures TreeBytes(SampleTree(), "/r", SampleSizes()) == 35
  {
    var t, z := SampleTree(), SampleSizes();
    assert "/r" + "/" + "f" == "/r/f";
    assert "/r" + "/" + "d" == "/r/d";
    assert "/r/d" + "/" + "a" == "/r/d/a";
    assert "/r/d" + "/" + "b" == "/r/d/b";
    DirSizeIsImmediate(t, "/r", false, _ => None, z);
  }

  /** The first size asked inside d fails. */
  function SampleReply(): Oracle
  {
    op => if op == SizeOf("/r/d/a") then Some(FtpError(General, "could not get size of '/r/d/a'")) else None
  }

  /** failfast does not reach the subdirectory: with failfast, dirSize of
      the sample still asks for b after a failed inside d, and throws d's
      aggregate exception instead of a's; f, listed after d, is never
      asked for. */
  lemma SampleFailfastStaysOutOfSubdirectories()
    ensures var t := TreeDownload.Remote("r", Directory, [SampleTree().entries[1], SampleTree().entries[0]]);
            var w := DirSize(t, "/r", true, SampleReply(), SampleSizes());
            && w.result == Err(SizeFailed)
            && w.trace == [Step(List("/r"), None), Step(List("/r/d"), None),
                           Step(SizeOf("/r/d/a"), SampleReply()(SizeOf("/r/d/a"))), Step(SizeOf("/r/d/b"), None)]
  {
    var reply, z := SampleReply(), SampleSizes();
    var d := SampleTree().entries[1];
    var t := TreeDownload.Remote("r", Directory, [d, SampleTree().entries[0]]);
    var e := FtpError(General, "could not get size of '/r/d/a'");
    var a, b := Step(SizeOf("/r/d/a"), Some(e)), Step(SizeOf("/r/d/b"), None);
    assert "/r" + "/" + "d" == "/r/d";
    assert "/r/d" + "/" + "a" == "/r/d/a";
    assert "/r/d" + "/" + "b" == "/r/d/b";
    assert SizeEntry(d.entries[0], "/r/d", reply, z) == Walk([a], Err(e));
    assert SizeEntry(d.entries[1], "/r/d", reply, z) == Walk([b], Ok(20));
    assert SizeEntries(d, 1, "/r/d", false, reply, z, true, 0) == Walk([b], Err(SizeFailed));
    assert SizeEntries(d, 0, "/r/d", false, reply, z, false, 0) == Walk([a, b], Err(SizeFailed));
    assert SizeEntry(d, "/r", reply, z) == Walk([Step(List("/r/d"), None), a, b], Err(SizeFailed));
    assert SizeEntries(t, 0, "/r", true, reply, z, false, 0) == Walk([Step(List("/r/d"), None), a, b], Err(SizeFailed));
  }
}
