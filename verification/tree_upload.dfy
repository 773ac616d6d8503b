/** putDir: uploading a local directory tree. */
module TreeUpload {
  import opened Common
  import opened TreeWalk
  import TransferMode
  import opened Listing

  /** A local tree as readdir yields it: every node has a name, is a
      directory or not, and a directory lists its entries in readdir
      order, "." and ".." included when the file system yields them. */
  datatype Local = Local(name: string, isDir: bool, entries: seq<Local>)

  function NotDirectory(local: string): FtpError
  {
    FtpError(General, "directory '" + local + "' is not directory")
  }

  function CannotOpen(local: string): FtpError
  {
    FtpError(General, "could not open the directory '" + local + "'")
  }

  const UploadFailed: FtpError := FtpError(General, "unable to copy folder to server")

  /** putDir of `node` from the local path `local` to the remote path
      `remote`. */
  function PutDir(node: Local, local: string, remote: string, mode: TransferMode.ModeArg,
                  failfast: bool, reply: Oracle): (w: Walk<()>)
    decreases node, 2, 0
  {
    if !node.isDir then
      Walk([Step(CheckDir(local), Some(NotDirectory(local)))], Err(NotDirectory(local)))
    else if reply(OpenDir(local)).Some? then
      Walk([Step(OpenDir(local), Some(CannotOpen(local)))], Err(CannotOpen(local)))
    else
      Then([Step(OpenDir(local), None)], PutEntries(node, 0, local, remote, mode, failfast, reply, false))
  }

  /** The readdir loop from entry i on; `failed` says whether a caught
      exception has set the error flag. */
  function PutEntries(node: Local, i: nat, local: string, remote: string, mode: TransferMode.ModeArg,
                      failfast: bool, reply: Oracle, failed: bool): (w: Walk<()>)
    requires i <= |node.entries|
    decreases node, 1, |node.entries| - i
  {
    if i == |node.entries| then Walk([], if failed then Err(UploadFailed) else Ok(()))
    else
      var w := PutEntry(node.entries[i], local, remote, mode, failfast, reply);
      match w.result
      case Ok(_) => Then(w.trace, PutEntries(node, i + 1, local, remote, mode, failfast, reply, failed))
      case Err(e) =>
        if failfast || !Catchable(e) then w
        else Then(w.trace, PutEntries(node, i + 1, local, remote, mode, failfast, reply, true))
  }

  /** One entry of the loop: a directory other than "." and ".." is
      created on the server and uploaded recursively (a failed mkdir skips
      the recursion); everything else is uploaded with put. */
  function PutEntry(child: Local, local: string, remote: string, mode: TransferMode.ModeArg,
                    failfast: bool, reply: Oracle): (w: Walk<()>)
    decreases child, 3, 0
  {
    var cl, cr := local + "/" + child.name, remote + "/" + child.name;
    if child.isDir && !IsDots(child.name) then
      match reply(MakeRemote(cr))
      case Some(e) => Walk([Step(MakeRemote(cr), Some(e))], Err(e))
      case None => Then([Step(MakeRemote(cr), None)], PutDir(child, cl, cr, mode, failfast, reply))
    else
      var op := Upload(cl, cr, TransferMode.ResolvePut(mode, cl));
      Walk([Step(op, reply(op))], if reply(op).Some? then Err(reply(op).value) else Ok(()))
  }

  lemma {:induction false} PutDirOutcome(node: Local, local: string, remote: string,
                                         mode: TransferMode.ModeArg, failfast: bool, reply: Oracle)
    ensures Promise(PutDir(node, local, remote, mode, failfast, reply), failfast, false)
    ensures OnlyCatchable(reply) && PutDir(node, local, remote, mode, failfast, reply).result.Err?
            ==> Catchable(PutDir(node, local, remote, mode, failfast, reply).result.error)
    decreases node, 2, 0
  {
    if !node.isDir {
      OneStep(Step(CheckDir(local), Some(NotDirectory(local))));
    } else if reply(OpenDir(local)).Some? {
      OneStep(Step(OpenDir(local), Some(CannotOpen(local))));
    } else {
      OneStep(Step(OpenDir(local), None));
      PutEntriesOutcome(node, 0, local, remote, mode, failfast, reply, false);
      var w := PutEntries(node, 0, local, remote, mode, failfast, reply, false);
      CleanJoin([Step(OpenDir(local), None)], w.trace);
      if w.result.Err? && (failfast || !Catchable(w.result.error)) {
        StopsAtJoin([Step(OpenDir(local), None)], w.trace, w.result.error);
      }
    }
  }

  lemma {:induction false} PutEntriesOutcome(node: Local, i: nat, local: string, remote: string,
                                             mode: TransferMode.ModeArg, failfast: bool, reply: Oracle,
                                             failed: bool)
    requires i <= |node.entries|
    ensures Promise(PutEntries(node, i, local, remote, mode, failfast, reply, failed), failfast, failed)
    ensures OnlyCatchable(reply) && PutEntries(node, i, local, remote, mode, failfast, reply, failed).result.Err?
            ==> Catchable(PutEntries(node, i, local, remote, mode, failfast, reply, failed).result.error)
    decreases node, 1, |node.entries| - i
  {
    if i < |node.entries| {
      var w := PutEntry(node.entries[i], local, remote, mode, failfast, reply);
      PutEntryOutcome(node.entries[i], local, remote, mode, failfast, reply);
      if w.result.Ok? {
        PutEntriesOutcome(node, i + 1, local, remote, mode, failfast, reply, failed);
        var rest := PutEntries(node, i + 1, local, remote, mode, failfast, reply, failed);
        CleanJoin(w.trace, rest.trace);
        if rest.result.Err? && ((failfast && !failed) || !Catchable(rest.result.error)) {
          StopsAtJoin(w.trace, rest.trace, rest.result.error);
        }
      } else if !failfast && Catchable(w.result.error) {
        PutEntriesOutcome(node, i + 1, local, remote, mode, failfast, reply, true);
        var rest := PutEntries(node, i + 1, local, remote, mode, failfast, reply, true);
        CleanJoin(w.trace, rest.trace);
        if !Catchable(rest.result.error) {
          StopsAtJoin(w.trace, rest.trace, rest.result.error);
        }
      }
    }
  }

  lemma {:induction false} PutEntryOutcome(child: Local, local: string, remote: string,
                                           mode: TransferMode.ModeArg, failfast: bool, reply: Oracle)
    ensures Promise(PutEntry(child, local, remote, mode, failfast, reply), failfast, false)
    ensures OnlyCatchable(reply) && PutEntry(child, local, remote, mode, failfast, reply).result.Err?
            ==> Catchable(PutEntry(child, local, remote, mode, failfast, reply).result.error)
    decreases child, 3, 0
  {
    var cl, cr := local + "/" + child.name, remote + "/" + child.name;
    if !child.isDir || IsDots(child.name) {
      var op := Upload(cl, cr, TransferMode.ResolvePut(mode, cl));
      OneStep(Step(op, reply(op)));
    } else if reply(MakeRemote(cr)).Some? {
      OneStep(Step(MakeRemote(cr), reply(MakeRemote(cr))));
    } else {
      OneStep(Step(MakeRemote(cr), None));
      PutDirOutcome(child, cl, cr, mode, failfast, reply);
      var w := PutDir(child, cl, cr, mode, failfast, reply);
      CleanJoin([Step(MakeRemote(cr), None)], w.trace);
      if w.result.Err? && (failfast || !Catchable(w.result.error)) {
        StopsAtJoin([Step(MakeRemote(cr), None)], w.trace, w.result.error);
      }
    }
  }

  /** The traces of entries i.. of `node`, each uploaded on its own. */
  function PutSiblings(node: Local, i: nat, local: string, remote: string, mode: TransferMode.ModeArg,
                       failfast: bool, reply: Oracle): seq<Step>
    requires i <= |node.entries|
    decreases |node.entries| - i
  {
    if i == |node.entries| then []
    else PutEntry(node.entries[i], local, remote, mode, failfast, reply).trace
         + PutSiblings(node, i + 1, local, remote, mode, failfast, reply)
  }

  /** Some entry from i on fails on its own. */
  predicate SomePutFails(node: Local, i: nat, local: string, remote: string, mode: TransferMode.ModeArg,
                         failfast: bool, reply: Oracle)
    requires i <= |node.entries|
  {
    exists j :: i <= j < |node.entries| && PutEntry(node.entries[j], local, remote, mode, failfast, reply).result.Err?
  }

  lemma {:induction false} PutEntriesBestEffort(node: Local, i: nat, local: string, remote: string,
                                                mode: TransferMode.ModeArg, reply: Oracle, failed: bool)
    requires i <= |node.entries| && OnlyCatchable(reply)
    ensures PutEntries(node, i, local, remote, mode, false, reply, failed).trace
            == PutSiblings(node, i, local, remote, mode, false, reply)
    ensures PutEntries(node, i, local, remote, mode, false, reply, failed).result
            == if failed || SomePutFails(node, i, local, remote, mode, false, reply) then Err(UploadFailed) else Ok(())
    decreases |node.entries| - i
  {
    if i < |node.entries| {
      var w := PutEntry(node.entries[i], local, remote, mode, false, reply);
      PutEntryOutcome(node.entries[i], local, remote, mode, false, reply);
      PutEntriesBestEffort(node, i + 1, local, remote, mode, reply, failed || w.result.Err?);
      if SomePutFails(node, i + 1, local, remote, mode, false, reply) {
        var j :| i + 1 <= j < |node.entries| && PutEntry(node.entries[j], local, remote, mode, false, reply).result.Err?;
        assert SomePutFails(node, i, local, remote, mode, false, reply);
      }
      if SomePutFails(node, i, local, remote, mode, false, reply) && w.result.Ok? {
        var j :| i <= j < |node.entries| && PutEntry(node.entries[j], local, remote, mode, false, reply).result.Err?;
        assert j != i;
      }
    }
  }

  /** Without failfast, and with only catchable exceptions, putDir of a
      directory it can open attempts every entry in readdir order, each
      exactly as it would on its own, and fails with the aggregate
      exception exactly when one of them failed. */
  lemma PutDirBestEffort(node: Local, local: string, remote: string, mode: TransferMode.ModeArg, reply: Oracle)
    requires OnlyCatchable(reply) && node.isDir && reply(OpenDir(local)).None?
    ensures PutDir(node, local, remote, mode, false, reply).trace
            == [Step(OpenDir(local), None)] + PutSiblings(node, 0, local, remote, mode, false, reply)
    ensures PutDir(node, local, remote, mode, false, reply).result
            == if SomePutFails(node, 0, local, remote, mode, false, reply) then Err(UploadFailed) else Ok(())
  {
    PutEntriesBestEffort(node, 0, local, remote, mode, reply, false);
  }
}
