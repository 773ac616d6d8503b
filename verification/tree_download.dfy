/** getDir: downloading a remote directory tree. */
module TreeDownload {
  import opened Common
  import opened TreeWalk
  import TransferMode
  import opened Listing

  /** A remote tree as dirList describes it: each node has the name and
      type its parent's listing gives it, and the entries dirList returns
      for its own path, in listing order. */
  datatype Remote = Remote(name: string, kind: Kind, entries: seq<Remote>)

  /** What the local file system holds at a path when getDir looks at it. */
  datatype LocalState = LocalDirectory | LocalFile | LocalMissing(creatable: bool)

  /** The local file system at each path. */
  type LocalView = string -> LocalState

  /** The exception of the local precondition checks, if any: an existing
      path must be a directory, a missing one must be creatable. */
  function LocalCheck(state: LocalState, local: string): (r: Option<FtpError>)
    ensures r.None? <==> state.LocalDirectory? || state == LocalMissing(true)
  {
    match state
    case LocalFile => Some(FtpError(General, "local path '" + local + "' is no directory"))
    case LocalMissing(false) => Some(FtpError(General, "could not create local directory '" + local + "'"))
    case _ => None
  }

  const DownloadFailed: FtpError := FtpError(General, "unable to copy folder from server")

  /** getDir of `node` from the remote path `remote` to the local path
      `local`. The listing of `remote` is not inside a try block, so its
      exception leaves this call whatever the policy. */
  function GetDir(node: Remote, local: string, remote: string, mode: TransferMode.ModeArg,
                  failfast: bool, reply: Oracle, disk: LocalView): (w: Walk<()>)
    decreases node, 2, 0
  {
    match LocalCheck(disk(local), local)
    case Some(e) => Walk([Step(PrepareLocal(local), Some(e))], Err(e))
    case None =>
      Then([Step(PrepareLocal(local), None)],
        match reply(List(remote))
        case Some(e) => Walk([Step(List(remote), Some(e))], Err(e))
        case None =>
          Then([Step(List(remote), None)], GetEntries(node, 0, local, remote, mode, failfast, reply, disk, false)))
  }

  /** The loop over the listing from entry i on. */
  function GetEntries(node: Remote, i: nat, local: string, remote: string, mode: TransferMode.ModeArg,
                      failfast: bool, reply: Oracle, disk: LocalView, failed: bool): (w: Walk<()>)
    requires i <= |node.entries|
    decreases node, 1, |node.entries| - i
  {
    if i == |node.entries| then Walk([], if failed then Err(DownloadFailed) else Ok(()))
    else
      var w := GetEntry(node.entries[i], local, remote, mode, failfast, reply, disk);
      match w.result
      case Ok(_) => Then(w.trace, GetEntries(node, i + 1, local, remote, mode, failfast, reply, disk, failed))
      case Err(e) =>
        if failfast || !Catchable(e) then w
        else Then(w.trace, GetEntries(node, i + 1, local, remote, mode, failfast, reply, disk, true))
  }

  /** One entry of the listing: a directory (type 1) is created locally,
      whatever that mkdir returns, and downloaded recursively; everything
      else, "." and ".." included, is downloaded with get, its mode
      resolved on the remote name. */
  function GetEntry(child: Remote, local: string, remote: string, mode: TransferMode.ModeArg,
                    failfast: bool, reply: Oracle, disk: LocalView): (w: Walk<()>)
    decreases child, 3, 0
  {
    var cl, cr := local + "/" + child.name, remote + "/" + child.name;
    if child.kind == Directory then
      Then([Step(MakeLocal(cl), None)], GetDir(child, cl, cr, mode, failfast, reply, disk))
    else
      var op := Download(cl, cr, TransferMode.ResolveGet(mode, cr));
      Walk([Step(op, reply(op))], if reply(op).Some? then Err(reply(op).value) else Ok(()))
  }

  lemma {:induction false} GetDirOutcome(node: Remote, local: string, remote: string,
                                         mode: TransferMode.ModeArg, failfast: bool, reply: Oracle, disk: LocalView)
    ensures Promise(GetDir(node, local, remote, mode, failfast, reply, disk), failfast, false)
    ensures OnlyCatchable(reply) && GetDir(node, local, remote, mode, failfast, reply, disk).result.Err?
            ==> Catchable(GetDir(node, local, remote, mode, failfast, reply, disk).result.error)
    decreases node, 2, 0
  {
    var check := Step(PrepareLocal(local), LocalCheck(disk(local), local));
    OneStep(check);
    if check.error.None? {
      var list := Step(List(remote), reply(List(remote)));
      OneStep(list);
      if list.error.Some? {
        CleanJoin([check], [list]);
        StopsAtJoin([check], [list], list.error.value);
      } else {
        GetEntriesOutcome(node, 0, local, remote, mode, failfast, reply, disk, false);
        var w := GetEntries(node, 0, local, remote, mode, failfast, reply, disk, false);
        CleanJoin([list], w.trace);
        CleanJoin([check], [list] + w.trace);
        assert [check] + ([list] + w.trace) == [check, list] + w.trace;
        CleanJoin([check], [list]);
        if w.result.Err? && (failfast || !Catchable(w.result.error)) {
          StopsAtJoin([check, list], w.trace, w.result.error);
        }
      }
    }
  }

  lemma {:induction false} GetEntriesOutcome(node: Remote, i: nat, local: string, remote: string,
                                             mode: TransferMode.ModeArg, failfast: bool, reply: Oracle,
                                             disk: LocalView, failed: bool)
    requires i <= |node.entries|
    ensures Promise(GetEntries(node, i, local, remote, mode, failfast, reply, disk, failed), failfast, failed)
    ensures OnlyCatchable(reply) && GetEntries(node, i, local, remote, mode, failfast, reply, disk, failed).result.Err?
            ==> Catchable(GetEntries(node, i, local, remote, mode, failfast, reply, disk, failed).result.error)
    decreases node, 1, |node.entries| - i
  {
    if i < |node.entries| {
      var w := GetEntry(node.entries[i], local, remote, mode, failfast, reply, disk);
      GetEntryOutcome(node.entries[i], local, remote, mode, failfast, reply, disk);
      if w.result.Ok? {
        GetEntriesOutcome(node, i + 1, local, remote, mode, failfast, reply, disk, failed);
        var rest := GetEntries(node, i + 1, local, remote, mode, failfast, reply, disk, failed);
        CleanJoin(w.trace, rest.trace);
        if rest.result.Err? && ((failfast && !failed) || !Catchable(rest.result.error)) {
          StopsAtJoin(w.trace, rest.trace, rest.result.error);
        }
      } else if !failfast && Catchable(w.result.error) {
        GetEntriesOutcome(node, i + 1, local, remote, mode, failfast, reply, disk, true);
        var rest := GetEntries(node, i + 1, local, remote, mode, failfast, reply, disk, true);
        CleanJoin(w.trace, rest.trace);
        if !Catchable(rest.result.error) {
          StopsAtJoin(w.trace, rest.trace, rest.result.error);
        }
      }
    }
  }

  lemma {:induction false} GetEntryOutcome(child: Remote, local: string, remote: string,
                                           mode: TransferMode.ModeArg, failfast: bool, reply: Oracle, disk: LocalView)
    ensures Promise(GetEntry(child, local, remote, mode, failfast, reply, disk), failfast, false)
    ensures OnlyCatchable(reply) && GetEntry(child, local, remote, mode, failfast, reply, disk).result.Err?
            ==> Catchable(GetEntry(child, local, remote, mode, failfast, reply, disk).result.error)
    decreases child, 3, 0
  {
    var cl, cr := local + "/" + child.name, remote + "/" + child.name;
    if child.kind != Directory {
      var op := Download(cl, cr, TransferMode.ResolveGet(mode, cr));
      OneStep(Step(op, reply(op)));
    } else {
      OneStep(Step(MakeLocal(cl), None));
      GetDirOutcome(child, cl, cr, mode, failfast, reply, disk);
      var w := GetDir(child, cl, cr, mode, failfast, reply, disk);
      CleanJoin([Step(MakeLocal(cl), None)], w.trace);
      if w.result.Err? && (failfast || !Catchable(w.result.error)) {
        StopsAtJoin([Step(MakeLocal(cl), None)], w.trace, w.result.error);
      }
    }
  }

  /** The exception of the listing of the directory itself reaches the
      caller unchanged, with failfast or without. */
  lemma GetDirListingEscapes(node: Remote, local: string, remote: string, mode: TransferMode.ModeArg,
                             failfast: bool, reply: Oracle, disk: LocalView)
    requires LocalCheck(disk(local), local).None? && reply(List(remote)).Some?
    ensures GetDir(node, local, remote, mode, failfast, reply, disk).result == Err(reply(List(remote)).value)
    ensures GetDir(node, local, remote, mode, failfast, reply, disk).trace
            == [Step(PrepareLocal(local), None), Step(List(remote), reply(List(remote)))]
  {
  }

  /** The traces of entries i.. of `node`, each downloaded on its own. */
  function GetSiblings(node: Remote, i: nat, local: string, remote: string, mode: TransferMode.ModeArg,
                       failfast: bool, reply: Oracle, disk: LocalView): seq<Step>
    requires i <= |node.entries|
    decreases |node.entries| - i
  {
    if i == |node.entries| then []
    else GetEntry(node.entries[i], local, remote, mode, failfast, reply, disk).trace
         + GetSiblings(node, i + 1, local, remote, mode, failfast, reply, disk)
  }

  /** Some entry from i on fails on its own. */
  predicate SomeGetFails(node: Remote, i: nat, local: string, remote: string, mode: TransferMode.ModeArg,
                         failfast: bool, reply: Oracle, disk: LocalView)
    requires i <= |node.entries|
  {
    exists j :: i <= j < |node.entries| && GetEntry(node.entries[j], local, remote, mode, failfast, reply, disk).result.Err?
  }

  lemma {:induction false} GetEntriesBestEffort(node: Remote, i: nat, local: string, remote: string,
                                                mode: TransferMode.ModeArg, reply: Oracle, disk: LocalView, failed: bool)
    requires i <= |node.entries| && OnlyCatchable(reply)
    ensures GetEntries(node, i, local, remote, mode, false, reply, disk, failed).trace
            == GetSiblings(node, i, local, remote, mode, false, reply, disk)
    ensures GetEntries(node, i, local, remote, mode, false, reply, disk, failed).result
            == if failed || SomeGetFails(node, i, local, remote, mode, false, reply, disk) then Err(DownloadFailed) else Ok(())
    decreases |node.entries| - i
  {
    if i < |node.entries| {
      var w := GetEntry(node.entries[i], local, remote, mode, false, reply, disk);
      GetEntryOutcome(node.entries[i], local, remote, mode, false, reply, disk);
      GetEntriesBestEffort(node, i + 1, local, remote, mode, reply, disk, failed || w.result.Err?);
      if SomeGetFails(node, i + 1, local, remote, mode, false, reply, disk) {
        var j :| i + 1 <= j < |node.entries| && GetEntry(node.entries[j], local, remote, mode, false, reply, disk).result.Err?;
        assert SomeGetFails(node, i, local, remote, mode, false, reply, disk);
      }
      if SomeGetFails(node, i, local, remote, mode, false, reply, disk) && w.result.Ok? {
        var j :| i <= j < |node.entries| && GetEntry(node.entries[j], local, remote, mode, false, reply, disk).result.Err?;
        assert j != i;
      }
    }
  }

  /** Without failfast, and with only catchable exceptions, getDir of a
      directory whose local side is usable and whose listing succeeds
      attempts every listed entry in listing order, each exactly as it
      would on its own, and fails with the aggregate exception exactly
      when one of them failed. */
  lemma GetDirBestEffort(node: Remote, local: string, remote: string, mode: TransferMode.ModeArg,
                         reply: Oracle, disk: LocalView)
    requires OnlyCatchable(reply) && LocalCheck(disk(local), local).None? && reply(List(remote)).None?
    ensures GetDir(node, local, remote, mode, false, reply, disk).trace
            == [Step(PrepareLocal(local), None), Step(List(remote), None)]
               + GetSiblings(node, 0, local, remote, mode, false, reply, disk)
    ensures GetDir(node, local, remote, mode, false, reply, disk).result
            == if SomeGetFails(node, 0, local, remote, mode, false, reply, disk) then Err(DownloadFailed) else Ok(())
  {
    GetEntriesBestEffort(node, 0, local, remote, mode, reply, disk, false);
  }
}
