/** The three tree walks of the client: putDir uploads a local tree, getDir
    downloads a remote one, dirSize adds up file sizes. The trees are
    abstract; each operation a walk attempts is answered by an oracle, and
    a walk returns the trace of the operations it attempted, each with its
    outcome, together with its own result. All three share one failure
    policy: each child's work runs inside a `catch (FtpException)`; with
    failfast the first caught exception is rethrown at once, without it
    every sibling is attempted and one aggregate exception is thrown at
    the end if any child failed. */
module TreeWalk {
  import opened Common

  /** The operations a walk attempts. */
  datatype Op =
    | CheckDir(local: string)                       // is_dir on the local root
    | OpenDir(local: string)                        // opendir
    | MakeRemote(remote: string)                    // mkdir on the server
    | Upload(local: string, remote: string, mode: int)
    | PrepareLocal(local: string)                   // file_exists / is_dir / mkdir of the local root
    | MakeLocal(local: string)                      // mkdir of a local child, result ignored
    | List(remote: string)                          // dirList
    | Download(local: string, remote: string, mode: int)
    | SizeOf(remote: string)                        // size
    | RawListAll(remote: string)                    // recursive raw listing
    | DeleteFile(remote: string)                    // delete
    | RemoveTree(remote: string)                    // rmdir(folder, true), past the modelled depth
    | RemoveFolder(remote: string)                  // the final ftp_rmdir, result ignored

  /** One attempted operation and the exception it threw, if any. */
  datatype Step = Step(op: Op, error: Option<FtpError>)

  /** The trace of a walk and its result. */
  datatype Walk<T> = Walk(trace: seq<Step>, result: Result<T>)

  /** Each operation's answer: the exception it throws, or none. */
  type Oracle = Op -> Option<FtpError>

  /** A `catch (FtpException)` catches every exception of the client; the
      error PHP raises for the unassigned system type is not one. */
  predicate Catchable(e: FtpError) { e.kind != UnsetProperty }

  /** No attempted operation failed. */
  predicate Clean(trace: seq<Step>) { forall k :: 0 <= k < |trace| ==> trace[k].error.None? }

  /** The oracle only throws exceptions the walks catch. */
  ghost predicate OnlyCatchable(reply: Oracle) { forall op :: reply(op).Some? ==> Catchable(reply(op).value) }

  /** The last operation of `trace` threw `e`. */
  predicate LastThrew(trace: seq<Step>, e: FtpError)
  {
    |trace| > 0 && trace[|trace| - 1].error == Some(e)
  }

  /** `trace` is clean operations followed by one that threw `e`. */
  predicate StopsAt(trace: seq<Step>, e: FtpError)
  {
    LastThrew(trace, e) && Clean(trace[..|trace| - 1])
  }

  /** A trace of one step. */
  lemma OneStep(s: Step)
    ensures Clean([s]) <==> s.error.None?
    ensures s.error.Some? ==> StopsAt([s], s.error.value)
  {
    assert [s][0] == s;
    assert [s][..0] == [];
  }

  /** `w` with `trace` run before it. */
  function Then<T>(trace: seq<Step>, w: Walk<T>): Walk<T>
  {
    Walk(trace + w.trace, w.result)
  }

  lemma CleanJoin(a: seq<Step>, b: seq<Step>)
    ensures Clean(a + b) <==> Clean(a) && Clean(b)
  {
    if Clean(a) && Clean(b) {
      forall k | 0 <= k < |a + b| ensures (a + b)[k].error.None? {
        if k >= |a| {
          assert (a + b)[k] == b[k - |a|];
        }
      }
    }
    if Clean(a + b) {
      forall k | 0 <= k < |a| ensures a[k].error.None? {
        assert (a + b)[k] == a[k];
      }
      forall k | 0 <= k < |b| ensures b[k].error.None? {
        assert (a + b)[|a| + k] == b[k];
      }
    }
  }

  /** A clean prefix followed by a trace that stops at `e` stops at `e`;
      any prefix keeps the last operation last. */
  lemma StopsAtJoin(a: seq<Step>, b: seq<Step>, e: FtpError)
    requires LastThrew(b, e)
    ensures LastThrew(a + b, e)
    ensures Clean(a) && StopsAt(b, e) ==> StopsAt(a + b, e)
  {
    assert (a + b)[|a + b| - 1] == b[|b| - 1];
    assert (a + b)[..|a + b| - 1] == a + b[..|b| - 1];
    CleanJoin(a, b[..|b| - 1]);
  }

  /** What every walk promises, whatever the tree and the answers: it
      succeeds exactly when no attempted operation failed (`failed` says
      whether the error flag was already set), and an exception no catch
      block takes ends the walk at the operation that threw it. */
  predicate Settles<T>(w: Walk<T>, failed: bool)
  {
    && (w.result.Ok? <==> Clean(w.trace) && !failed)
    && (w.result.Err? && !Catchable(w.result.error) ==> LastThrew(w.trace, w.result.error))
  }

  /** What a walk that passes failfast down promises besides: with
      failfast it ends at the first operation that failed, with the
      exception that operation threw. */
  predicate Promise<T>(w: Walk<T>, failfast: bool, failed: bool)
  {
    && Settles(w, failed)
    && (w.result.Err? && failfast && !failed ==> StopsAt(w.trace, w.result.error))
  }
}
