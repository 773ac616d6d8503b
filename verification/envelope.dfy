/** The envelope every remote operation of the client shares, and the small
    session state it reads and writes: the connection check that runs
    first, the failure message with the transport's diagnostic, the time
    counter that grows only on success. On top of it: dirList, chmod with
    its SITE fallback, pasv with its short-circuit, and connect with the
    anonymous password. The transport is an oracle: each operation is
    given the replies its commands receive and returns the commands it
    sent. */
module Envelope {
  import opened Common
  import opened Listing

  /** What the session remembers. `live` says whether the handle is a
      live connection (`is_resource($this->ftp)`); `sysType` is the
      system type property, `None` while nothing has assigned it; `time`
      is the elapsed-time counter, in abstract clock units. */
  datatype Session = Session(
    live: bool,
    host: string, port: int, timeout: int, user: string, pass: Option<string>,
    sysType: Option<string>, pasv: bool, anonPassword: string, time: nat)

  /** A fresh client: no connection, passive flag off, the default
      anonymous password, no time spent. */
  const Fresh: Session :=
    Session(false, "", 0, 0, "", None, None, false, "qwertz@anonymous.net", 0)

  /** The commands the client sends through the transport. */
  datatype Command =
    | OpenCmd(host: string, port: int)
    | LoginCmd(user: string, password: string)
    | SysTypeCmd
    | RawlistCmd(dir: string)
    | ChmodCmd(mode: int, file: string)
    | SiteCmd(command: string)
    | PasvCmd(on: bool)
    | MkdirCmd(dir: string)

  /** The session after an operation, the commands it sent in order, and
      its value or the exception it threw. */
  datatype Outcome<T> = Outcome(session: Session, sent: seq<Command>, result: Result<T>)

  // -----------------------------------------------------------------------
  // The envelope

  const NoResource: FtpError := FtpError(General, "$this->ftp is no resource")

  /** sanityCheck: the error to throw when the handle is not live. */
  function SanityCheck(s: Session): (r: Option<FtpError>)
    ensures r.None? <==> s.live
    ensures r.Some? ==> r.value == NoResource
  {
    if s.live then None else Some(NoResource)
  }

  /** An operation that sends one command: after the sanity check, a failed
      reply throws an FtpException whose message is `base` with the
      diagnostic suffix, and a successful one adds `elapsed` to the time
      counter. */
  function OneCommand(s: Session, cmd: Command, reply: Reply, base: string, elapsed: nat): (o: Outcome<()>)
    ensures !s.live ==> o == Outcome(s, [], Err(NoResource))
    ensures s.live ==> o.sent == [cmd]
    ensures o.result.Ok? <==> s.live && reply.Done?
    ensures s.live && reply.Failed? ==> o.result == Err(FtpError(General, FailMessage(base, reply.diag)))
    ensures o.result.Ok? ==> o.session == s.(time := s.time + elapsed)
    ensures o.result.Err? ==> o.session == s
  {
    match SanityCheck(s)
    case Some(e) => Outcome(s, [], Err(e))
    case None =>
      match reply
      case Failed(diag) => Outcome(s, [cmd], Err(FtpError(General, FailMessage(base, diag))))
      case Done => Outcome(s.(time := s.time + elapsed), [cmd], Ok(()))
  }

  /** site: one SITE command. */
  function Site(s: Session, command: string, reply: Reply, elapsed: nat): Outcome<()>
  {
    OneCommand(s, SiteCmd(command), reply, "could not execute the command", elapsed)
  }

  /** mkdir: one MKD command. */
  function Mkdir(s: Session, dir: string, reply: Reply, elapsed: nat): Outcome<()>
  {
    OneCommand(s, MkdirCmd(dir), reply, "could not create remote directory '" + dir + "'", elapsed)
  }

  /** The envelope's promise, for any reply: no command without a live
      connection; the diagnostic can be read back from the message; the
      counter grows on success only, by exactly the elapsed time; nothing
      else in the session changes. */
  lemma EnvelopeContract(s: Session, cmd: Command, reply: Reply, base: string, elapsed: nat)
    ensures var o := OneCommand(s, cmd, reply, base, elapsed);
            && (o.sent == [] <==> !s.live)
            && (o.result.Err? && s.live ==> DiagOf(base, o.result.error.message) == reply.diag)
            && o.session.time >= s.time
            && (o.session.time != s.time ==> o.result.Ok? && o.session.time == s.time + elapsed)
            && o.session.(time := s.time) == s
  {
    if s.live && reply.Failed? {
      FailMessageRoundTrip(base, reply.diag);
    }
  }

  // -----------------------------------------------------------------------
  // dirList

  /** The answer to RAWLIST: the lines of the listing, or a failure. */
  datatype RawReply = Lines(lines: seq<string>) | RawFailed(diag: Option<string>)

  /** analyzeDir on every line in order, stopping at the first line that
      raises the unassigned-property error. */
  function ParseAll(sysType: Option<string>, lines: seq<string>): (r: Result<seq<Entry>>)
    ensures sysType.Some? ==> r == Ok(Entries(sysType.value, lines))
    ensures r.Err? ==> r.error == UnsetSysType
    decreases |lines|
  {
    if |lines| == 0 then Ok([])
    else
      match AnalyzeDirAsWritten(sysType, lines[0])
      case Err(e) => Err(e)
      case Ok(e0) =>
        match ParseAll(sysType, lines[1..])
        case Err(e) => Err(e)
        case Ok(rest) =>
          if sysType.Some? then
            EntriesCons(sysType.value, lines);
            Ok([e0] + rest)
          else Ok([e0] + rest)
  }

  /** Without a system type, parsing fails as soon as one line is not a
      "total" line, and succeeds (with nothing but invalid entries)
      otherwise. */
  lemma {:induction false} ParseAllUnset(lines: seq<string>)
    ensures ParseAll(None, lines).Err? <==> exists i :: 0 <= i < |lines| && !IsTotal(lines[i])
    decreases |lines|
  {
    if |lines| > 0 {
      ParseAllUnset(lines[1..]);
      if exists i :: 0 <= i < |lines[1..]| && !IsTotal(lines[1..][i]) {
        var i :| 0 <= i < |lines[1..]| && !IsTotal(lines[1..][i]);
        assert !IsTotal(lines[i + 1]);
      }
      if exists i :: 0 <= i < |lines| && !IsTotal(lines[i]) {
        var i :| 0 <= i < |lines| && !IsTotal(lines[i]);
        if i > 0 {
          assert lines[1..][i - 1] == lines[i];
        }
      }
    }
  }

  /** dirList: RAWLIST, then each line parsed and filtered; a failed
      RAWLIST throws "could not get rawlist" with the diagnostic. */
  function DirList(s: Session, dir: string, reply: RawReply, elapsed: nat): (o: Outcome<seq<Listed>>)
    ensures !s.live ==> o == Outcome(s, [], Err(NoResource))
    ensures s.live ==> o.sent == [RawlistCmd(dir)]
    ensures s.live && reply.RawFailed? ==>
              o.result == Err(FtpError(General, FailMessage("could not get rawlist", reply.diag)))
    ensures s.live && reply.Lines? && s.sysType.Some? ==>
              o.result == Ok(DirListing(s.sysType.value, reply.lines))
    ensures o.result.Ok? ==> o.session == s.(time := s.time + elapsed)
    ensures o.result.Err? ==> o.session == s
  {
    match SanityCheck(s)
    case Some(e) => Outcome(s, [], Err(e))
    case None =>
      match reply
      case RawFailed(diag) =>
        Outcome(s, [RawlistCmd(dir)], Err(FtpError(General, FailMessage("could not get rawlist", diag))))
      case Lines(lines) =>
        match ParseAll(s.sysType, lines)
        case Err(e) => Outcome(s, [RawlistCmd(dir)], Err(e))
        case Ok(es) => Outcome(s.(time := s.time + elapsed), [RawlistCmd(dir)], Ok(ListingFrom(es, 0)))
  }

  // -----------------------------------------------------------------------
  // chmod

  /** The SITE command chmod falls back to; the mode is written in
      decimal, as PHP converts an int inside a string. */
  function ChmodSite(mode: int, file: string): string
  {
    "CHMOD " + IntToDecimal(mode) + " " + file
  }

  /** The mode text in the SITE command reads back as the mode, between the
      keyword and the file name: a non-negative mode (every real permission
      set) is its decimal digits, a negative one a minus sign before the
      digits of its magnitude. */
  lemma ChmodSiteRoundTrip(mode: int, file: string)
    ensures var t, d := ChmodSite(mode, file), IntToDecimal(mode);
            && t[..6] == "CHMOD " && t[6..6 + |d|] == d && t[6 + |d|..] == " " + file
            && (mode >= 0 ==> AllDigits(d) && DecimalValue(d) == mode)
            && (mode < 0 ==> |d| > 1 && d[0] == '-' && AllDigits(d[1..]) && DecimalValue(d[1..]) == -mode)
  {
    IntToDecimalRoundTrip(mode);
    var t, d := ChmodSite(mode, file), IntToDecimal(mode);
    assert t == "CHMOD " + d + " " + file;
    assert t[..6] == "CHMOD ";
    assert t[6..6 + |d|] == d;
    assert t[6 + |d|..] == " " + file;
  }

  /** chmod: ftp_chmod, and when it fails the SITE CHMOD command; when that
      fails too, an FtpException naming the file and the mode (without
      the diagnostic). The SITE call runs the whole envelope of site,
      including its own time accounting. */
  function Chmod(s: Session, mode: int, file: string, chmodReply: Reply, siteReply: Reply,
                 siteElapsed: nat, elapsed: nat): (o: Outcome<()>)
    ensures !s.live ==> o == Outcome(s, [], Err(NoResource))
    ensures s.live && chmodReply.Done? ==> o == Outcome(s.(time := s.time + elapsed), [ChmodCmd(mode, file)], Ok(()))
    ensures s.live && chmodReply.Failed? ==> o.sent == [ChmodCmd(mode, file), SiteCmd(ChmodSite(mode, file))]
    ensures o.result.Ok? <==> s.live && (chmodReply.Done? || siteReply.Done?)
    ensures s.live && chmodReply.Failed? && siteReply.Failed? ==>
              o.result == Err(FtpError(General,
                "could not change the mode of '" + file + "' to '" + IntToDecimal(mode) + "'"))
    ensures o.result.Err? ==> o.session == s
    ensures o.session.time >= s.time
  {
    match SanityCheck(s)
    case Some(e) => Outcome(s, [], Err(e))
    case None =>
      match chmodReply
      case Done => Outcome(s.(time := s.time + elapsed), [ChmodCmd(mode, file)], Ok(()))
      case Failed(_) =>
        var site := Site(s, ChmodSite(mode, file), siteReply, siteElapsed);
        var sent := [ChmodCmd(mode, file)] + site.sent;
        match site.result
        case Err(_) =>
          Outcome(s, sent, Err(FtpError(General,
            "could not change the mode of '" + file + "' to '" + IntToDecimal(mode) + "'")))
        case Ok(_) => Outcome(site.session.(time := site.session.time + elapsed), sent, Ok(()))
  }

  /** A successful fallback is charged both the SITE call's time and
      chmod's own. */
  lemma ChmodFallbackTime(s: Session, mode: int, file: string, diag: Option<string>,
                          siteElapsed: nat, elapsed: nat)
    requires s.live
    ensures Chmod(s, mode, file, Failed(diag), Done, siteElapsed, elapsed).session.time
              == s.time + siteElapsed + elapsed
  {
  }

  // -----------------------------------------------------------------------
  // pasv

  /** pasv as written: it returns at once when the requested mode equals
      the passive flag, which nothing ever assigns, so the flag stays as
      it was (false in a fresh client). */
  function Pasv(s: Session, on: bool, reply: Reply, elapsed: nat): (o: Outcome<()>)
    ensures !s.live ==> o == Outcome(s, [], Err(NoResource))
    ensures s.live && on == s.pasv ==> o == Outcome(s, [], Ok(()))
    ensures s.live && on != s.pasv ==> o.sent == [PasvCmd(on)]
    ensures s.live && on != s.pasv && reply.Failed? ==>
              o.result == Err(FtpError(General, FailMessage("could not switch mode", reply.diag)))
    ensures o.session.pasv == s.pasv
  {
    match SanityCheck(s)
    case Some(e) => Outcome(s, [], Err(e))
    case None =>
      if on == s.pasv then Outcome(s, [], Ok(()))
      else OneCommand(s, PasvCmd(on), reply, "could not switch mode", elapsed)
  }

  /** pasv as evidently intended: the flag records the mode the server was
      last switched to. */
  function PasvRecorded(s: Session, on: bool, reply: Reply, elapsed: nat): (o: Outcome<()>)
    ensures !s.live ==> o == Outcome(s, [], Err(NoResource))
    ensures s.live && on != s.pasv ==> o.sent == [PasvCmd(on)]
    ensures o.result.Ok? ==> o.session.pasv == on
    ensures o.result.Err? ==> o.session == s
  {
    match SanityCheck(s)
    case Some(e) => Outcome(s, [], Err(e))
    case None =>
      if on == s.pasv then Outcome(s, [], Ok(()))
      else
        var o := OneCommand(s, PasvCmd(on), reply, "could not switch mode", elapsed);
        if o.result.Ok? then o.(session := o.session.(pasv := on)) else o
  }

  /** As written, switching passive mode on and then off again sends only
      the first command: the second call finds the untouched flag equal to
      false and returns, so the connection stays passive. */
  lemma PasvOffIsLost(s: Session, e1: nat, e2: nat, r2: Reply)
    requires s.live && !s.pasv
    ensures var o1 := Pasv(s, true, Done, e1);
            var o2 := Pasv(o1.session, false, r2, e2);
            o1.sent == [PasvCmd(true)] && o1.result.Ok? && o2.sent == [] && o2.result.Ok?
  {
  }

  /** With the flag recorded, the same two calls send both commands, and
      a call repeating the current mode sends nothing. */
  lemma PasvRecordedSwitchesBack(s: Session, e1: nat, e2: nat, r2: Reply)
    requires s.live && !s.pasv
    ensures var o1 := PasvRecorded(s, true, Done, e1);
            var o2 := PasvRecorded(o1.session, false, r2, e2);
            o1.sent == [PasvCmd(true)] && o2.sent == [PasvCmd(false)]
            && (r2.Done? ==> !o2.session.pasv)
    ensures forall on: bool, r: Reply, e: nat ::
              PasvRecorded(s, on, r, e).result.Ok? ==>
                PasvRecorded(PasvRecorded(s, on, r, e).session, on, r, e).sent == []
  {
  }

  // -----------------------------------------------------------------------
  // connect

  /** The replies the transport gives connect: to opening the connection,
      to the login, and to SYST (the system type, or none on failure). */
  datatype ConnectReplies = ConnectReplies(open: Reply, login: Reply, sysType: Option<string>)

  /** The password the login uses: the given one, or the anonymous
      password when none is given. */
  function LoginPassword(s: Session, pass: Option<string>): string
  {
    pass.GetOr(s.anonPassword)
  }

  /** connect as written. The connection parameters are stored first (the
      password as given, null included); the handle is stored before the
      login, so a failed login leaves a live connection; the system type
      is asked for and dropped. */
  function Connect(s: Session, host: string, user: string, pass: Option<string>, port: int,
                   timeout: int, replies: ConnectReplies, elapsed: nat): (o: Outcome<()>)
    ensures o.session.pass == pass && o.session.user == user && o.session.host == host
    ensures |o.sent| >= 1 && o.sent[0] == OpenCmd(host, port)
    ensures replies.open.Failed? ==>
              && o.sent == [OpenCmd(host, port)] && o.session.live == s.live
              && o.result == Err(FtpError(ConnectFailure, FailMessage("could not connect to the host", replies.open.diag)))
    ensures replies.open.Done? ==>
              && o.session.live && |o.sent| >= 2
              && o.sent[1] == LoginCmd(user, LoginPassword(s, pass))
    ensures replies.open.Done? && replies.login.Failed? ==>
              o.result == Err(FtpError(LoginFailure, FailMessage("unable to login", replies.login.diag)))
    ensures o.result.Ok? <==> replies.open.Done? && replies.login.Done?
    ensures o.result.Ok? ==> o.sent == [OpenCmd(host, port), LoginCmd(user, LoginPassword(s, pass)), SysTypeCmd]
    ensures o.session.sysType == s.sysType && o.session.anonPassword == s.anonPassword
    ensures o.session.time == s.time + (if o.result.Ok? then elapsed else 0)
  {
    var s1 := s.(host := host, user := user, pass := pass, port := port, timeout := timeout);
    var password := LoginPassword(s, pass);
    match replies.open
    case Failed(diag) =>
      Outcome(s1, [OpenCmd(host, port)],
        Err(FtpError(ConnectFailure, FailMessage("could not connect to the host", diag))))
    case Done =>
      var s2 := s1.(live := true);
      match replies.login
      case Failed(diag) =>
        Outcome(s2, [OpenCmd(host, port), LoginCmd(user, password)],
          Err(FtpError(LoginFailure, FailMessage("unable to login", diag))))
      case Done =>
        Outcome(s2.(time := s2.time + elapsed), [OpenCmd(host, port), LoginCmd(user, password), SysTypeCmd], Ok(()))
  }

  /** connect as evidently intended: the same, storing the system type
      (the empty string when SYST fails), which analyzeDir reads. */
  function ConnectStoring(s: Session, host: string, user: string, pass: Option<string>, port: int,
                          timeout: int, replies: ConnectReplies, elapsed: nat): (o: Outcome<()>)
    ensures o.result.Ok? ==> o.session.sysType == Some(replies.sysType.GetOr(""))
    ensures o.sent == Connect(s, host, user, pass, port, timeout, replies, elapsed).sent
    ensures o.result == Connect(s, host, user, pass, port, timeout, replies, elapsed).result
  {
    var o := Connect(s, host, user, pass, port, timeout, replies, elapsed);
    if o.result.Ok? then o.(session := o.session.(sysType := Some(replies.sysType.GetOr("")))) else o
  }

  /** setAnonymousPassword. */
  function SetAnonymousPassword(s: Session, password: string): (r: Session)
    ensures r.anonPassword == password && r.(anonPassword := s.anonPassword) == s
  {
    s.(anonPassword := password)
  }

  /** The anonymous password is used for the login only: it is sent when no
      password is given, and the session keeps the null password. */
  lemma AnonymousLogin(s: Session, host: string, user: string, port: int, timeout: int,
                       replies: ConnectReplies, elapsed: nat)
    requires replies.open.Done?
    ensures var o := Connect(s, host, user, None, port, timeout, replies, elapsed);
            o.sent[1] == LoginCmd(user, s.anonPassword) && o.session.pass.None?
  {
  }

  /** As written, the system type never reaches the session: after any
      connect on a fresh client, dirList of a listing with one line that
      is not a "total" line throws the unassigned-property error, whatever
      the server answered to SYST. With the type stored it does not. */
  lemma ConnectLeavesSysTypeUnset(host: string, user: string, pass: Option<string>, port: int,
                                  timeout: int, replies: ConnectReplies, elapsed: nat,
                                  dir: string, lines: seq<string>, e2: nat)
    requires replies.open.Done? && replies.login.Done?
    requires exists i :: 0 <= i < |lines| && !IsTotal(lines[i])
    ensures var c := Connect(Fresh, host, user, pass, port, timeout, replies, elapsed);
            DirList(c.session, dir, Lines(lines), e2).result == Err(UnsetSysType)
    ensures var c := ConnectStoring(Fresh, host, user, pass, port, timeout, replies, elapsed);
            DirList(c.session, dir, Lines(lines), e2).result
              == Ok(DirListing(replies.sysType.GetOr(""), lines))
  {
    ParseAllUnset(lines);
  }
}
