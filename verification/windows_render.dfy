/** Windows_NT listing lines built from their fields, and the proof that
    the recognisers read every well-formed line back into exactly the
    fields it was built from: a directory line through the directory
    pattern, a file line through the file pattern (and never through the
    directory pattern, which analyzeDir tries first). */
module WindowsRender {
  import opened Common
  import opened TextScan
  import opened WindowsLine

  /** What follows the stamp: `<DIR>`, ten spaces and the name, or the
      size, a space and the name. */
  datatype WinBody = DirBody(name: string) | FileBody(size: string, name: string)

  /** The fields of one line as IIS lays them out: date, spaces, time,
      AM/PM letters, spaces, then the body. */
  datatype WinFields = WinFields(date: string, gapWidth: nat, time: string, mark: string,
                                 padWidth: nat, body: WinBody)

  function Blanks(n: nat): (r: string)
    ensures |r| == n && forall i :: 0 <= i < n ==> r[i] == ' '
  {
    seq(n, _ => ' ')
  }

  predicate IsMark(m: string) { m in {"", "A", "P", "M", "AM", "PM"} }

  /** Fields the patterns read back unambiguously: the date and the time
      are separated by at least one space, and a file name holds no '<'
      (otherwise the directory pattern, tried first, could match inside
      it). */
  predicate WellFormed(u: WinFields)
  {
    && |u.date| > 0 && Every(u.date, DashDigits) && u.gapWidth > 0
    && |u.time| > 0 && Every(u.time, TimeChars) && IsMark(u.mark) && u.padWidth > 0
    && Every(u.body.name, LineChars)
    && match u.body
       case DirBody(_) => true
       case FileBody(size, name) => |size| > 0 && Every(size, Digits) && Lacks(name, '<')
  }

  function BodyText(b: WinBody): string
  {
    match b
    case DirBody(name) => "<DIR>" + Blanks(10) + name
    case FileBody(size, name) => size + " " + name
  }

  function StampText(u: WinFields): string
  {
    u.date + Blanks(u.gapWidth) + u.time + u.mark + Blanks(u.padWidth)
  }

  function Render(u: WinFields): string { StampText(u) + BodyText(u.body) }

  function PatternOf(b: WinBody): Pattern
  {
    match b
    case DirBody(_) => DirPattern
    case FileBody(_, _) => FilePattern
  }

  /** Where the stamp of `u` sits in its rendered line. */
  function StampOf(u: WinFields): Stamp
  {
    var b := |u.date| + u.gapWidth;
    var c := b + |u.time|;
    var e := c + |u.mark|;
    Stamp(0, |u.date|, b, c, e, e + u.padWidth)
  }

  /** Where the fields of `u` sit in its rendered line. */
  function CutOf(u: WinFields): WinCut
  {
    var f := StampOf(u).padEnd;
    match u.body
    case DirBody(name) => WinCut(StampOf(u), f, f + 15, f + 15 + |name|)
    case FileBody(size, name) => WinCut(StampOf(u), f + |size|, f + |size| + 1, f + |size| + 1 + |name|)
  }

  lemma RenderLength(u: WinFields)
    ensures |StampText(u)| == StampOf(u).padEnd
    ensures |Render(u)| == CutOf(u).nameEnd
  {
  }

  /** The characters of the stamp part of the line. */
  lemma StampChar(u: WinFields, p: nat)
    requires p < StampOf(u).padEnd
    ensures var s, t := Render(u), StampOf(u);
            && (p < t.dateEnd ==> s[p] == u.date[p])
            && (t.dateEnd <= p < t.timeStart ==> s[p] == ' ')
            && (t.timeStart <= p < t.timeEnd ==> s[p] == u.time[p - t.timeStart])
            && (t.timeEnd <= p < t.markEnd ==> s[p] == u.mark[p - t.timeEnd])
            && (t.markEnd <= p ==> s[p] == ' ')
  {
    RenderLength(u);
    assert Render(u)[p] == StampText(u)[p];
  }

  /** The characters of the body part of the line. */
  lemma BodyChar(u: WinFields, p: nat)
    requires StampOf(u).padEnd <= p < |Render(u)|
    ensures Render(u)[p] == BodyText(u.body)[p - StampOf(u).padEnd]
  {
    RenderLength(u);
  }

  /** The class of each character of the stamp of a well-formed line. */
  lemma StampClass(u: WinFields, p: nat)
    requires WellFormed(u) && p < StampOf(u).padEnd
    ensures var s, t := Render(u), StampOf(u);
            && (p < t.dateEnd ==> InClass(s[p], DashDigits))
            && (t.timeStart <= p < t.timeEnd ==> InClass(s[p], TimeChars))
            && s[p] != '<' && s[p] != '\n'
  {
    var t := StampOf(u);
    StampChar(u, p);
    if p < t.dateEnd {
      RunAt(u.date, 0, |u.date|, DashDigits, p);
    } else if t.timeStart <= p < t.timeEnd {
      RunAt(u.time, 0, |u.time|, TimeChars, p - t.timeStart);
    }
  }

  /** The rendered stamp is a stamp of the pattern, where it was put. */
  lemma RenderStamp(u: WinFields)
    requires WellFormed(u)
    ensures StampShape(Render(u), StampOf(u))
  {
    var s, t := Render(u), StampOf(u);
    RenderLength(u);
    forall k | 0 <= k < t.dateEnd ensures InClass(s[k], DashDigits) { StampClass(u, k); }
    RunOf(s, 0, t.dateEnd, DashDigits);
    forall k | t.dateEnd <= k < t.timeStart ensures InClass(s[k], Spaces) { StampChar(u, k); }
    RunOf(s, t.dateEnd, t.timeStart, Spaces);
    forall k | t.timeStart <= k < t.timeEnd ensures InClass(s[k], TimeChars) { StampClass(u, k); }
    RunOf(s, t.timeStart, t.timeEnd, TimeChars);
    forall k | t.markEnd <= k < t.padEnd ensures InClass(s[k], Spaces) { StampChar(u, k); }
    RunOf(s, t.markEnd, t.padEnd, Spaces);
    if |u.mark| > 0 {
      StampChar(u, t.timeEnd);
    }
    if |u.mark| > 1 {
      StampChar(u, t.timeEnd + 1);
    }
  }

  /** The name runs from where it was put to the end of the line. */
  lemma NameToEnd(u: WinFields)
    requires WellFormed(u)
    ensures CutOf(u).nameStart <= |Render(u)|
    ensures RunEnd(Render(u), CutOf(u).nameStart, LineChars) == |Render(u)|
  {
    var s, w := Render(u), CutOf(u);
    var f := StampOf(u).padEnd;
    RenderLength(u);
    forall k | w.nameStart <= k < |s| ensures InClass(s[k], LineChars) {
      BodyChar(u, k);
      assert BodyText(u.body)[k - f] == u.body.name[k - w.nameStart];
      RunAt(u.body.name, 0, |u.body.name|, LineChars, k - w.nameStart);
    }
    RunOf(s, w.nameStart, |s|, LineChars);
    RunEndIs(s, w.nameStart, |s|, LineChars);
  }

  lemma RenderDirTail(u: WinFields)
    requires WellFormed(u) && u.body.DirBody?
    ensures TailShape(Render(u), DirPattern, CutOf(u))
  {
    var s, f := Render(u), StampOf(u).padEnd;
    RenderLength(u);
    NameToEnd(u);
    forall k | 0 <= k < 5 ensures s[f + k] == "<DIR>"[k] { BodyChar(u, f + k); }
    assert s[f..f + 5] == "<DIR>";
    forall k | f + 5 <= k < f + 15 ensures InClass(s[k], Spaces) { BodyChar(u, k); }
    RunOf(s, f + 5, f + 15, Spaces);
  }

  lemma RenderFileTail(u: WinFields)
    requires WellFormed(u) && u.body.FileBody?
    ensures TailShape(Render(u), FilePattern, CutOf(u))
  {
    var s, f, z := Render(u), StampOf(u).padEnd, u.body.size;
    RenderLength(u);
    NameToEnd(u);
    forall k | f <= k < f + |z| ensures InClass(s[k], Digits) {
      BodyChar(u, k);
      RunAt(z, 0, |z|, Digits, k - f);
    }
    RunOf(s, f, f + |z|, Digits);
    BodyChar(u, f + |z|);
  }

  /** The rendered line matches its pattern with its fields where they
      were put. */
  lemma RenderMatches(u: WinFields)
    requires WellFormed(u)
    ensures Matches(Render(u), PatternOf(u.body), CutOf(u))
  {
    RenderStamp(u);
    if u.body.DirBody? {
      RenderDirTail(u);
    } else {
      RenderFileTail(u);
    }
  }

  /** The date run of the rendered line ends at the first space. */
  lemma DateRunEnd(u: WinFields)
    requires WellFormed(u)
    ensures RunEnd(Render(u), 0, DashDigits) == |u.date|
  {
    RenderStamp(u);
    StampChar(u, |u.date|);
    RunEndIs(Render(u), 0, |u.date|, DashDigits);
  }

  /** Round trip: the pattern of the line's kind reads a well-formed line
      back into the positions of the fields it was built from. */
  lemma WellFormedMatch(u: WinFields)
    requires WellFormed(u)
    ensures WinSearch(Render(u), PatternOf(u.body)) == Some(CutOf(u))
  {
    var s, p, c := Render(u), PatternOf(u.body), CutOf(u);
    RenderMatches(u);
    SearchComplete(s, p, c);
    StartComplete(s, p, c);
    var r := WinSearch(s, p).value;
    DateRunEnd(u);
    RunEndAtLeast(s, 0, r.stamp.dateEnd, DashDigits);
    MatchDetermined(s, p, r, c);
  }

  /** A well-formed file line holds no '<'. */
  lemma FileLacksAngle(u: WinFields)
    requires WellFormed(u) && u.body.FileBody?
    ensures Lacks(Render(u), '<')
  {
    var s, f, z := Render(u), StampOf(u).padEnd, u.body.size;
    RenderLength(u);
    forall k | 0 <= k < |s| ensures s[k] != '<' {
      if k < f {
        StampClass(u, k);
      } else {
        BodyChar(u, k);
        if k < f + |z| {
          RunAt(z, 0, |z|, Digits, k - f);
        }
      }
    }
  }

  /** A well-formed file line does not match the directory pattern, so
      analyzeDir reaches the file pattern for it. */
  lemma FileLineNotDir(u: WinFields)
    requires WellFormed(u) && u.body.FileBody?
    ensures WinSearch(Render(u), DirPattern).None?
  {
    FileLacksAngle(u);
    NoDirWithoutAngle(Render(u));
  }

  /** The captured groups of the rendered line are the fields: the name,
      and for a file line the size digits. */
  lemma RenderGroups(u: WinFields)
    ensures CutOf(u).nameStart <= |Render(u)| == CutOf(u).nameEnd
    ensures Render(u)[CutOf(u).nameStart..] == u.body.name
    ensures u.body.FileBody? ==> Render(u)[StampOf(u).padEnd..CutOf(u).sizeEnd] == u.body.size
  {
    var s, w, f := Render(u), CutOf(u), StampOf(u).padEnd;
    RenderLength(u);
    forall k | 0 <= k < |u.body.name| ensures s[w.nameStart + k] == u.body.name[k] {
      BodyChar(u, w.nameStart + k);
    }
    if u.body.FileBody? {
      forall k | 0 <= k < |u.body.size| ensures s[f + k] == u.body.size[k] {
        BodyChar(u, f + k);
      }
    }
  }

  /** The first character of the line belongs to the date. */
  lemma FirstIsDate(u: WinFields)
    requires WellFormed(u)
    ensures |Render(u)| > 0 && InClass(Render(u)[0], DashDigits)
  {
    RenderLength(u);
    StampClass(u, 0);
  }
}
