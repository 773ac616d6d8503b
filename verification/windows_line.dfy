/** Recognisers for the two Windows_NT listing patterns of analyzeDir
      directory: [-0-9]+ *[0-9:]+[PA]?M? +<DIR> {10}(.*)
      file:      [-0-9]+ *[0-9:]+[PA]?M? +([0-9]+) (.*)
    written out as the backtracking search a PCRE matcher performs. Both
    share the date/time stamp in front. Of its quantifiers only the date
    run `[-0-9]+` can usefully give characters back (to a time that starts
    with a digit); every other quantifier is followed by a character
    outside its class, so it can only succeed at its longest extent and is
    taken whole. The date run settles on the longest extent after which the
    rest matches (TextScan.LastWhere), and the leftmost start wins. */
module WindowsLine {
  import opened Common
  import opened TextScan

  predicate IsMeridian(c: char) { c == 'P' || c == 'A' }

  /** s[c..e] is a word of `[PA]?M?`. */
  predicate MarkShape(s: string, c: nat, e: nat)
    requires c <= e <= |s|
  {
    || e == c
    || (e == c + 1 && (IsMeridian(s[c]) || s[c] == 'M'))
    || (e == c + 2 && IsMeridian(s[c]) && s[c + 1] == 'M')
  }

  /** Where `[PA]?M?` ends when both optional letters are taken if present. */
  function MarkEnd(s: string, c: nat): (e: nat)
    requires c <= |s|
    ensures c <= e <= |s| && MarkShape(s, c, e)
  {
    var d := if c < |s| && IsMeridian(s[c]) then c + 1 else c;
    if d < |s| && s[d] == 'M' then d + 1 else d
  }

  /** Positions of the stamp `[-0-9]+ *[0-9:]+[PA]?M? +`: the date from
      `start` to `dateEnd`, spaces up to `timeStart`, the time up to
      `timeEnd`, the optional AM/PM letters up to `markEnd`, and spaces up
      to `padEnd`. */
  datatype Stamp = Stamp(start: nat, dateEnd: nat, timeStart: nat, timeEnd: nat, markEnd: nat, padEnd: nat)

  predicate StampShape(s: string, t: Stamp)
  {
    && t.start < t.dateEnd <= t.timeStart < t.timeEnd <= t.markEnd < t.padEnd <= |s|
    && Run(s, t.start, t.dateEnd, DashDigits)
    && Run(s, t.dateEnd, t.timeStart, Spaces)
    && Run(s, t.timeStart, t.timeEnd, TimeChars)
    && MarkShape(s, t.timeEnd, t.markEnd)
    && Run(s, t.markEnd, t.padEnd, Spaces)
  }

  /** Which of the two patterns: the directory line or the file line. */
  datatype Pattern = DirPattern | FilePattern

  /** One match: the stamp, the end of the size digits (the end of the
      stamp for a directory, which has none), and the captured name. */
  datatype WinCut = WinCut(stamp: Stamp, sizeEnd: nat, nameStart: nat, nameEnd: nat)

  /** The part of the pattern after the stamp. */
  predicate TailShape(s: string, p: Pattern, w: WinCut)
  {
    var f := w.stamp.padEnd;
    && w.nameStart <= |s|
    && w.nameEnd == RunEnd(s, w.nameStart, LineChars)
    && match p
       case DirPattern =>
         && w.sizeEnd == f && w.nameStart == f + 15
         && s[f..f + 5] == "<DIR>" && Run(s, f + 5, f + 15, Spaces)
       case FilePattern =>
         && f < w.sizeEnd < |s| && w.nameStart == w.sizeEnd + 1
         && Run(s, f, w.sizeEnd, Digits) && s[w.sizeEnd] == ' '
  }

  /** `w` describes one way pattern `p` matches `s`. */
  predicate Matches(s: string, p: Pattern, w: WinCut)
  {
    StampShape(s, w.stamp) && TailShape(s, p, w)
  }

  /** The stamp once the date run ends at `a`: the rest of it is forced. */
  function StampFrom(s: string, start: nat, a: nat): (r: Option<Stamp>)
    requires start < a <= |s|
    ensures r.Some? ==> StampShape(s, r.value) && r.value.start == start && r.value.dateEnd == a
    ensures r.Some? ==> r.value.padEnd == RunEnd(s, r.value.markEnd, Spaces)
  {
    if Run(s, start, a, DashDigits) then
      var b := RunEnd(s, a, Spaces);
      var c := RunEnd(s, b, TimeChars);
      var e := MarkEnd(s, c);
      if b < c && e < |s| && s[e] == ' ' then Some(Stamp(start, a, b, c, e, RunEnd(s, e, Spaces)))
      else None
    else None
  }

  /** The pattern after the stamp. */
  function TailFrom(s: string, p: Pattern, t: Stamp): (r: Option<WinCut>)
    requires t.padEnd <= |s|
    ensures r.Some? ==> TailShape(s, p, r.value) && r.value.stamp == t
  {
    var f := t.padEnd;
    match p
    case DirPattern =>
      if f + 15 <= |s| && s[f..f + 5] == "<DIR>" && Run(s, f + 5, f + 15, Spaces)
      then Some(WinCut(t, f, f + 15, RunEnd(s, f + 15, LineChars)))
      else None
    case FilePattern =>
      var g := RunEnd(s, f, Digits);
      if f < g < |s| && s[g] == ' ' then Some(WinCut(t, g, g + 1, RunEnd(s, g + 1, LineChars)))
      else None
  }

  /** The whole pattern from `start` with the date run ending at `a`. */
  function WinAt(s: string, p: Pattern, start: nat, a: nat): (r: Option<WinCut>)
    ensures r.Some? ==> Matches(s, p, r.value) && r.value.stamp.start == start && r.value.stamp.dateEnd == a
  {
    if start < a <= |s| then
      match StampFrom(s, start, a)
      case Some(t) => TailFrom(s, p, t)
      case None => None
    else None
  }

  /** The date run can end at each position where this holds. */
  function DateFits(s: string, p: Pattern, start: nat): nat -> bool
  {
    (a: nat) => WinAt(s, p, start, a).Some?
  }

  /** The pattern anchored at `start`: the date run gives back characters
      until the rest matches. */
  function WinStart(s: string, p: Pattern, start: nat): (r: Option<WinCut>)
    ensures r.Some? ==> Matches(s, p, r.value) && r.value.stamp.start == start
    ensures r.Some? ==> start <= |s|
    ensures r.Some? ==> r == WinAt(s, p, start, r.value.stamp.dateEnd)
    ensures r.Some? ==> forall a :: r.value.stamp.dateEnd < a <= RunEnd(s, start, DashDigits) ==> !DateFits(s, p, start)(a)
  {
    if start <= |s| then
      match LastWhere(DateFits(s, p, start), start + 1, RunEnd(s, start, DashDigits))
      case Some(a) => WinAt(s, p, start, a)
      case None => None
    else None
  }

  /** The pattern can start at each position where this holds. */
  function StartFits(s: string, p: Pattern): nat -> bool
  {
    (i: nat) => WinStart(s, p, i).Some?
  }

  /** The leftmost match in the line. */
  function WinSearch(s: string, p: Pattern): (r: Option<WinCut>)
    ensures r.Some? ==> Matches(s, p, r.value) && r == WinStart(s, p, r.value.stamp.start)
    ensures r.Some? ==> forall i :: 0 <= i < r.value.stamp.start ==> !StartFits(s, p)(i)
    ensures r.None? ==> forall i :: 0 <= i < |s| ==> !StartFits(s, p)(i)
  {
    match FirstWhere(StartFits(s, p), 0, |s|)
    case Some(i) => WinStart(s, p, i)
    case None => None
  }

  // -----------------------------------------------------------------------
  // Completeness: the search misses no match

  /** The AM/PM letters followed by a space can only end where MarkEnd
      ends them. */
  lemma MarkForced(s: string, c: nat, e: nat)
    requires c <= e < |s| && MarkShape(s, c, e) && s[e] == ' '
    ensures e == MarkEnd(s, c)
  {
  }

  /** After the stamp comes '<' or a digit, never a space. */
  lemma TailSolid(s: string, p: Pattern, w: WinCut)
    requires TailShape(s, p, w)
    ensures w.stamp.padEnd < |s| && s[w.stamp.padEnd] != ' '
  {
    var f := w.stamp.padEnd;
    match p
    case DirPattern =>
      assert s[f] == s[f..f + 5][0];
    case FilePattern =>
      RunAt(s, f, w.sizeEnd, Digits, f);
  }

  /** A stamp followed by a character other than a space is the one
      StampFrom computes from its date run. */
  lemma StampComplete(s: string, t: Stamp)
    requires StampShape(s, t) && t.padEnd < |s| && s[t.padEnd] != ' '
    ensures StampFrom(s, t.start, t.dateEnd) == Some(t)
  {
    RunAt(s, t.timeStart, t.timeEnd, TimeChars, t.timeStart);
    RunEndIs(s, t.dateEnd, t.timeStart, Spaces);
    RunEndIs(s, t.timeStart, t.timeEnd, TimeChars);
    RunEndIs(s, t.markEnd, t.padEnd, Spaces);
    RunAt(s, t.markEnd, t.padEnd, Spaces, t.markEnd);
    MarkForced(s, t.timeEnd, t.markEnd);
  }

  /** The tail after a known stamp is the one TailFrom computes. */
  lemma TailComplete(s: string, p: Pattern, w: WinCut)
    requires TailShape(s, p, w) && w.stamp.padEnd <= |s|
    ensures TailFrom(s, p, w.stamp) == Some(w)
  {
    match p
    case DirPattern =>
    case FilePattern =>
      RunEndIs(s, w.stamp.padEnd, w.sizeEnd, Digits);
  }

  /** Each match is the one WinAt computes from its start and date run. */
  lemma AtComplete(s: string, p: Pattern, w: WinCut)
    requires Matches(s, p, w)
    ensures WinAt(s, p, w.stamp.start, w.stamp.dateEnd) == Some(w)
  {
    TailSolid(s, p, w);
    StampComplete(s, w.stamp);
    TailComplete(s, p, w);
  }

  /** When the pattern can match at a start, WinStart finds a match there
      whose date run is at least as long. */
  lemma StartComplete(s: string, p: Pattern, w: WinCut)
    requires Matches(s, p, w)
    ensures WinStart(s, p, w.stamp.start).Some?
    ensures WinStart(s, p, w.stamp.start).value.stamp.dateEnd >= w.stamp.dateEnd
  {
    var t := w.stamp;
    AtComplete(s, p, w);
    DateFitsOf(s, p, t.start, t.dateEnd);
    RunEndAtLeast(s, t.start, t.dateEnd, DashDigits);
    var fits, hi := DateFits(s, p, t.start), RunEnd(s, t.start, DashDigits);
    LastWhereAtLeast(fits, t.start + 1, hi, t.dateEnd);
    var a := LastWhere(fits, t.start + 1, hi).value;
    assert fits(a);
    assert WinStart(s, p, t.start) == WinAt(s, p, t.start, a);
  }

  lemma DateFitsOf(s: string, p: Pattern, start: nat, a: nat)
    requires WinAt(s, p, start, a).Some?
    ensures DateFits(s, p, start)(a)
  {
  }

  /** When the pattern can match anywhere, the search finds the leftmost
      match. */
  lemma SearchComplete(s: string, p: Pattern, w: WinCut)
    requires Matches(s, p, w)
    ensures WinSearch(s, p).Some? && WinSearch(s, p).value.stamp.start <= w.stamp.start
  {
    StartComplete(s, p, w);
    assert StartFits(s, p)(w.stamp.start);
    FirstWhereAtMost(StartFits(s, p), 0, |s|, w.stamp.start);
  }

  /** Given its start and the end of its date run, a match is unique. */
  lemma MatchDetermined(s: string, p: Pattern, w: WinCut, v: WinCut)
    requires Matches(s, p, w) && Matches(s, p, v)
    requires w.stamp.start == v.stamp.start && w.stamp.dateEnd == v.stamp.dateEnd
    ensures w == v
  {
    AtComplete(s, p, w);
    AtComplete(s, p, v);
  }

  /** The directory pattern needs a '<': a line without one is never read
      as a directory. */
  lemma NoDirWithoutAngle(s: string)
    requires Lacks(s, '<')
    ensures WinSearch(s, DirPattern).None?
  {
    var r := WinSearch(s, DirPattern);
    if r.Some? {
      DirHasAngle(s, r.value);
    }
  }

  lemma DirHasAngle(s: string, w: WinCut)
    requires Matches(s, DirPattern, w)
    ensures w.stamp.padEnd < |s| && s[w.stamp.padEnd] == '<'
  {
    var f := w.stamp.padEnd;
    assert s[f] == s[f..f + 5][0];
  }
}
