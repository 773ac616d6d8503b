/** Listing lines built from their fields, and the proof that the UNIX
    recogniser reads every well-formed line back into exactly the fields
    it was built from. */
module UnixRender {
  import opened Common
  import opened TextScan
  import opened UnixLine

  /** The fields of one UNIX listing line, as `ls -l` lays them out: the
      type flag, nine permission characters, the link count, owner and
      group (`mid`, which starts right after the permissions), the size,
      the month, the rest of the date, and the name. */
  datatype UnixFields = UnixFields(flag: char, perms: string, mid: string, size: string,
                                   month: string, date: string, name: string)

  /** Fields the pattern can read back unambiguously: the date ends in a
      digit and the name holds no space. */
  predicate WellFormed(u: UnixFields)
  {
    && IsFlag(u.flag) && |u.perms| == 9 && Every(u.perms, PermChars)
    && Every(u.mid, LineChars) && Every(u.size, Digits)
    && |u.month| > 0 && Every(u.month, Letters)
    && |u.date| > 0 && Every(u.date, DateChars) && IsDigit(u.date[|u.date| - 1])
    && |u.name| > 0 && Every(u.name, WordChars)
  }

  function Render(u: UnixFields): string
  {
    [u.flag] + u.perms + u.mid + " " + u.size + " " + u.month + " " + u.date + " " + u.name
  }

  function GapOf(u: UnixFields): nat { 1 + |u.perms| + |u.mid| }
  function SizeEndOf(u: UnixFields): nat { GapOf(u) + 1 + |u.size| }
  function MonthEndOf(u: UnixFields): nat { SizeEndOf(u) + 1 + |u.month| }
  function LastDigitOf(u: UnixFields): nat { MonthEndOf(u) + |u.date| }

  /** Where the fields of `u` sit in its rendered line. */
  function CutOf(u: UnixFields): Cut
  {
    Cut(0, GapOf(u), SizeEndOf(u), MonthEndOf(u), LastDigitOf(u), LastDigitOf(u) + 2 + |u.name|)
  }

  lemma RenderChar(u: UnixFields, p: nat)
    requires p < |Render(u)|
    ensures |Render(u)| == LastDigitOf(u) + 2 + |u.name|
    ensures p == 0 ==> Render(u)[p] == u.flag
    ensures 1 <= p < 1 + |u.perms| ==> Render(u)[p] == u.perms[p - 1]
    ensures 1 + |u.perms| <= p < GapOf(u) ==> Render(u)[p] == u.mid[p - 1 - |u.perms|]
    ensures p == GapOf(u) || p == SizeEndOf(u) || p == MonthEndOf(u) || p == LastDigitOf(u) + 1
            ==> Render(u)[p] == ' '
    ensures GapOf(u) < p < SizeEndOf(u) ==> Render(u)[p] == u.size[p - GapOf(u) - 1]
    ensures SizeEndOf(u) < p < MonthEndOf(u) ==> Render(u)[p] == u.month[p - SizeEndOf(u) - 1]
    ensures MonthEndOf(u) < p <= LastDigitOf(u) ==> Render(u)[p] == u.date[p - MonthEndOf(u) - 1]
    ensures LastDigitOf(u) + 1 < p ==> Render(u)[p] == u.name[p - LastDigitOf(u) - 2]
  {
  }

  /** The class of every character of a well-formed line, by the field it
      falls in. */
  lemma RenderClass(u: UnixFields, p: nat)
    requires WellFormed(u) && p < |Render(u)|
    ensures |Render(u)| == LastDigitOf(u) + 2 + |u.name|
    ensures p == 0 ==> IsFlag(Render(u)[p])
    ensures 1 <= p < 10 ==> InClass(Render(u)[p], PermChars)
    ensures 10 <= p < GapOf(u) ==> InClass(Render(u)[p], LineChars)
    ensures p == GapOf(u) || p == SizeEndOf(u) || p == MonthEndOf(u) || p == LastDigitOf(u) + 1
            ==> Render(u)[p] == ' '
    ensures GapOf(u) < p < SizeEndOf(u) ==> IsDigit(Render(u)[p])
    ensures SizeEndOf(u) < p < MonthEndOf(u) ==> IsAlpha(Render(u)[p])
    ensures MonthEndOf(u) < p <= LastDigitOf(u) ==> InClass(Render(u)[p], DateChars)
    ensures p == LastDigitOf(u) ==> IsDigit(Render(u)[p])
    ensures LastDigitOf(u) + 1 < p ==> InClass(Render(u)[p], WordChars)
  {
    RenderChar(u, p);
    if 1 <= p < 10 {
      RunAt(u.perms, 0, |u.perms|, PermChars, p - 1);
    } else if 10 <= p < GapOf(u) {
      RunAt(u.mid, 0, |u.mid|, LineChars, p - 10);
    } else if GapOf(u) < p < SizeEndOf(u) {
      RunAt(u.size, 0, |u.size|, Digits, p - GapOf(u) - 1);
    } else if SizeEndOf(u) < p < MonthEndOf(u) {
      RunAt(u.month, 0, |u.month|, Letters, p - SizeEndOf(u) - 1);
    } else if MonthEndOf(u) < p <= LastDigitOf(u) {
      RunAt(u.date, 0, |u.date|, DateChars, p - MonthEndOf(u) - 1);
    } else if LastDigitOf(u) + 1 < p {
      RunAt(u.name, 0, |u.name|, WordChars, p - LastDigitOf(u) - 2);
    }
  }

  lemma PermsRun(u: UnixFields)
    requires WellFormed(u)
    ensures Run(Render(u), 1, 10, PermChars)
  {
    forall k | 1 <= k < 10 ensures InClass(Render(u)[k], PermChars) { RenderClass(u, k); }
    RunOf(Render(u), 1, 10, PermChars);
  }

  lemma MidRun(u: UnixFields)
    requires WellFormed(u)
    ensures Run(Render(u), 10, GapOf(u), LineChars)
  {
    forall k | 10 <= k < GapOf(u) ensures InClass(Render(u)[k], LineChars) { RenderClass(u, k); }
    RunOf(Render(u), 10, GapOf(u), LineChars);
  }

  lemma SizeRun(u: UnixFields)
    requires WellFormed(u)
    ensures Run(Render(u), GapOf(u) + 1, SizeEndOf(u), Digits)
  {
    forall k | GapOf(u) < k < SizeEndOf(u) ensures InClass(Render(u)[k], Digits) { RenderClass(u, k); }
    RunOf(Render(u), GapOf(u) + 1, SizeEndOf(u), Digits);
  }

  lemma MonthRun(u: UnixFields)
    requires WellFormed(u)
    ensures Run(Render(u), SizeEndOf(u) + 1, MonthEndOf(u), Letters)
  {
    forall k | SizeEndOf(u) < k < MonthEndOf(u) ensures InClass(Render(u)[k], Letters) { RenderClass(u, k); }
    RunOf(Render(u), SizeEndOf(u) + 1, MonthEndOf(u), Letters);
  }

  lemma DateRun(u: UnixFields)
    requires WellFormed(u)
    ensures Run(Render(u), MonthEndOf(u) + 1, LastDigitOf(u), DateChars)
  {
    forall k | MonthEndOf(u) < k < LastDigitOf(u) ensures InClass(Render(u)[k], DateChars) { RenderClass(u, k); }
    RunOf(Render(u), MonthEndOf(u) + 1, LastDigitOf(u), DateChars);
  }

  /** The name runs to the end of the line. */
  lemma NameRun(u: UnixFields)
    requires WellFormed(u)
    ensures RunEnd(Render(u), LastDigitOf(u) + 2, LineChars) == |Render(u)|
  {
    var s := Render(u);
    RenderClass(u, 0);
    forall k | LastDigitOf(u) + 1 < k < |s| ensures InClass(s[k], LineChars) { RenderClass(u, k); }
    RunOf(s, LastDigitOf(u) + 2, |s|, LineChars);
    RunEndIs(s, LastDigitOf(u) + 2, |s|, LineChars);
  }

  /** The separators, the flag and the final digit of the date. */
  lemma RenderMarks(u: UnixFields)
    requires WellFormed(u)
    ensures |Render(u)| == LastDigitOf(u) + 2 + |u.name|
    ensures IsFlag(Render(u)[0]) && IsDigit(Render(u)[LastDigitOf(u)])
    ensures Render(u)[GapOf(u)] == ' ' && Render(u)[SizeEndOf(u)] == ' '
    ensures Render(u)[MonthEndOf(u)] == ' ' && Render(u)[LastDigitOf(u) + 1] == ' '
  {
    RenderClass(u, 0);
    RenderClass(u, GapOf(u));
    RenderClass(u, SizeEndOf(u));
    RenderClass(u, MonthEndOf(u));
    RenderClass(u, LastDigitOf(u));
    RenderClass(u, LastDigitOf(u) + 1);
  }

  lemma RenderHead(u: UnixFields)
    requires WellFormed(u)
    ensures HeadShape(Render(u), CutOf(u))
  {
    RenderMarks(u);
    PermsRun(u);
    MidRun(u);
  }

  lemma RenderTail(u: UnixFields)
    requires WellFormed(u)
    ensures TailShape(Render(u), CutOf(u))
  {
    RenderMarks(u);
    SizeRun(u);
    MonthRun(u);
    DateRun(u);
    NameRun(u);
  }

  /** The rendered line matches the pattern with its fields where they were
      put. */
  lemma RenderMatches(u: UnixFields)
    requires WellFormed(u)
    ensures Matches(Render(u), CutOf(u))
  {
    RenderHead(u);
    RenderTail(u);
  }

  /** Past the gap, spaces and letters occur only in these places. */
  lemma AfterGap(u: UnixFields, p: nat)
    requires WellFormed(u) && p < |Render(u)|
    ensures GapOf(u) < p && Render(u)[p] == ' ' ==>
              p == SizeEndOf(u) || MonthEndOf(u) <= p <= LastDigitOf(u) + 1
    ensures GapOf(u) < p && IsAlpha(Render(u)[p]) ==>
              SizeEndOf(u) < p < MonthEndOf(u) || LastDigitOf(u) + 1 < p
    ensures GapOf(u) < p < SizeEndOf(u) ==> IsDigit(Render(u)[p])
  {
    RenderClass(u, p);
  }

  /** No gap after the real one lets the tail of the pattern match: the
      month is the only run of letters followed by a space past the gap,
      and the only space before it that is followed by digits and a space
      is the real gap. */
  lemma NoLaterTail(u: UnixFields, c: Cut)
    requires WellFormed(u) && TailShape(Render(u), c)
    ensures c.gap <= GapOf(u)
  {
    var s := Render(u);
    TailLetters(s, c);
    assert c.gap < c.sizeEnd && c.sizeEnd + 1 < c.monthEnd < |s|;
    assert s[c.gap] == ' ' && s[c.sizeEnd] == ' ' && s[c.monthEnd] == ' ';
    NoLaterGap(u, c.gap, c.sizeEnd, c.monthEnd);
  }

  lemma NoLaterGap(u: UnixFields, gap: nat, sizeEnd: nat, monthEnd: nat)
    requires WellFormed(u) && gap < sizeEnd && sizeEnd + 1 < monthEnd < |Render(u)|
    requires Render(u)[gap] == ' ' && Render(u)[sizeEnd] == ' ' && Render(u)[monthEnd] == ' '
    requires IsAlpha(Render(u)[sizeEnd + 1]) && IsAlpha(Render(u)[monthEnd - 1])
    ensures gap <= GapOf(u)
  {
    AfterGap(u, monthEnd);
    AfterGap(u, monthEnd - 1);
    AfterGap(u, sizeEnd);
    AfterGap(u, gap);
  }

  /** The date group cannot end past the real date: after it come a space
      and a name without spaces. */
  lemma NoLaterDate(u: UnixFields, c: Cut)
    requires WellFormed(u) && TailShape(Render(u), c)
    ensures c.lastDigit <= LastDigitOf(u)
  {
    RenderClass(u, c.lastDigit);
    RenderClass(u, c.lastDigit + 1);
  }

  /** The search settles on the line's first character. */
  lemma SearchAtZero(u: UnixFields)
    requires WellFormed(u)
    ensures UnixAt(Render(u), 0).Some? && UnixSearch(Render(u)) == UnixAt(Render(u), 0)
  {
    RenderMatches(u);
    SearchComplete(Render(u), CutOf(u));
  }

  /** The match at the first character takes the real gap. */
  lemma AtZeroGap(u: UnixFields)
    requires WellFormed(u)
    ensures UnixAt(Render(u), 0).Some? && UnixAt(Render(u), 0).value.gap == GapOf(u)
  {
    RenderMatches(u);
    AtComplete(Render(u), CutOf(u));
    NoLaterTail(u, UnixAt(Render(u), 0).value);
  }

  /** The match at the first character is the cut of the fields. */
  lemma AtZeroCut(u: UnixFields)
    requires WellFormed(u)
    ensures UnixAt(Render(u), 0) == Some(CutOf(u))
  {
    var s, c := Render(u), CutOf(u);
    AtZeroGap(u);
    RenderTail(u);
    var r := UnixAt(s, 0).value;
    TailFieldsAgree(s, r, c);
    GreedyDateLatest(s, r, c);
    NoLaterDate(u, r);
    CutDetermined(s, r, c);
  }

  /** Round trip: the recogniser reads a well-formed line back into the
      positions of the fields it was built from. */
  lemma WellFormedMatch(u: UnixFields)
    requires WellFormed(u)
    ensures UnixSearch(Render(u)) == Some(CutOf(u))
  {
    SearchAtZero(u);
    AtZeroCut(u);
  }

  /** The captured groups of the rendered line are the fields. */
  lemma RenderGroups(u: UnixFields)
    ensures |Render(u)| == LastDigitOf(u) + 2 + |u.name|
    ensures Render(u)[0] == u.flag
    ensures Render(u)[GapOf(u) + 1..SizeEndOf(u)] == u.size
    ensures Render(u)[LastDigitOf(u) + 2..] == u.name
    ensures Render(u)[LastDigitOf(u) + 2..CutOf(u).nameEnd] == u.name
  {
    var s := Render(u);
    RenderChar(u, 0);
    forall k | 0 <= k < |u.size| ensures s[GapOf(u) + 1 + k] == u.size[k] {
      RenderChar(u, GapOf(u) + 1 + k);
    }
    forall k | 0 <= k < |u.name| ensures s[LastDigitOf(u) + 2 + k] == u.name[k] {
      RenderChar(u, LastDigitOf(u) + 2 + k);
    }
  }
}
