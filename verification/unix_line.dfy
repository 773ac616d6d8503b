/** Recogniser for the UNIX listing pattern of analyzeDir
      ([-ld])[rwxst-]{9}.* ([0-9]*) [a-zA-Z]+ [0-9: ]*[0-9] (.+)
    written out as the backtracking search a PCRE matcher performs: the
    leftmost start position wins, and each greedy quantifier settles on
    its longest extent that lets the rest of the pattern match
    (TextScan.LastWhere). Quantifiers whose run is followed by a literal
    outside their class (`[0-9]* ` and `[a-zA-Z]+ `) can only succeed at
    their longest extent, so they are taken whole. */
module UnixLine {
  import opened Common
  import opened TextScan

  predicate IsFlag(c: char) { c == '-' || c == 'l' || c == 'd' }

  /** Positions of one match in a line: the flag at `start`, nine
      permission characters, the `.*` up to the space at `gap`, the size
      digits up to the space at `sizeEnd`, the month up to the space at
      `monthEnd`, the date group up to and including the digit at
      `lastDigit`, a space, and the name from lastDigit + 2 to `nameEnd`. */
  datatype Cut = Cut(start: nat, gap: nat, sizeEnd: nat, monthEnd: nat, lastDigit: nat, nameEnd: nat)

  /** The part of the pattern from the space before the size onwards. */
  predicate TailShape(s: string, c: Cut)
  {
    && c.gap < c.sizeEnd && c.sizeEnd + 1 < c.monthEnd && c.monthEnd < c.lastDigit
    && c.lastDigit + 2 < c.nameEnd <= |s|
    && s[c.gap] == ' ' && Run(s, c.gap + 1, c.sizeEnd, Digits)
    && s[c.sizeEnd] == ' ' && Run(s, c.sizeEnd + 1, c.monthEnd, Letters)
    && s[c.monthEnd] == ' ' && Run(s, c.monthEnd + 1, c.lastDigit, DateChars)
    && IsDigit(s[c.lastDigit]) && s[c.lastDigit + 1] == ' '
    && c.nameEnd == RunEnd(s, c.lastDigit + 2, LineChars)
  }

  /** The flag, the permissions and the `.*` before the gap. */
  predicate HeadShape(s: string, c: Cut)
  {
    && c.start + 10 <= c.gap < |s|
    && IsFlag(s[c.start]) && Run(s, c.start + 1, c.start + 10, PermChars)
    && Run(s, c.start + 10, c.gap, LineChars)
  }

  /** `c` describes one way the whole pattern matches `s`. */
  predicate Matches(s: string, c: Cut) { HeadShape(s, c) && TailShape(s, c) }

  /** `[0-9] (.+)` succeeds with the digit at m. */
  predicate DateEndsAt(s: string, m: nat)
  {
    m + 1 < |s| && IsDigit(s[m]) && s[m + 1] == ' ' && RunEnd(s, m + 2, LineChars) > m + 2
  }

  /** The date group can end at each position where this holds. */
  function DateFits(s: string): nat -> bool
  {
    (m: nat) => DateEndsAt(s, m)
  }

  /** The date group of `c` ends at the last digit it can: no longer
      extent of the star `[0-9: ]*` is followed by a digit, a space and a
      name. */
  predicate DateGreedy(s: string, c: Cut)
    requires c.monthEnd < |s|
  {
    forall m :: c.lastDigit < m <= RunEnd(s, c.monthEnd + 1, DateChars) ==> !DateFits(s)(m)
  }

  /** The date group `[0-9: ]*[0-9] (.+)` after the space at `monthEnd`:
      the star gives back characters until a digit, a space and a nonempty
      name follow it. */
  function DateAt(s: string, start: nat, gap: nat, sizeEnd: nat, monthEnd: nat): (r: Option<Cut>)
    requires monthEnd < |s|
    ensures r.Some? ==>
              var m := r.value.lastDigit;
              && m + 2 <= |s|
              && r.value == Cut(start, gap, sizeEnd, monthEnd, m, RunEnd(s, m + 2, LineChars))
              && monthEnd < m && m + 2 < r.value.nameEnd <= |s|
              && Run(s, monthEnd + 1, m, DateChars) && IsDigit(s[m]) && s[m + 1] == ' '
              && DateGreedy(s, r.value)
  {
    var dateEnd := RunEnd(s, monthEnd + 1, DateChars);
    match LastWhere(DateFits(s), monthEnd + 1, dateEnd)
    case Some(m) =>
      RunSplit(s, monthEnd + 1, m, dateEnd, DateChars);
      Some(Cut(start, gap, sizeEnd, monthEnd, m, RunEnd(s, m + 2, LineChars)))
    case None => None
  }

  /** The pattern from the space at `gap` onwards. */
  function TailAt(s: string, start: nat, gap: nat): (r: Option<Cut>)
    requires gap <= |s|
    ensures r.Some? ==> TailShape(s, r.value) && r.value.start == start && r.value.gap == gap
    ensures r.Some? ==> DateGreedy(s, r.value)
  {
    if gap < |s| && s[gap] == ' ' then
      var sizeEnd := RunEnd(s, gap + 1, Digits);
      if sizeEnd < |s| && s[sizeEnd] == ' ' then
        var monthEnd := RunEnd(s, sizeEnd + 1, Letters);
        if sizeEnd + 1 < monthEnd < |s| && s[monthEnd] == ' ' then
          DateAt(s, start, gap, sizeEnd, monthEnd)
        else None
      else None
    else None
  }

  predicate TailOk(s: string, start: nat, gap: nat)
  {
    gap <= |s| && TailAt(s, start, gap).Some?
  }

  /** The `.*` can end at each gap where this holds. */
  function TailFits(s: string, start: nat): nat -> bool
  {
    (g: nat) => TailOk(s, start, g)
  }

  /** Flag and permissions at `start`. */
  predicate HeadOk(s: string, start: nat)
  {
    start + 10 <= |s| && IsFlag(s[start]) && Run(s, start + 1, start + 10, PermChars)
  }

  /** The `.*` after the permissions takes the longest extent after which
      the tail of the pattern matches. */
  function GapAt(s: string, start: nat): (r: Option<Cut>)
    requires start + 10 <= |s|
    ensures r.Some? ==> TailShape(s, r.value) && DateGreedy(s, r.value) && r.value.start == start
    ensures r.Some? ==> Run(s, start + 10, r.value.gap, LineChars)
    ensures r.Some? ==> forall g :: r.value.gap < g <= RunEnd(s, start + 10, LineChars) ==> !TailFits(s, start)(g)
  {
    var lineEnd := RunEnd(s, start + 10, LineChars);
    match LastWhere(TailFits(s, start), start + 10, lineEnd)
    case Some(g) =>
      RunSplit(s, start + 10, g, lineEnd, LineChars);
      TailAt(s, start, g)
    case None => None
  }

  /** The whole pattern anchored at `start`. */
  function UnixAt(s: string, start: nat): (r: Option<Cut>)
    ensures r.Some? ==> Matches(s, r.value) && r.value.start == start && DateGreedy(s, r.value)
    ensures r.Some? ==> forall g :: r.value.gap < g <= RunEnd(s, start + 10, LineChars) ==> !TailFits(s, start)(g)
  {
    if HeadOk(s, start) then GapAt(s, start) else None
  }

  predicate StartOk(s: string, start: nat) { UnixAt(s, start).Some? }

  /** The pattern can start at each position where this holds. */
  function StartFits(s: string): nat -> bool
  {
    (i: nat) => StartOk(s, i)
  }

  /** The leftmost match in the line. */
  function UnixSearch(s: string): (r: Option<Cut>)
    ensures r.Some? ==> Matches(s, r.value) && r == UnixAt(s, r.value.start) && DateGreedy(s, r.value)
    ensures r.Some? ==> forall i :: 0 <= i < r.value.start ==> !StartFits(s)(i)
    ensures r.None? ==> forall i :: 0 <= i < |s| ==> !StartFits(s)(i)
  {
    match FirstWhere(StartFits(s), 0, |s|)
    case Some(i) => UnixAt(s, i)
    case None => None
  }

  // -----------------------------------------------------------------------
  // Completeness: the search misses no match

  /** A digit the date group can end at, reached by date characters from
      the month, makes the date group match. */
  lemma DateComplete(s: string, start: nat, gap: nat, sizeEnd: nat, monthEnd: nat, m: nat)
    requires monthEnd < m < |s| && Run(s, monthEnd + 1, m, DateChars) && DateEndsAt(s, m)
    ensures DateAt(s, start, gap, sizeEnd, monthEnd).Some?
  {
    RunExtend(s, monthEnd + 1, m, DateChars);
    RunEndAtLeast(s, monthEnd + 1, m + 1, DateChars);
    assert DateFits(s)(m);
    LastWhereAtLeast(DateFits(s), monthEnd + 1, RunEnd(s, monthEnd + 1, DateChars), m);
  }

  /** When the tail of the pattern can match at a gap, TailAt finds a
      match there. */
  lemma TailComplete(s: string, c: Cut)
    requires TailShape(s, c)
    ensures TailAt(s, c.start, c.gap).Some? && TailFits(s, c.start)(c.gap)
  {
    RunEndIs(s, c.gap + 1, c.sizeEnd, Digits);
    RunEndIs(s, c.sizeEnd + 1, c.monthEnd, Letters);
    DateComplete(s, c.start, c.gap, c.sizeEnd, c.monthEnd, c.lastDigit);
    TailFromDate(s, c.start, c.gap, c.sizeEnd, c.monthEnd);
    TailFitsOf(s, c.start, c.gap);
  }

  /** Size and month runs ended by spaces, then a date group, make the
      tail match. */
  lemma TailFromDate(s: string, start: nat, gap: nat, sizeEnd: nat, monthEnd: nat)
    requires gap < sizeEnd < |s| && s[gap] == ' ' && RunEnd(s, gap + 1, Digits) == sizeEnd
    requires s[sizeEnd] == ' ' && RunEnd(s, sizeEnd + 1, Letters) == monthEnd
    requires sizeEnd + 1 < monthEnd < |s| && s[monthEnd] == ' '
    requires DateAt(s, start, gap, sizeEnd, monthEnd).Some?
    ensures TailAt(s, start, gap).Some?
  {
  }

  lemma TailFitsOf(s: string, start: nat, g: nat)
    requires g <= |s| && TailAt(s, start, g).Some?
    ensures TailFits(s, start)(g)
  {
  }

  /** The month field begins and ends with a letter. */
  lemma TailLetters(s: string, c: Cut)
    requires TailShape(s, c)
    ensures IsAlpha(s[c.sizeEnd + 1]) && IsAlpha(s[c.monthEnd - 1])
  {
    RunAt(s, c.sizeEnd + 1, c.monthEnd, Letters, c.sizeEnd + 1);
    RunAt(s, c.sizeEnd + 1, c.monthEnd, Letters, c.monthEnd - 1);
  }

  /** Two matches of the tail at the same gap agree on the size and month
      fields: those runs are followed by a space outside their class. */
  lemma TailFieldsAgree(s: string, c: Cut, d: Cut)
    requires TailShape(s, c) && TailShape(s, d) && c.gap == d.gap
    ensures c.sizeEnd == d.sizeEnd && c.monthEnd == d.monthEnd
  {
    RunEndIs(s, c.gap + 1, c.sizeEnd, Digits);
    RunEndIs(s, d.gap + 1, d.sizeEnd, Digits);
    RunEndIs(s, c.sizeEnd + 1, c.monthEnd, Letters);
    RunEndIs(s, d.sizeEnd + 1, d.monthEnd, Letters);
  }

  /** A match is determined by its start, its gap and the end of its date
      group. */
  lemma CutDetermined(s: string, c: Cut, d: Cut)
    requires TailShape(s, c) && TailShape(s, d)
    requires c.start == d.start && c.gap == d.gap && c.lastDigit == d.lastDigit
    ensures c == d
  {
    TailFieldsAgree(s, c, d);
  }

  /** Of two matches of the tail at the same gap, the greedy one's date
      group ends no earlier. */
  lemma GreedyDateLatest(s: string, c: Cut, d: Cut)
    requires TailShape(s, c) && TailShape(s, d) && c.gap == d.gap && DateGreedy(s, c)
    ensures c.lastDigit >= d.lastDigit
  {
    TailFieldsAgree(s, c, d);
    DateLatest(s, c, d.lastDigit);
  }

  /** A digit the date group can end at lies no later than the greedy
      choice. */
  lemma DateLatest(s: string, c: Cut, m: nat)
    requires c.monthEnd < m < |s| && Run(s, c.monthEnd + 1, m, DateChars) && DateEndsAt(s, m)
    requires DateGreedy(s, c)
    ensures c.lastDigit >= m
  {
    RunExtend(s, c.monthEnd + 1, m, DateChars);
    RunEndAtLeast(s, c.monthEnd + 1, m + 1, DateChars);
    assert DateFits(s)(m);
  }

  /** A gap at which the tail fits, within reach of the `.*`, makes the
      `.*` settle on a gap at least that long. */
  lemma GapFromFit(s: string, start: nat, g: nat)
    requires start + 10 <= |s| && start + 10 <= g <= RunEnd(s, start + 10, LineChars)
    requires TailFits(s, start)(g)
    ensures GapAt(s, start).Some? && GapAt(s, start).value.gap >= g
  {
    LastWhereAtLeast(TailFits(s, start), start + 10, RunEnd(s, start + 10, LineChars), g);
  }

  /** When the pattern can match at `c.start`, UnixAt finds a match there
      whose `.*` is at least as long as `c`'s. */
  lemma AtComplete(s: string, c: Cut)
    requires Matches(s, c)
    ensures UnixAt(s, c.start).Some? && UnixAt(s, c.start).value.gap >= c.gap
  {
    AtIsGap(s, c.start);
    TailComplete(s, c);
    RunEndAtLeast(s, c.start + 10, c.gap, LineChars);
    GapFromFit(s, c.start, c.gap);
  }

  lemma AtIsGap(s: string, start: nat)
    requires HeadOk(s, start)
    ensures UnixAt(s, start) == GapAt(s, start)
  {
  }

  /** When the pattern can match anywhere, the search finds the leftmost
      match, so it starts no later than `c`. */
  lemma SearchComplete(s: string, c: Cut)
    requires Matches(s, c)
    ensures UnixSearch(s).Some? && UnixSearch(s).value.start <= c.start
  {
    AtComplete(s, c);
    assert StartFits(s)(c.start);
    FirstWhereAtMost(StartFits(s), 0, |s|, c.start);
  }
}
