/** Character runs and backtracking searches: the building blocks of the
    hand-written recognisers for the listing-line and file-name patterns.
    A run of one character class is stated with the recursive predicate
    Run rather than with a quantifier, and a greedy quantifier's choice of
    extent is LastWhere: the largest extent that lets the rest of the
    pattern match. */
module TextScan {
  import opened Common

  /** The character classes the patterns of the client use. */
  datatype CharClass =
    | Digits       // [0-9]
    | Letters      // [a-zA-Z]
    | Alnum        // [a-z0-9] under the /i flag
    | LineChars    // . (every character but the newline)
    | DateChars    // [0-9: ]
    | PermChars    // [rwxst-]
    | DashDigits   // [-0-9]
    | TimeChars    // [0-9:]
    | WordChars    // neither a space nor a newline
    | Spaces       // the space character alone
    | PhpSpaces    // PHP's whitespace around a numeric string

  predicate InClass(c: char, cls: CharClass)
  {
    match cls
    case Digits => IsDigit(c)
    case Letters => IsAlpha(c)
    case Alnum => IsAlnum(c)
    case LineChars => c != '\n'
    case DateChars => IsDigit(c) || c == ':' || c == ' '
    case PermChars => c == 'r' || c == 'w' || c == 'x' || c == 's' || c == 't' || c == '-'
    case DashDigits => IsDigit(c) || c == '-'
    case TimeChars => IsDigit(c) || c == ':'
    case WordChars => c != ' ' && c != '\n'
    case Spaces => c == ' '
    case PhpSpaces => c == ' ' || c == '\t' || c == '\n' || c == '\r' || c as int == 11 || c as int == 12
  }

  /** Every character of s[i..j] belongs to `cls`. */
  predicate Run(s: string, i: nat, j: nat, cls: CharClass)
    requires j <= |s|
    decreases j - i
  {
    i >= j || (InClass(s[i], cls) && Run(s, i + 1, j, cls))
  }

  /** Every character of `t` belongs to `cls`. */
  predicate Every(t: string, cls: CharClass)
  {
    Run(t, 0, |t|, cls)
  }

  lemma {:induction false} RunAt(s: string, i: nat, j: nat, cls: CharClass, k: nat)
    requires j <= |s| && Run(s, i, j, cls) && i <= k < j
    ensures InClass(s[k], cls)
    decreases k - i
  {
    if i < k {
      RunAt(s, i + 1, j, cls, k);
    }
  }

  lemma {:induction false} RunSplit(s: string, i: nat, m: nat, j: nat, cls: CharClass)
    requires i <= m <= j <= |s| && Run(s, i, j, cls)
    ensures Run(s, i, m, cls) && Run(s, m, j, cls)
    decreases m - i
  {
    if i < m {
      RunSplit(s, i + 1, m, j, cls);
    }
  }

  lemma {:induction false} RunJoin(s: string, i: nat, m: nat, j: nat, cls: CharClass)
    requires i <= m <= j <= |s| && Run(s, i, m, cls) && Run(s, m, j, cls)
    ensures Run(s, i, j, cls)
    decreases m - i
  {
    if i < m {
      RunJoin(s, i + 1, m, j, cls);
    }
  }

  /** Characters of the class at every position make a run. */
  lemma {:induction false} RunOf(s: string, i: nat, j: nat, cls: CharClass)
    requires i <= j <= |s|
    requires forall k :: i <= k < j ==> InClass(s[k], cls)
    ensures Run(s, i, j, cls)
    decreases j - i
  {
    if i < j {
      RunOf(s, i + 1, j, cls);
    }
  }

  /** The slice a run covers is a string of its class. */
  lemma RunSlice(s: string, i: nat, j: nat, cls: CharClass)
    requires i <= j <= |s| && Run(s, i, j, cls)
    ensures Every(s[i..j], cls)
  {
    var t := s[i..j];
    forall k | 0 <= k < |t| ensures InClass(t[k], cls) {
      RunAt(s, i, j, cls, i + k);
    }
    RunOf(t, 0, |t|, cls);
  }

  /** A string of digits in the sense of Every is one in the sense of
      AllDigits. */
  lemma EveryDigit(t: string)
    requires Every(t, Digits)
    ensures AllDigits(t)
  {
    forall k | 0 <= k < |t| ensures IsDigit(t[k]) {
      RunAt(t, 0, |t|, Digits, k);
    }
  }

  /** A run grows by one character of its class. */
  lemma RunExtend(s: string, i: nat, j: nat, cls: CharClass)
    requires i <= j < |s| && Run(s, i, j, cls) && InClass(s[j], cls)
    ensures Run(s, i, j + 1, cls)
  {
    RunJoin(s, i, j, j + 1, cls);
  }

  /** A stretch of `s` that holds a copy of `t` is a run of every class
      `t` is a run of. */
  lemma {:induction false} RunCopy(s: string, off: nat, t: string, cls: CharClass, i: nat)
    requires off + |t| <= |s| && i <= |t|
    requires forall k :: i <= k < |t| ==> s[off + k] == t[k]
    requires Run(t, i, |t|, cls)
    ensures Run(s, off + i, off + |t|, cls)
    decreases |t| - i
  {
    if i < |t| {
      RunCopy(s, off, t, cls, i + 1);
    }
  }

  /** End of the longest run of `cls` starting at p. */
  function RunEnd(s: string, p: nat, cls: CharClass): (q: nat)
    requires p <= |s|
    ensures p <= q <= |s| && Run(s, p, q, cls)
    ensures q < |s| ==> !InClass(s[q], cls)
    decreases |s| - p
  {
    if p < |s| && InClass(s[p], cls) then RunEnd(s, p + 1, cls) else p
  }

  /** The longest run reaches every position a run reaches. */
  lemma {:induction false} RunEndAtLeast(s: string, p: nat, q: nat, cls: CharClass)
    requires p <= q <= |s| && Run(s, p, q, cls)
    ensures RunEnd(s, p, cls) >= q
    decreases q - p
  {
    if p < q {
      RunEndAtLeast(s, p + 1, q, cls);
    }
  }

  /** The longest run stops exactly where a run stops at a character
      outside the class. */
  lemma RunEndIs(s: string, p: nat, q: nat, cls: CharClass)
    requires p <= q <= |s| && Run(s, p, q, cls)
    requires q < |s| ==> !InClass(s[q], cls)
    ensures RunEnd(s, p, cls) == q
  {
    RunEndAtLeast(s, p, q, cls);
    var e := RunEnd(s, p, cls);
    if e > q {
      RunAt(s, p, e, cls, q);
    }
  }

  // -----------------------------------------------------------------------
  // Backtracking

  /** The largest position in [lo, hi] where `ok` holds. A greedy
      quantifier whose extent can end anywhere in [lo, hi] settles on
      exactly this position: it tries hi first and gives back one
      character at a time until the rest of the pattern matches. */
  function LastWhere(ok: nat -> bool, lo: nat, hi: nat): (r: Option<nat>)
    ensures r.Some? ==> lo <= r.value <= hi && ok(r.value)
    ensures r.Some? ==> forall k :: r.value < k <= hi ==> !ok(k)
    ensures r.None? ==> forall k :: lo <= k <= hi ==> !ok(k)
    decreases hi
  {
    if hi < lo then None
    else if ok(hi) then Some(hi)
    else if hi == lo then None
    else LastWhere(ok, lo, hi - 1)
  }

  /** The smallest position in [lo, hi) where `ok` holds: the leftmost
      start at which an unanchored pattern matches. */
  function FirstWhere(ok: nat -> bool, lo: nat, hi: nat): (r: Option<nat>)
    ensures r.Some? ==> lo <= r.value < hi && ok(r.value)
    ensures r.Some? ==> forall k :: lo <= k < r.value ==> !ok(k)
    ensures r.None? ==> forall k :: lo <= k < hi ==> !ok(k)
    decreases hi - lo
  {
    if hi <= lo then None
    else if ok(lo) then Some(lo)
    else FirstWhere(ok, lo + 1, hi)
  }

  /** A position that succeeds guarantees a result at least as large. */
  lemma LastWhereAtLeast(ok: nat -> bool, lo: nat, hi: nat, k: nat)
    requires lo <= k <= hi && ok(k)
    ensures LastWhere(ok, lo, hi).Some? && LastWhere(ok, lo, hi).value >= k
  {
  }

  /** A position that succeeds guarantees a result at least as small. */
  lemma FirstWhereAtMost(ok: nat -> bool, lo: nat, hi: nat, k: nat)
    requires lo <= k < hi && ok(k)
    ensures FirstWhere(ok, lo, hi).Some? && FirstWhere(ok, lo, hi).value <= k
  {
  }
}
