/** Choice of the transfer mode: getMode classifies a file name by its
    ending, and put, get, fput and fget decide whether the mode their
    caller passed is used as given, replaced by getMode, or replaced by
    ASCII. put compares the argument strictly (`!==`), the other three
    loosely (`!=`), which under PHP 8 lets a numeric string such as "1"
    through. */
module TransferMode {
  import opened Common
  import opened TextScan

  /** PHP's FTP_ASCII and FTP_BINARY. */
  const FtpAscii: int := 1
  const FtpBinary: int := 2

  predicate IsMode(m: int) { m == FtpAscii || m == FtpBinary }

  /** The endings transferred in ASCII mode. */
  const AsciiEndings: seq<string> :=
    ["asp", "bat", "c", "ccp", "csv", "h", "htm", "html", "shtml", "ini", "log",
     "php", "pl", "perl", "sh", "sql", "txt", "cgi", "lock", "json", "xml", "yml"]

  // -----------------------------------------------------------------------
  // The ending: /\.([a-z0-9]+)$/i

  /** `$` without the multiline flag: the end of the subject, or the
      position of a newline that ends it. */
  predicate DollarAt(file: string, q: nat)
  {
    q == |file| || (q + 1 == |file| && file[q] == '\n')
  }

  /** Where the subject ends for `$`: before a final newline, if any. */
  function SubjectEnd(file: string): (e: nat)
    ensures e <= |file| && DollarAt(file, e)
  {
    if |file| > 0 && file[|file| - 1] == '\n' then |file| - 1 else |file|
  }

  /** The end of the group when the match starts at the '.' at i. The
      greedy group takes the whole alphanumeric run; a shorter extent
      cannot be followed by `$` (EndingForced). */
  function EndingEnd(file: string, i: nat): (r: Option<nat>)
    ensures r.Some? ==> i + 1 < r.value <= |file| && Run(file, i + 1, r.value, Alnum)
    ensures r.Some? ==> file[i] == '.' && DollarAt(file, r.value)
  {
    if i < |file| && file[i] == '.' then
      var q := RunEnd(file, i + 1, Alnum);
      if q > i + 1 && DollarAt(file, q) then Some(q) else None
    else None
  }

  function EndingFits(file: string): nat -> bool { (i: nat) => EndingEnd(file, i).Some? }

  /** The ending the pattern captures: from the leftmost '.' where the
      match succeeds. */
  function Extension(file: string): (r: Option<string>)
    ensures r.Some? ==> |r.value| > 0 && Every(r.value, Alnum)
    ensures r.Some? ==> var n, e := |r.value|, SubjectEnd(file);
                        n + 1 <= e && file[e - n - 1] == '.' && file[e - n..e] == r.value
  {
    assert forall i :: EndingFits(file)(i) == EndingEnd(file, i).Some?;
    match FirstWhere(EndingFits(file), 0, |file|)
    case Some(i) =>
      var q := EndingEnd(file, i).value;
      RunSlice(file, i + 1, q, Alnum);
      assert q == SubjectEnd(file) by {
        if q == |file| && file[q - 1] == '\n' {
          RunAt(file, i + 1, q, Alnum, q - 1);
        }
      }
      Some(file[i + 1..q])
    case None => None
  }

  /** No shorter extent of the group lets `$` match. */
  lemma EndingForced(file: string, i: nat, q: nat)
    requires i < |file| && file[i] == '.' && i + 1 < q <= |file|
    requires Run(file, i + 1, q, Alnum) && DollarAt(file, q)
    ensures EndingEnd(file, i) == Some(q)
  {
    RunEndAtLeast(file, i + 1, q, Alnum);
    var r := RunEnd(file, i + 1, Alnum);
    if r > q {
      RunAt(file, i + 1, r, Alnum, q);
    }
  }

  /** A match starting at i is the only one: the alphanumeric run from any
      earlier '.' stops at the '.' at i, before `$` can match. */
  lemma {:induction false} NoEarlierEnding(file: string, i: nat, j: nat)
    requires EndingEnd(file, i).Some? && j < i
    ensures EndingEnd(file, j).None?
  {
    var q := EndingEnd(file, i).value;
    if EndingEnd(file, j).Some? {
      var q' := EndingEnd(file, j).value;
      assert q' >= |file| - 1 >= q - 1 > i;
      RunAt(file, j + 1, q', Alnum, i);
    }
  }

  /** `file` is `pre`, a '.', a non-empty alphanumeric ending and maybe a
      final newline. */
  predicate EndsWith(file: string, pre: string, ending: string, newline: bool)
  {
    && |ending| > 0 && Every(ending, Alnum)
    && file == pre + "." + ending + (if newline then "\n" else "")
  }

  /** A match found at the '.' at i is the ending. */
  lemma ExtensionAt(file: string, i: nat, q: nat)
    requires i < |file| && file[i] == '.' && i + 1 < q <= |file|
    requires Run(file, i + 1, q, Alnum) && DollarAt(file, q)
    ensures Extension(file) == Some(file[i + 1..q])
  {
    EndingForced(file, i, q);
    forall j: nat | j < i ensures !EndingFits(file)(j) {
      NoEarlierEnding(file, i, j);
    }
    FirstWhereAtMost(EndingFits(file), 0, |file|, i);
  }

  /** Where the parts of a name built by EndsWith sit. */
  lemma EndsWithParts(file: string, pre: string, ending: string, newline: bool)
    requires EndsWith(file, pre, ending, newline)
    ensures var i, q := |pre|, |pre| + 1 + |ending|;
            && i + 1 < q <= |file| && file[i] == '.'
            && Run(file, i + 1, q, Alnum) && DollarAt(file, q) && file[i + 1..q] == ending
  {
    var i := |pre|;
    forall k | 0 <= k < |ending| ensures file[i + 1 + k] == ending[k] {
    }
    RunCopy(file, i + 1, ending, Alnum, 0);
    assert file[i] == '.';
  }

  /** Reference definition: a name made of anything, a '.', a non-empty
      alphanumeric ending and possibly one final newline has exactly that
      ending. */
  lemma ExtensionOf(pre: string, ending: string, newline: bool)
    requires |ending| > 0 && Every(ending, Alnum)
    ensures Extension(pre + "." + ending + (if newline then "\n" else "")) == Some(ending)
  {
    var file := pre + "." + ending + (if newline then "\n" else "");
    EndsWithParts(file, pre, ending, newline);
    ExtensionAt(file, |pre|, |pre| + 1 + |ending|);
  }

  /** A name without '.' has no ending. */
  lemma NoDotNoExtension(file: string)
    requires Lacks(file, '.')
    ensures Extension(file).None?
  {
  }

  // -----------------------------------------------------------------------
  // getMode

  /** getMode: ASCII without an ending, otherwise ASCII exactly when the
      ending is in the list. The pattern matches the ending case-blind, but
      in_array compares it case-sensitively ("HTML" is not "html"; the list
      holds no numeric strings, so the loose comparison is plain string
      equality here). */
  function GetMode(file: string): (m: int)
    ensures IsMode(m)
  {
    match Extension(file)
    case None => FtpAscii
    case Some(e) => if e in AsciiEndings then FtpAscii else FtpBinary
  }

  /** getMode of a name with an ending is decided by the ending alone. */
  lemma GetModeOf(pre: string, ending: string, newline: bool)
    requires |ending| > 0 && Every(ending, Alnum)
    ensures GetMode(pre + "." + ending + (if newline then "\n" else ""))
              == if ending in AsciiEndings then FtpAscii else FtpBinary
  {
    ExtensionOf(pre, ending, newline);
  }

  /** BINARY is chosen only for a name that ends in a '.' and an
      alphanumeric ending outside the list. */
  lemma BinaryNeedsEnding(file: string)
    requires GetMode(file) == FtpBinary
    ensures exists pre, ending, newline :: EndsWith(file, pre, ending, newline) && ending !in AsciiEndings
  {
    var ending := Extension(file).value;
    var e, n := SubjectEnd(file), |ending|;
    var pre := file[..e - n - 1];
    var newline := e < |file|;
    assert file[..e] == pre + "." + ending;
    assert file == file[..e] + (if newline then "\n" else "");
    assert EndsWith(file, pre, ending, newline);
  }

  lemma ArchiveIsBinary()
    ensures GetMode("archive.tar.gz") == FtpBinary
  {
    RunOf("gz", 0, 2, Alnum);
    assert "archive.tar.gz" == "archive.tar" + "." + "gz" + "";
    GetModeOf("archive.tar", "gz", false);
  }

  lemma ReadmeIsAscii()
    ensures GetMode("README") == FtpAscii
  {
    NoDotNoExtension("README");
  }

  /** The ending is compared case-sensitively: "HTML" is not in the list. */
  lemma UpperCaseEndingIsBinary()
    ensures GetMode("index.HTML") == FtpBinary
  {
    RunOf("HTML", 0, 4, Alnum);
    assert "index.HTML" == "index" + "." + "HTML" + "";
    GetModeOf("index", "HTML", false);
  }

  lemma LowerCaseEndingIsAscii()
    ensures GetMode("index.html") == FtpAscii
  {
    RunOf("html", 0, 4, Alnum);
    assert "index.html" == "index" + "." + "html" + "";
    GetModeOf("index", "html", false);
  }

  // -----------------------------------------------------------------------
  // The mode argument

  /** The `int | string $mode` parameter; its default is the string "auto". */
  datatype ModeArg = IntMode(n: int) | StrMode(s: string)

  const Auto: ModeArg := StrMode("auto")

  /** `s` is a PHP 8 numeric string of integer form with its parts at
      a, b and d: whitespace up to a, an optional sign up to b, digits up
      to d, whitespace to the end. */
  predicate NumeralShape(s: string, a: nat, b: nat, d: nat)
  {
    && a <= b < d <= |s|
    && (b == a || (b == a + 1 && (s[a] == '+' || s[a] == '-')))
    && Run(s, 0, a, PhpSpaces) && Run(s, b, d, Digits) && Run(s, d, |s|, PhpSpaces)
  }

  /** The value a numeric string of that shape stands for. */
  function NumeralValue(s: string, a: nat, b: nat, d: nat): int
    requires NumeralShape(s, a, b, d)
  {
    RunSlice(s, b, d, Digits);
    EveryDigit(s[b..d]);
    var v: int := DecimalValue(s[b..d]);
    if b > a && s[a] == '-' then -v else v
  }

  /** The value of a PHP 8 numeric string of integer form: optional
      leading whitespace, an optional sign, digits, optional trailing
      whitespace. */
  function IntNumeral(s: string): (r: Option<int>)
    ensures r.Some? ==> exists a, b, d :: NumeralShape(s, a, b, d) && r.value == NumeralValue(s, a, b, d)
  {
    var a := RunEnd(s, 0, PhpSpaces);
    var b := if a < |s| && (s[a] == '+' || s[a] == '-') then a + 1 else a;
    var d := RunEnd(s, b, Digits);
    if d > b && RunEnd(s, d, PhpSpaces) == |s| then
      assert NumeralShape(s, a, b, d);
      Some(NumeralValue(s, a, b, d))
    else None
  }

  /** Every numeric string of integer form is read, with its value. */
  lemma IntNumeralComplete(s: string, a: nat, b: nat, d: nat)
    requires NumeralShape(s, a, b, d)
    ensures IntNumeral(s) == Some(NumeralValue(s, a, b, d))
  {
    assert !InClass(s[b], PhpSpaces) by {
      RunAt(s, b, d, Digits, b);
    }
    RunEndIs(s, 0, a, PhpSpaces);
    if d < |s| {
      RunAt(s, d, |s|, PhpSpaces, d);
    }
    RunEndIs(s, b, d, Digits);
    RunEndIs(s, d, |s|, PhpSpaces);
  }

  /** The decimal text PHP writes for an int is a numeric string of that
      value. */
  lemma IntNumeralOfDecimal(n: int)
    ensures IntNumeral(IntToDecimal(n)) == Some(n)
  {
    var s := IntToDecimal(n);
    IntToDecimalRoundTrip(n);
    var b := if n < 0 then 1 else 0;
    assert RunEnd(s, 0, PhpSpaces) == 0;
    forall k | b <= k < |s| ensures InClass(s[k], Digits) {
      if n < 0 {
        assert s[k] == s[1..][k - 1];
      }
    }
    RunOf(s, b, |s|, Digits);
    RunEndIs(s, b, |s|, Digits);
    assert s[b..|s|] == if n < 0 then s[1..] else s;
  }

  /** PHP 8 `$mode == $n` for an int n. */
  predicate LooseEquals(m: ModeArg, n: int)
  {
    match m
    case IntMode(k) => k == n
    case StrMode(s) => IntNumeral(s) == Some(n)
  }

  /** PHP 8 `$mode === $n` for an int n. */
  predicate StrictEquals(m: ModeArg, n: int)
  {
    m == IntMode(n)
  }

  // -----------------------------------------------------------------------
  // Resolution in put, get, fput and fget

  /** put: a mode that is not identical to FTP_ASCII or FTP_BINARY is
      replaced by getMode of the local name. */
  function ResolvePut(m: ModeArg, local: string): (r: int)
    ensures IsMode(r)
    ensures m.IntMode? && IsMode(m.n) ==> r == m.n
    ensures m.StrMode? || !IsMode(m.n) ==> r == GetMode(local)
  {
    if StrictEquals(m, FtpAscii) || StrictEquals(m, FtpBinary) then m.n else GetMode(local)
  }

  /** get: a mode that is not loosely equal to FTP_ASCII or FTP_BINARY is
      replaced by getMode of the remote name; otherwise the mode is cast
      to int. */
  function ResolveGet(m: ModeArg, remote: string): (r: int)
    ensures IsMode(r)
    ensures LooseEquals(m, FtpAscii) ==> r == FtpAscii
    ensures LooseEquals(m, FtpBinary) ==> r == FtpBinary
    ensures !LooseEquals(m, FtpAscii) && !LooseEquals(m, FtpBinary) ==> r == GetMode(remote)
  {
    if LooseEquals(m, FtpAscii) then FtpAscii
    else if LooseEquals(m, FtpBinary) then FtpBinary
    else GetMode(remote)
  }

  /** fput and fget: a mode that is not loosely equal to FTP_ASCII or
      FTP_BINARY becomes FTP_ASCII. */
  function ResolveStream(m: ModeArg): (r: int)
    ensures IsMode(r)
    ensures r == FtpBinary <==> LooseEquals(m, FtpBinary)
  {
    if LooseEquals(m, FtpAscii) then FtpAscii
    else if LooseEquals(m, FtpBinary) then FtpBinary
    else FtpAscii
  }

  /** A mode given as FTP_ASCII or FTP_BINARY is used by all four
      operations. */
  lemma ExplicitModeKept(n: int, file: string)
    requires IsMode(n)
    ensures ResolvePut(IntMode(n), file) == n
    ensures ResolveGet(IntMode(n), file) == n
    ensures ResolveStream(IntMode(n)) == n
  {
  }

  /** The default "auto" picks the mode from the name in put and get and
      is ASCII for streams. */
  lemma AutoMode(file: string)
    ensures ResolvePut(Auto, file) == GetMode(file)
    ensures ResolveGet(Auto, file) == GetMode(file)
    ensures ResolveStream(Auto) == FtpAscii
  {
    assert RunEnd("auto", 0, PhpSpaces) == 0;
    assert RunEnd("auto", 0, Digits) == 0;
  }

  /** The two comparisons differ on numeric strings: get keeps the mode
      the string "2" names, put ignores it and asks getMode. */
  lemma NumericStringMode(file: string)
    ensures ResolveGet(StrMode("2"), file) == FtpBinary
    ensures ResolvePut(StrMode("2"), file) == GetMode(file)
  {
    IntNumeralOfDecimal(2);
    assert IntToDecimal(2) == "2";
  }
}
