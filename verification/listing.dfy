/** analyzeDir and the filter loop of dirList: one raw LIST line becomes an
    entry, and a raw listing becomes the names and kinds a caller sees.
    The system type is a parameter of the parser: in the client it is a
    property that connect computes but never stores (README, Findings). */
module Listing {
  import opened Common
  import opened TextScan
  import UnixLine
  import WindowsLine

  /** The entry types of analyzeDir; Code gives the integers the client
      uses for them. */
  datatype Kind = Invalid | File | Directory | Link

  function Code(k: Kind): int
  {
    match k
    case Invalid => -1
    case File => 0
    case Directory => 1
    case Link => 2
  }

  /** One parsed line: type, size in bytes, name. */
  datatype Entry = Entry(kind: Kind, size: int, name: string)

  /** The entry of a line that is not understood. */
  const InvalidEntry: Entry := Entry(Invalid, 0, "")

  /** The first five characters of the line are "total". */
  predicate IsTotal(line: string) { |line| >= 5 && line[..5] == "total" }

  // -----------------------------------------------------------------------
  // Link names

  /** " ->" starts at k. */
  predicate ArrowAt(name: string, k: nat) { k + 3 <= |name| && name[k..k + 3] == " ->" }

  function ArrowFits(name: string): nat -> bool { (k: nat) => ArrowAt(name, k) }

  /** The name of a link cut by `(.+) ->.*`: the greedy group keeps the text
      before the last " ->" that has at least one character in front of
      it; with no such arrow the pattern fails and the name stays whole.
      Names captured by the UNIX pattern hold no newline, so `.` matches
      each of their characters. */
  function LinkName(name: string): (r: string)
    requires Every(name, LineChars)
    ensures |r| <= |name| && r == name[..|r|]
    ensures r != name ==> 1 <= |r| && ArrowAt(name, |r|)
    ensures r != name ==> forall k :: |r| < k <= |name| ==> !ArrowAt(name, k)
    ensures r == name <==> forall k :: 1 <= k <= |name| ==> !ArrowAt(name, k)
  {
    assert forall k :: ArrowFits(name)(k) == ArrowAt(name, k);
    match LastWhere(ArrowFits(name), 1, |name|)
    case Some(k) => name[..k]
    case None => name
  }

  // -----------------------------------------------------------------------
  // One line

  /** The UNIX branch from the captured groups: flag `d` and flag `-`
      both give a directory, flag `l` a link whose name is cut at the
      arrow; the size is the digit group, 0 when it is empty. */
  function UnixGroups(flag: char, digits: string, name: string): (e: Entry)
    requires AllDigits(digits) && Every(name, LineChars)
    ensures e.kind == (if flag == 'l' then Link else Directory)
    ensures e.size == IntVal(digits)
    ensures e.name == (if flag == 'l' then LinkName(name) else name)
  {
    if flag == 'd' then Entry(Directory, IntVal(digits), name)
    else if flag == 'l' then Entry(Link, IntVal(digits), LinkName(name))
    else Entry(Directory, IntVal(digits), name)
  }

  /** The UNIX entry of a line from the positions of one match. */
  function UnixFromCut(line: string, c: UnixLine.Cut): Entry
    requires UnixLine.Matches(line, c)
  {
    var digits := line[c.gap + 1..c.sizeEnd];
    var name := line[c.lastDigit + 2..c.nameEnd];
    RunSlice(line, c.gap + 1, c.sizeEnd, Digits);
    EveryDigit(digits);
    RunSlice(line, c.lastDigit + 2, c.nameEnd, LineChars);
    UnixGroups(line[c.start], digits, name)
  }

  /** The UNIX branch: the groups of the leftmost match, or the invalid
      entry when the pattern does not match. */
  function UnixEntry(line: string): (e: Entry)
    ensures e.kind == Invalid <==> UnixLine.UnixSearch(line).None?
    ensures e.kind == Invalid ==> e == InvalidEntry
    ensures UnixLine.UnixSearch(line).Some? ==> e == UnixFromCut(line, UnixLine.UnixSearch(line).value)
    ensures 0 <= e.size <= PhpIntMax
    ensures e.kind != File
  {
    match UnixLine.UnixSearch(line)
    case None => InvalidEntry
    case Some(c) => UnixFromCut(line, c)
  }

  /** The UNIX branch as evidently intended: flag `-` marks a regular
      file. Every other flag gives what UnixGroups gives. */
  function UnixGroupsIntended(flag: char, digits: string, name: string): (e: Entry)
    requires AllDigits(digits) && Every(name, LineChars)
    ensures e.kind == File <==> flag == '-'
    ensures flag != '-' ==> e == UnixGroups(flag, digits, name)
    ensures e.size == IntVal(digits) && e.name == UnixGroups(flag, digits, name).name
  {
    var g := UnixGroups(flag, digits, name);
    if flag == '-' then g.(kind := File) else g
  }

  /** The UNIX entry of a line as evidently intended: the flag group
      `-` gives a file, and the entry is otherwise UnixEntry's. */
  function UnixEntryIntended(line: string): (e: Entry)
    ensures e.kind == File <==> UnixLine.UnixSearch(line).Some? && line[UnixLine.UnixSearch(line).value.start] == '-'
    ensures e.kind != File ==> e == UnixEntry(line)
    ensures e.size == UnixEntry(line).size && e.name == UnixEntry(line).name
  {
    match UnixLine.UnixSearch(line)
    case None => InvalidEntry
    case Some(c) =>
      var digits := line[c.gap + 1..c.sizeEnd];
      var name := line[c.lastDigit + 2..c.nameEnd];
      RunSlice(line, c.gap + 1, c.sizeEnd, Digits);
      EveryDigit(digits);
      RunSlice(line, c.lastDigit + 2, c.nameEnd, LineChars);
      UnixGroupsIntended(line[c.start], digits, name)
  }

  /** The directory entry of a line from the positions of a match of the
      directory pattern. */
  function WinDirFromCut(line: string, w: WindowsLine.WinCut): Entry
    requires WindowsLine.Matches(line, WindowsLine.DirPattern, w)
  {
    Entry(Directory, 0, line[w.nameStart..w.nameEnd])
  }

  /** The file entry of a line from the positions of a match of the file
      pattern. */
  function WinFileFromCut(line: string, w: WindowsLine.WinCut): Entry
    requires WindowsLine.Matches(line, WindowsLine.FilePattern, w)
  {
    var digits := line[w.stamp.padEnd..w.sizeEnd];
    RunSlice(line, w.stamp.padEnd, w.sizeEnd, Digits);
    EveryDigit(digits);
    Entry(File, IntVal(digits), line[w.nameStart..w.nameEnd])
  }

  /** The Windows_NT branch: the directory pattern first, then the file
      pattern. */
  function WindowsEntry(line: string): (e: Entry)
    ensures e.kind == Invalid <==>
              WindowsLine.WinSearch(line, WindowsLine.DirPattern).None?
              && WindowsLine.WinSearch(line, WindowsLine.FilePattern).None?
    ensures e.kind == Invalid ==> e == InvalidEntry
    ensures WindowsLine.WinSearch(line, WindowsLine.DirPattern).Some? ==>
              e == WinDirFromCut(line, WindowsLine.WinSearch(line, WindowsLine.DirPattern).value)
    ensures WindowsLine.WinSearch(line, WindowsLine.DirPattern).None?
            && WindowsLine.WinSearch(line, WindowsLine.FilePattern).Some? ==>
              e == WinFileFromCut(line, WindowsLine.WinSearch(line, WindowsLine.FilePattern).value)
    ensures e.kind == Directory ==> e.size == 0
    ensures 0 <= e.size <= PhpIntMax
    ensures e.kind != Link
  {
    match WindowsLine.WinSearch(line, WindowsLine.DirPattern)
    case Some(w) => WinDirFromCut(line, w)
    case None =>
      match WindowsLine.WinSearch(line, WindowsLine.FilePattern)
      case Some(w) => WinFileFromCut(line, w)
      case None => InvalidEntry
  }

  /** The entry before the "." / ".." filter. */
  function Classify(sysType: string, line: string): Entry
  {
    if IsTotal(line) then InvalidEntry
    else if sysType == "Windows_NT" then WindowsEntry(line)
    else if sysType == "UNIX" then UnixEntry(line)
    else InvalidEntry
  }

  predicate IsDots(name: string) { name == "." || name == ".." }

  /** The last step of analyzeDir: "." and ".." become files. */
  function DotsFilter(e: Entry): (r: Entry)
    ensures r.size == e.size && r.name == e.name
    ensures r.kind == (if IsDots(e.name) then File else e.kind)
  {
    if IsDots(e.name) then e.(kind := File) else e
  }

  /** analyzeDir under the given system type. */
  function AnalyzeDir(sysType: string, line: string): (e: Entry)
    ensures IsTotal(line) ==> e == InvalidEntry
    ensures sysType != "UNIX" && sysType != "Windows_NT" ==> e == InvalidEntry
    ensures e.kind == Invalid ==> e == InvalidEntry
    ensures IsDots(e.name) ==> e.kind == File
    ensures e.size == Classify(sysType, line).size && e.name == Classify(sysType, line).name
    ensures !IsDots(e.name) ==> e.kind == Classify(sysType, line).kind
    ensures 0 <= e.size <= PhpIntMax
    ensures !IsTotal(line) && sysType == "UNIX" ==> e == DotsFilter(UnixEntry(line))
    ensures !IsTotal(line) && sysType == "Windows_NT" ==> e == DotsFilter(WindowsEntry(line))
  {
    DotsFilter(Classify(sysType, line))
  }

  // -----------------------------------------------------------------------
  // analyzeDir as written

  /** The error PHP raises when analyzeDir reads the system type property,
      which is declared without a default and assigned nowhere. */
  const UnsetSysType: FtpError :=
    FtpError(UnsetProperty, "Typed property DavidLienhard\\Ftp\\Ftp::$sysType must not be accessed before initialization")

  /** analyzeDir as the class runs it: the property holds a system type
      only if something assigned it (`None` when nothing did), and reading
      it unassigned raises the error above. "total" lines are decided
      before the property is read. */
  function AnalyzeDirAsWritten(sysType: Option<string>, line: string): (r: Result<Entry>)
    ensures IsTotal(line) ==> r == Ok(InvalidEntry)
    ensures sysType.Some? ==> r == Ok(AnalyzeDir(sysType.value, line))
    ensures sysType.None? && !IsTotal(line) ==> r == Err(UnsetSysType)
  {
    if IsTotal(line) then Ok(InvalidEntry)
    else match sysType
      case None => Err(UnsetSysType)
      case Some(t) => Ok(AnalyzeDir(t, line))
  }

  // -----------------------------------------------------------------------
  // dirList

  /** One element of the list dirList returns: a name with type 0 (file or
      link) or 1 (directory). */
  datatype Listed = Listed(name: string, kind: Kind)

  /** What the filter loop makes of one entry: links become files, invalid
      entries are dropped. */
  function Fold(e: Entry): (r: Option<Listed>)
    ensures r.None? <==> e.kind == Invalid
    ensures r.Some? ==> r.value.name == e.name
    ensures r.Some? ==> (r.value.kind == Directory <==> e.kind == Directory)
    ensures r.Some? ==> r.value.kind == File || r.value.kind == Directory
  {
    match e.kind
    case Invalid => None
    case File => Some(Listed(e.name, File))
    case Link => Some(Listed(e.name, File))
    case Directory => Some(Listed(e.name, Directory))
  }

  function FoldSeq(e: Entry): seq<Listed>
  {
    match Fold(e)
    case Some(x) => [x]
    case None => []
  }

  /** The list dirList builds from the entries from index `from` on. */
  function ListingFrom(es: seq<Entry>, from: nat): (r: seq<Listed>)
    ensures from <= |es| ==> |r| <= |es| - from
    decreases |es| - from
  {
    if from >= |es| then []
    else FoldSeq(es[from]) + ListingFrom(es, from + 1)
  }

  /** The entry of every raw line, in order. */
  function Entries(sysType: string, lines: seq<string>): (es: seq<Entry>)
    ensures |es| == |lines|
    ensures forall i :: 0 <= i < |lines| ==> es[i] == AnalyzeDir(sysType, lines[i])
  {
    Map(Analyzer(sysType), lines)
  }

  function Analyzer(sysType: string): string -> Entry
  {
    line => AnalyzeDir(sysType, line)
  }

  /** The entries of a listing are the entry of its first line, then the
      entries of the rest. */
  lemma EntriesCons(sysType: string, lines: seq<string>)
    requires |lines| > 0
    ensures Entries(sysType, lines) == [AnalyzeDir(sysType, lines[0])] + Entries(sysType, lines[1..])
  {
    MapCons(Analyzer(sysType), lines);
  }

  /** The list dirList returns for a raw listing. */
  function DirListing(sysType: string, lines: seq<string>): seq<Listed>
  {
    ListingFrom(Entries(sysType, lines), 0)
  }

  /** Reference for the filter: the ascending indices, from `from` on, of
      the valid entries. */
  function Kept(es: seq<Entry>, from: nat): (r: seq<nat>)
    ensures forall j :: 0 <= j < |r| ==> from <= r[j] < |es| && es[r[j]].kind != Invalid
    ensures forall j, k :: 0 <= j < k < |r| ==> r[j] < r[k]
    ensures forall i :: from <= i < |es| && es[i].kind != Invalid ==> i in r
    decreases |es| - from
  {
    if from >= |es| then []
    else if es[from].kind != Invalid then [from] + Kept(es, from + 1)
    else Kept(es, from + 1)
  }

  /** The filter keeps, in their order, exactly the entries the reference
      keeps, each folded. */
  lemma {:induction false} ListingIsKept(es: seq<Entry>, from: nat)
    ensures var r, ks := ListingFrom(es, from), Kept(es, from);
            && |r| == |ks|
            && forall j :: 0 <= j < |r| ==> Some(r[j]) == Fold(es[ks[j]])
    decreases |es| - from
  {
    if from < |es| {
      ListingIsKept(es, from + 1);
      var r, ks := ListingFrom(es, from), Kept(es, from);
      var rest, ks1 := ListingFrom(es, from + 1), Kept(es, from + 1);
      if es[from].kind != Invalid {
        assert r == [Fold(es[from]).value] + rest;
        assert ks == [from] + ks1;
        forall j | 0 <= j < |r| ensures Some(r[j]) == Fold(es[ks[j]]) {
          if j > 0 {
            assert r[j] == rest[j - 1] && ks[j] == ks1[j - 1];
          }
        }
      } else {
        assert r == rest && ks == ks1;
      }
    }
  }

  /** dirList's loop over the parsed lines: it appends what the filter
      makes of each entry in turn. */
  method FilterLoop(es: seq<Entry>) returns (out: seq<Listed>)
    ensures out == ListingFrom(es, 0)
  {
    out := [];
    var i := 0;
    while i < |es|
      invariant 0 <= i <= |es|
      invariant out + ListingFrom(es, i) == ListingFrom(es, 0)
    {
      var x := FoldSeq(es[i]);
      assert ListingFrom(es, i) == x + ListingFrom(es, i + 1);
      out := out + x;
      i := i + 1;
    }
  }

  /** dirList after a successful rawlist: every line is parsed with
      analyzeDir, then filtered. */
  method ListLines(sysType: string, lines: seq<string>) returns (out: seq<Listed>)
    ensures out == DirListing(sysType, lines)
  {
    var es := Entries(sysType, lines);
    out := FilterLoop(es);
  }
}
