/** What analyzeDir makes of well-formed listing lines: the UNIX and
    Windows_NT branches read back the type, size and name the line was
    built from. */
module ListingLines {
  import opened Common
  import opened TextScan
  import opened Listing
  import UnixLine
  import UnixRender
  import WindowsLine
  import WindowsRender

  lemma WordsAreLineChars(t: string)
    requires Every(t, WordChars)
    ensures Every(t, LineChars)
  {
    forall k | 0 <= k < |t| ensures InClass(t[k], LineChars) {
      RunAt(t, 0, |t|, WordChars, k);
    }
    RunOf(t, 0, |t|, LineChars);
  }

  /** The entry the UNIX branch builds from the fields of a well-formed
      line. */
  function UnixRaw(u: UnixRender.UnixFields): Entry
    requires UnixRender.WellFormed(u)
  {
    WordsAreLineChars(u.name);
    EveryDigit(u.size);
    UnixGroups(u.flag, u.size, u.name)
  }

  /** The entry a well-formed UNIX line stands for. */
  function UnixExpected(u: UnixRender.UnixFields): Entry
    requires UnixRender.WellFormed(u)
  {
    DotsFilter(UnixRaw(u))
  }

  /** The UNIX entry of any line where a match captures the flag, the size
      digits and the name given. */
  lemma UnixGroupsEntry(s: string, c: UnixLine.Cut, flag: char, size: string, name: string)
    requires UnixLine.Matches(s, c) && AllDigits(size) && Every(name, LineChars)
    requires s[c.start] == flag && s[c.gap + 1..c.sizeEnd] == size
    requires s[c.lastDigit + 2..c.nameEnd] == name
    ensures UnixFromCut(s, c) == UnixGroups(flag, size, name)
  {
  }

  /** A line that starts with a UNIX type flag is not a "total" line. */
  lemma FlagNotTotal(s: string)
    requires |s| > 0 && UnixLine.IsFlag(s[0])
    ensures !IsTotal(s)
  {
    if |s| >= 5 {
      assert s[..5][0] == s[0];
    }
  }

  /** The UNIX branch reads a rendered line back into its fields. */
  lemma UnixReadBack(u: UnixRender.UnixFields)
    requires UnixRender.WellFormed(u)
    ensures !IsTotal(UnixRender.Render(u))
    ensures UnixEntry(UnixRender.Render(u)) == UnixRaw(u)
  {
    UnixRender.WellFormedMatch(u);
    UnixRender.RenderMatches(u);
    UnixRender.RenderGroups(u);
    FlagNotTotal(UnixRender.Render(u));
    WordsAreLineChars(u.name);
    EveryDigit(u.size);
    UnixGroupsEntry(UnixRender.Render(u), UnixRender.CutOf(u), u.flag, u.size, u.name);
  }

  /** analyzeDir on a rendered UNIX line with system type "UNIX" gives the
      entry of its fields: `d` and `-` are directories, `l` a link named by
      the text before its arrow, "." and ".." files whatever their flag. */
  lemma UnixLineEntry(u: UnixRender.UnixFields)
    requires UnixRender.WellFormed(u)
    ensures AnalyzeDir("UNIX", UnixRender.Render(u)) == UnixExpected(u)
  {
    UnixReadBack(u);
  }

  /** As written, a regular file on a UNIX server is listed as a folder:
      its `-` flag falls into the last branch of analyzeDir, which gives
      type 1, and dirList reads type 1 as a directory. */
  lemma PlainFileListedAsFolder(u: UnixRender.UnixFields)
    requires UnixRender.WellFormed(u) && u.flag == '-' && !IsDots(u.name)
    ensures AnalyzeDir("UNIX", UnixRender.Render(u)).kind == Directory
    ensures Fold(AnalyzeDir("UNIX", UnixRender.Render(u))) == Some(Listed(u.name, Directory))
  {
    UnixLineEntry(u);
  }

  /** With the intended branch, the same line is a file with its size and
      name. */
  lemma PlainFileIntended(u: UnixRender.UnixFields)
    requires UnixRender.WellFormed(u) && u.flag == '-'
    ensures UnixEntryIntended(UnixRender.Render(u)) == UnixRaw(u).(kind := File)
  {
    var line := UnixRender.Render(u);
    UnixReadBack(u);
    UnixRender.WellFormedMatch(u);
    UnixRender.RenderChar(u, 0);
    assert line[UnixLine.UnixSearch(line).value.start] == '-';
  }

  /** A link named "a -> b", whose target holds no '>', is listed as "a". */
  lemma LinkNameCut(a: string, b: string)
    requires |a| >= 1 && Every(a + " -> " + b, LineChars) && Lacks(b, '>')
    ensures LinkName(a + " -> " + b) == a
  {
    var name := a + " -> " + b;
    assert name[|a|..|a| + 3] == " ->";
    forall k | |a| < k <= |name| ensures !ArrowAt(name, k) {
      if k + 3 <= |name| {
        assert name[k..k + 3][2] == name[k + 2];
        if k + 2 >= |a| + 4 {
          assert name[k + 2] == b[k + 2 - |a| - 4];
        }
      }
    }
    assert ArrowAt(name, |a|);
    var r := LinkName(name);
    assert r != name;
    assert |r| == |a|;
    assert name[..|a|] == a;
  }

  /** The first character of a line that starts with a date is not 't'. */
  lemma DateNotTotal(s: string)
    requires |s| > 0 && InClass(s[0], DashDigits)
    ensures !IsTotal(s)
  {
    if |s| >= 5 {
      assert s[..5][0] == s[0];
    }
  }

  /** The directory entry of any line where the directory pattern
      matches with the name `name`. */
  lemma WindowsDirGroups(s: string, w: WindowsLine.WinCut, name: string)
    requires WindowsLine.Matches(s, WindowsLine.DirPattern, w)
    requires |s| == w.nameEnd && s[w.nameStart..] == name
    ensures WinDirFromCut(s, w) == Entry(Directory, 0, name)
  {
    assert s[w.nameStart..w.nameEnd] == name;
  }

  /** The file entry of any line where the file pattern matches with size
      digits `size` and name `name`. */
  lemma WindowsFileGroups(s: string, w: WindowsLine.WinCut, size: string, name: string)
    requires WindowsLine.Matches(s, WindowsLine.FilePattern, w)
    requires |s| == w.nameEnd && s[w.nameStart..] == name
    requires s[w.stamp.padEnd..w.sizeEnd] == size && AllDigits(size)
    ensures WinFileFromCut(s, w) == Entry(File, IntVal(size), name)
  {
    assert s[w.nameStart..w.nameEnd] == name;
  }

  /** The Windows_NT branch reads a rendered directory line back. */
  lemma WindowsDirReadBack(u: WindowsRender.WinFields)
    requires WindowsRender.WellFormed(u) && u.body.DirBody?
    ensures !IsTotal(WindowsRender.Render(u))
    ensures WindowsEntry(WindowsRender.Render(u)) == Entry(Directory, 0, u.body.name)
  {
    var s := WindowsRender.Render(u);
    WindowsRender.WellFormedMatch(u);
    WindowsRender.RenderGroups(u);
    WindowsRender.FirstIsDate(u);
    WindowsRender.RenderMatches(u);
    DateNotTotal(s);
    WindowsDirGroups(s, WindowsRender.CutOf(u), u.body.name);
  }

  /** The Windows_NT branch reads a rendered file line back. */
  lemma WindowsFileReadBack(u: WindowsRender.WinFields)
    requires WindowsRender.WellFormed(u) && u.body.FileBody?
    ensures AllDigits(u.body.size) && !IsTotal(WindowsRender.Render(u))
    ensures WindowsEntry(WindowsRender.Render(u)) == Entry(File, IntVal(u.body.size), u.body.name)
  {
    var s := WindowsRender.Render(u);
    WindowsRender.WellFormedMatch(u);
    WindowsRender.FileLineNotDir(u);
    WindowsRender.RenderGroups(u);
    WindowsRender.FirstIsDate(u);
    WindowsRender.RenderMatches(u);
    DateNotTotal(s);
    EveryDigit(u.body.size);
    WindowsFileGroups(s, WindowsRender.CutOf(u), u.body.size, u.body.name);
  }

  /** analyzeDir on a rendered Windows_NT directory line gives a directory
      of size 0 with the rest of the line as its name ("." and ".." are
      files). */
  lemma WindowsDirEntry(u: WindowsRender.WinFields)
    requires WindowsRender.WellFormed(u) && u.body.DirBody?
    ensures var name := u.body.name;
            AnalyzeDir("Windows_NT", WindowsRender.Render(u))
              == Entry(if IsDots(name) then File else Directory, 0, name)
  {
    WindowsDirReadBack(u);
  }

  /** analyzeDir on a rendered Windows_NT file line gives a file with its
      size and name. */
  lemma WindowsFileEntry(u: WindowsRender.WinFields)
    requires WindowsRender.WellFormed(u) && u.body.FileBody?
    ensures AllDigits(u.body.size)
    ensures AnalyzeDir("Windows_NT", WindowsRender.Render(u))
              == Entry(File, IntVal(u.body.size), u.body.name)
  {
    WindowsFileReadBack(u);
  }

  /** With the property unassigned, as connect leaves it, analyzeDir raises
      an error on every well-formed UNIX line, where the same line read
      with the system type connect computes gives a valid entry. */
  lemma UnsetSysTypeRejectsUnix(u: UnixRender.UnixFields)
    requires UnixRender.WellFormed(u)
    ensures AnalyzeDirAsWritten(None, UnixRender.Render(u)) == Err(UnsetSysType)
    ensures AnalyzeDirAsWritten(Some("UNIX"), UnixRender.Render(u)).Ok?
    ensures AnalyzeDir("UNIX", UnixRender.Render(u)).kind != Invalid
  {
    UnixReadBack(u);
    UnixLineEntry(u);
  }
}
