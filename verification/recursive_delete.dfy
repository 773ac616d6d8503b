/** rmdir with `$recursive = true`: the recursive raw listing of a remote
    folder is read as a stream of lines, the files and folders it names
    are collected, the files are deleted in the order they were found,
    the folders are removed deepest first by sorting their paths in
    descending order, and the folder itself is removed last. */
module RecursiveDelete {
  import opened Common
  import opened TreeWalk
  import Listing

  // -----------------------------------------------------------------------
  // preg_split on single spaces, limit 9, PREG_SPLIT_NO_EMPTY

  /** The index of the first space of `s`. */
  function FirstSpace(s: string): (r: Option<nat>)
    ensures r.Some? ==> r.value < |s| && s[r.value] == ' ' && Lacks(s[..r.value], ' ')
    ensures r.None? ==> Lacks(s, ' ')
  {
    if |s| == 0 then None
    else if s[0] == ' ' then Some(0)
    else match FirstSpace(s[1..])
      case None => None
      case Some(m) => assert s[..m + 1] == [s[0]] + s[1..][..m]; Some(m + 1)
  }

  /** preg_split("[ ]", s, limit, PREG_SPLIT_NO_EMPTY): the pattern is a
      single space between the delimiters "[" and "]"; empty pieces are
      dropped and do not count against the limit; once limit - 1 pieces
      are taken, the rest after the space that ended the last of them is
      the final piece, spaces and all. */
  function Pieces(s: string, limit: nat): (r: seq<string>)
    requires limit >= 1
    ensures |r| <= limit
    ensures forall k :: 0 <= k < |r| ==> |r[k]| > 0
    decreases |s|
  {
    if limit == 1 then (if |s| > 0 then [s] else [])
    else match FirstSpace(s)
      case None => if |s| > 0 then [s] else []
      case Some(m) =>
        if m == 0 then Pieces(s[1..], limit)
        else [s[..m]] + Pieces(s[m + 1..], limit - 1)
  }

  /** Nonempty words without spaces. */
  predicate Words(ws: seq<string>)
  {
    forall k :: 0 <= k < |ws| ==> |ws[k]| > 0 && Lacks(ws[k], ' ')
  }

  /** `ws` joined by single spaces. */
  function Join(ws: seq<string>): string
    requires |ws| > 0
  {
    if |ws| == 1 then ws[0] else ws[0] + " " + Join(ws[1..])
  }

  lemma JoinNotEmpty(ws: seq<string>)
    requires |ws| > 0 && Words(ws)
    ensures |Join(ws)| > 0
  {
  }

  /** Splitting words joined by single spaces gives back the words, up to
      the limit. */
  lemma {:induction false} SplitJoin(ws: seq<string>, limit: nat)
    requires 1 <= |ws| <= limit && Words(ws)
    ensures Pieces(Join(ws), limit) == ws
    decreases |ws|
  {
    if |ws| == 1 {
      SplitWord(ws[0], limit);
      assert Join(ws) == ws[0];
      assert ws == [ws[0]];
    } else {
      var w, tail := ws[0], ws[1..];
      WordsTail(ws);
      SplitJoin(tail, limit - 1);
      SplitAfter(w, Join(tail), tail, limit);
      assert ws == [w] + tail;
    }
  }

  /** A single word is one piece. */
  lemma SplitWord(w: string, limit: nat)
    requires |w| > 0 && Lacks(w, ' ') && limit >= 1
    ensures Pieces(w, limit) == [w]
  {
    assert FirstSpace(w).None?;
  }

  /** The words after the first are words, and the first is split off
      the join by a single space. */
  lemma WordsTail(ws: seq<string>)
    requires |ws| >= 2 && Words(ws)
    ensures Words(ws[1..]) && Join(ws) == ws[0] + " " + Join(ws[1..])
  {
    forall k | 0 <= k < |ws[1..]|
      ensures |ws[1..][k]| > 0 && Lacks(ws[1..][k], ' ')
    {
      assert ws[1..][k] == ws[k + 1];
    }
  }

  /** Past the limit, the ninth piece keeps the rest of the line, spaces
      included. */
  lemma {:induction false} SplitJoinLong(ws: seq<string>, limit: nat)
    requires 1 <= limit <= |ws| && Words(ws)
    ensures Pieces(Join(ws), limit) == ws[..limit - 1] + [Join(ws[limit - 1..])]
    decreases limit
  {
    JoinNotEmpty(ws);
    if limit == 1 {
      assert ws[0..] == ws;
    } else {
      var w, tail := ws[0], ws[1..];
      WordsTail(ws);
      SplitJoinLong(tail, limit - 1);
      var front, last := tail[..limit - 2], [Join(tail[limit - 2..])];
      SplitAfter(w, Join(tail), front + last, limit);
      assert front == ws[1..limit - 1];
      assert tail[limit - 2..] == ws[limit - 1..];
      assert ws[..limit - 1] == [w] + front;
      AppendAssoc([w], front, last);
    }
  }

  /** Once limit - 1 words are taken, the rest after the next space is
      the last piece as it stands, spaces included. */
  lemma {:induction false} SplitRest(ws: seq<string>, rest: string, limit: nat)
    requires 1 <= |ws| && |ws| + 1 == limit && Words(ws) && |rest| > 0
    ensures Pieces(Join(ws) + " " + rest, limit) == ws + [rest]
    decreases |ws|
  {
    var w, tl := ws[0], ws[1..];
    ConsSnoc(ws, rest);
    if |ws| == 1 {
      assert Join(ws) == w;
      SplitFirst(w, rest, limit);
      assert Pieces(rest, 1) == [rest];
      assert Pieces(Join(ws) + " " + rest, limit) == [w] + [rest];
    } else {
      JoinRest(ws, rest);
      var t := Join(tl) + " " + rest;
      SplitRest(tl, rest, limit - 1);
      SplitAfter(w, t, tl + [rest], limit);
      assert Pieces(Join(ws) + " " + rest, limit) == Pieces(w + " " + t, limit);
    }
  }

  /** The join of two or more words, followed by a space and a rest. */
  lemma JoinRest(ws: seq<string>, rest: string)
    requires |ws| >= 2 && Words(ws)
    ensures Words(ws[1..])
    ensures Join(ws) + " " + rest == ws[0] + " " + (Join(ws[1..]) + " " + rest)
  {
    WordsTail(ws);
  }

  lemma ConsSnoc<T>(ws: seq<T>, x: T)
    requires |ws| >= 1
    ensures ws + [x] == [ws[0]] + (ws[1..] + [x])
  {
  }

  /** A first word and a space put in front of a rest that splits into
      `ps` put `w` in front of `ps`. */
  lemma SplitAfter(w: string, t: string, ps: seq<string>, limit: nat)
    requires |w| > 0 && Lacks(w, ' ') && limit >= 2
    requires Pieces(t, limit - 1) == ps
    ensures Pieces(w + " " + t, limit) == [w] + ps
  {
    SplitFirst(w, t, limit);
  }

  /** A first word and a space split off before the rest. */
  lemma SplitFirst(w: string, tail: string, limit: nat)
    requires |w| > 0 && Lacks(w, ' ') && limit >= 2
    ensures Pieces(w + " " + tail, limit) == [w] + Pieces(tail, limit - 1)
  {
    var s := w + " " + tail;
    assert s[..|w|] == w && s[|w|] == ' ';
    FirstSpaceIs(s, |w|);
    assert s[|w| + 1..] == tail;
  }

  /** The first space of a string whose prefix before m lacks spaces and
      which has a space at m. */
  lemma {:induction false} FirstSpaceIs(s: string, m: nat)
    requires m < |s| && s[m] == ' ' && Lacks(s[..m], ' ')
    ensures FirstSpace(s) == Some(m)
    decreases m
  {
    if m > 0 {
      assert s[1..][..m - 1] == s[1..m];
      assert s[0] == s[..m][0];
      forall k | 0 <= k < m - 1 ensures s[1..m][k] != ' ' {
        assert s[1..m][k] == s[..m][k + 1];
      }
      FirstSpaceIs(s[1..], m - 1);
    }
  }

  // -----------------------------------------------------------------------
  // Collecting files and folders from the line stream

  /** The loop's state: whether the next line names a folder, the current
      folder, and the files and folders found so far. */
  datatype Collect = Collect(expectHeader: bool, current: string, files: seq<string>, folders: seq<string>)

  /** PHP's empty() on a line: "" and "0". */
  predicate EmptyLine(line: string) { line == "" || line == "0" }

  /** The ninth field, or "" where PHP reads a missing one as null. */
  function LineName(line: string): string
  {
    var f := Pieces(line, 9);
    if |f| >= 9 then f[8] else ""
  }

  /** The first field starts with 'd'. */
  predicate MarksFolder(line: string)
  {
    var f := Pieces(line, 9);
    |f| > 0 && f[0][0] == 'd'
  }

  /** What the loop reads from one line: an empty line, or a line with
      the folder path it names if it is a header (the line without its
      last character), the ninth field, and the type flag of the first. */
  datatype LineRead = Blank | Text(header: string, name: string, folder: bool)

  function ReadLine(line: string): (r: LineRead)
    ensures r.Blank? <==> EmptyLine(line)
  {
    if EmptyLine(line) then Blank else Text(line[..|line| - 1], LineName(line), MarksFolder(line))
  }

  /** The lines as the loop reads them. */
  function ReadAll(lines: seq<string>): (rs: seq<LineRead>)
    ensures |rs| == |lines|
  {
    if |lines| == 0 then [] else [ReadLine(lines[0])] + ReadAll(lines[1..])
  }

  lemma {:induction false} ReadAllAt(lines: seq<string>, k: nat)
    requires k < |lines|
    ensures ReadAll(lines)[k] == ReadLine(lines[k])
    decreases k
  {
    if k > 0 {
      ReadAllAt(lines[1..], k - 1);
    }
  }

  /** One turn of the loop: an empty line makes the next line a header;
      a header sets the current folder; any other line adds the current
      folder, '/' and its name to the folders or the files, unless the
      name is "." or "..". */
  function Feed(c: Collect, r: LineRead): Collect
  {
    match r
    case Blank => c.(expectHeader := true)
    case Text(header, name, folder) =>
      if c.expectHeader then c.(expectHeader := false, current := header)
      else if Listing.IsDots(name) then c
      else if folder then c.(folders := c.folders + [c.current + "/" + name])
      else c.(files := c.files + [c.current + "/" + name])
  }

  /** The loop over the lines read. */
  function FeedAll(c: Collect, rs: seq<LineRead>): Collect
    decreases |rs|
  {
    if |rs| == 0 then c else FeedAll(Feed(c, rs[0]), rs[1..])
  }

  /** The loop as evidently intended: once the header is read, a line
      with fewer than nine fields, such as the "total" line that opens
      each folder's listing, names no entry and is passed over. */
  function FeedIntended(c: Collect, line: string): Collect
  {
    if !EmptyLine(line) && !c.expectHeader && |Pieces(line, 9)| < 9 then c else Feed(c, ReadLine(line))
  }

  lemma TotalPieces()
    ensures Pieces("total 8", 9) == ["total", "8"]
  {
    assert Join(["total", "8"]) == "total 8";
    SplitJoin(["total", "8"], 9);
  }

  /** As written, the "total" line after a header adds the current folder
      followed by '/' to the files: `$split[8]` is missing and reads as
      null. recursive rmdir then calls delete on the folder itself. */
  lemma TotalLineAddsFolderPath(c: Collect)
    requires !c.expectHeader
    ensures Feed(c, ReadLine("total 8")) == c.(files := c.files + [c.current + "/"])
  {
    TotalPieces();
    assert !MarksFolder("total 8");
    assert LineName("total 8") == "";
    assert c.current + "/" + "" == c.current + "/";
  }

  /** With the intended loop the "total" line adds nothing. */
  lemma TotalLineSkipped(c: Collect)
    requires !c.expectHeader
    ensures FeedIntended(c, "total 8") == c
  {
    TotalPieces();
  }

  /** The intended loop reads every line of a well-formed listing as the
      loop as written does: an entry line has nine fields. */
  lemma FeedIntendedOnItems(c: Collect, it: Item)
    requires WellFormedItem(it)
    ensures FeedIntended(c, ItemLine(it)) == Feed(c, ReadLine(ItemLine(it)))
  {
    SplitRest(it.fields, it.name, 9);
  }

  /** The state after the whole listing of `remote`. */
  function Collected(remote: string, lines: seq<string>): Collect
  {
    FeedAll(Collect(false, remote, [], []), ReadAll(lines))
  }

  /** Feeding two stretches of lines is feeding the first, then the
      second. */
  lemma {:induction false} FeedAllJoin(c: Collect, xs: seq<LineRead>, ys: seq<LineRead>)
    ensures FeedAll(c, xs + ys) == FeedAll(FeedAll(c, xs), ys)
    decreases |xs|
  {
    if |xs| > 0 {
      assert (xs + ys)[0] == xs[0] && (xs + ys)[1..] == xs[1..] + ys;
      FeedAllJoin(Feed(c, xs[0]), xs[1..], ys);
    } else {
      assert xs + ys == ys;
    }
  }

  lemma {:induction false} ReadAllJoin(xs: seq<string>, ys: seq<string>)
    ensures ReadAll(xs + ys) == ReadAll(xs) + ReadAll(ys)
    decreases |xs|
  {
    if |xs| == 0 {
      assert xs + ys == ys;
    } else {
      assert (xs + ys)[1..] == xs[1..] + ys;
      ReadAllJoin(xs[1..], ys);
    }
  }

  /** Lines only ever append: what was found before stays, in order, and
      each line adds at most one path. */
  lemma {:induction false} FeedAllAppends(c: Collect, rs: seq<LineRead>)
    ensures c.files <= FeedAll(c, rs).files && c.folders <= FeedAll(c, rs).folders
    ensures |FeedAll(c, rs).files| + |FeedAll(c, rs).folders| <= |c.files| + |c.folders| + |rs|
    decreases |rs|
  {
    if |rs| > 0 {
      FeedAllAppends(Feed(c, rs[0]), rs[1..]);
    }
  }

  // -----------------------------------------------------------------------
  // A recursive listing built from its parts

  /** An entry line of a recursive listing: eight fields (the first holds
      the type flag), then the name. */
  datatype Item = Item(fields: seq<string>, name: string)

  /** Eight fields without spaces, then a nonempty name, which may hold
      spaces of its own. */
  predicate WellFormedItem(it: Item) { |it.fields| == 8 && Words(it.fields) && |it.name| > 0 }

  predicate IsFolderItem(it: Item)
    requires WellFormedItem(it)
  {
    it.fields[0][0] == 'd'
  }

  function ItemLine(it: Item): string
    requires WellFormedItem(it)
  {
    Join(it.fields) + " " + it.name
  }

  /** The block the listing gives each subfolder: an empty line, the
      folder's path followed by ':', then its entries. */
  datatype Block = Block(folder: string, items: seq<Item>)

  predicate WellFormedItems(items: seq<Item>) { forall k :: 0 <= k < |items| ==> WellFormedItem(items[k]) }

  predicate WellFormedBlocks(blocks: seq<Block>)
  {
    forall k :: 0 <= k < |blocks| ==> WellFormedItems(blocks[k].items)
  }

  function ItemLines(items: seq<Item>): (lines: seq<string>)
    requires WellFormedItems(items)
    ensures |lines| == |items|
  {
    seq(|items|, k requires 0 <= k < |items| => ItemLine(items[k]))
  }

  function BlockLines(blocks: seq<Block>): seq<string>
    requires WellFormedBlocks(blocks)
  {
    if |blocks| == 0 then []
    else ["", blocks[0].folder + ":"] + ItemLines(blocks[0].items) + BlockLines(blocks[1..])
  }

  /** The listing of a folder: its own entries, then one block per
      subfolder. */
  function ListingLines(top: seq<Item>, blocks: seq<Block>): seq<string>
    requires WellFormedItems(top) && WellFormedBlocks(blocks)
  {
    ItemLines(top) + BlockLines(blocks)
  }

  /** The paths of the entries of `folder` that are not "." or "..",
      files or folders as `folders` says. */
  function ItemPaths(folder: string, items: seq<Item>, folders: bool): seq<string>
    requires WellFormedItems(items)
  {
    if |items| == 0 then [] else ItemPath(folder, items[0], folders) + ItemPaths(folder, items[1..], folders)
  }

  /** The path of one entry, if it is of the kind asked for and not a dot
      entry. */
  function ItemPath(folder: string, it: Item, folders: bool): seq<string>
    requires WellFormedItem(it)
  {
    if !Listing.IsDots(it.name) && IsFolderItem(it) == folders then [folder + "/" + it.name] else []
  }

  function BlockPaths(blocks: seq<Block>, folders: bool): seq<string>
    requires WellFormedBlocks(blocks)
  {
    if |blocks| == 0 then []
    else ItemPaths(blocks[0].folder, blocks[0].items, folders) + BlockPaths(blocks[1..], folders)
  }

  /** An entry line reads back as its name and type flag. */
  lemma ItemLineRead(it: Item)
    requires WellFormedItem(it)
    ensures ReadLine(ItemLine(it)).Text?
    ensures ReadLine(ItemLine(it)).name == it.name
    ensures ReadLine(ItemLine(it)).folder == IsFolderItem(it)
  {
    SplitRest(it.fields, it.name, 9);
    JoinNotEmpty(it.fields);
    assert |ItemLine(it)| >= 3;
    assert (it.fields + [it.name])[0] == it.fields[0];
  }

  /** `rs` reads as the entry lines of `items`. */
  predicate ReadsAs(rs: seq<LineRead>, items: seq<Item>)
    requires WellFormedItems(items)
  {
    && |rs| == |items|
    && forall k :: 0 <= k < |rs| ==> rs[k].Text? && rs[k].name == items[k].name
                                      && rs[k].folder == IsFolderItem(items[k])
  }

  /** `rs` reads as the blocks: for each, an empty line, a header naming
      its folder, then its entry lines. */
  predicate BlocksReadAs(rs: seq<LineRead>, blocks: seq<Block>)
    requires WellFormedBlocks(blocks)
    decreases |blocks|
  {
    if |blocks| == 0 then rs == []
    else
      var n := |blocks[0].items|;
      && |rs| >= 2 + n
      && rs[0] == Blank && rs[1].Text? && rs[1].header == blocks[0].folder
      && ReadsAs(rs[2..2 + n], blocks[0].items)
      && BlocksReadAs(rs[2 + n..], blocks[1..])
  }

  /** Entry lines of the current folder add their paths. */
  lemma {:induction false} FeedItems(c: Collect, rs: seq<LineRead>, items: seq<Item>)
    requires WellFormedItems(items) && ReadsAs(rs, items) && !c.expectHeader
    ensures var r := FeedAll(c, rs);
            && r.expectHeader == false && r.current == c.current
            && r.files == c.files + ItemPaths(c.current, items, false)
            && r.folders == c.folders + ItemPaths(c.current, items, true)
    decreases |rs|
  {
    if |rs| > 0 {
      var c1 := Feed(c, rs[0]);
      FeedItem(c, rs[0], items[0]);
      ReadsAsTail(rs, items);
      FeedItems(c1, rs[1..], items[1..]);
      AppendAssoc(c.files, ItemPath(c.current, items[0], false), ItemPaths(c.current, items[1..], false));
      AppendAssoc(c.folders, ItemPath(c.current, items[0], true), ItemPaths(c.current, items[1..], true));
    }
  }

  /** One entry line adds its path. */
  lemma FeedItem(c: Collect, r: LineRead, it: Item)
    requires WellFormedItem(it) && !c.expectHeader
    requires r.Text? && r.name == it.name && r.folder == IsFolderItem(it)
    ensures Feed(c, r) == c.(files := c.files + ItemPath(c.current, it, false),
                             folders := c.folders + ItemPath(c.current, it, true))
  {
  }

  lemma ReadsAsTail(rs: seq<LineRead>, items: seq<Item>)
    requires WellFormedItems(items) && ReadsAs(rs, items) && |rs| > 0
    ensures WellFormedItems(items[1..]) && ReadsAs(rs[1..], items[1..])
  {
    forall k | 0 <= k < |items[1..]|
      ensures WellFormedItem(items[1..][k])
      ensures rs[1..][k].Text? && rs[1..][k].name == items[1..][k].name
      ensures rs[1..][k].folder == IsFolderItem(items[1..][k])
    {
      assert items[1..][k] == items[k + 1] && rs[1..][k] == rs[k + 1];
    }
  }

  /** Blocks add the paths of their entries under their folders. */
  lemma {:induction false} FeedBlocks(c: Collect, rs: seq<LineRead>, blocks: seq<Block>)
    requires WellFormedBlocks(blocks) && BlocksReadAs(rs, blocks) && !c.expectHeader
    ensures var r := FeedAll(c, rs);
            && r.expectHeader == false
            && r.files == c.files + BlockPaths(blocks, false)
            && r.folders == c.folders + BlockPaths(blocks, true)
    decreases |blocks|
  {
    if |blocks| > 0 {
      var b := blocks[0];
      var c2, n := FeedFirstBlock(c, rs, blocks);
      FeedBlocks(c2, rs[2 + n..], blocks[1..]);
      AppendAssoc(c.files, ItemPaths(b.folder, b.items, false), BlockPaths(blocks[1..], false));
      AppendAssoc(c.folders, ItemPaths(b.folder, b.items, true), BlockPaths(blocks[1..], true));
    }
  }

  /** The first block: its blank and header lines switch to its folder,
      and its `n` entry lines add their paths, giving `c2`. */
  lemma FeedFirstBlock(c: Collect, rs: seq<LineRead>, blocks: seq<Block>) returns (c2: Collect, n: nat)
    requires |blocks| > 0 && WellFormedBlocks(blocks) && BlocksReadAs(rs, blocks) && !c.expectHeader
    ensures n == |blocks[0].items| && |rs| >= 2 + n
    ensures WellFormedBlocks(blocks[1..]) && BlocksReadAs(rs[2 + n..], blocks[1..])
    ensures FeedAll(c, rs) == FeedAll(c2, rs[2 + n..]) && !c2.expectHeader
    ensures c2.files == c.files + ItemPaths(blocks[0].folder, blocks[0].items, false)
    ensures c2.folders == c.folders + ItemPaths(blocks[0].folder, blocks[0].items, true)
  {
    var b := blocks[0];
    n := |b.items|;
    var c1 := Collect(false, b.folder, c.files, c.folders);
    assert FeedAll(c, rs) == FeedAll(c1, rs[2..]) by {
      assert rs[1..][0] == rs[1] && rs[1..][1..] == rs[2..];
    }
    assert rs[2..] == rs[2..2 + n] + rs[2 + n..];
    FeedAllJoin(c1, rs[2..2 + n], rs[2 + n..]);
    FeedItems(c1, rs[2..2 + n], b.items);
    c2 := FeedAll(c1, rs[2..2 + n]);
    forall k | 0 <= k < |blocks[1..]| ensures WellFormedItems(blocks[1..][k].items) {
      assert blocks[1..][k] == blocks[k + 1];
    }
  }

  lemma ItemLinesRead(items: seq<Item>)
    requires WellFormedItems(items)
    ensures ReadsAs(ReadAll(ItemLines(items)), items)
  {
    var rs := ReadAll(ItemLines(items));
    forall k | 0 <= k < |rs|
      ensures rs[k].Text? && rs[k].name == items[k].name && rs[k].folder == IsFolderItem(items[k])
    {
      ReadAllAt(ItemLines(items), k);
      ItemLineRead(items[k]);
    }
  }

  /** A header line names its folder. */
  lemma HeaderRead(folder: string)
    ensures ReadAll(["", folder + ":"]) == [Blank, ReadLine(folder + ":")]
    ensures ReadLine(folder + ":").Text? && ReadLine(folder + ":").header == folder
  {
    var h := folder + ":";
    assert h[..|h| - 1] == folder;
    var hs := ["", h];
    var one: seq<string> := [h];
    assert hs[1..] == one && |one[1..]| == 0;
  }

  /** A block's reads followed by the reads of further blocks. */
  lemma BlocksReadCons(hr: seq<LineRead>, ir: seq<LineRead>, rr: seq<LineRead>, blocks: seq<Block>)
    requires WellFormedBlocks(blocks) && |blocks| > 0
    requires |hr| == 2 && hr[0] == Blank && hr[1].Text? && hr[1].header == blocks[0].folder
    requires ReadsAs(ir, blocks[0].items) && BlocksReadAs(rr, blocks[1..])
    ensures BlocksReadAs(hr + ir + rr, blocks)
  {
    var rs, n := hr + ir + rr, |blocks[0].items|;
    assert rs[2..2 + n] == ir;
    assert rs[2 + n..] == rr;
  }

  lemma {:induction false} BlockLinesRead(blocks: seq<Block>)
    requires WellFormedBlocks(blocks)
    ensures BlocksReadAs(ReadAll(BlockLines(blocks)), blocks)
    decreases |blocks|
  {
    if |blocks| > 0 {
      var b := blocks[0];
      var hs := ["", b.folder + ":"];
      var items := ItemLines(b.items);
      var rest := BlockLines(blocks[1..]);
      assert BlockLines(blocks) == hs + items + rest;
      ReadAllJoin(hs + items, rest);
      ReadAllJoin(hs, items);
      HeaderRead(b.folder);
      ItemLinesRead(b.items);
      BlockLinesRead(blocks[1..]);
      BlocksReadCons(ReadAll(hs), ReadAll(items), ReadAll(rest), blocks);
    }
  }

  /** The reads of a folder's own entries, then of its blocks. */
  lemma FeedListing(current: string, rt: seq<LineRead>, rb: seq<LineRead>, top: seq<Item>, blocks: seq<Block>)
    requires WellFormedItems(top) && WellFormedBlocks(blocks)
    requires ReadsAs(rt, top) && BlocksReadAs(rb, blocks)
    ensures FeedAll(Collect(false, current, [], []), rt + rb).files
            == ItemPaths(current, top, false) + BlockPaths(blocks, false)
    ensures FeedAll(Collect(false, current, [], []), rt + rb).folders
            == ItemPaths(current, top, true) + BlockPaths(blocks, true)
  {
    var c := Collect(false, current, [], []);
    FeedAllJoin(c, rt, rb);
    FeedItems(c, rt, top);
    FeedBlocks(FeedAll(c, rt), rb, blocks);
  }

  /** A recursive listing yields the files and the folders of the folder
      itself, under its own path, then those of each block under the
      block's folder, each in listing order, "." and ".." left out. */
  lemma CollectListing(remote: string, top: seq<Item>, blocks: seq<Block>)
    requires WellFormedItems(top) && WellFormedBlocks(blocks)
    ensures Collected(remote, ListingLines(top, blocks)).files
            == ItemPaths(remote, top, false) + BlockPaths(blocks, false)
    ensures Collected(remote, ListingLines(top, blocks)).folders
            == ItemPaths(remote, top, true) + BlockPaths(blocks, true)
  {
    var c := Collect(false, remote, [], []);
    var rt, rb := ReadAll(ItemLines(top)), ReadAll(BlockLines(blocks));
    ReadAllJoin(ItemLines(top), BlockLines(blocks));
    assert Collected(remote, ListingLines(top, blocks)) == FeedAll(c, rt + rb);
    ItemLinesRead(top);
    BlockLinesRead(blocks);
    FeedListing(remote, rt, rb, top, blocks);
  }

  // -----------------------------------------------------------------------
  // rsort on the folder paths

  /** PHP's comparison of two strings that are not numeric (every folder
      path holds a '/'): character by character, a proper prefix first. */
  predicate LexLe(a: string, b: string)
    decreases |a|
  {
    |a| == 0 || (|b| > 0 && (a[0] < b[0] || (a[0] == b[0] && LexLe(a[1..], b[1..]))))
  }

  lemma {:induction false} LexLeTotal(a: string, b: string)
    ensures LexLe(a, b) || LexLe(b, a)
    decreases |a|
  {
    if |a| > 0 && |b| > 0 && a[0] == b[0] {
      LexLeTotal(a[1..], b[1..]);
    }
  }

  lemma {:induction false} LexLeTrans(a: string, b: string, c: string)
    requires LexLe(a, b) && LexLe(b, c)
    ensures LexLe(a, c)
    decreases |a|
  {
    if |a| > 0 && a[0] == b[0] && b[0] == c[0] {
      LexLeTrans(a[1..], b[1..], c[1..]);
    }
  }

  lemma {:induction false} LexLeAntisym(a: string, b: string)
    requires LexLe(a, b) && LexLe(b, a)
    ensures a == b
    decreases |a|
  {
    if |a| > 0 {
      LexLeAntisym(a[1..], b[1..]);
      assert a == [a[0]] + a[1..] && b == [b[0]] + b[1..];
    }
  }

  /** A proper prefix sorts strictly before its extension. */
  lemma {:induction false} PrefixFirst(p: string, q: string)
    requires |p| < |q| && q[..|p|] == p
    ensures LexLe(p, q) && !LexLe(q, p)
    decreases |p|
  {
    if |p| > 0 {
      assert q[1..][..|p| - 1] == p[1..];
      PrefixFirst(p[1..], q[1..]);
    }
  }

  /** Sorted from the greatest down. */
  predicate Descending(s: seq<string>)
  {
    forall i, j :: 0 <= i < j < |s| ==> LexLe(s[j], s[i])
  }

  /** `x` put in front of the first element it is not below. */
  function Insert(x: string, s: seq<string>): seq<string>
  {
    if |s| == 0 || LexLe(s[0], x) then [x] + s else [s[0]] + Insert(x, s[1..])
  }

  /** Every element of `s` is at most `y`. */
  predicate AllBelow(s: seq<string>, y: string)
  {
    forall k :: 0 <= k < |s| ==> LexLe(s[k], y)
  }

  lemma DescendingCons(y: string, t: seq<string>)
    requires AllBelow(t, y) && Descending(t)
    ensures Descending([y] + t)
  {
    var r := [y] + t;
    forall i, j | 0 <= i < j < |r| ensures LexLe(r[j], r[i]) {
      assert r[j] == t[j - 1];
      if i > 0 {
        assert r[i] == t[i - 1];
      }
    }
  }

  lemma {:induction false} InsertBelow(x: string, s: seq<string>, y: string)
    requires AllBelow(s, y) && LexLe(x, y)
    ensures AllBelow(Insert(x, s), y)
  {
    if |s| > 0 && !LexLe(s[0], x) {
      InsertBelow(x, s[1..], y);
      var t := Insert(x, s[1..]);
      assert Insert(x, s) == [s[0]] + t;
    }
  }

  lemma {:induction false} InsertPerm(x: string, s: seq<string>)
    ensures multiset(Insert(x, s)) == multiset(s) + multiset{x}
  {
    if |s| > 0 && !LexLe(s[0], x) {
      InsertPerm(x, s[1..]);
      assert s == [s[0]] + s[1..];
    }
  }

  /** Inserting keeps the elements and the order. */
  lemma {:induction false} InsertSorted(x: string, s: seq<string>)
    requires Descending(s)
    ensures multiset(Insert(x, s)) == multiset(s) + multiset{x}
    ensures Descending(Insert(x, s))
  {
    InsertPerm(x, s);
    if |s| == 0 {
      DescendingCons(x, s);
    } else if LexLe(s[0], x) {
      forall j | 0 <= j < |s| ensures LexLe(s[j], x) {
        if j > 0 {
          LexLeTrans(s[j], s[0], x);
        }
      }
      DescendingCons(x, s);
    } else {
      LexLeTotal(s[0], x);
      InsertSorted(x, s[1..]);
      assert AllBelow(s[1..], s[0]);
      InsertBelow(x, s[1..], s[0]);
      DescendingCons(s[0], Insert(x, s[1..]));
    }
  }

  /** rsort: the paths in descending order. */
  function SortDesc(s: seq<string>): (r: seq<string>)
    ensures multiset(r) == multiset(s)
    ensures Descending(r)
  {
    if |s| == 0 then []
    else
      assert s == [s[0]] + s[1..];
      InsertSorted(s[0], SortDesc(s[1..]));
      Insert(s[0], SortDesc(s[1..]))
  }

  /** In descending order a path comes before every proper prefix of it:
      a folder is removed before any folder that contains it. */
  lemma ChildBeforeParent(s: seq<string>, i: nat, j: nat)
    requires Descending(s) && i < |s| && j < |s|
    requires |s[j]| < |s[i]| && s[i][..|s[j]|] == s[j]
    ensures i < j
  {
    PrefixFirst(s[j], s[i]);
  }

  // -----------------------------------------------------------------------
  // Deleting

  const RawListFailed: FtpError := FtpError(General, "unable to get raw list")

  /** The recursive raw listing the server gives for each folder, or
      `None` when ftp_rawlist fails. */
  type Listings = string -> Option<seq<string>>

  /** rmdir(remote, true), following nested rmdir calls `depth` levels
      deep; a nested call past that depth is one RemoveTree operation
      answered by the oracle. No exception is caught anywhere, so the first
      one ends the whole removal; the answer to the final removal of the
      folder itself is recorded and ignored. */
  function RemoveRecursive(depth: nat, remote: string, listings: Listings, reply: Oracle): (w: Walk<()>)
    decreases depth, 1
  {
    match listings(remote)
    case None => Walk([Step(RawListAll(remote), Some(RawListFailed))], Err(RawListFailed))
    case Some(lines) =>
      var c := Collected(remote, lines);
      var files := DeleteFiles(c.files, reply);
      if files.result.Err? then Then([Step(RawListAll(remote), None)], files)
      else
        var folders := RemoveFolders(depth, SortDesc(c.folders), listings, reply);
        if folders.result.Err? then Then([Step(RawListAll(remote), None)] + files.trace, folders)
        else
          Walk([Step(RawListAll(remote), None)] + files.trace + folders.trace
               + [Step(RemoveFolder(remote), reply(RemoveFolder(remote)))], Ok(()))
  }

  /** delete on each file in turn, up to the first that throws. */
  function DeleteFiles(files: seq<string>, reply: Oracle): Walk<()>
  {
    if |files| == 0 then Walk([], Ok(()))
    else match reply(DeleteFile(files[0]))
      case Some(e) => Walk([Step(DeleteFile(files[0]), Some(e))], Err(e))
      case None => Then([Step(DeleteFile(files[0]), None)], DeleteFiles(files[1..], reply))
  }

  /** rmdir(folder, true) on each folder in turn, up to the first that
      throws. */
  function RemoveFolders(depth: nat, folders: seq<string>, listings: Listings, reply: Oracle): Walk<()>
    decreases depth, 0, |folders|
  {
    if |folders| == 0 then Walk([], Ok(()))
    else
      var w := RemoveNested(depth, folders[0], listings, reply);
      if w.result.Err? then w else Then(w.trace, RemoveFolders(depth, folders[1..], listings, reply))
  }

  /** The nested rmdir(folder, true) call: past the modelled depth one
      RemoveTree operation. */
  function RemoveNested(depth: nat, folder: string, listings: Listings, reply: Oracle): Walk<()>
    decreases depth, 0, 0
  {
    if depth == 0 then
      Walk([Step(RemoveTree(folder), reply(RemoveTree(folder)))],
           if reply(RemoveTree(folder)).Some? then Err(reply(RemoveTree(folder)).value) else Ok(()))
    else RemoveRecursive(depth - 1, folder, listings, reply)
  }

  /** No operation failed, apart from final removals whose answer is
      ignored. */
  predicate CleanButFinal(trace: seq<Step>)
  {
    forall k :: 0 <= k < |trace| ==> trace[k].error.None? || trace[k].op.RemoveFolder?
  }

  lemma CleanButFinalJoin(a: seq<Step>, b: seq<Step>)
    ensures CleanButFinal(a + b) <==> CleanButFinal(a) && CleanButFinal(b)
  {
    if CleanButFinal(a + b) {
      assert forall k :: 0 <= k < |a| ==> (a + b)[k] == a[k];
      assert forall k :: 0 <= k < |b| ==> (a + b)[|a| + k] == b[k];
    }
  }

  /** What a removal promises: it succeeds exactly when nothing failed
      but final removals, and when it fails, the operation that threw
      ends it and nothing before that failed, final removals aside. */
  predicate Aborts(w: Walk<()>)
  {
    && (w.result.Ok? <==> CleanButFinal(w.trace))
    && (w.result.Err? ==> LastThrew(w.trace, w.result.error) && CleanButFinal(w.trace[..|w.trace| - 1]))
  }

  lemma AbortsJoin(a: seq<Step>, w: Walk<()>)
    requires CleanButFinal(a) && Aborts(w)
    ensures Aborts(Then(a, w))
  {
    CleanButFinalJoin(a, w.trace);
    if w.result.Err? {
      StopsAtJoin(a, w.trace, w.result.error);
      assert (a + w.trace)[..|a + w.trace| - 1] == a + w.trace[..|w.trace| - 1];
      CleanButFinalJoin(a, w.trace[..|w.trace| - 1]);
    }
  }

  lemma OneStepAborts(st: Step)
    requires !st.op.RemoveFolder?
    ensures Aborts(Walk([st], if st.error.Some? then Err(st.error.value) else Ok(())))
  {
    assert [st][0] == st;
    assert [st][..0] == [];
  }

  lemma {:induction false} DeleteFilesAborts(files: seq<string>, reply: Oracle)
    ensures Aborts(DeleteFiles(files, reply))
  {
    if |files| > 0 {
      var st := Step(DeleteFile(files[0]), reply(DeleteFile(files[0])));
      OneStepAborts(st);
      if st.error.None? {
        DeleteFilesAborts(files[1..], reply);
        AbortsJoin([st], DeleteFiles(files[1..], reply));
      }
    }
  }

  lemma {:induction false} RemoveRecursiveAborts(depth: nat, remote: string, listings: Listings, reply: Oracle)
    ensures Aborts(RemoveRecursive(depth, remote, listings, reply))
    decreases depth, 1
  {
    var list := Step(RawListAll(remote), None);
    if listings(remote).None? {
      OneStepAborts(Step(RawListAll(remote), Some(RawListFailed)));
    } else {
      OneStepAborts(list);
      var c := Collected(remote, listings(remote).value);
      var files := DeleteFiles(c.files, reply);
      DeleteFilesAborts(c.files, reply);
      if files.result.Err? {
        AbortsJoin([list], files);
      } else {
        CleanButFinalJoin([list], files.trace);
        var folders := RemoveFolders(depth, SortDesc(c.folders), listings, reply);
        RemoveFoldersAborts(depth, SortDesc(c.folders), listings, reply);
        if folders.result.Err? {
          AbortsJoin([list] + files.trace, folders);
        } else {
          var last := Step(RemoveFolder(remote), reply(RemoveFolder(remote)));
          assert CleanButFinal([last]);
          CleanButFinalJoin([list] + files.trace, folders.trace);
          CleanButFinalJoin([list] + files.trace + folders.trace, [last]);
        }
      }
    }
  }

  lemma {:induction false} RemoveFoldersAborts(depth: nat, folders: seq<string>, listings: Listings, reply: Oracle)
    ensures Aborts(RemoveFolders(depth, folders, listings, reply))
    decreases depth, 0, |folders|
  {
    if |folders| > 0 {
      var w := RemoveNested(depth, folders[0], listings, reply);
      if depth == 0 {
        OneStepAborts(Step(RemoveTree(folders[0]), reply(RemoveTree(folders[0]))));
      } else {
        RemoveRecursiveAborts(depth - 1, folders[0], listings, reply);
      }
      if w.result.Ok? {
        RemoveFoldersAborts(depth, folders[1..], listings, reply);
        AbortsJoin(w.trace, RemoveFolders(depth, folders[1..], listings, reply));
      }
    }
  }

  /** Files are deleted one after the other in the order of the listing,
      each step recording the server's answer, and every file is
      attempted exactly when all deletions succeed. */
  lemma {:induction false} DeleteFilesInOrder(files: seq<string>, reply: Oracle)
    ensures var w := DeleteFiles(files, reply);
      && |w.trace| <= |files|
      && (forall k :: 0 <= k < |w.trace| ==> w.trace[k] == Step(DeleteFile(files[k]), reply(DeleteFile(files[k]))))
      && (w.result.Ok? <==> forall k :: 0 <= k < |files| ==> reply(DeleteFile(files[k])).None?)
      && (w.result.Ok? ==> |w.trace| == |files|)
  {
    if |files| > 0 && reply(DeleteFile(files[0])).None? {
      var rest := DeleteFiles(files[1..], reply);
      DeleteFilesInOrder(files[1..], reply);
      var w := DeleteFiles(files, reply);
      assert w.trace == [Step(DeleteFile(files[0]), None)] + rest.trace;
      forall k | 0 <= k < |w.trace|
        ensures w.trace[k] == Step(DeleteFile(files[k]), reply(DeleteFile(files[k])))
      {
        if k > 0 {
          assert w.trace[k] == rest.trace[k - 1];
          assert files[1..][k - 1] == files[k];
        }
      }
      if !forall k :: 0 <= k < |files| ==> reply(DeleteFile(files[k])).None? {
        var k :| 0 <= k < |files| && reply(DeleteFile(files[k])).Some?;
        assert files[1..][k - 1] == files[k];
      }
      if forall k :: 0 <= k < |files| ==> reply(DeleteFile(files[k])).None? {
        assert forall k :: 0 <= k < |files[1..]| ==> files[1..][k] == files[k + 1];
      }
    }
  }

  /** The shape of a removal whose listing succeeded: the listing, the
      deletions, and nothing more if a deletion failed. */
  lemma RemoveStart(depth: nat, remote: string, listings: Listings, reply: Oracle)
    requires listings(remote).Some?
    ensures var d := DeleteFiles(Collected(remote, listings(remote).value).files, reply);
      var w := RemoveRecursive(depth, remote, listings, reply);
      && w.trace[..1 + |d.trace|] == [Step(RawListAll(remote), None)] + d.trace
      && (d.result.Err? ==> w.trace == [Step(RawListAll(remote), None)] + d.trace && w.result == d.result)
  {
    var c := Collected(remote, listings(remote).value);
    var d := DeleteFiles(c.files, reply);
    var list := Step(RawListAll(remote), None);
    if d.result.Ok? {
      var f := RemoveFolders(depth, SortDesc(c.folders), listings, reply);
      if f.result.Err? {
        assert ([list] + d.trace + f.trace)[..1 + |d.trace|] == [list] + d.trace;
      } else {
        assert ([list] + d.trace + f.trace + [Step(RemoveFolder(remote), reply(RemoveFolder(remote)))])[..1 + |d.trace|]
            == [list] + d.trace;
      }
    }
  }

  /** The removal starts with the raw listing and then deletes the
      listed files in order; a file that cannot be deleted ends it before
      any folder is touched. */
  lemma FilesBeforeFolders(depth: nat, remote: string, listings: Listings, reply: Oracle)
    requires listings(remote).Some?
    ensures var c := Collected(remote, listings(remote).value);
      var w := RemoveRecursive(depth, remote, listings, reply);
      && w.trace[0] == Step(RawListAll(remote), None)
      && (forall k :: 1 <= k < |w.trace| && k <= |c.files| ==> w.trace[k].op == DeleteFile(c.files[k - 1]))
      && ((exists k :: 0 <= k < |c.files| && reply(DeleteFile(c.files[k])).Some?) ==>
            w.result.Err? && forall k :: 0 <= k < |w.trace| ==> w.trace[k].op.RawListAll? || w.trace[k].op.DeleteFile?)
  {
    var files := Collected(remote, listings(remote).value).files;
    var d := DeleteFiles(files, reply);
    DeleteFilesInOrder(files, reply);
    RemoveStart(depth, remote, listings, reply);
    var w := RemoveRecursive(depth, remote, listings, reply);
    var head := w.trace[..1 + |d.trace|];
    assert w.trace[0] == head[0];
    forall k | 1 <= k < |w.trace| && k <= |files| ensures w.trace[k].op == DeleteFile(files[k - 1]) {
      if d.result.Ok? {
        assert w.trace[k] == head[k] == d.trace[k - 1];
      } else {
        assert w.trace[k] == d.trace[k - 1];
      }
    }
    if d.result.Err? {
      forall k | 0 <= k < |w.trace| ensures w.trace[k].op.RawListAll? || w.trace[k].op.DeleteFile? {
        if k > 0 {
          assert w.trace[k] == d.trace[k - 1];
        }
      }
    }
  }

  /** Two oracles that differ at most in their answers to final removals. */
  ghost predicate AgreeButFinal(r1: Oracle, r2: Oracle)
  {
    forall op: Op :: !op.RemoveFolder? ==> r1(op) == r2(op)
  }

  lemma {:induction false} DeleteFilesIgnoresFinal(files: seq<string>, r1: Oracle, r2: Oracle)
    requires AgreeButFinal(r1, r2)
    ensures DeleteFiles(files, r1) == DeleteFiles(files, r2)
  {
    if |files| > 0 {
      assert r1(DeleteFile(files[0])) == r2(DeleteFile(files[0]));
      DeleteFilesIgnoresFinal(files[1..], r1, r2);
    }
  }

  /** Nothing the server answers to the final ftp_rmdir of any folder
      changes whether the removal succeeds, which exception it throws, or
      how many operations it attempts. */
  lemma {:induction false} RemoveIgnoresFinal(depth: nat, remote: string, listings: Listings, r1: Oracle, r2: Oracle)
    requires AgreeButFinal(r1, r2)
    ensures RemoveRecursive(depth, remote, listings, r1).result == RemoveRecursive(depth, remote, listings, r2).result
    ensures |RemoveRecursive(depth, remote, listings, r1).trace| == |RemoveRecursive(depth, remote, listings, r2).trace|
    decreases depth, 1
  {
    if listings(remote).Some? {
      var c := Collected(remote, listings(remote).value);
      DeleteFilesIgnoresFinal(c.files, r1, r2);
      RemoveFoldersIgnoresFinal(depth, SortDesc(c.folders), listings, r1, r2);
    }
  }

  lemma {:induction false} RemoveFoldersIgnoresFinal(depth: nat, folders: seq<string>, listings: Listings, r1: Oracle, r2: Oracle)
    requires AgreeButFinal(r1, r2)
    ensures RemoveFolders(depth, folders, listings, r1).result == RemoveFolders(depth, folders, listings, r2).result
    ensures |RemoveFolders(depth, folders, listings, r1).trace| == |RemoveFolders(depth, folders, listings, r2).trace|
    decreases depth, 0, |folders|
  {
    if |folders| > 0 {
      if depth == 0 {
        assert r1(RemoveTree(folders[0])) == r2(RemoveTree(folders[0]));
      } else {
        RemoveIgnoresFinal(depth - 1, folders[0], listings, r1, r2);
      }
      RemoveFoldersIgnoresFinal(depth, folders[1..], listings, r1, r2);
    }
  }

  /** Past the modelled depth each folder is one operation, attempted in
      the order rsort gives: a folder comes before every folder it lies
      in. */
  lemma {:induction false} FoldersInOrder(folders: seq<string>, listings: Listings, reply: Oracle)
    ensures var w := RemoveFolders(0, folders, listings, reply);
      && |w.trace| <= |folders|
      && (forall k :: 0 <= k < |w.trace| ==> w.trace[k].op == RemoveTree(folders[k]))
      && (w.result.Ok? ==> |w.trace| == |folders|)
  {
    if |folders| > 0 && reply(RemoveTree(folders[0])).None? {
      var rest := RemoveFolders(0, folders[1..], listings, reply);
      FoldersInOrder(folders[1..], listings, reply);
      var first := Step(RemoveTree(folders[0]), None);
      assert RemoveNested(0, folders[0], listings, reply) == Walk([first], Ok(()));
      var w := RemoveFolders(0, folders, listings, reply);
      assert w == Then([first], rest);
      assert w.trace == [first] + rest.trace;
      forall k | 0 <= k < |w.trace| ensures w.trace[k].op == RemoveTree(folders[k]) {
        if k > 0 {
          assert w.trace[k] == rest.trace[k - 1];
          assert folders[1..][k - 1] == folders[k];
        }
      }
    }
  }

  /** In the order folders are removed, a folder comes before every
      folder that contains it. */
  lemma DeepestFirst(folders: seq<string>, i: nat, j: nat)
    requires i < |SortDesc(folders)| && j < |SortDesc(folders)|
    requires var s := SortDesc(folders); |s[j]| < |s[i]| && s[j] == s[i][..|s[j]|]
    ensures i < j
  {
    ChildBeforeParent(SortDesc(folders), i, j);
  }
}
