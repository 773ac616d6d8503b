# davidlienhard/ftp — a Dafny model of the client's core

The library is a PHP wrapper around PHP's ftp extension (RFC 959). This
project models the parts of `src/Ftp.php` that carry logic of their own:

- **Listing lines.** `analyzeDir` reads one raw LIST line in either of the
  two server dialects it knows, `UNIX` and `Windows_NT`. It returns an
  entry `{type, size, name}` with type -1 (invalid), 0, 1 or 2. `dirList`
  folds and filters those entries. The PHP regexes are modelled as
  hand-written backtracking recognisers: leftmost start, greedy
  quantifiers tried longest first. Well-formed lines are built from their
  fields by a renderer and read back (`unix_line`, `unix_render`,
  `windows_line`, `windows_render`, `listing`, `listing_lines`).
- **Transfer mode.** `getMode` picks ASCII or BINARY from a file's
  trailing extension. `put`, `get`, `fput` and `fget` each resolve an
  "auto" mode in their own way; the comparisons are strict in `put` and
  loose elsewhere (`transfer_mode`).
- **The operation envelope.** Every remote operation starts with
  `sanityCheck`. A failed call throws a message made of a base text and an
  optional `" (diag)"` suffix. The time counter grows only on the success
  path. The model also covers the `chmod` fallback to `SITE CHMOD`, the
  `pasv` short-circuit, and `connect` with its anonymous password
  (`common`, `envelope`).
- **The tree walks.** The model covers `putDir`, `getDir`, `dirSize` and
  recursive `rmdir`:
  - Local and remote trees are abstract datatypes.
  - Every operation a walk attempts is answered by an oracle.
  - A walk returns the trace of the operations it attempted, each with its
    outcome, and its result.
  - The walks share one failure policy. With failfast, the first caught
    exception is rethrown. Without it, every sibling is attempted and one
    aggregate exception is thrown at the end.
  - Recursive `rmdir` reads the server's recursive listing as a stream of
    lines, collects files and folders, deletes the files, removes the
    folders deepest first after `rsort`, and then removes the folder
    itself (`tree_walk`, `tree_upload`, `tree_download`, `tree_size`,
    `recursive_delete`).

`$this->sysType` is never assigned by `connect` (see Findings), so
`analyzeDir` takes the system type as a parameter. A separate as-written
member models what happens when the property is read unassigned.

## Model

| member | source | states |
|---|---|---|
| Common.FailMessageRoundTrip | src/Ftp.php:232-236 | A failure message starts with its base text, and the diagnostic can be read back from it exactly. The message equals the base text iff the transport gave no diagnostic. |
| Common.ErrSuffix | src/Ftp.php:234-235 | The suffix is empty iff there is no diagnostic; otherwise it is `" ("`, the diagnostic, `")"`. |
| Common.IntVal | src/Ftp.php:1522 | intval of a digit string is its decimal value, saturated at PHP_INT_MAX. |
| Common.IntToDecimalRoundTrip | src/Ftp.php:887 | The decimal rendering of an int (as in `"CHMOD ".$mode`) reads back as that int, with a sign exactly for negative numbers. |
| UnixLine.UnixSearch | src/Ftp.php:1535 | The recogniser's answer is a match at the leftmost start where the UNIX pattern can match, with the greedy date extent; None iff no start matches. |
| UnixLine.SearchComplete | src/Ftp.php:1535 | Every match of the UNIX pattern is found: the search succeeds at a start no later than it. |
| UnixRender.WellFormedMatch | src/Ftp.php:1535 | A line rendered from well-formed fields is matched by the UNIX pattern with exactly the field boundaries it was built from. |
| UnixRender.RenderGroups | src/Ftp.php:1535-1540 | The rendered line carries the flag first, the size digits and the name at the positions the pattern's groups capture. |
| WindowsLine.WinSearch | src/Ftp.php:1511-1518 | The leftmost match of the directory or the file pattern, or None iff no start matches. |
| WindowsLine.SearchComplete | src/Ftp.php:1511-1518 | Every match of a Windows pattern is found at a start no later than it. |
| WindowsLine.NoDirWithoutAngle | src/Ftp.php:1511 | A line without `<` never matches the `<DIR>` pattern. |
| WindowsRender.WellFormedMatch | src/Ftp.php:1511-1518 | A rendered well-formed Windows line is matched by its pattern with the boundaries it was built from. |
| WindowsRender.FileLineNotDir | src/Ftp.php:1511-1518 | A rendered file line never matches the directory pattern, so the file branch decides it. |
| Listing.LinkName | src/Ftp.php:1545-1547 | A link's name is cut before the last `" ->"` that leaves a nonempty name, and is left whole iff there is no such arrow. |
| Listing.UnixGroups | src/Ftp.php:1536-1553 | `d` and `-` give type 1 and `l` gives type 2; the size is the intval of the digit group; a link's name is cut at its arrow. |
| Listing.UnixEntry | src/Ftp.php:1533-1558 | Invalid iff the UNIX pattern does not match; never type 0; size within PHP's int range. |
| Listing.WindowsEntry | src/Ftp.php:1509-1531 | The directory pattern is tried first, then the file pattern. Invalid iff neither matches. Directories have size 0; never type 2. |
| Listing.DotsFilter | src/Ftp.php:1570-1572 | `.` and `..` become type 0; size and name are unchanged. |
| Listing.AnalyzeDir | src/Ftp.php:1500-1575 | A `total` line is invalid whatever the system type. Every line is invalid under a system type other than UNIX and Windows_NT. Otherwise the branch's entry passes through the dots filter. |
| Listing.AnalyzeDirAsWritten | src/Ftp.php:1500-1509 | With the property unassigned, every line not starting with `total` throws; with it assigned, the result is AnalyzeDir's. |
| Listing.Fold | src/Ftp.php:241-251 | An entry is dropped iff it is invalid; types 0 and 2 become files, type 1 stays a directory; the name is kept. |
| Listing.Entries | src/Ftp.php:240-241 | One entry per raw line, in order, each the line's analyzeDir. |
| Listing.Kept | src/Ftp.php:240-252 | The reference filter: the ascending indices of exactly the valid entries. |
| Listing.ListingIsKept | src/Ftp.php:240-252 | dirList's loop yields, in order, exactly the folded entries at the reference's indices, so it keeps order and is never longer than the raw list. |
| Listing.FilterLoop | src/Ftp.php:239-253 | The imperative loop computes the recursive filter. |
| Listing.ListLines | src/Ftp.php:239-253 | Analysing every line, then filtering, computes dirList's list. |
| ListingLines.UnixReadBack | src/Ftp.php:1502-1553 | A well-formed UNIX line is not a `total` line, and the UNIX branch reads back the flag's type, the size and the name it was built from. |
| ListingLines.UnixLineEntry | src/Ftp.php:1500-1575 | analyzeDir under UNIX reads back a well-formed line's fields, with dots turned into type 0. |
| ListingLines.LinkNameCut | src/Ftp.php:1545-1547 | For a link `a -> b` whose target has no `>`, the name is `a`. |
| ListingLines.WindowsDirReadBack | src/Ftp.php:1511-1516 | A well-formed `<DIR>` line reads back as a directory of size 0 with its name. |
| ListingLines.WindowsFileReadBack | src/Ftp.php:1518-1524 | A well-formed file line reads back as a file with its size and name. |
| ListingLines.WindowsDirEntry | src/Ftp.php:1509-1572 | analyzeDir under Windows_NT gives a directory line type 1, or type 0 when it is named dots. |
| ListingLines.WindowsFileEntry | src/Ftp.php:1509-1524 | analyzeDir under Windows_NT gives a file line type 0 with its size and name. |
| ListingLines.UnsetSysTypeRejectsUnix | src/Ftp.php:1500-1535 | Every well-formed UNIX line throws when the system type was never assigned, and is valid once it is assigned. |
| Listing.UnixGroupsIntended | src/Ftp.php:1541-1551 | The corrected flag mapping: `-` gives a file (type 0), and every other flag keeps the type, size and name the code gives. |
| Listing.UnixEntryIntended | src/Ftp.php:1535-1551 | A UNIX line reads as a file iff it matches with a `-` flag; otherwise it reads exactly as analyzeDir reads it, and size and name never change. |
| ListingLines.PlainFileListedAsFolder | src/Ftp.php:1549-1551 | A well-formed UNIX line of a regular file (`-` flag) reads as a directory (type 1), and dirList lists it as a folder. |
| ListingLines.PlainFileIntended | src/Ftp.php:1541-1551 | With the corrected mapping, the same line reads back as a file with its own size and name. |
| TransferMode.Extension | src/Ftp.php:1630 | The captured extension is a nonempty alphanumeric run after a dot that ends the name (or ends it before a final newline). |
| TransferMode.ExtensionOf | src/Ftp.php:1630 | A name ending in `.` and an alphanumeric run has exactly that run as its extension. |
| TransferMode.NoDotNoExtension | src/Ftp.php:1630-1634 | A name without a dot has no extension. |
| TransferMode.GetModeOf | src/Ftp.php:1626-1647 | A name with an extension is ASCII iff the extension is in the ASCII list, compared case-sensitively. |
| TransferMode.BinaryNeedsEnding | src/Ftp.php:1630-1646 | BINARY is chosen only for a name with an extension that is not in the ASCII list. |
| TransferMode.ArchiveIsBinary | src/Ftp.php:1626-1647 | `archive.tar.gz` is transferred in BINARY. |
| TransferMode.LowerCaseEndingIsAscii | src/Ftp.php:1630-1640 | `index.html` is transferred in ASCII. |
| TransferMode.ReadmeIsAscii | src/Ftp.php:1630-1634 | `README` is transferred in ASCII. |
| TransferMode.UpperCaseEndingIsBinary | src/Ftp.php:1630-1640 | `index.HTML` is BINARY: the extension is matched case-insensitively but compared case-sensitively. |
| TransferMode.IntNumeral | src/Ftp.php:402-404 | A string is read as an integer only when it has the shape of a numeric string of integer form: optional whitespace, an optional sign, digits, optional whitespace. The value is then the signed value of its digits, leading zeros included. |
| TransferMode.IntNumeralComplete | src/Ftp.php:402-404 | Every string of that shape is read, with exactly that value, so "02" stands for 2. |
| TransferMode.IntNumeralOfDecimal | src/Ftp.php:625-627 | Rendering an int in decimal and reading it as a numeral gives the int back. |
| TransferMode.ResolvePut | src/Ftp.php:333-335 | put keeps an integer ASCII or BINARY mode and asks getMode on the local name for anything else, a string included. |
| TransferMode.ResolveGet | src/Ftp.php:553-555 | get keeps any mode loosely equal to ASCII or BINARY and asks getMode on the remote name otherwise. |
| TransferMode.ResolveStream | src/Ftp.php:402-627 | fput and fget use BINARY iff the mode is loosely equal to BINARY, ASCII otherwise. |
| TransferMode.ExplicitModeKept | src/Ftp.php:333-627 | An integer ASCII or BINARY mode is used as given by put, get, fput and fget alike. |
| TransferMode.AutoMode | src/Ftp.php:333-627 | "auto" asks getMode in put and get, and means ASCII in fput and fget. |
| TransferMode.NumericStringMode | src/Ftp.php:333-555 | The string "2" is BINARY for get (loose comparison) but goes to getMode for put (strict comparison). |
| Envelope.SanityCheck | src/Ftp.php:1686-1692 | The error is absent iff the handle is live, and is always "$this->ftp is no resource". |
| Envelope.OneCommand | src/Ftp.php:761-785 | No command without a live handle. Success iff the handle is live and the command succeeds. A failure carries the base text and the diagnostic suffix. Time grows by the elapsed time on success only. |
| Envelope.EnvelopeContract | src/Ftp.php:232-261 | For any reply: nothing is sent iff the handle is dead; the diagnostic reads back from the message; the counter never shrinks and changes only on success; nothing else in the session changes. |
| Envelope.ParseAll | src/Ftp.php:239-241 | Parsing every line gives AnalyzeDir's entries when the system type is set, and can only fail on the unassigned property. |
| Envelope.ParseAllUnset | src/Ftp.php:1500-1509 | With the property unassigned, parsing throws iff some line does not start with `total`. |
| Envelope.DirList | src/Ftp.php:222-262 | One RAWLIST command. A failure throws "could not get rawlist" with the suffix. Otherwise the result is the filtered listing, and time grows only on success. |
| Envelope.ChmodSiteRoundTrip | src/Ftp.php:887 | The SITE command is `CHMOD `, the mode in decimal, a space and the file name, and the mode reads back. |
| Envelope.Chmod | src/Ftp.php:871-900 | ftp_chmod is tried first, and SITE CHMOD only after it fails. Success iff either succeeds. When both fail, the message names the file and the mode, without a diagnostic. |
| Envelope.ChmodFallbackTime | src/Ftp.php:887-900 | A successful fallback adds the SITE call's time and chmod's own time. |
| Envelope.Pasv | src/Ftp.php:1227-1258 | A request equal to the recorded mode sends nothing and succeeds. Any other request sends PASV. The recorded mode never changes. |
| Envelope.PasvOffIsLost | src/Ftp.php:101-1237 | After pasv(true) succeeds, pasv(false) sends nothing: passive mode cannot be switched off. |
| Envelope.PasvRecorded | src/Ftp.php:1234-1257 | The corrected pasv: a success records the requested mode, and a failure changes nothing. |
| Envelope.PasvRecordedSwitchesBack | src/Ftp.php:1234-1257 | With the mode recorded, pasv(true) then pasv(false) sends both commands, and repeating a successful request sends nothing. |
| Envelope.Connect | src/Ftp.php:149-209 | Host, user and password are stored first. A failed connect throws ConnectException with the suffix. A login failure throws LoginException. Success iff both succeed, after sending SYST. The system type is left as it was; time grows only on success. |
| Envelope.AnonymousLogin | src/Ftp.php:160-168 | Without a password, login uses the anonymous password while the stored password stays null. |
| Envelope.SetAnonymousPassword | src/Ftp.php:1585-1588 | Only the anonymous password changes. |
| Envelope.ConnectLeavesSysTypeUnset | src/Ftp.php:200-206 | After connect as written, dirList on any listing with a non-`total` line throws. With the system type stored, it lists. |
| Envelope.ConnectStoring | src/Ftp.php:200-202 | The corrected connect stores the system type ("" when SYST fails) and otherwise behaves like connect. |
| TreeWalk.CleanJoin | src/Ftp.php:486-520 | A joined trace has no failure iff neither part has one. |
| TreeWalk.StopsAtJoin | src/Ftp.php:495-499 | A clean prefix followed by a trace that stops at an exception still stops at it. |
| TreeUpload.PutDirOutcome | src/Ftp.php:464-528 | putDir succeeds iff no attempted operation failed. An uncaught exception ends the walk where it was thrown. With failfast the walk ends at the first failure, with that exception. |
| TreeUpload.PutEntriesOutcome | src/Ftp.php:486-520 | The loop over the entries keeps the same promise, given whether the error flag was already set. |
| TreeUpload.PutEntryOutcome | src/Ftp.php:490-510 | One entry keeps it: mkdir then recursion for a directory not named dots, put for anything else. |
| TreeUpload.PutEntriesBestEffort | src/Ftp.php:486-520 | Without failfast, every entry is attempted in order, and the loop fails with the aggregate message iff some entry failed. |
| TreeUpload.PutDirBestEffort | src/Ftp.php:464-528 | Without failfast: the directory is opened, every sibling's work follows in order, and the result is "unable to copy folder to server" iff some sibling failed. |
| TreeDownload.LocalCheck | src/Ftp.php:693-699 | The local root passes iff it is a directory or is missing and can be created. Otherwise the two messages apply. |
| TreeDownload.GetDirOutcome | src/Ftp.php:687-750 | getDir succeeds iff no attempted operation failed, and with failfast ends at the first failure. |
| TreeDownload.GetEntriesOutcome | src/Ftp.php:701-742 | The loop keeps the same promise, given the error flag. |
| TreeDownload.GetEntryOutcome | src/Ftp.php:704-733 | One entry keeps it: local mkdir (ignored) then recursion for type 1, get for anything else. |
| TreeDownload.GetDirListingEscapes | src/Ftp.php:703 | A failing dirList of the folder ends getDir with its own exception, whatever failfast says. |
| TreeDownload.GetEntriesBestEffort | src/Ftp.php:701-742 | Without failfast every entry is attempted, and the loop fails iff some entry failed. |
| TreeDownload.GetDirBestEffort | src/Ftp.php:687-750 | Without failfast, after the listing every sibling is attempted, and the result is "unable to copy folder from server" iff some sibling failed. |
| TreeSize.DirSizeSettles | src/Ftp.php:1168-1216 | dirSize succeeds iff no attempted operation failed. An uncaught exception ends it where it was thrown. When the server throws only client exceptions, so does dirSize. |
| TreeSize.SizeEntriesBestEffort | src/Ftp.php:1176-1207 | Without failfast, every entry of the loop is attempted in order. The loop throws the aggregate exception iff the flag was set or some entry failed. Otherwise it returns the running sum plus the sizes of the remaining files. |
| TreeSize.DirSizeBestEffort | src/Ftp.php:1168-1216 | Without failfast: after the listing, every listed entry is attempted in order, each exactly as on its own. dirSize throws "unable to get size of folder from server" iff some entry failed, and otherwise returns the sizes of its own files. |
| TreeSize.SizeEntriesFailfast | src/Ftp.php:1180-1199 | With failfast, the loop attempts the entries up to and including the first failing one, and nothing after it. It throws that entry's exception. |
| TreeSize.DirSizeFailfast | src/Ftp.php:1179-1199 | With failfast: after the listing, dirSize attempts the entries up to the first failing one, stops there, and throws that entry's own exception. |
| TreeSize.SizeEntriesSettles | src/Ftp.php:1176-1207 | The loop keeps the same promise, given the error flag. |
| TreeSize.SizeEntrySettles | src/Ftp.php:1181-1199 | One entry keeps it: a directory recurses without failfast, a file asks for its size. |
| TreeSize.SizeEntriesSum | src/Ftp.php:1176-1199 | A successful loop returns the running sum plus the sizes of the non-directory entries only. |
| TreeSize.DirSizeIsImmediate | src/Ftp.php:1168-1216 | A successful dirSize is the sum of the immediate files' sizes; subdirectories contribute nothing. |
| TreeSize.SampleDirSize | src/Ftp.php:1183-1192 | A root file of 5 and a subdirectory with 10 and 20 give 5, while the tree holds 35. |
| TreeSize.SampleFailfastStaysOutOfSubdirectories | src/Ftp.php:1183-1188 | A failing file inside a subdirectory does not stop its siblings even under failfast; the root then throws the aggregate. |
| RecursiveDelete.FirstSpace | src/Ftp.php:1044 | The first space of a string, or None iff it has no space. |
| RecursiveDelete.Pieces | src/Ftp.php:1044 | preg_split on single spaces with limit 9 gives at most 9 pieces, none empty. |
| RecursiveDelete.SplitJoin | src/Ftp.php:1044 | Splitting words joined by single spaces gives the words back when there are at most 9. |
| RecursiveDelete.SplitRest | src/Ftp.php:1044 | Eight space-free fields, a space and any nonempty rest split into the eight fields and the rest exactly as it stands, spaces included. |
| RecursiveDelete.SplitJoinLong | src/Ftp.php:1044 | With more than 9 words the first 8 come back and the 9th piece is the rest, spaces kept. |
| RecursiveDelete.ReadLine | src/Ftp.php:1031-1050 | A line is a blank marker iff it is empty or "0". Otherwise it carries its header reading, its ninth field and whether field 0 starts with `d`. |
| RecursiveDelete.ReadAll | src/Ftp.php:1029 | One reading per line. |
| RecursiveDelete.FeedAllAppends | src/Ftp.php:1029-1063 | The loop only appends, and at most one path per line. |
| RecursiveDelete.FeedListing | src/Ftp.php:1029-1063 | Feeding the lines of a listing of blocks collects each block's paths under its header. Entry names may hold spaces. |
| RecursiveDelete.CollectListing | src/Ftp.php:1015-1063 | For a well-formed recursive listing, the files collected are the listed non-folders and the folders the listed folders, in listing order. Each is under its block's header with its last character dropped; dots are skipped. Entry names may hold spaces, since the ninth field is the rest of the line. |
| RecursiveDelete.TotalLineAddsFolderPath | src/Ftp.php:1044-1061 | A `total 8` line inside a block adds the folder's own path with a trailing `/` to the files to delete. |
| RecursiveDelete.TotalLineSkipped | src/Ftp.php:1044-1061 | The corrected loop, which skips lines with fewer than nine fields, leaves the collection unchanged on `total 8`. |
| RecursiveDelete.FeedIntendedOnItems | src/Ftp.php:1044-1061 | On every well-formed entry line the corrected loop collects exactly what the code collects. |
| RecursiveDelete.LexLeTotal | src/Ftp.php:1072 | Byte-wise string order is total. |
| RecursiveDelete.LexLeTrans | src/Ftp.php:1072 | Byte-wise string order is transitive. |
| RecursiveDelete.LexLeAntisym | src/Ftp.php:1072 | Byte-wise string order is antisymmetric. |
| RecursiveDelete.PrefixFirst | src/Ftp.php:1071-1072 | A proper prefix is strictly smaller than its extension. |
| RecursiveDelete.SortDesc | src/Ftp.php:1072 | rsort returns a permutation of the folders in descending order. |
| RecursiveDelete.ChildBeforeParent | src/Ftp.php:1071-1075 | In a descending list, a path comes before every proper prefix of it. |
| RecursiveDelete.DeepestFirst | src/Ftp.php:1071-1075 | In the order the folders are removed, each folder precedes every folder that contains it. |
| RecursiveDelete.DeleteFilesAborts | src/Ftp.php:1066-1068 | Deleting files succeeds iff no delete failed, and ends at the first failing delete. |
| RecursiveDelete.RemoveRecursiveAborts | src/Ftp.php:1015-1081 | The removal succeeds iff nothing failed but final removals, and otherwise ends at the operation that threw. |
| RecursiveDelete.RemoveFoldersAborts | src/Ftp.php:1073-1075 | The folder loop keeps the same promise. |
| RecursiveDelete.DeleteFilesInOrder | src/Ftp.php:1066-1068 | Files are deleted in discovery order, each with the server's answer. All are attempted iff every delete succeeds. |
| RecursiveDelete.FilesBeforeFolders | src/Ftp.php:1022-1075 | The raw listing comes first, then the file deletions in order. A failed delete ends the removal before any folder is touched. |
| RecursiveDelete.RemoveIgnoresFinal | src/Ftp.php:1078 | The answer to any final ftp_rmdir changes neither the result nor the number of operations. |
| RecursiveDelete.RemoveFoldersIgnoresFinal | src/Ftp.php:1073-1078 | The same holds for the folder loop. |
| RecursiveDelete.FoldersInOrder | src/Ftp.php:1073-1075 | Past the modelled depth, folders are removed one by one in sorted order, all of them iff every removal succeeds. |

## Left out

- The transport: every `ftp_*` call is an oracle answer (success, or failure with an optional diagnostic). The wrapper library that calls the extension is not part of this model.
- Server state: the oracle answers by the operation alone, so the server is modelled as stateless. A repeated operation gets the same answer, and a listing taken after a deletion is the same as before it.
- The local file system (`is_dir`, `opendir`/`readdir`, `mkdir`, `file_exists`): an abstract local tree, with `readdir` order taken as the tree's entry order.
- Real time: `microtime` floats and the rounded times in debug messages. The counter is an integer that grows by an abstract elapsed amount, and the tree walks do not track it.
- Debug and log output, and the `nb_*` variants and `$fp` resource checks, which only delegate.
- UnixRender.WellFormedMatch: the read-back is proved only for names without a space. The greedy `.*` of the UNIX pattern takes the last place where ` <digits> <letters> <date> ` fits. A name such as `x 5 Jan 1 y` holds such a place, so the line would read as an entry `y` of size 5 (type 1, like every `-` line).
- ListingLines.UnixReadBack: limited to names without a space, for the same reason as UnixRender.WellFormedMatch.
- ListingLines.UnixLineEntry: limited to names without a space, for the same reason as UnixRender.WellFormedMatch.
- WindowsRender.WellFormedMatch: the read-back is proved only for lines with at least one space between the date and the time and between the AM/PM letters and the body, and for file names without `<`. The directory pattern is tried first and could match inside a file name holding `<`; Windows file systems forbid `<` in names.
- ListingLines.WindowsFileReadBack: limited in the same way as WindowsRender.WellFormedMatch.
- The handle is modelled with PHP 8.0's semantics, where `ftp_connect` returns a resource. From PHP 8.1 it returns an `FTP\Connection` object, for which `is_resource` is false. There, `sanityCheck` would throw "$this->ftp is no resource" on every operation after a successful connect. That behaviour is not modelled.
- `is_resource` becomes the session's `live` flag. The tree walks do not repeat `sanityCheck` at their head: the handle is taken as live there, and dirList's and each operation's check is part of the oracle's answer.
- `DIRECTORY_SEPARATOR` is `/`.
- The one-command operations (`nList`, `chDir`, `cdup`, `pwd`, `rename`, `mdtm`, `exec`, options, `close`, non-recursive `rmdir`, `delete`, `size`): they are instances of Envelope.OneCommand with their own base texts, and the tree walks see them as oracle operations.
- Exception chaining (`$e->getCode()`, previous exception) and the interface file with signatures only. The exception subclasses are error kinds.
- RecursiveDelete.RemoveRecursive: nested `rmdir(folder, true)` calls are followed to a given depth; past it, each nested call is one oracle operation.
- TreeSize.DirSize: the sum is an unbounded natural number; PHP's integer overflow to float is not modelled.
- TransferMode.IntNumeral: float strings such as "2.0" or "2e0", which PHP 8 compares numerically, are not read as numbers here, so the model sends them to getMode.

## Findings

| source | as written | input that shows it | evidently intended | confidence | as-written member | corrected member |
|---|---|---|---|---|---|---|
| src/Ftp.php:200-202 | connect stores the SYST answer in a local variable and never in `$this->sysType`, so analyzeDir reads an uninitialised typed property and throws | connect succeeds, then dirList on any listing with a line not starting with `total` | store the system type (or "" when SYST fails) in `$this->sysType` | not executed | Envelope.ConnectLeavesSysTypeUnset | Envelope.ConnectStoring |
| src/Ftp.php:1234-1237 | pasv never assigns `$this->pasv`, so the short-circuit compares against the initial `false` forever | pasv(true) succeeds, then pasv(false) sends nothing and the connection stays passive | record the new mode after a successful switch | not executed | Envelope.PasvOffIsLost | Envelope.PasvRecordedSwitchesBack |
| src/Ftp.php:1549-1551 | a UNIX line whose flag is neither `d` nor `l` falls into the last branch and gets type 1, so a regular file is listed as a directory | the line `-rw-r--r-- 1 u g 5 Jan 1 2020 a.txt` reads as type 1, so dirList lists `a.txt` as a folder and getDir recurses into it | the `-` flag gives type 0, a file | not executed | ListingLines.PlainFileListedAsFolder | ListingLines.PlainFileIntended |
| src/Ftp.php:1044-1061 | a line with fewer than nine fields leaves `$split[8]` null, which concatenates as empty, so the folder's own path with a trailing `/` joins the files and is passed to delete | the line `total 8` inside a block of the recursive listing | skip lines with fewer than nine fields | not executed | RecursiveDelete.TotalLineAddsFolderPath | RecursiveDelete.TotalLineSkipped |
