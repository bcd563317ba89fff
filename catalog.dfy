/** The backup catalog as both src/compo/ArchiveManager.ts and
    src/compo/BackupList.ts list it: the `ls` listing of the store directory,
    pagination, the selection rule and the per-entry size probes.  The two files
    carry identical copies of `paginateFiles` and of the `getFiles` filter; both
    are defined once here. */
module Catalog {
  import opened Outcomes
  import opened Js
  import Util

  function Min(a: int, b: int): int {
    if a <= b then a else b
  }

  function Max(a: int, b: int): int {
    if a >= b then a else b
  }

  // -------------------------------------------------------- the listing

  /** The `ls -lthr` pipeline: one line per store entry, oldest first, holding
      the month, day, time and name columns. */
  function ListCommand(storeDir: string): string {
    "ls -lthr \"" + storeDir + "\" | tail -n +2 | awk '{if ($9 != \"\") print $6, $7, $8, $9}'"
  }

  /** What the filter keeps of one line: nothing when it is blank. */
  function KeptLine(line: string): seq<string> {
    if Trim(line) == [] then [] else [line]
  }

  /** `.filter((line) => line.trim() !== "")`: the lines that are not blank,
      in their order. */
  function NonBlankLines(lines: seq<string>): (r: seq<string>)
    ensures |r| <= |lines|
  {
    if lines == [] then [] else KeptLine(lines[0]) + NonBlankLines(lines[1..])
  }

  /** Every line the filter keeps is a line of the input that is not blank. */
  lemma {:induction false} NonBlankLinesMeans(lines: seq<string>)
    ensures forall k :: 0 <= k < |NonBlankLines(lines)| ==>
      Trim(NonBlankLines(lines)[k]) != [] && NonBlankLines(lines)[k] in lines
  {
    if lines != [] {
      NonBlankLinesMeans(lines[1..]);
      var rest := NonBlankLines(lines[1..]);
      forall k | 0 <= k < |rest|
        ensures rest[k] in lines
      {
        assert rest[k] in lines[1..];
      }
    }
  }

  lemma {:induction false} NonBlankLinesAppend(xs: seq<string>, ys: seq<string>)
    ensures NonBlankLines(xs + ys) == NonBlankLines(xs) + NonBlankLines(ys)
  {
    if xs != [] {
      var zs := xs + ys;
      assert zs[0] == xs[0] && zs[1..] == xs[1..] + ys;
      NonBlankLinesAppend(xs[1..], ys);
      assert NonBlankLines(zs) == KeptLine(xs[0]) + NonBlankLines(xs[1..] + ys);
    } else {
      assert xs + ys == ys;
    }
  }

  /** Lines that are all non-blank pass the filter unchanged. */
  lemma {:induction false} NonBlankLinesKeepsAll(lines: seq<string>)
    requires forall k :: 0 <= k < |lines| ==> Trim(lines[k]) != []
    ensures NonBlankLines(lines) == lines
  {
    if lines != [] {
      NonBlankLinesKeepsAll(lines[1..]);
    }
  }

  /** A blank line is dropped and nothing else changes. */
  lemma BlankLineDropped(xs: seq<string>, blank: string, ys: seq<string>)
    requires Trim(blank) == []
    ensures NonBlankLines(xs + [blank] + ys) == NonBlankLines(xs) + NonBlankLines(ys)
  {
    var left := NonBlankLines(xs + [blank]);
    NonBlankLinesAppend(xs + [blank], ys);
    NonBlankLinesAppend(xs, [blank]);
    assert NonBlankLines([blank]) == [] by {
      assert [blank][1..] == [];
    }
    assert left == NonBlankLines(xs);
    assert NonBlankLines(xs + [blank] + ys) == left + NonBlankLines(ys);
  }

  /** Non-blank lines without line breaks, joined by line breaks, are read back
      one entry per line. */
  lemma ListingRoundTrip(lines: seq<string>)
    requires |lines| >= 1
    requires forall k :: 0 <= k < |lines| ==> '\n' !in lines[k] && Trim(lines[k]) != []
    ensures NonBlankLines(SplitOn(Join(lines, "\n"), '\n')) == lines
  {
    SplitOnJoin(lines, '\n');
    NonBlankLinesKeepsAll(lines);
  }

  /** The shared body of both `getFiles`: the listing query, split into lines,
      blank lines dropped; a failed query is rethrown. */
  function ListedFiles(host: Util.Host, storeDir: string): (r: Effect<seq<string>>)
    ensures r.Ok? <==> Util.Sh(host, [ListCommand(storeDir)]).Ok?
    ensures r.Ok? ==> r.value == NonBlankLines(SplitOn(Util.Sh(host, [ListCommand(storeDir)]).value, '\n'))
    ensures r.Throw? ==> r.message == Util.Sh(host, [ListCommand(storeDir)]).message
  {
    var raw :- Util.Sh(host, [ListCommand(storeDir)]);
    Ok(NonBlankLines(SplitOn(raw, '\n')))
  }

  // --------------------------------------------------------- pagination

  /** `PaginationResult`. */
  datatype Page<T> = Page(items: seq<T>, pageNum: int, totalPages: int)

  /** `Math.ceil(n / d)` for a positive `d`. */
  function CeilDiv(n: nat, d: nat): (q: nat)
    requires d >= 1
    ensures n <= q * d
    ensures n > 0 ==> (q - 1) * d < n
    ensures n == 0 <==> q == 0
  {
    (n + d - 1) / d
  }

  /** A list of `n` entries fills exactly one page of `n`. */
  lemma CeilDivSelf(n: nat)
    requires n >= 1
    ensures CeilDiv(n, n) == 1
  {
    var q := CeilDiv(n, n);
    assert (q - 1) * n == q * n - n;
    assert q * n < 2 * n;
  }

  /** The page number after correction: a negative request counts from the
      end, then the number is clamped into `1..totalPages`. */
  function ClampPage(totalPages: nat, pageNum: int): (p: int)
    requires totalPages >= 1
    ensures 1 <= p <= totalPages
    ensures 1 <= pageNum <= totalPages ==> p == pageNum
    ensures -1 >= pageNum >= 0 - totalPages ==> p == totalPages + pageNum + 1
    ensures pageNum > totalPages ==> p == totalPages
    ensures pageNum == 0 || pageNum + totalPages < 0 ==> p == 1
  {
    var p0 := if pageNum < 0 then totalPages + pageNum + 1 else pageNum;
    Max(1, Min(p0, totalPages))
  }

  /** The first index shown on page `p`: `(p - 1) * pageSize`, moved back to
      the last `pageSize` entries when the page would overrun the list. */
  function PageStart(n: nat, pageSize: nat, p: int): (s: nat)
    requires pageSize >= 1 && p >= 1
    ensures s + Min(pageSize, n) <= n
  {
    var s0 := (p - 1) * pageSize;
    if s0 + pageSize > n then Max(n - pageSize, 0) else s0
  }

  /** `paginateFiles`: the corrected page of `pageSize` entries (fewer only
      when the whole list is shorter) taken as one contiguous run of `files`. */
  function Paginate<T>(files: seq<T>, pageSize: nat, pageNum: int): (r: Page<T>)
    requires pageSize >= 1
    ensures r.totalPages == CeilDiv(|files|, pageSize)
    ensures |files| == 0 ==> r == Page([], 1, 0)
    ensures |files| > 0 ==> 1 <= r.pageNum <= r.totalPages
    ensures |files| > 0 ==> r.pageNum == ClampPage(r.totalPages, pageNum)
    ensures |r.items| == Min(pageSize, |files|)
    ensures |files| > 0 ==>
      var s := PageStart(|files|, pageSize, r.pageNum);
      r.items == files[s..s + |r.items|]
  {
    var n := |files|;
    var totalPages := CeilDiv(n, pageSize);
    if totalPages == 0 then Page([], 1, 0)
    else
      var p := ClampPage(totalPages, pageNum);
      var start := PageStart(n, pageSize, p);
      var end := Min(start + pageSize, n);
      Page(files[start..end], p, totalPages)
  }

  /** A page number in `-totalPages..-1` means the same page as
      `totalPages + pageNum + 1`; so -1 is the last page. */
  lemma NegativePageCountsFromEnd<T>(files: seq<T>, pageSize: nat, pageNum: int)
    requires pageSize >= 1
    requires -1 >= pageNum >= 0 - CeilDiv(|files|, pageSize)
    ensures Paginate(files, pageSize, pageNum)
      == Paginate(files, pageSize, CeilDiv(|files|, pageSize) + pageNum + 1)
  {
  }

  /** Requests past either end clamp to the first or the last page. */
  lemma OutOfRangePagesClamp<T>(files: seq<T>, pageSize: nat, pageNum: int)
    requires pageSize >= 1
    ensures pageNum > CeilDiv(|files|, pageSize) ==>
      Paginate(files, pageSize, pageNum) == Paginate(files, pageSize, CeilDiv(|files|, pageSize))
    ensures pageNum == 0 || pageNum + CeilDiv(|files|, pageSize) < 0 ==>
      Paginate(files, pageSize, pageNum) == Paginate(files, pageSize, 1)
  {
  }

  /** A page before the last shows exactly the entries
      `(p - 1) * pageSize .. p * pageSize`. */
  lemma FullPage<T>(files: seq<T>, pageSize: nat, p: int)
    requires pageSize >= 1
    requires 1 <= p < CeilDiv(|files|, pageSize)
    ensures p * pageSize <= |files|
      && Paginate(files, pageSize, p).items == files[(p - 1) * pageSize..p * pageSize]
  {
    var t := CeilDiv(|files|, pageSize);
    var s0 := (p - 1) * pageSize;
    assert s0 + pageSize == p * pageSize;
    assert p * pageSize <= (t - 1) * pageSize by {
      MulMonotone(p, t - 1, pageSize);
    }
    assert PageStart(|files|, pageSize, p) == s0;
  }

  lemma MulMonotone(a: int, b: int, c: nat)
    requires a <= b
    ensures a * c <= b * c
  {
  }

  /** The last page is right-aligned: it shows the last `min(pageSize, n)`
      entries, even when that repeats entries of the page before. */
  lemma LastPageRightAligned<T>(files: seq<T>, pageSize: nat)
    requires pageSize >= 1 && |files| > 0
    ensures Paginate(files, pageSize, -1).items == files[|files| - Min(pageSize, |files|)..]
    ensures Paginate(files, pageSize, -1).pageNum == CeilDiv(|files|, pageSize)
  {
    var n := |files|;
    var t := CeilDiv(n, pageSize);
    assert (t - 1) * pageSize + pageSize == t * pageSize;
  }

  /** Every entry is shown on page `k / pageSize + 1`, which is a valid page
      and is reported under that number. */
  lemma EveryEntryOnItsPage<T>(files: seq<T>, pageSize: nat, k: nat)
    requires pageSize >= 1 && k < |files|
    ensures 1 <= k / pageSize + 1 <= CeilDiv(|files|, pageSize)
    ensures
      var p := k / pageSize + 1;
      var s := PageStart(|files|, pageSize, p);
      s <= k < s + |Paginate(files, pageSize, p).items|
      && Paginate(files, pageSize, p).items[k - s] == files[k]
    ensures files[k] in Paginate(files, pageSize, k / pageSize + 1).items
    ensures Paginate(files, pageSize, k / pageSize + 1).pageNum == k / pageSize + 1
  {
    var n := |files|;
    var t := CeilDiv(n, pageSize);
    var q := k / pageSize;
    DivBounds(k, pageSize);
    if q + 1 > t {
      MulMonotone(t, q, pageSize);
      assert false;
    }
    var s0 := (q + 1 - 1) * pageSize;
    assert s0 == q * pageSize;
    var s := PageStart(n, pageSize, q + 1);
    assert s <= s0;
    assert |Paginate(files, pageSize, q + 1).items| == Min(pageSize, n);
  }

  lemma DivBounds(k: nat, d: nat)
    requires d >= 1
    ensures (k / d) * d <= k < (k / d) * d + d
  {
  }

  /** The example of the `paginateFiles` documentation. */
  lemma DocumentedExample()
    ensures
      var files := ["file1.txt", "file2.txt", "file3.txt", "file4.txt"];
      && Paginate(files, 2, 1) == Page(["file1.txt", "file2.txt"], 1, 2)
      && Paginate(files, 2, -1) == Page(["file3.txt", "file4.txt"], 2, 2)
  {
    var files := ["file1.txt", "file2.txt", "file3.txt", "file4.txt"];
    assert files[0..2] == ["file1.txt", "file2.txt"];
    assert files[2..4] == ["file3.txt", "file4.txt"];
  }

  /** Nine entries, five to a page: the last page repeats the fifth entry. */
  lemma NineEntriesFiveToAPage<T>(files: seq<T>)
    requires |files| == 9
    ensures Paginate(files, 5, 1) == Page(files[0..5], 1, 2)
    ensures Paginate(files, 5, -1) == Page(files[4..9], 2, 2)
    ensures Paginate(files, 5, 2) == Paginate(files, 5, -1)
    ensures Paginate(files, 5, 7) == Paginate(files, 5, -1)
  {
  }

  // ----------------------------------------------------------- selection

  /** The selection rule for position `i` of a page of `len` entries: a
      negative `sel` counts from the end of the page, a positive one is
      1-based from its front, 0 selects nothing. */
  predicate Marked(len: int, sel: int, i: int) {
    (sel < 0 && i == len + sel) || (sel > 0 && i == sel - 1)
  }

  /** The position the rule selects, if any. */
  function Selection(len: nat, sel: int): (r: Option<nat>)
    ensures r.Some? ==> r.value < len
    ensures forall i :: 0 <= i < len ==> (Marked(len, sel, i) <==> r == Some(i))
    ensures r.None? <==> sel == 0 || sel > len || sel + len < 0
  {
    if sel < 0 && len + sel >= 0 then Some(len + sel)
    else if sel > 0 && sel <= len then Some(sel - 1)
    else None
  }

  /** At most one position of a page is marked. */
  lemma AtMostOneMarked(len: nat, sel: int, i: nat, j: nat)
    requires i < len && j < len
    requires Marked(len, sel, i) && Marked(len, sel, j)
    ensures i == j
  {
    var _ := Selection(len, sel);
  }

  const SelectedIcon := "\U{2705}"
  const UnselectedIcon := "\U{2B1C}\U{FE0F}"
  const LogIcon := "\U{1F4D6}"
  const NoLogIcon := "\U{274C}"

  function SelectIcon(marked: bool): string {
    if marked then SelectedIcon else UnselectedIcon
  }

  function LogMark(hasLog: bool): string {
    if hasLog then LogIcon else NoLogIcon
  }

  // ------------------------------------------------------- entry probes

  /** `file.split(" ")[3]`: the name column of a listing line, `undefined`
      when the line has fewer than four space-separated pieces. */
  function FileName(line: string): Option<string> {
    var parts := SplitOn(line, ' ');
    if |parts| > 3 then Some(parts[3]) else None
  }

  /** A listing line made of month, day, time and name gives back the name. */
  lemma FileNameOfListingLine(month: string, day: string, time: string, name: string)
    requires ' ' !in month && ' ' !in day && ' ' !in time && ' ' !in name
    ensures FileName(Join([month, day, time, name], " ")) == Some(name)
  {
    SplitOnJoin([month, day, time, name], ' ');
  }

  /** The backup directory of a listing line. */
  function BackupDir(storeDir: string, line: string): string {
    storeDir + "/" + ShowOr(FileName(line))
  }

  function DuHuman(dir: string): string {
    "du -sh \"" + dir + "\" | awk '{print $1}'"
  }

  function DuBytes(dir: string): string {
    "du -sb \"" + dir + "\" | awk '{print $1}'"
  }

  /** What the listing loop learns about one entry. */
  datatype EntryInfo = EntryInfo(dir: string, fileName: string, size: string, sizeBytes: JsNum, hasLog: bool)

  /** One iteration's queries: the human-readable and the byte size of the
      backup directory ("0B" and 0 when it is missing), then whether it holds
      a `log.md`. */
  function ProbeEntry(host: Util.Host, storeDir: string, line: string): (r: Effect<EntryInfo>)
    ensures !r.Exit?
  {
    var dir := BackupDir(storeDir, line);
    var name := ShowOr(FileName(line));
    if Util.IsPathExists(host, dir) then
      var size :- Util.Sh(host, [DuHuman(dir)]);
      var bytes :- Util.Sh(host, [DuBytes(dir)]);
      Ok(EntryInfo(dir, name, size, ParseInt(bytes), Util.IsPathExists(host, dir + "/log.md")))
    else
      Ok(EntryInfo(dir, name, "0B", Num(0), Util.IsPathExists(host, dir + "/log.md")))
  }

  /** The probe of an entry names its backup directory and whether that holds
      a `log.md`; a missing directory counts as "0B" and 0 bytes, and an
      existing one succeeds exactly when both `du` queries do. */
  lemma ProbeEntryMeaning(host: Util.Host, storeDir: string, line: string)
    ensures
      var r := ProbeEntry(host, storeDir, line);
      var dir := BackupDir(storeDir, line);
      var human := Util.Sh(host, [DuHuman(dir)]);
      var bytes := Util.Sh(host, [DuBytes(dir)]);
      && (r.Ok? ==>
          && r.value.dir == dir
          && r.value.fileName == ShowOr(FileName(line))
          && r.value.hasLog == host.pathExists(dir + "/log.md"))
      && (!host.pathExists(dir) ==> r.Ok? && r.value.size == "0B" && r.value.sizeBytes == Num(0))
      && (host.pathExists(dir) ==>
          && (r.Ok? <==> human.Ok? && bytes.Ok?)
          && (r.Ok? ==> r.value.size == human.value && r.value.sizeBytes == ParseInt(bytes.value)))
  {
  }

  /** The queries of one iteration of either listing loop: the directory's `du -sh` and
      `du -sb` sizes when it exists ("0B" and 0 otherwise), then whether it
      holds a `log.md`. */
  method ProbeLine(host: Util.Host, storeDir: string, file: string) returns (r: Effect<EntryInfo>)
    ensures r == ProbeEntry(host, storeDir, file)
  {
    var fileName := ShowOr(FileName(file));
    var backupDir := storeDir + "/" + fileName;
    var size := "0B";
    var sizeBytes := Num(0);
    if Util.IsPathExists(host, backupDir) {
      var human :- Util.Sh(host, [DuHuman(backupDir)]);
      size := human;
      var bytes :- Util.Sh(host, [DuBytes(backupDir)]);
      sizeBytes := ParseInt(bytes);
    }
    var hasLog := Util.IsPathExists(host, backupDir + "/log.md");
    r := Ok(EntryInfo(backupDir, fileName, size, sizeBytes, hasLog));
  }

  /** The probes of a whole page, in order; the first failing probe ends the
      listing. */
  function ProbeAll(host: Util.Host, storeDir: string, lines: seq<string>): (r: Effect<seq<EntryInfo>>)
    ensures !r.Exit?
    ensures r.Ok? ==> |r.value| == |lines|
  {
    if lines == [] then Ok([])
    else
      var init :- ProbeAll(host, storeDir, lines[..|lines| - 1]);
      var last :- ProbeEntry(host, storeDir, lines[|lines| - 1]);
      Ok(init + [last])
  }

  /** The page probes succeed exactly when every entry's probe does, and then
      they are those probes' results. */
  lemma {:induction false} ProbeAllOk(host: Util.Host, storeDir: string, lines: seq<string>)
    ensures ProbeAll(host, storeDir, lines).Ok? <==>
      forall k :: 0 <= k < |lines| ==> ProbeEntry(host, storeDir, lines[k]).Ok?
    ensures ProbeAll(host, storeDir, lines).Ok? ==>
      forall k :: 0 <= k < |lines| ==>
        ProbeAll(host, storeDir, lines).value[k] == ProbeEntry(host, storeDir, lines[k]).value
  {
    if lines != [] {
      var init := lines[..|lines| - 1];
      ProbeAllOk(host, storeDir, init);
      var before := ProbeAll(host, storeDir, init);
      var last := ProbeEntry(host, storeDir, lines[|lines| - 1]);
      if before.Ok? && last.Ok? {
        assert ProbeAll(host, storeDir, lines) == Ok(before.value + [last.value]);
        forall k | 0 <= k < |lines|
          ensures ProbeEntry(host, storeDir, lines[k]).Ok?
          ensures ProbeAll(host, storeDir, lines).value[k] == ProbeEntry(host, storeDir, lines[k]).value
        {
          if k < |init| {
            assert init[k] == lines[k];
            assert ProbeEntry(host, storeDir, init[k]).Ok?;
            assert (before.value + [last.value])[k] == before.value[k];
          } else {
            assert k == |lines| - 1;
            assert lines[k] == lines[|lines| - 1];
            assert (before.value + [last.value])[k] == last.value;
          }
        }
      } else if !before.Ok? {
        var k :| 0 <= k < |init| && !ProbeEntry(host, storeDir, init[k]).Ok?;
        assert init[k] == lines[k];
      }
    }
  }

  /** When the page probes fail, the outcome is the failure of the earliest
      failing entry. */
  lemma {:induction false} ProbeAllFirstFailure(host: Util.Host, storeDir: string, lines: seq<string>)
    requires !ProbeAll(host, storeDir, lines).Ok?
    ensures exists k :: (
      && 0 <= k < |lines|
      && (forall j :: 0 <= j < k ==> ProbeEntry(host, storeDir, lines[j]).Ok?)
      && ProbeEntry(host, storeDir, lines[k]).Throw?
      && ProbeAll(host, storeDir, lines) == Throw(ProbeEntry(host, storeDir, lines[k]).message))
  {
    var init := lines[..|lines| - 1];
    assert forall k :: 0 <= k < |init| ==> init[k] == lines[k];
    if ProbeAll(host, storeDir, init).Ok? {
      ProbeAllOk(host, storeDir, init);
      var k := |lines| - 1;
      assert forall j :: 0 <= j < k ==> ProbeEntry(host, storeDir, lines[j]).Ok?;
    } else {
      ProbeAllFirstFailure(host, storeDir, init);
    }
  }

  /** One more successful probe extends the page's results by one. */
  lemma ProbeAllStep(host: Util.Host, storeDir: string, lines: seq<string>, i: nat, infos: seq<EntryInfo>, info: EntryInfo)
    requires i < |lines|
    requires ProbeAll(host, storeDir, lines[..i]) == Ok(infos)
    requires ProbeEntry(host, storeDir, lines[i]) == Ok(info)
    ensures ProbeAll(host, storeDir, lines[..i + 1]) == Ok(infos + [info])
  {
    assert lines[..i + 1][..i] == lines[..i];
  }

  /** Once a prefix of the page fails, the whole page fails the same way. */
  lemma {:induction false} ProbeAllFailurePersists(host: Util.Host, storeDir: string, lines: seq<string>, i: nat)
    requires i <= |lines|
    requires !ProbeAll(host, storeDir, lines[..i]).Ok?
    ensures ProbeAll(host, storeDir, lines) == ProbeAll(host, storeDir, lines[..i])
    decreases |lines|
  {
    if i == |lines| {
      assert lines[..i] == lines;
    } else {
      var init := lines[..|lines| - 1];
      assert init[..i] == lines[..i];
      ProbeAllFailurePersists(host, storeDir, init, i);
    }
  }

  /** A probe failing after a successful prefix is the page's outcome. */
  lemma StopAtFailingEntry(host: Util.Host, storeDir: string, lines: seq<string>, i: nat, infos: seq<EntryInfo>)
    requires i < |lines|
    requires ProbeAll(host, storeDir, lines[..i]) == Ok(infos)
    requires !ProbeEntry(host, storeDir, lines[i]).Ok?
    ensures ProbeEntry(host, storeDir, lines[i]).Throw?
    ensures ProbeAll(host, storeDir, lines) == Throw(ProbeEntry(host, storeDir, lines[i]).message)
  {
    assert lines[..i + 1][..i] == lines[..i];
    ProbeAllFailurePersists(host, storeDir, lines, i + 1);
  }

  /** `totalSize += sizeBytes` over the page, from 0. */
  function SumBytes(infos: seq<EntryInfo>): (r: JsNum)
    ensures r.Num? <==> forall k :: 0 <= k < |infos| ==> infos[k].sizeBytes.Num?
  {
    if infos == [] then Num(0)
    else Add(SumBytes(infos[..|infos| - 1]), infos[|infos| - 1].sizeBytes)
  }

  lemma SumBytesStep(infos: seq<EntryInfo>, info: EntryInfo)
    ensures SumBytes(infos + [info]) == Add(SumBytes(infos), info.sizeBytes)
  {
    assert (infos + [info])[..|infos|] == infos;
  }

  lemma {:induction false} SumBytesAppend(xs: seq<EntryInfo>, ys: seq<EntryInfo>)
    ensures SumBytes(xs + ys) == Add(SumBytes(xs), SumBytes(ys))
    decreases |ys|
  {
    if ys == [] {
      assert xs + ys == xs;
    } else {
      var zs := xs + ys;
      assert zs[..|zs| - 1] == xs + ys[..|ys| - 1];
      SumBytesAppend(xs, ys[..|ys| - 1]);
    }
  }

  /** An entry whose directory is missing (size 0) leaves the page total as
      it is. */
  lemma ZeroEntryAddsNothing(xs: seq<EntryInfo>, e: EntryInfo, ys: seq<EntryInfo>)
    requires e.sizeBytes == Num(0)
    ensures SumBytes(xs + [e] + ys) == SumBytes(xs + ys)
  {
    SumBytesAppend(xs + [e], ys);
    SumBytesAppend(xs, [e]);
    SumBytesAppend(xs, ys);
    assert [e][..0] == [];
  }
}
