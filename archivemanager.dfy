/** src/compo/ArchiveManager.ts: the paginated listing of the backup store that
    ends a backup, with zero-padded numbering, the selection mark, the page's
    size total and the selected backup's log. */
module ArchiveManager {
  import opened Outcomes
  import opened Js
  import Util
  import opened Catalog

  /** `#padIndexToReferenceLength`: the index left-padded with '0' to the digit
      count of the reference number; a longer index is kept whole. */
  function PadIndex(reference: int, index: int): (r: string)
    ensures |r| == Max(|IntToString(index)|, |IntToString(reference)|)
    ensures r[|r| - |IntToString(index)|..] == IntToString(index)
    ensures forall k :: 0 <= k < |r| - |IntToString(index)| ==> r[k] == '0'
  {
    PadStart(IntToString(index), |IntToString(reference)|, '0')
  }

  /** Padding keeps the number: `parseInt` reads the index back. */
  lemma PadIndexValue(reference: int, index: nat)
    ensures ParseInt(PadIndex(reference, index)) == Num(index)
  {
    var s := IntToString(index);
    var r := PadIndex(reference, index);
    var zeros := |r| - |s|;
    assert r == Repeat('0', zeros) + s;
    ParseIntZeroPadded(zeros, index);
  }

  /** Indexes from 0 up to the reference all get the reference's width, so
      the numbers of a listing line up. */
  lemma PadIndexCommonWidth(reference: nat, index: nat)
    requires index <= reference
    ensures |PadIndex(reference, index)| == |IntToString(reference)|
  {
    NatToStringLengthMonotone(index, reference);
  }

  /** What the listing shows of the page: the entries, and the page number and
      page count it prints.  A page size of 0 means the whole list as one page;
      on an empty store that division is 0 / 0, so both numbers are NaN. */
  datatype Shown = Shown(items: seq<string>, pageNum: JsNum, totalPages: JsNum)

  function ShownPage(files: seq<string>, pageSize: nat, pageNum: int): Shown {
    if pageSize == 0 && files == [] then Shown([], NaN, NaN)
    else
      var page := Paginate(files, if pageSize == 0 then |files| else pageSize, pageNum);
      Shown(page.items, Num(page.pageNum), Num(page.totalPages))
  }

  /** With page size 0 a non-empty store is listed whole, as page 1 of 1, and
      an empty store shows no entries with NaN page numbers. */
  lemma PageSizeZeroListsAll(files: seq<string>, pageNum: int)
    requires files != []
    ensures ShownPage(files, 0, pageNum) == Shown(files, Num(1), Num(1))
    ensures ShownPage([], 0, pageNum) == Shown([], NaN, NaN)
  {
    var n := |files|;
    CeilDivSelf(n);
    assert files[0..n] == files;
  }

  /** `startIndex`: the number printed for the page's first entry, computed
      from the requested page size.  (With NaN page numbers there are no
      entries and the value is never used.) */
  function StartIndex(pageNum: JsNum, pageSize: int): int {
    if pageNum.Num? then (pageNum.value - 1) * pageSize + 1 else 0
  }

  /** One line of the listing. */
  function RowText(index: string, marked: bool, hasLog: bool, size: string, file: string): string {
    index + ". " + SelectIcon(marked) + " " + LogMark(hasLog) + " " + size + " " + file + "\n"
  }

  /** The lines for the first `|infos|` entries of the page `items`. */
  function Rows(filesLength: nat, start: int, sel: int, items: seq<string>, infos: seq<EntryInfo>): string
    requires |infos| <= |items|
  {
    if infos == [] then ""
    else
      var i := |infos| - 1;
      Rows(filesLength, start, sel, items, infos[..i])
        + RowText(PadIndex(filesLength, start + i), Marked(|items|, sel, i), infos[i].hasLog, infos[i].size, items[i])
  }

  /** Appending one entry's line. */
  lemma RowsStep(filesLength: nat, start: int, sel: int, items: seq<string>, infos: seq<EntryInfo>, info: EntryInfo)
    requires |infos| < |items|
    ensures Rows(filesLength, start, sel, items, infos + [info])
      == Rows(filesLength, start, sel, items, infos)
         + RowText(PadIndex(filesLength, start + |infos|), Marked(|items|, sel, |infos|), info.hasLog, info.size, items[|infos|])
  {
    assert (infos + [info])[..|infos|] == infos;
    assert (infos + [info])[|infos|] == info;
  }

  /** Dropping the last entry keeps a prefix of the lines. */
  lemma RowsExtends(filesLength: nat, start: int, sel: int, items: seq<string>, infos: seq<EntryInfo>)
    requires 0 < |infos| <= |items|
    ensures Rows(filesLength, start, sel, items, infos[..|infos| - 1]) <= Rows(filesLength, start, sel, items, infos)
  {
    var i := |infos| - 1;
    var init := infos[..i];
    assert init + [infos[i]] == infos;
    RowsStep(filesLength, start, sel, items, init, infos[i]);
    PrefixExtends(Rows(filesLength, start, sel, items, init), Rows(filesLength, start, sel, items, init),
                  RowText(PadIndex(filesLength, start + i), Marked(|items|, sel, i), infos[i].hasLog, infos[i].size, items[i]));
  }

  /** The lines of the first `k` entries begin the lines of the page. */
  lemma {:induction false} RowsPrefix(filesLength: nat, start: int, sel: int, items: seq<string>, infos: seq<EntryInfo>, k: nat)
    requires k <= |infos| <= |items|
    ensures Rows(filesLength, start, sel, items, infos[..k]) <= Rows(filesLength, start, sel, items, infos)
  {
    if k < |infos| {
      var init := infos[..|infos| - 1];
      assert init[..k] == infos[..k];
      RowsPrefix(filesLength, start, sel, items, init, k);
      RowsExtends(filesLength, start, sel, items, infos);
      PrefixTrans(Rows(filesLength, start, sel, items, infos[..k]), Rows(filesLength, start, sel, items, init),
                  Rows(filesLength, start, sel, items, infos));
    } else {
      assert infos[..k] == infos;
    }
  }

  /** Line `k` of a page follows the lines before it: the number `start + k`
      padded to the width of the file count, the selection mark, the log
      mark, the size and the listing line. */
  lemma RowsLine(filesLength: nat, start: int, sel: int, items: seq<string>, infos: seq<EntryInfo>, k: nat)
    requires k < |infos| <= |items|
    ensures Rows(filesLength, start, sel, items, infos[..k])
      + RowText(PadIndex(filesLength, start + k), Marked(|items|, sel, k), infos[k].hasLog, infos[k].size, items[k])
      <= Rows(filesLength, start, sel, items, infos)
  {
    var pre := infos[..k];
    var upto := infos[..k + 1];
    assert pre + [infos[k]] == upto;
    assert Rows(filesLength, start, sel, items, upto)
      == Rows(filesLength, start, sel, items, pre)
         + RowText(PadIndex(filesLength, start + k), Marked(|items|, sel, k), infos[k].hasLog, infos[k].size, items[k]) by {
      RowsStep(filesLength, start, sel, items, pre, infos[k]);
    }
    RowsPrefix(filesLength, start, sel, items, infos, k + 1);
  }

  /** The directory and name remembered after the first `|infos|` entries of
      a page of `len`. */
  function SelectedSoFar(len: nat, sel: int, infos: seq<EntryInfo>): (string, string) {
    match Selection(len, sel)
    case Some(j) => if j < |infos| then (infos[j].dir, infos[j].fileName) else ("", "")
    case None => ("", "")
  }

  /** The remembered entry changes exactly at the marked position. */
  lemma SelectedSoFarStep(len: nat, sel: int, infos: seq<EntryInfo>, info: EntryInfo)
    requires |infos| < len
    ensures SelectedSoFar(len, sel, infos + [info]) ==
      if Marked(len, sel, |infos|) then (info.dir, info.fileName) else SelectedSoFar(len, sel, infos)
  {
  }

  /** What the loop has accumulated after the first `|infos|` entries. */
  function ScanSoFar(filesLength: nat, start: int, sel: int, items: seq<string>, infos: seq<EntryInfo>): PageScan
    requires |infos| <= |items|
  {
    PageScan(Rows(filesLength, start, sel, items, infos), SumBytes(infos),
             SelectedSoFar(|items|, sel, infos).0, SelectedSoFar(|items|, sel, infos).1)
  }

  /** One pass of the loop body over an entry whose probe is `info`, whose
      line is `line` and whose mark is `marked`: the line is appended, the
      bytes added, and the entry remembered when it is marked. */
  function ScanNext(acc: PageScan, line: string, marked: bool, info: EntryInfo): PageScan {
    PageScan(acc.entries + line, Add(acc.totalSize, info.sizeBytes),
             if marked then info.dir else acc.selectedDir,
             if marked then info.fileName else acc.selectedName)
  }

  /** The accumulators after one more entry are one more pass of the body. */
  lemma ScanSoFarStep(filesLength: nat, start: int, sel: int, items: seq<string>, infos: seq<EntryInfo>, info: EntryInfo)
    requires |infos| < |items|
    ensures ScanSoFar(filesLength, start, sel, items, infos + [info])
      == ScanNext(ScanSoFar(filesLength, start, sel, items, infos),
                  RowText(PadIndex(filesLength, start + |infos|), Marked(|items|, sel, |infos|), info.hasLog, info.size, items[|infos|]),
                  Marked(|items|, sel, |infos|), info)
  {
    var acc := ScanSoFar(filesLength, start, sel, items, infos);
    var next := ScanSoFar(filesLength, start, sel, items, infos + [info]);
    var marked := Marked(|items|, sel, |infos|);
    var line := RowText(PadIndex(filesLength, start + |infos|), marked, info.hasLog, info.size, items[|infos|]);
    assert next.entries == acc.entries + line by {
      RowsStep(filesLength, start, sel, items, infos, info);
    }
    assert next.totalSize == Add(acc.totalSize, info.sizeBytes) by {
      SumBytesStep(infos, info);
    }
    assert next.selectedDir == (if marked then info.dir else acc.selectedDir)
        && next.selectedName == (if marked then info.fileName else acc.selectedName) by {
      SelectedSoFarStep(|items|, sel, infos, info);
    }
  }

  /** The backup directory and name handed to `#printLog`: those of the
      selected entry, or two empty strings when nothing is selected. */
  function SelectedEntry(sel: int, infos: seq<EntryInfo>): (r: (string, string))
    ensures Selection(|infos|, sel).None? ==> r == ("", "")
    ensures Selection(|infos|, sel).Some? ==>
      var j := Selection(|infos|, sel).value;
      r == (infos[j].dir, infos[j].fileName)
  {
    match Selection(|infos|, sel)
    case None => ("", "")
    case Some(j) => (infos[j].dir, infos[j].fileName)
  }

  const LogRule := "-----------------------------------"

  function CatCommand(path: string): string {
    "cat \"" + path + "\""
  }

  /** `#printLog`: the trimmed `log.md` of the backup between two rules, or a
      warning naming the backup when it has none; a failing `cat` throws. */
  function PrintLog(host: Util.Host, backupDir: string, fileName: string): (r: Effect<string>)
    ensures !r.Exit?
    ensures host.pathExists(backupDir + "/log.md") ==>
      var cat := Util.Sh(host, [CatCommand(backupDir + "/log.md")]);
      && (r.Ok? <==> cat.Ok?)
      && (r.Ok? ==> r.value == "\n\U{1F4DC} 백업 로그 내용 (" + fileName + "/log.md):\n"
                               + LogRule + "\n" + Trim(cat.value) + "\n" + LogRule + "\n")
    ensures !host.pathExists(backupDir + "/log.md") ==>
      r == Ok("\n\U{26A0}\U{FE0F}  선택된 디렉토리에 log.md 파일이 없습니다: " + fileName + "\n")
  {
    var logFilePath := backupDir + "/log.md";
    if Util.IsPathExists(host, logFilePath) then
      var logContent :- Util.Sh(host, [CatCommand(logFilePath)]);
      Ok("\n\U{1F4DC} 백업 로그 내용 (" + fileName + "/log.md):\n"
         + LogRule + "\n" + Trim(logContent) + "\n" + LogRule + "\n")
    else
      Ok("\n\U{26A0}\U{FE0F}  선택된 디렉토리에 log.md 파일이 없습니다: " + fileName + "\n")
  }

  /** With no selection the log looked up is `/log.md` at the file-system
      root, and its warning names no backup. */
  lemma NoSelectionLooksAtRootLog(host: Util.Host, sel: int, infos: seq<EntryInfo>)
    requires Selection(|infos|, sel).None?
    ensures
      var (dir, name) := SelectedEntry(sel, infos);
      dir + "/log.md" == "/log.md" && name == ""
  {
  }

  /** The parts of the text `printBackups` returns: the entry lines, the
      store's `du -sh` size, the page's byte total, the page numbers, the file
      count and the log section. */
  datatype Listing = Listing(
    entries: string,
    storeTotal: string,
    pageTotal: Util.HumanSize,
    pageNum: JsNum,
    totalPages: JsNum,
    fileCount: nat,
    log: string)

  /** The text, given how the page total is rendered. */
  function ListingText(l: Listing, pageTotalText: string): string {
    l.entries + "\n"
      + "\U{1F533} total: " + l.storeTotal + "B\n"
      + "\U{1F533} page total: " + pageTotalText + "\n"
      + "\U{1F533} Page " + NumToString(l.pageNum) + " / " + NumToString(l.totalPages)
      + " (Total: " + IntToString(l.fileCount) + " files)\n"
      + l.log
  }

  /** `getFiles` of the manager of `storeDir`: a missing store directory
      ends the process with code 1; otherwise the non-blank lines of the `ls`
      listing. */
  function GetFiles(host: Util.Host, storeDir: string): (r: Effect<seq<string>>)
    ensures r == Exit(1) <==> !host.pathExists(storeDir)
    ensures host.pathExists(storeDir) ==> r == ListedFiles(host, storeDir)
  {
    if !Util.IsPathExists(host, storeDir) then Exit(1)
    else ListedFiles(host, storeDir)
  }

  /** What the loop of `printBackups` accumulates over a page: the entry
      lines, the byte total, and the selected entry's directory and name. */
  datatype PageScan = PageScan(entries: string, totalSize: JsNum, selectedDir: string, selectedName: string)

  /** The loop's result over page `items`, whose entries are first probed in
      order. */
  function Scanned(host: Util.Host, storeDir: string, filesLength: nat, start: int, sel: int, items: seq<string>): Effect<PageScan> {
    var infos :- ProbeAll(host, storeDir, items);
    var (dir, name) := SelectedEntry(sel, infos);
    Ok(PageScan(Rows(filesLength, start, sel, items, infos), SumBytes(infos), dir, name))
  }

  /** What `printBackups(pageSize, pageNum, selectList)` produces for the
      store `storeDir`. */
  function Listed(host: Util.Host, storeDir: string, pageSize: nat, pageNum: int, sel: int): Effect<Listing> {
    var files :- GetFiles(host, storeDir);
    var shown := ShownPage(files, pageSize, pageNum);
    var scan :- Scanned(host, storeDir, |files|, StartIndex(shown.pageNum, pageSize), sel, shown.items);
    var storeTotal :- Util.Sh(host, [DuHuman(storeDir)]);
    var log :- PrintLog(host, scan.selectedDir, scan.selectedName);
    Ok(Listing(scan.entries, Trim(storeTotal), Util.ConvertSize(scan.totalSize),
               shown.pageNum, shown.totalPages, |files|, log))
  }

  class ArchiveManager {
    const storeDir: string

    constructor(storeDirPath: string)
      ensures storeDir == storeDirPath
    {
      storeDir := storeDirPath;
    }

    /** `printBackups`: list the store, cut out the page, run the loop over it,
        then add the store's size and the selected entry's log. */
    method PrintBackups(host: Util.Host, pageSize: nat, pageNum: int, selectList: int) returns (r: Effect<Listing>)
      ensures r == Listed(host, storeDir, pageSize, pageNum, selectList)
    {
      var files :- GetFiles(host, storeDir);
      var shown := ShownPage(files, pageSize, pageNum);
      var startIndex := StartIndex(shown.pageNum, pageSize);
      var scan :- ScanPage(host, |files|, startIndex, selectList, shown.items);
      var storeTotal :- Util.Sh(host, [DuHuman(storeDir)]);
      var log :- PrintLog(host, scan.selectedDir, scan.selectedName);
      r := Ok(Listing(scan.entries, Trim(storeTotal), Util.ConvertSize(scan.totalSize),
                      shown.pageNum, shown.totalPages, |files|, log));
    }

    /** The loop of `printBackups`: one pass over the page, probing each entry,
        appending its line, adding its byte size and remembering the selected
        entry. */
    method ScanPage(host: Util.Host, filesLength: nat, startIndex: int, selectList: int, items: seq<string>)
      returns (r: Effect<PageScan>)
      ensures r == Scanned(host, storeDir, filesLength, startIndex, selectList, items)
    {
      var res := "";
      var totalSize := Num(0);
      var selectedBackupDir := "";
      var selectedFileName := "";
      ghost var infos: seq<EntryInfo> := [];
      var i := 0;
      while i < |items|
        invariant 0 <= i <= |items|
        invariant |infos| == i
        invariant ProbeAll(host, storeDir, items[..i]) == Ok(infos)
        invariant PageScan(res, totalSize, selectedBackupDir, selectedFileName)
          == ScanSoFar(filesLength, startIndex, selectList, items, infos)
      {
        var file := items[i];
        var probe := ProbeLine(host, storeDir, file);
        if !probe.Ok? {
          ScanStops(host, filesLength, startIndex, selectList, items, i, infos);
          return probe.PropagateFailure();
        }
        var info := probe.value;
        var marked := Marked(|items|, selectList, i);
        ScanStep(host, filesLength, startIndex, selectList, items, i, infos, info);
        totalSize := Add(totalSize, info.sizeBytes);
        res := res + RowText(PadIndex(filesLength, startIndex + i), marked, info.hasLog, info.size, file);
        if marked {
          selectedBackupDir := info.dir;
          selectedFileName := info.fileName;
        }
        infos := infos + [info];
        i := i + 1;
      }
      ScanDone(host, filesLength, startIndex, selectList, items, infos);
      r := Ok(PageScan(res, totalSize, selectedBackupDir, selectedFileName));
    }

    /** What one more probed entry, the `i`-th of the page, adds to the loop's
        accumulators. */
    lemma ScanStep(host: Util.Host, filesLength: nat, start: int, sel: int, items: seq<string>,
                   i: nat, infos: seq<EntryInfo>, info: EntryInfo)
      requires i == |infos| < |items|
      requires ProbeAll(host, storeDir, items[..i]) == Ok(infos)
      requires ProbeEntry(host, storeDir, items[i]) == Ok(info)
      ensures ProbeAll(host, storeDir, items[..i + 1]) == Ok(infos + [info])
      ensures ScanSoFar(filesLength, start, sel, items, infos + [info])
        == ScanNext(ScanSoFar(filesLength, start, sel, items, infos),
                    RowText(PadIndex(filesLength, start + i), Marked(|items|, sel, i), info.hasLog, info.size, items[i]),
                    Marked(|items|, sel, i), info)
    {
      ProbeAllStep(host, storeDir, items, i, infos, info);
      ScanSoFarStep(filesLength, start, sel, items, infos, info);
    }

    /** After the last entry the accumulators are the loop's result. */
    lemma ScanDone(host: Util.Host, filesLength: nat, start: int, sel: int, items: seq<string>, infos: seq<EntryInfo>)
      requires |infos| == |items|
      requires ProbeAll(host, storeDir, items[..|items|]) == Ok(infos)
      ensures Scanned(host, storeDir, filesLength, start, sel, items) == Ok(ScanSoFar(filesLength, start, sel, items, infos))
    {
      assert items[..|items|] == items;
    }

    /** A failing probe is the loop's result. */
    lemma ScanStops(host: Util.Host, filesLength: nat, start: int, sel: int, items: seq<string>, i: nat, infos: seq<EntryInfo>)
      requires i < |items|
      requires ProbeAll(host, storeDir, items[..i]) == Ok(infos)
      requires !ProbeEntry(host, storeDir, items[i]).Ok?
      ensures ProbeEntry(host, storeDir, items[i]).Throw?
      ensures Scanned(host, storeDir, filesLength, start, sel, items) == Throw(ProbeEntry(host, storeDir, items[i]).message)
    {
      StopAtFailingEntry(host, storeDir, items, i, infos);
    }
  }

  /** Page 2 of nine entries, five to a page, shows entries 5 to 9 but numbers
      them from 6: the numbering follows the requested page, not the shifted
      start. */
  lemma ShiftedLastPageNumbering(files: seq<string>)
    requires |files| == 9
    ensures ShownPage(files, 5, -1).items == files[4..9]
    ensures ShownPage(files, 5, -1).pageNum == Num(2)
    ensures StartIndex(ShownPage(files, 5, -1).pageNum, 5) == 6
  {
    NineEntriesFiveToAPage(files);
  }

  /** The listing ends the process only when the store directory is missing,
      and then with status 1; every other failure is a thrown error. */
  lemma ListedExit(host: Util.Host, storeDir: string, pageSize: nat, pageNum: int, sel: int)
    ensures Listed(host, storeDir, pageSize, pageNum, sel).Exit? <==> !host.pathExists(storeDir)
    ensures Listed(host, storeDir, pageSize, pageNum, sel).Exit? ==> Listed(host, storeDir, pageSize, pageNum, sel) == Exit(1)
  {
  }
}
