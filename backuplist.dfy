/** src/compo/BackupList.ts: the older listing of the backup store, numbering
    each line by its position on the page. */
module BackupList {
  import opened Outcomes
  import opened Js
  import Util
  import opened Catalog

  const MissingStoreMessage := "\U{26A0}\U{FE0F}  백업 디렉토리가 존재하지 않습니다: "

  /** `getFiles(storeDir)`: a missing store directory throws an error naming
      it; otherwise the non-blank lines of the `ls` listing. */
  function GetFiles(host: Util.Host, storeDir: string): (r: Effect<seq<string>>)
    ensures !r.Exit?
    ensures !host.pathExists(storeDir) ==> r == Throw(MissingStoreMessage + storeDir)
    ensures host.pathExists(storeDir) ==> r == ListedFiles(host, storeDir)
  {
    if !Util.IsPathExists(host, storeDir) then Throw(MissingStoreMessage + storeDir)
    else ListedFiles(host, storeDir)
  }

  /** One line: the selection and log icons, the size, the listing line and
      the 1-based position on the page. */
  function RowText(marked: bool, hasLog: bool, size: string, file: string, position: int): string {
    SelectIcon(marked) + " " + LogMark(hasLog) + " " + size + " " + file + " - " + IntToString(position) + "\n"
  }

  /** The lines for the first `|infos|` entries of the page `items`. */
  function Rows(sel: int, items: seq<string>, infos: seq<EntryInfo>): string
    requires |infos| <= |items|
  {
    if infos == [] then ""
    else
      var i := |infos| - 1;
      Rows(sel, items, infos[..i]) + RowText(Marked(|items|, sel, i), infos[i].hasLog, infos[i].size, items[i], i + 1)
  }

  lemma RowsStep(sel: int, items: seq<string>, infos: seq<EntryInfo>, info: EntryInfo)
    requires |infos| < |items|
    ensures Rows(sel, items, infos + [info])
      == Rows(sel, items, infos)
         + RowText(Marked(|items|, sel, |infos|), info.hasLog, info.size, items[|infos|], |infos| + 1)
  {
    assert (infos + [info])[..|infos|] == infos;
  }

  /** The lines of the first `k` entries begin the lines of the page. */
  lemma {:induction false} RowsPrefix(sel: int, items: seq<string>, infos: seq<EntryInfo>, k: nat)
    requires k <= |infos| <= |items|
    ensures Rows(sel, items, infos[..k]) <= Rows(sel, items, infos)
  {
    if k < |infos| {
      var i := |infos| - 1;
      var init := infos[..i];
      assert init[..k] == infos[..k];
      RowsPrefix(sel, items, init, k);
      PrefixExtends(Rows(sel, items, infos[..k]), Rows(sel, items, init),
                    RowText(Marked(|items|, sel, i), infos[i].hasLog, infos[i].size, items[i], i + 1));
    } else {
      assert infos[..k] == infos;
    }
  }

  /** Line `k` of a page follows the lines before it: the selection mark, the
      log mark, the size, the listing line and the position `k + 1`. */
  lemma RowsLine(sel: int, items: seq<string>, infos: seq<EntryInfo>, k: nat)
    requires k < |infos| <= |items|
    ensures Rows(sel, items, infos[..k])
      + RowText(Marked(|items|, sel, k), infos[k].hasLog, infos[k].size, items[k], k + 1)
      <= Rows(sel, items, infos)
  {
    assert infos[..k] + [infos[k]] == infos[..k + 1];
    RowsStep(sel, items, infos[..k], infos[k]);
    RowsPrefix(sel, items, infos, k + 1);
  }

  /** What one more probed entry adds to the loop's line text, byte total and
      probe results. */
  lemma ScanStep(host: Util.Host, storeDir: string, sel: int, items: seq<string>, infos: seq<EntryInfo>, info: EntryInfo)
    requires |infos| < |items|
    requires ProbeAll(host, storeDir, items[..|infos|]) == Ok(infos)
    requires ProbeEntry(host, storeDir, items[|infos|]) == Ok(info)
    ensures ProbeAll(host, storeDir, items[..|infos| + 1]) == Ok(infos + [info])
    ensures Rows(sel, items, infos + [info])
      == Rows(sel, items, infos)
         + RowText(Marked(|items|, sel, |infos|), info.hasLog, info.size, items[|infos|], |infos| + 1)
    ensures SumBytes(infos + [info]) == Add(SumBytes(infos), info.sizeBytes)
  {
    ProbeAllStep(host, storeDir, items, |infos|, infos, info);
    RowsStep(sel, items, infos, info);
    SumBytesStep(infos, info);
  }

  /** The parts of the text `printBackups` returns. */
  datatype Listing = Listing(
    entries: string,
    storeTotal: string,
    pageTotal: Util.HumanSize,
    pageNum: int,
    totalPages: int,
    fileCount: nat)

  /** The text, given how the page total is rendered. */
  function ListingText(l: Listing, pageTotalText: string): string {
    l.entries + "\n"
      + "\U{1F533} total: " + l.storeTotal + "B\n"
      + "\U{1F533} page total: " + pageTotalText + "\n"
      + "\U{1F533} Page " + IntToString(l.pageNum) + " / " + IntToString(l.totalPages)
      + " (Total: " + IntToString(l.fileCount) + " files)\n"
  }

  /** What `printBackups(pageSize, pageNum, selectList)` produces for the store
      of the repository rooted at `base`. */
  function Listed(host: Util.Host, base: string, pageSize: nat, pageNum: int, sel: int): Effect<Listing>
    requires pageSize >= 1
  {
    var storeDir := Util.StoreDirPath(base);
    var files :- GetFiles(host, storeDir);
    var page := Paginate(files, pageSize, pageNum);
    var infos :- ProbeAll(host, storeDir, page.items);
    var storeTotal :- Util.Sh(host, [DuHuman(storeDir)]);
    Ok(Listing(Rows(sel, page.items, infos), Trim(storeTotal), Util.ConvertSize(SumBytes(infos)),
               page.pageNum, page.totalPages, |files|))
  }

  /** `printBackups`: one pass over the page, probing each entry, appending its
      line and adding its byte size. */
  method PrintBackups(host: Util.Host, base: string, pageSize: nat, pageNum: int, selectList: int)
    returns (r: Effect<Listing>)
    requires pageSize >= 1
    ensures r == Listed(host, base, pageSize, pageNum, selectList)
  {
    var storeDir := Util.StoreDirPath(base);
    var files :- GetFiles(host, storeDir);
    var page := Paginate(files, pageSize, pageNum);
    var items := page.items;
    var res := "";
    var totalSize := Num(0);
    ghost var infos: seq<EntryInfo> := [];
    var i := 0;
    while i < |items|
      invariant 0 <= i <= |items|
      invariant |infos| == i
      invariant ProbeAll(host, storeDir, items[..i]) == Ok(infos)
      invariant res == Rows(selectList, items, infos)
      invariant totalSize == SumBytes(infos)
    {
      var file := items[i];
      var probe := ProbeLine(host, storeDir, file);
      if !probe.Ok? {
        StopAtFailingEntry(host, storeDir, items, i, infos);
        return probe.PropagateFailure();
      }
      var info := probe.value;
      totalSize := Add(totalSize, info.sizeBytes);
      res := res + RowText(Marked(|items|, selectList, i), info.hasLog, info.size, file, i + 1);
      ScanStep(host, storeDir, selectList, items, infos, info);
      infos := infos + [info];
      i := i + 1;
    }
    assert items[..|items|] == items;
    var storeTotal :- Util.Sh(host, [DuHuman(storeDir)]);
    r := Ok(Listing(res, Trim(storeTotal), Util.ConvertSize(totalSize), page.pageNum, page.totalPages, |files|));
  }

  /** The example run at the end of the file: page size 5, the last page, the
      third entry selected; on a store of nine backups it lists entries 5 to 9
      and marks entry 7. */
  lemma LastPageThirdSelected(files: seq<string>)
    requires |files| == 9
    ensures Paginate(files, 5, -1).items == files[4..9]
    ensures Selection(|Paginate(files, 5, -1).items|, 3) == Some(2)
  {
    NineEntriesFiveToAPage(files);
  }
}
