/** src/Tarsync.ts: the backup workflow.  `backup` runs nine steps in order and
    stops at the first that fails: plan the size, check the store's capacity,
    check the tools, create the store and work directories, write the metadata,
    let the user choose a log, write the archive and list the store.  An error
    is reported and rethrown; the capacity and tool checks end the process. */
module Tarsync {
  import opened Outcomes
  import Util
  import DiskFree
  import ArchiveManager
  import Logger

  /** What the workflow takes from outside the model: the results of
      `util.getDiskFree("/")` and `util.getDiskFreeWithPathByte(mount)`, which
      src/util/util.ts does not define; the two readings of the clock by
      `util.getDate()`; whether `Deno.writeTextFile` of the metadata succeeds;
      the reply to the log prompt; and the outcome of `util.createTarFile`,
      which src/util/util.ts does not define either. */
  datatype Env = Env(
    diskInfo: Effect<Util.DiskInfo>,
    rootUsedKb: Effect<int>,
    workDate: Effect<string>,
    metaDate: Effect<string>,
    metaWrite: Effect<()>,
    logReply: Option<string>,
    archived: Effect<()>)

  const BackupDiskPath := "/"

  /** The tools `#validateRequiredTools` demands, in the order it checks them. */
  const RequiredTools: seq<string> := ["pv", "rsync", "tar"]

  function InstallCommand(tool: string): string {
    "sudo apt install " + tool
  }

  /** `ensureCommandExists(tool, ...)` lets the workflow go on: its
      `command -v` query wrote nothing to standard error. */
  predicate CommandCheckPasses(host: Util.Host, tool: string) {
    Util.EnsureCommandExists(host, tool, InstallCommand(tool)).Ok?
  }

  /** The outcome of `#validateRequiredTools`: go on when every tool's check
      passes, otherwise the process ends with status 1. */
  function ToolsOutcome(host: Util.Host): (r: Effect<()>)
    ensures r.Ok? || r == Exit(1)
  {
    if CommandCheckPasses(host, "pv") && CommandCheckPasses(host, "rsync") && CommandCheckPasses(host, "tar") then Ok(())
    else Exit(1)
  }

  /** The tool check passes exactly when the check of every required tool
      does. */
  lemma ToolsOutcomeIff(host: Util.Host)
    ensures ToolsOutcome(host).Ok? <==> forall k :: 0 <= k < |RequiredTools| ==> CommandCheckPasses(host, RequiredTools[k])
  {
    assert RequiredTools[0] == "pv" && RequiredTools[1] == "rsync" && RequiredTools[2] == "tar";
  }

  /** `#checkBackupStoreSize`: the process ends with status 1 exactly when the
      store has less room than the backup needs; equal room is enough. */
  function CheckBackupStoreSize(available: int, backupSize: int): (r: Effect<()>)
    ensures r.Ok? || r == Exit(1)
    ensures r == Exit(1) <==> available < backupSize
  {
    if available < backupSize then Exit(1) else Ok(())
  }

  /** The store-device query of `#checkDiskSize` (`new DiskFree(store).load()`)
      and the check against `size`: a failed query is thrown, otherwise the
      outcome of the check together with the room found. */
  function StoreCapacity(host: Util.Host, storeDir: string, size: int): (r: (Effect<()>, int))
    ensures !Util.Sh(host, [DiskFree.DfCommand(storeDir)]).Ok? ==>
      r.0 == Throw(Util.Sh(host, [DiskFree.DfCommand(storeDir)]).message)
    ensures Util.Sh(host, [DiskFree.DfCommand(storeDir)]).Ok? ==>
      r.1 == DiskFree.ParseDfLine(Util.Sh(host, [DiskFree.DfCommand(storeDir)]).value).available
      && r.0 == CheckBackupStoreSize(r.1, size)
  {
    var df := Util.Sh(host, [DiskFree.DfCommand(storeDir)]);
    if !df.Ok? then (Throw(df.message), 0)
    else
      var available := DiskFree.ParseDfLine(df.value).available;
      (CheckBackupStoreSize(available, size), available)
  }

  /** The size `#calculateDiskUsage` plans for: the root's used KB less the
      deductions of every path of `getExcludeList()`. */
  function PlannedSize(host: Util.Host, diskInfo: Util.DiskInfo, usedKb: int): int {
    usedKb - Util.TotalDeduction(host, diskInfo.device, Util.ExcludeList(Util.SourceConfig))
  }

  /** The record `#getMetaInfo` builds and `#createMetaData` writes. */
  datatype Meta = Meta(size: int, exclude: seq<string>, created: string)

  function GetMetaInfo(size: int, created: string): Meta {
    Meta(size, Util.ExcludeList(Util.SourceConfig), created)
  }

  /** What each completed step of `backup` did. */
  datatype Step =
    | SizePlanned(kb: int)
    | CapacityChecked(available: int)
    | ToolsValidated
    | StoreDirCreated(path: string)
    | WorkDirCreated(path: string)
    | MetaWritten(path: string, meta: Meta)
    | LogChosen(editor: Option<seq<string>>)
    | ArchiveCreated(source: string, archive: string, exclude: string)
    | BackupsListed(listing: ArchiveManager.Listing)
  {
    /** Where the step stands in the workflow, from 0. */
    function Position(): nat {
      match this
      case SizePlanned(_) => 0
      case CapacityChecked(_) => 1
      case ToolsValidated => 2
      case StoreDirCreated(_) => 3
      case WorkDirCreated(_) => 4
      case MetaWritten(_, _) => 5
      case LogChosen(_) => 6
      case ArchiveCreated(_, _, _) => 7
      case BackupsListed(_) => 8
    }
  }

  /** The fields `backup` changes: the two paths and the logger's flag. */
  datatype State = State(workDirPath: string, archivePath: string, logWrite: bool)

  /** How a run of `backup` ends, the steps it completed and the state it
      leaves. */
  datatype Run = Run(outcome: Effect<()>, trace: seq<Step>, state: State)

  /** `backup` on the tool rooted at `base` whose logger was built for
      `logDir`, from state `st`.  The definition follows the steps in four
      parts, each handing the trace so far to the next. */
  function BackupSpec(host: Util.Host, base: string, logDir: string, st: State, env: Env): Run {
    if !env.diskInfo.Ok? then Run(env.diskInfo.PropagateFailure(), [], st)
    else if !env.rootUsedKb.Ok? then Run(env.rootUsedKb.PropagateFailure(), [], st)
    else FromCapacity(host, base, logDir, st, env, PlannedSize(host, env.diskInfo.value, env.rootUsedKb.value),
                      ArchiveManager.Listed(host, Util.StoreDirPath(base), 5, -1, -1))
  }

  /** What the steps after the capacity check find on the machine: the
      outcome of the tool check, of the two `mkdir` calls and of the final
      listing. */
  datatype Probes = Probes(
    tools: Effect<()>,
    storeDir: Effect<string>,
    workDir: Effect<string>,
    listing: Effect<ArchiveManager.Listing>)

  function Probe(host: Util.Host, base: string, workDirPath: string, listing: Effect<ArchiveManager.Listing>): Probes {
    Probes(ToolsOutcome(host), Util.Mkdir(host, Util.StoreDirPath(base)), Util.Mkdir(host, workDirPath), listing)
  }

  /** The steps after the size is planned: `#checkDiskSize`. */
  function FromCapacity(host: Util.Host, base: string, logDir: string, st: State, env: Env, size: int,
                        listing: Effect<ArchiveManager.Listing>): Run {
    var trace := [SizePlanned(size)];
    if !env.workDate.Ok? then Run(env.workDate.PropagateFailure(), trace, st)
    else
      var work := Util.WorkDirPath(base, env.workDate.value);
      var st' := st.(workDirPath := work, archivePath := work + "/tarsync.tar.gz");
      var (gate, available) := StoreCapacity(host, Util.StoreDirPath(base), size);
      if !gate.Ok? then Run(gate, trace, st')
      else FromTools(base, logDir, st', env, size, trace + [CapacityChecked(available)], Probe(host, base, work, listing))
  }

  /** The steps after the capacity check: tools, directories, metadata. */
  function FromTools(base: string, logDir: string, st: State, env: Env, size: int, trace: seq<Step>, probes: Probes): Run {
    if !probes.tools.Ok? then Run(probes.tools, trace, st)
    else
      var t3 := trace + [ToolsValidated];
      if !probes.storeDir.Ok? then Run(probes.storeDir.PropagateFailure(), t3, st)
      else
        var t4 := t3 + [StoreDirCreated(Util.StoreDirPath(base))];
        if !probes.workDir.Ok? then Run(probes.workDir.PropagateFailure(), t4, st)
        else
          var t5 := t4 + [WorkDirCreated(st.workDirPath)];
          if !env.metaDate.Ok? then Run(env.metaDate.PropagateFailure(), t5, st)
          else if !env.metaWrite.Ok? then Run(env.metaWrite.PropagateFailure(), t5, st)
          else FromLog(logDir, st, env,
                       t5 + [MetaWritten(st.workDirPath + "/meta.ts", GetMetaInfo(size, env.metaDate.value))], probes.listing)
  }

  /** The steps after the metadata: the log choice, the archive, the listing. */
  function FromLog(logDir: string, st: State, env: Env, trace: seq<Step>, listing: Effect<ArchiveManager.Listing>): Run {
    var st' := st.(logWrite := Logger.WriteChosen(env.logReply));
    var t7 := trace + [LogChosen(Logger.ChosenEditor(logDir, env.logReply))];
    if !env.archived.Ok? then Run(env.archived.PropagateFailure(), t7, st')
    else
      var t8 := t7 + [ArchiveCreated(BackupDiskPath, st.archivePath, Util.GetExclude(Util.SourceConfig))];
      if !listing.Ok? then Run(listing.PropagateFailure(), t8, st')
      else Run(Ok(()), t8 + [BackupsListed(listing.value)], st')
  }

  class Tarsync {
    const backupDiskPath: string := BackupDiskPath
    const base: string
    const storeDirPath: string := Util.StoreDirPath(base)
    var workDirPath: string
    var archivePath: string
    const logger: Logger.Logger

    /** The disk to back up is "/", the store is `store` under `base`, both
        paths start empty, and the logger is built with the work directory as
        it is at this point: the empty string. */
    constructor(base: string)
      ensures backupDiskPath == BackupDiskPath
      ensures this.base == base && storeDirPath == Util.StoreDirPath(base)
      ensures workDirPath == "" && archivePath == ""
      ensures fresh(logger) && logger.workDirName == "" && logger.isWrite
    {
      var initialWorkDir := "";
      this.base := base;
      workDirPath := initialWorkDir;
      archivePath := "";
      logger := new Logger.Logger(initialWorkDir);
    }

    function Snapshot(): State
      reads this, logger
    {
      State(workDirPath, archivePath, logger.isWrite)
    }

    /** `#validateRequiredTools`: pv, then rsync, then tar; the first tool
        whose check fails ends the process, so the tools after it are never
        queried.
        `queried` lists the tools asked about, in order. */
    method ValidateRequiredTools(host: Util.Host) returns (r: Effect<()>, queried: seq<string>)
      ensures r == ToolsOutcome(host)
      ensures 1 <= |queried| <= 3 && queried == RequiredTools[..|queried|]
      ensures forall k :: 0 <= k < |queried| - 1 ==> CommandCheckPasses(host, queried[k])
      ensures r.Ok? <==> |queried| == 3 && CommandCheckPasses(host, queried[2])
      ensures r.Exit? ==> !CommandCheckPasses(host, queried[|queried| - 1])
    {
      queried := ["pv"];
      assert queried == RequiredTools[..1];
      r := Util.EnsureCommandExists(host, "pv", InstallCommand("pv"));
      if !r.Ok? {
        return;
      }
      queried := queried + ["rsync"];
      assert queried == RequiredTools[..2];
      r := Util.EnsureCommandExists(host, "rsync", InstallCommand("rsync"));
      if !r.Ok? {
        return;
      }
      queried := queried + ["tar"];
      assert queried == RequiredTools[..3];
      r := Util.EnsureCommandExists(host, "tar", InstallCommand("tar"));
    }

    /** `#initializePaths`: the work directory is named after the date, and
        the archive is `tarsync.tar.gz` inside it; a failing clock query is
        thrown before either field changes. */
    method InitializePaths(date: Effect<string>) returns (r: Effect<()>)
      modifies this
      ensures r.Ok? <==> date.Ok?
      ensures !date.Ok? ==>
        (r == date.PropagateFailure() && workDirPath == old(workDirPath) && archivePath == old(archivePath))
      ensures date.Ok? ==>
        (workDirPath == Util.WorkDirPath(base, date.value) && archivePath == workDirPath + "/tarsync.tar.gz")
    {
      if !date.Ok? {
        return date.PropagateFailure();
      }
      workDirPath := Util.WorkDirPath(base, date.value);
      archivePath := workDirPath + "/tarsync.tar.gz";
      r := Ok(());
    }

    /** `#checkDiskSize(targetSize)`: set the paths, load the store device's
        `df` figures, then run the capacity check.  `available` is the room
        found. */
    method CheckDiskSize(host: Util.Host, date: Effect<string>, targetSize: int) returns (r: Effect<()>, available: int)
      modifies this
      ensures !date.Ok? ==>
        (r == date.PropagateFailure() && workDirPath == old(workDirPath) && archivePath == old(archivePath))
      ensures date.Ok? ==>
        (&& workDirPath == Util.WorkDirPath(base, date.value)
         && archivePath == workDirPath + "/tarsync.tar.gz"
         && (r, available) == StoreCapacity(host, storeDirPath, targetSize))
    {
      available := 0;
      r := InitializePaths(date);
      if !r.Ok? {
        return;
      }
      var df := new DiskFree.DiskFree(storeDirPath);
      r := df.Load(host);
      if !r.Ok? {
        return;
      }
      available := df.available;
      r := CheckBackupStoreSize(df.available, targetSize);
    }

    /** `#createMetaData(size)`: the record of the size, the exclusion list and
        the creation date, written to `meta.ts` in the work directory. */
    method CreateMetaData(size: int, created: Effect<string>, written: Effect<()>)
      returns (r: Effect<()>, path: string, meta: Meta)
      ensures path == workDirPath + "/meta.ts"
      ensures !created.Ok? ==> r == created.PropagateFailure()
      ensures created.Ok? ==> meta == GetMetaInfo(size, created.value) && r == written
    {
      path := workDirPath + "/meta.ts";
      meta := GetMetaInfo(size, "");
      if !created.Ok? {
        r := created.PropagateFailure();
        return;
      }
      meta := GetMetaInfo(size, created.value);
      r := written;
    }

    /** `#calculateDiskUsage`: the root's `df` figures, then the planner over
        `getExcludeList()`. */
    method CalculateDiskUsage(host: Util.Host, env: Env) returns (r: Effect<int>)
      ensures !env.diskInfo.Ok? ==> r == env.diskInfo.PropagateFailure()
      ensures env.diskInfo.Ok? && !env.rootUsedKb.Ok? ==> r == env.rootUsedKb.PropagateFailure()
      ensures env.diskInfo.Ok? && env.rootUsedKb.Ok? ==>
        r == Ok(PlannedSize(host, env.diskInfo.value, env.rootUsedKb.value))
    {
      if !env.diskInfo.Ok? {
        return env.diskInfo.PropagateFailure();
      }
      var diskfree := env.diskInfo.value;
      if !env.rootUsedKb.Ok? {
        return env.rootUsedKb.PropagateFailure();
      }
      var rootTotalUsed := env.rootUsedKb.value;
      var excludes := Util.ExcludeList(Util.SourceConfig);
      var finalSize, events := Util.CalculateFinalDiskUsage(host, diskfree, rootTotalUsed, excludes);
      assert finalSize == PlannedSize(host, diskfree, rootTotalUsed);
      r := Ok(finalSize);
    }

    /** `backup`: the nine steps in order, stopping at the first failure,
        whose error is rethrown unchanged. */
    method Backup(host: Util.Host, env: Env) returns (outcome: Effect<()>, trace: seq<Step>)
      modifies this, logger
      ensures Run(outcome, trace, Snapshot()) == BackupSpec(host, base, logger.workDirName, old(Snapshot()), env)
    {
      ghost var st0 := Snapshot();
      var sized := CalculateDiskUsage(host, env);
      if !sized.Ok? {
        return sized.PropagateFailure(), [];
      }
      SpecPlanned(host, base, logger.workDirName, st0, env);
      outcome, trace := BackupFromCapacity(host, env, sized.value);
    }

    /** The part of `backup` after the size is planned: `#checkDiskSize`, then
        the rest. */
    method BackupFromCapacity(host: Util.Host, env: Env, finalSize: int) returns (outcome: Effect<()>, trace: seq<Step>)
      modifies this, logger
      ensures Run(outcome, trace, Snapshot())
        == FromCapacity(host, base, logger.workDirName, old(Snapshot()), env, finalSize,
                        ArchiveManager.Listed(host, storeDirPath, 5, -1, -1))
    {
      ghost var st0 := Snapshot();
      trace := [SizePlanned(finalSize)];
      var available;
      outcome, available := CheckDiskSize(host, env.workDate, finalSize);
      if !outcome.Ok? {
        return;
      }
      trace := trace + [CapacityChecked(available)];
      SpecCapacityChecked(host, base, logger.workDirName, st0, env, finalSize,
                          ArchiveManager.Listed(host, storeDirPath, 5, -1, -1));
      outcome, trace := BackupFromTools(host, env, finalSize, trace);
    }

    /** The part of `backup` after the capacity check: the tools, the store
        and work directories and the metadata, then the rest. */
    method BackupFromTools(host: Util.Host, env: Env, finalSize: int, trace0: seq<Step>)
      returns (outcome: Effect<()>, trace: seq<Step>)
      modifies logger
      ensures Run(outcome, trace, Snapshot())
        == FromTools(base, logger.workDirName, old(Snapshot()), env, finalSize, trace0,
                     Probe(host, base, workDirPath, ArchiveManager.Listed(host, storeDirPath, 5, -1, -1)))
    {
      ghost var probes := Probe(host, base, workDirPath, ArchiveManager.Listed(host, storeDirPath, 5, -1, -1));
      trace := trace0;
      var queried;
      outcome, queried := ValidateRequiredTools(host);
      assert outcome == probes.tools;
      if !outcome.Ok? {
        return;
      }
      trace := trace + [ToolsValidated];

      var store := Util.Mkdir(host, storeDirPath);
      if !store.Ok? {
        return store.PropagateFailure(), trace;
      }
      trace := trace + [StoreDirCreated(storeDirPath)];

      var mk := Util.Mkdir(host, workDirPath);
      if !mk.Ok? {
        return mk.PropagateFailure(), trace;
      }
      trace := trace + [WorkDirCreated(workDirPath)];

      var metaPath, meta;
      outcome, metaPath, meta := CreateMetaData(finalSize, env.metaDate, env.metaWrite);
      if !outcome.Ok? {
        return;
      }
      trace := trace + [MetaWritten(metaPath, meta)];
      SpecMetaWritten(base, logger.workDirName, Snapshot(), env, finalSize, trace0, probes);
      outcome, trace := BackupFromLog(host, env, trace);
    }

    /** The part of `backup` after the metadata: the log choice, the archive
        and the listing of the store. */
    method BackupFromLog(host: Util.Host, env: Env, trace0: seq<Step>) returns (outcome: Effect<()>, trace: seq<Step>)
      modifies logger
      ensures Run(outcome, trace, Snapshot())
        == FromLog(logger.workDirName, old(Snapshot()), env, trace0, ArchiveManager.Listed(host, storeDirPath, 5, -1, -1))
    {
      var editor := logger.ChoiceWrite(env.logReply);
      trace := trace0 + [LogChosen(editor)];

      if !env.archived.Ok? {
        return env.archived.PropagateFailure(), trace;
      }
      trace := trace + [ArchiveCreated(backupDiskPath, archivePath, Util.GetExclude(Util.SourceConfig))];

      var bm := new ArchiveManager.ArchiveManager(storeDirPath);
      var listing := bm.PrintBackups(host, 5, -1, -1);
      if !listing.Ok? {
        return listing.PropagateFailure(), trace;
      }
      trace := trace + [BackupsListed(listing.value)];
      outcome := Ok(());
    }
  }

  /** The first part of the workflow, once the size is planned. */
  lemma SpecPlanned(host: Util.Host, base: string, logDir: string, st: State, env: Env)
    requires env.diskInfo.Ok? && env.rootUsedKb.Ok?
    ensures BackupSpec(host, base, logDir, st, env)
      == FromCapacity(host, base, logDir, st, env, PlannedSize(host, env.diskInfo.value, env.rootUsedKb.value),
                      ArchiveManager.Listed(host, Util.StoreDirPath(base), 5, -1, -1))
  {
  }

  lemma SpecCapacityChecked(host: Util.Host, base: string, logDir: string, st: State, env: Env, size: int,
                            listing: Effect<ArchiveManager.Listing>)
    requires env.workDate.Ok?
    requires StoreCapacity(host, Util.StoreDirPath(base), size).0.Ok?
    ensures
      var work := Util.WorkDirPath(base, env.workDate.value);
      FromCapacity(host, base, logDir, st, env, size, listing)
      == FromTools(base, logDir, st.(workDirPath := work, archivePath := work + "/tarsync.tar.gz"), env, size,
                   [SizePlanned(size)] + [CapacityChecked(StoreCapacity(host, Util.StoreDirPath(base), size).1)],
                   Probe(host, base, work, listing))
  {
  }

  lemma SpecMetaWritten(base: string, logDir: string, st: State, env: Env, size: int, trace: seq<Step>, probes: Probes)
    requires probes.tools.Ok? && probes.storeDir.Ok? && probes.workDir.Ok?
    requires env.metaDate.Ok? && env.metaWrite.Ok?
    ensures FromTools(base, logDir, st, env, size, trace, probes)
      == FromLog(logDir, st, env,
                 trace + [ToolsValidated] + [StoreDirCreated(Util.StoreDirPath(base))] + [WorkDirCreated(st.workDirPath)]
                 + [MetaWritten(st.workDirPath + "/meta.ts", GetMetaInfo(size, env.metaDate.value))], probes.listing)
  {
  }

  // ------------------------------------------------------ properties of a run

  /** The steps of `backup`, each at its own position, at most nine. */
  predicate InOrder(t: seq<Step>) {
    && |t| <= 9
    && (|t| > 0 ==> t[0].SizePlanned?)
    && (|t| > 1 ==> t[1].CapacityChecked?)
    && (|t| > 2 ==> t[2].ToolsValidated?)
    && (|t| > 3 ==> t[3].StoreDirCreated?)
    && (|t| > 4 ==> t[4].WorkDirCreated?)
    && (|t| > 5 ==> t[5].MetaWritten?)
    && (|t| > 6 ==> t[6].LogChosen?)
    && (|t| > 7 ==> t[7].ArchiveCreated?)
    && (|t| > 8 ==> t[8].BackupsListed?)
  }

  /** In an ordered trace the step at index `k` is the `k`-th of the
      workflow. */
  lemma InOrderMeans(t: seq<Step>)
    requires InOrder(t)
    ensures forall k :: 0 <= k < |t| ==> t[k].Position() == k
  {
    forall k | 0 <= k < |t|
      ensures t[k].Position() == k
    {
      if k == 0 {} else if k == 1 {} else if k == 2 {} else if k == 3 {} else if k == 4 {}
      else if k == 5 {} else if k == 6 {} else if k == 7 {} else {}
    }
  }

  /** The four steps from the tool check to the metadata extend an ordered
      trace of the first two. */
  lemma InOrderThroughMeta(trace: seq<Step>, tools: Step, store: Step, work: Step, meta: Step)
    requires InOrder(trace) && |trace| == 2
    requires tools.ToolsValidated? && store.StoreDirCreated? && work.WorkDirCreated? && meta.MetaWritten?
    ensures InOrder(trace + [tools] + [store] + [work] + [meta]) && |trace + [tools] + [store] + [work] + [meta]| == 6
  {
    var t := trace + [tools] + [store] + [work] + [meta];
    assert t[0] == trace[0] && t[1] == trace[1];
    assert t[2] == tools && t[3] == store && t[4] == work && t[5] == meta;
  }

  lemma FromLogInOrder(logDir: string, st: State, env: Env, trace: seq<Step>, listing: Effect<ArchiveManager.Listing>)
    requires InOrder(trace) && |trace| == 6
    ensures var r := FromLog(logDir, st, env, trace, listing);
      InOrder(r.trace) && 7 <= |r.trace| && (r.outcome.Ok? <==> |r.trace| == 9)
  {
  }

  lemma FromToolsInOrder(base: string, logDir: string, st: State, env: Env, size: int, trace: seq<Step>, probes: Probes)
    requires InOrder(trace) && |trace| == 2
    ensures var r := FromTools(base, logDir, st, env, size, trace, probes);
      InOrder(r.trace) && 2 <= |r.trace| && (r.outcome.Ok? <==> |r.trace| == 9)
  {
    if && probes.tools.Ok? && probes.storeDir.Ok? && probes.workDir.Ok?
       && env.metaDate.Ok? && env.metaWrite.Ok?
    {
      var t6 := trace + [ToolsValidated] + [StoreDirCreated(Util.StoreDirPath(base))] + [WorkDirCreated(st.workDirPath)]
                + [MetaWritten(st.workDirPath + "/meta.ts", GetMetaInfo(size, env.metaDate.value))];
      SpecMetaWritten(base, logDir, st, env, size, trace, probes);
      InOrderThroughMeta(trace, ToolsValidated, StoreDirCreated(Util.StoreDirPath(base)), WorkDirCreated(st.workDirPath),
                         MetaWritten(st.workDirPath + "/meta.ts", GetMetaInfo(size, env.metaDate.value)));
      FromLogInOrder(logDir, st, env, t6, probes.listing);
    }
  }

  lemma FromCapacityInOrder(host: Util.Host, base: string, logDir: string, st: State, env: Env, size: int,
                            listing: Effect<ArchiveManager.Listing>)
    ensures var r := FromCapacity(host, base, logDir, st, env, size, listing);
      InOrder(r.trace) && 1 <= |r.trace| && (r.outcome.Ok? <==> |r.trace| == 9)
  {
    if env.workDate.Ok? && StoreCapacity(host, Util.StoreDirPath(base), size).0.Ok? {
      var work := Util.WorkDirPath(base, env.workDate.value);
      var trace := [SizePlanned(size)] + [CapacityChecked(StoreCapacity(host, Util.StoreDirPath(base), size).1)];
      SpecCapacityChecked(host, base, logDir, st, env, size, listing);
      FromToolsInOrder(base, logDir, st.(workDirPath := work, archivePath := work + "/tarsync.tar.gz"), env, size,
                       trace, Probe(host, base, work, listing));
    }
  }

  /** A run of `backup` records its steps in the order of the workflow, at
      most nine of them, and succeeds exactly when all nine completed. */
  lemma StepsInOrder(host: Util.Host, base: string, logDir: string, st: State, env: Env)
    ensures var r := BackupSpec(host, base, logDir, st, env);
      && |r.trace| <= 9
      && (forall k :: 0 <= k < |r.trace| ==> r.trace[k].Position() == k)
      && (r.outcome.Ok? <==> |r.trace| == 9)
  {
    if env.diskInfo.Ok? && env.rootUsedKb.Ok? {
      SpecPlanned(host, base, logDir, st, env);
      FromCapacityInOrder(host, base, logDir, st, env, PlannedSize(host, env.diskInfo.value, env.rootUsedKb.value),
                          ArchiveManager.Listed(host, Util.StoreDirPath(base), 5, -1, -1));
      InOrderMeans(BackupSpec(host, base, logDir, st, env).trace);
    }
  }

  /** What the last three steps record, and the logger's flag they leave. */
  lemma FromLogRecords(logDir: string, st: State, env: Env, trace: seq<Step>, listing: Effect<ArchiveManager.Listing>)
    requires |trace| == 6
    ensures var r := FromLog(logDir, st, env, trace, listing);
      && |r.trace| >= 7 && r.trace[..6] == trace
      && r.trace[6] == LogChosen(Logger.ChosenEditor(logDir, env.logReply))
      && (|r.trace| >= 8 ==> r.trace[7] == ArchiveCreated(BackupDiskPath, st.archivePath, Util.GetExclude(Util.SourceConfig)))
      && (|r.trace| == 9 ==> listing.Ok? && r.trace[8] == BackupsListed(listing.value))
      && r.state == st.(logWrite := Logger.WriteChosen(env.logReply))
  {
    var t7 := trace + [LogChosen(Logger.ChosenEditor(logDir, env.logReply))];
    assert t7[..6] == trace;
    if env.archived.Ok? {
      var t8 := t7 + [ArchiveCreated(BackupDiskPath, st.archivePath, Util.GetExclude(Util.SourceConfig))];
      assert t8[..6] == trace && t8[6] == t7[6];
      if listing.Ok? {
        var t9 := t8 + [BackupsListed(listing.value)];
        assert t9[..6] == trace && t9[6] == t7[6] && t9[7] == t8[7];
      }
    }
  }

  /** What the steps from the tool check to the end record. */
  lemma FromToolsRecords(base: string, logDir: string, st: State, env: Env, size: int, trace: seq<Step>, probes: Probes)
    requires |trace| == 2
    ensures var r := FromTools(base, logDir, st, env, size, trace, probes);
      && |r.trace| >= 2 && r.trace[..2] == trace
      && (|r.trace| >= 3 ==> probes.tools.Ok?)
      && (|r.trace| >= 6 ==>
            env.metaDate.Ok? && r.trace[5] == MetaWritten(st.workDirPath + "/meta.ts", GetMetaInfo(size, env.metaDate.value)))
      && (|r.trace| >= 7 ==> r.trace[6] == LogChosen(Logger.ChosenEditor(logDir, env.logReply)))
      && (|r.trace| >= 8 ==> r.trace[7] == ArchiveCreated(BackupDiskPath, st.archivePath, Util.GetExclude(Util.SourceConfig)))
      && (|r.trace| == 9 ==> probes.listing.Ok? && r.trace[8] == BackupsListed(probes.listing.value))
      && r.state == (if |r.trace| >= 7 then st.(logWrite := Logger.WriteChosen(env.logReply)) else st)
  {
    if && probes.tools.Ok? && probes.storeDir.Ok? && probes.workDir.Ok?
       && env.metaDate.Ok? && env.metaWrite.Ok?
    {
      var meta := MetaWritten(st.workDirPath + "/meta.ts", GetMetaInfo(size, env.metaDate.value));
      var t6 := trace + [ToolsValidated] + [StoreDirCreated(Util.StoreDirPath(base))] + [WorkDirCreated(st.workDirPath)]
                + [meta];
      SpecMetaWritten(base, logDir, st, env, size, trace, probes);
      FromLogRecords(logDir, st, env, t6, probes.listing);
      var r := FromLog(logDir, st, env, t6, probes.listing);
      assert r.trace[..2] == r.trace[..6][..2] == t6[..2] == trace;
      assert r.trace[5] == r.trace[..6][5] == t6[5] == meta;
    }
  }

  /** What the steps from the capacity check to the end record. */
  lemma FromCapacityRecords(host: Util.Host, base: string, logDir: string, st: State, env: Env, size: int,
                            listing: Effect<ArchiveManager.Listing>)
    ensures var r := FromCapacity(host, base, logDir, st, env, size, listing);
      var work := if env.workDate.Ok? then Util.WorkDirPath(base, env.workDate.value) else st.workDirPath;
      var capacity := StoreCapacity(host, Util.StoreDirPath(base), size);
      && |r.trace| >= 1 && r.trace[0] == SizePlanned(size)
      && (|r.trace| >= 2 ==> env.workDate.Ok? && capacity.0.Ok? && r.trace[1] == CapacityChecked(capacity.1))
      && (|r.trace| >= 3 ==> ToolsOutcome(host).Ok?)
      && (|r.trace| >= 6 ==> env.metaDate.Ok? && r.trace[5] == MetaWritten(work + "/meta.ts", GetMetaInfo(size, env.metaDate.value)))
      && (|r.trace| >= 7 ==> r.trace[6] == LogChosen(Logger.ChosenEditor(logDir, env.logReply)))
      && (|r.trace| >= 8 ==> r.trace[7] == ArchiveCreated(BackupDiskPath, work + "/tarsync.tar.gz", Util.GetExclude(Util.SourceConfig)))
      && (|r.trace| == 9 ==> listing.Ok? && r.trace[8] == BackupsListed(listing.value))
  {
    var capacity := StoreCapacity(host, Util.StoreDirPath(base), size);
    if env.workDate.Ok? && capacity.0.Ok? {
      var work := Util.WorkDirPath(base, env.workDate.value);
      var st' := st.(workDirPath := work, archivePath := work + "/tarsync.tar.gz");
      var trace := [SizePlanned(size)] + [CapacityChecked(capacity.1)];
      var probes := Probe(host, base, work, listing);
      assert probes.tools == ToolsOutcome(host) && probes.listing == listing;
      SpecCapacityChecked(host, base, logDir, st, env, size, listing);
      FromToolsRecords(base, logDir, st', env, size, trace, probes);
      var r := FromTools(base, logDir, st', env, size, trace, probes);
      assert r.trace[0] == r.trace[..2][0] == trace[0];
      assert r.trace[1] == r.trace[..2][1] == trace[1];
    } else {
      assert FromCapacity(host, base, logDir, st, env, size, listing).trace == [SizePlanned(size)];
    }
  }

  /** The state the steps from the capacity check leave: the paths are set
      once the date is known, the logger's flag once the log is chosen. */
  lemma FromCapacityState(host: Util.Host, base: string, logDir: string, st: State, env: Env, size: int,
                          listing: Effect<ArchiveManager.Listing>)
    ensures var r := FromCapacity(host, base, logDir, st, env, size, listing);
      var work := if env.workDate.Ok? then Util.WorkDirPath(base, env.workDate.value) else st.workDirPath;
      && r.state.workDirPath == work
      && r.state.archivePath == (if env.workDate.Ok? then work + "/tarsync.tar.gz" else st.archivePath)
      && r.state.logWrite == (if |r.trace| >= 7 then Logger.WriteChosen(env.logReply) else st.logWrite)
  {
    var capacity := StoreCapacity(host, Util.StoreDirPath(base), size);
    if env.workDate.Ok? && capacity.0.Ok? {
      var work := Util.WorkDirPath(base, env.workDate.value);
      var st' := st.(workDirPath := work, archivePath := work + "/tarsync.tar.gz");
      var trace := [SizePlanned(size)] + [CapacityChecked(capacity.1)];
      SpecCapacityChecked(host, base, logDir, st, env, size, listing);
      FromToolsRecords(base, logDir, st', env, size, trace, Probe(host, base, work, listing));
    }
  }

  /** What a run of `backup` records: the planned size, the metadata written
      to `meta.ts` of the work directory named after the date, the log choice,
      the archive `tarsync.tar.gz` of that directory written from "/" with the
      configured exclusions, and the listing of the store. */
  lemma RunRecords(host: Util.Host, base: string, logDir: string, st: State, env: Env)
    requires env.diskInfo.Ok? && env.rootUsedKb.Ok?
    ensures var r := BackupSpec(host, base, logDir, st, env);
      var size := PlannedSize(host, env.diskInfo.value, env.rootUsedKb.value);
      var listing := ArchiveManager.Listed(host, Util.StoreDirPath(base), 5, -1, -1);
      && |r.trace| >= 1 && r.trace[0] == SizePlanned(size)
      && (|r.trace| >= 6 ==>
            && env.workDate.Ok? && env.metaDate.Ok?
            && r.trace[5] == MetaWritten(Util.WorkDirPath(base, env.workDate.value) + "/meta.ts",
                                         Meta(size, Util.ExcludeList(Util.SourceConfig), env.metaDate.value)))
      && (|r.trace| >= 7 ==> r.trace[6] == LogChosen(Logger.ChosenEditor(logDir, env.logReply)))
      && (|r.trace| >= 8 ==>
            env.workDate.Ok? && r.trace[7] == ArchiveCreated("/", Util.TarFile(base, env.workDate.value), Util.GetExclude(Util.SourceConfig)))
      && (|r.trace| == 9 ==> listing.Ok? && r.trace[8] == BackupsListed(listing.value))
  {
    var size := PlannedSize(host, env.diskInfo.value, env.rootUsedKb.value);
    var listing := ArchiveManager.Listed(host, Util.StoreDirPath(base), 5, -1, -1);
    SpecPlanned(host, base, logDir, st, env);
    FromCapacityRecords(host, base, logDir, st, env, size, listing);
    if env.workDate.Ok? {
      Util.TarFileInWorkDir(base, env.workDate.value);
    }
  }

  /** The fields a run leaves: the work directory and the archive are set as
      soon as the size is planned and the date is read, even when the capacity
      check then fails; the logger's flag changes only once the log is
      chosen. */
  lemma RunState(host: Util.Host, base: string, logDir: string, st: State, env: Env)
    ensures var r := BackupSpec(host, base, logDir, st, env);
      var dated := env.diskInfo.Ok? && env.rootUsedKb.Ok? && env.workDate.Ok?;
      && r.state.workDirPath == (if dated then Util.WorkDirPath(base, env.workDate.value) else st.workDirPath)
      && r.state.archivePath == (if dated then Util.TarFile(base, env.workDate.value) else st.archivePath)
      && r.state.logWrite == (if |r.trace| >= 7 then Logger.WriteChosen(env.logReply) else st.logWrite)
  {
    if env.diskInfo.Ok? && env.rootUsedKb.Ok? {
      SpecPlanned(host, base, logDir, st, env);
      FromCapacityState(host, base, logDir, st, env, PlannedSize(host, env.diskInfo.value, env.rootUsedKb.value),
                        ArchiveManager.Listed(host, Util.StoreDirPath(base), 5, -1, -1));
      if env.workDate.Ok? {
        Util.TarFileInWorkDir(base, env.workDate.value);
      }
    }
  }

  /** A capacity check that lets the run go on found at least the room
      asked for. */
  lemma CapacityPassed(host: Util.Host, storeDir: string, size: int)
    requires StoreCapacity(host, storeDir, size).0.Ok?
    ensures StoreCapacity(host, storeDir, size).1 >= size
  {
  }

  /** Nothing after the capacity check runs unless the store has at least
      the planned room. */
  lemma CapacityGuardsTheWork(host: Util.Host, base: string, logDir: string, st: State, env: Env)
    ensures var r := BackupSpec(host, base, logDir, st, env);
      |r.trace| >= 2 ==>
        && env.diskInfo.Ok? && env.rootUsedKb.Ok? && env.workDate.Ok?
        && var size := PlannedSize(host, env.diskInfo.value, env.rootUsedKb.value);
           var capacity := StoreCapacity(host, Util.StoreDirPath(base), size);
           r.trace[1] == CapacityChecked(capacity.1) && capacity.1 >= size
  {
    if env.diskInfo.Ok? && env.rootUsedKb.Ok? {
      var size := PlannedSize(host, env.diskInfo.value, env.rootUsedKb.value);
      SpecPlanned(host, base, logDir, st, env);
      FromCapacityRecords(host, base, logDir, st, env, size, ArchiveManager.Listed(host, Util.StoreDirPath(base), 5, -1, -1));
      if StoreCapacity(host, Util.StoreDirPath(base), size).0.Ok? {
        CapacityPassed(host, Util.StoreDirPath(base), size);
      }
    }
  }

  /** Nothing after the tool check runs unless every required tool's check
      passes. */
  lemma ToolsGuardTheWork(host: Util.Host, base: string, logDir: string, st: State, env: Env)
    ensures var r := BackupSpec(host, base, logDir, st, env);
      |r.trace| >= 3 ==> forall k :: 0 <= k < |RequiredTools| ==> CommandCheckPasses(host, RequiredTools[k])
  {
    if env.diskInfo.Ok? && env.rootUsedKb.Ok? {
      SpecPlanned(host, base, logDir, st, env);
      FromCapacityRecords(host, base, logDir, st, env, PlannedSize(host, env.diskInfo.value, env.rootUsedKb.value),
                          ArchiveManager.Listed(host, Util.StoreDirPath(base), 5, -1, -1));
      ToolsOutcomeIff(host);
    }
  }

  /** When the store has less room than planned the process ends with status
      1 right after the size is planned: the tools are never checked. */
  lemma CapacityShortExits(host: Util.Host, base: string, logDir: string, st: State, env: Env)
    requires env.diskInfo.Ok? && env.rootUsedKb.Ok? && env.workDate.Ok?
    requires Util.Sh(host, [DiskFree.DfCommand(Util.StoreDirPath(base))]).Ok?
    requires var size := PlannedSize(host, env.diskInfo.value, env.rootUsedKb.value);
      StoreCapacity(host, Util.StoreDirPath(base), size).1 < size
    ensures var r := BackupSpec(host, base, logDir, st, env);
      r.outcome == Exit(1) && r.trace == [SizePlanned(PlannedSize(host, env.diskInfo.value, env.rootUsedKb.value))]
  {
    SpecPlanned(host, base, logDir, st, env);
  }

  /** Once the capacity check passes, a tool whose check fails ends the
      process with status 1 before any directory is created. */
  lemma ToolCheckFailureExits(host: Util.Host, base: string, logDir: string, st: State, env: Env, k: nat)
    requires env.diskInfo.Ok? && env.rootUsedKb.Ok? && env.workDate.Ok?
    requires StoreCapacity(host, Util.StoreDirPath(base), PlannedSize(host, env.diskInfo.value, env.rootUsedKb.value)).0.Ok?
    requires k < |RequiredTools| && !CommandCheckPasses(host, RequiredTools[k])
    ensures var r := BackupSpec(host, base, logDir, st, env);
      r.outcome == Exit(1) && |r.trace| == 2
  {
    var size := PlannedSize(host, env.diskInfo.value, env.rootUsedKb.value);
    var listing := ArchiveManager.Listed(host, Util.StoreDirPath(base), 5, -1, -1);
    SpecPlanned(host, base, logDir, st, env);
    SpecCapacityChecked(host, base, logDir, st, env, size, listing);
    ToolsOutcomeIff(host);
    assert ToolsOutcome(host) == Exit(1);
  }

  /** The outside results only ever return or throw; none ends the process. */
  predicate ThrowsOnly(env: Env) {
    && !env.diskInfo.Exit? && !env.rootUsedKb.Exit? && !env.workDate.Exit?
    && !env.metaDate.Exit? && !env.metaWrite.Exit? && !env.archived.Exit?
  }

  lemma FromLogExit(logDir: string, st: State, env: Env, trace: seq<Step>, listing: Effect<ArchiveManager.Listing>)
    requires ThrowsOnly(env) && |trace| == 6
    ensures var r := FromLog(logDir, st, env, trace, listing);
      r.outcome.Exit? ==> |r.trace| == 8 && listing.Exit? && r.outcome.code == listing.code
  {
  }

  lemma FromToolsExit(base: string, logDir: string, st: State, env: Env, size: int, trace: seq<Step>, probes: Probes)
    requires ThrowsOnly(env) && |trace| == 2
    requires probes.tools.Ok? || probes.tools == Exit(1)
    requires !probes.storeDir.Exit? && !probes.workDir.Exit?
    ensures var r := FromTools(base, logDir, st, env, size, trace, probes);
      r.outcome.Exit? ==>
        || (|r.trace| == 2 && r.outcome == Exit(1))
        || (|r.trace| == 8 && probes.listing.Exit? && r.outcome.code == probes.listing.code)
  {
    if && probes.tools.Ok? && probes.storeDir.Ok? && probes.workDir.Ok?
       && env.metaDate.Ok? && env.metaWrite.Ok?
    {
      var t6 := trace + [ToolsValidated] + [StoreDirCreated(Util.StoreDirPath(base))] + [WorkDirCreated(st.workDirPath)]
                + [MetaWritten(st.workDirPath + "/meta.ts", GetMetaInfo(size, env.metaDate.value))];
      SpecMetaWritten(base, logDir, st, env, size, trace, probes);
      FromLogExit(logDir, st, env, t6, probes.listing);
    }
  }

  lemma FromCapacityExit(host: Util.Host, base: string, logDir: string, st: State, env: Env, size: int,
                         listing: Effect<ArchiveManager.Listing>)
    requires ThrowsOnly(env)
    ensures var r := FromCapacity(host, base, logDir, st, env, size, listing);
      r.outcome.Exit? ==>
        || ((|r.trace| == 1 || |r.trace| == 2) && r.outcome == Exit(1))
        || (|r.trace| == 8 && listing.Exit? && r.outcome.code == listing.code)
  {
    var capacity := StoreCapacity(host, Util.StoreDirPath(base), size);
    if env.workDate.Ok? && capacity.0.Ok? {
      var work := Util.WorkDirPath(base, env.workDate.value);
      var st' := st.(workDirPath := work, archivePath := work + "/tarsync.tar.gz");
      var trace := [SizePlanned(size)] + [CapacityChecked(capacity.1)];
      var probes := Probe(host, base, work, listing);
      assert probes.tools == ToolsOutcome(host) && probes.listing == listing;
      SpecCapacityChecked(host, base, logDir, st, env, size, listing);
      FromToolsExit(base, logDir, st', env, size, trace, probes);
    }
  }

  /** When none of the outside results ends the process, `backup` ends it
      only at its three checks, always with status 1: after the size is
      planned (too little room), after the capacity check (a failing tool
      check), or at the listing, when the host reports the store directory
      missing.  The host does not see the run's own `mkdir -p`, so the third
      case stands for a store that vanished after it was created. */
  lemma ExitOnlyAtChecks(host: Util.Host, base: string, logDir: string, st: State, env: Env)
    requires ThrowsOnly(env)
    ensures var r := BackupSpec(host, base, logDir, st, env);
      r.outcome.Exit? ==>
        && r.outcome == Exit(1)
        && (|r.trace| == 1 || |r.trace| == 2 || |r.trace| == 8)
        && (|r.trace| == 8 ==> !host.pathExists(Util.StoreDirPath(base)))
  {
    if env.diskInfo.Ok? && env.rootUsedKb.Ok? {
      var listing := ArchiveManager.Listed(host, Util.StoreDirPath(base), 5, -1, -1);
      SpecPlanned(host, base, logDir, st, env);
      FromCapacityExit(host, base, logDir, st, env, PlannedSize(host, env.diskInfo.value, env.rootUsedKb.value), listing);
      ArchiveManager.ListedExit(host, Util.StoreDirPath(base), 5, -1, -1);
    }
  }

  /** When the store directory is already there at the final listing, the
      process ends only at the capacity check or at the tool check. */
  lemma ExitOnlyAtTwoChecksWithStore(host: Util.Host, base: string, logDir: string, st: State, env: Env)
    requires ThrowsOnly(env)
    requires host.pathExists(Util.StoreDirPath(base))
    ensures var r := BackupSpec(host, base, logDir, st, env);
      r.outcome.Exit? ==> r.outcome == Exit(1) && (|r.trace| == 1 || |r.trace| == 2)
  {
    ExitOnlyAtChecks(host, base, logDir, st, env);
  }
}
