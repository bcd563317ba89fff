/** src/util/util.ts: the shell helper `$$`, the configuration-derived exclusion
    list, the store and work-directory paths, size formatting, the `df`/`du`
    queries and the capacity planner `calculateFinalDiskUsage`. */
module Util {
  import opened Outcomes
  import opened Js

  /** What a finished process wrote to its two output streams. */
  datatype Output = Output(stdout: string, stderr: string)

  /** The machine as the tool observes it: what each command line (program and
      arguments) prints, and which paths `Deno.stat` and `existsSync` find. */
  datatype Host = Host(run: seq<string> -> Output, pathExists: string -> bool)

  /** The rule of `$$`: the trimmed standard output when the process wrote
      nothing to standard error; otherwise the standard error text is thrown. */
  function Capture(o: Output): (r: Effect<string>)
    ensures r.Ok? <==> o.stderr == ""
    ensures r.Ok? ==> r.value == Trim(o.stdout) && Trimmed(r.value)
    ensures !r.Ok? ==> r == Throw(o.stderr)
  {
    if o.stderr == "" then Ok(Trim(o.stdout)) else Throw(o.stderr)
  }

  /** `util.$$(...args)`: the arguments joined by single spaces and handed to
      `/bin/sh -c`. */
  function Sh(host: Host, args: seq<string>): (r: Effect<string>)
    ensures !r.Exit?
  {
    Capture(host.run(["/bin/sh", "-c", Join(args, " ")]))
  }

  // ------------------------------------------------------ configuration

  /** config.ts: the disk to back up, the backup target and the two exclusion
      lists (the custom one may be absent). */
  datatype Config = Config(
    backupDisk: string,
    backupPath: string,
    excludeDefault: seq<string>,
    excludeCustom: Option<seq<string>>)

  /** The values config.ts ships with. */
  const SourceConfig := Config(
    "/",
    "/mnt/backup",
    ["/swap.img", "/proc", "/sys", "/dev", "/run", "/tmp", "/media", "/var/run",
     "/var/tmp", "/lost+found", "/var/lib/docker", "/var/lib/containerd",
     "/var/run/docker.sock"],
    Some(["/home/user/temp", "/opt/logs"]))

  function CustomOrEmpty(cfg: Config): seq<string> {
    match cfg.excludeCustom
    case Some(c) => c
    case None => []
  }

  /** `getExcludeList`: the backup target first, then the default exclusions,
      then the custom ones (none when the custom list is absent), in order. */
  function ExcludeList(cfg: Config): (r: seq<string>)
    ensures |r| == 1 + |cfg.excludeDefault| + |CustomOrEmpty(cfg)|
    ensures r[0] == cfg.backupPath
    ensures r[1..1 + |cfg.excludeDefault|] == cfg.excludeDefault
    ensures r[1 + |cfg.excludeDefault|..] == CustomOrEmpty(cfg)
  {
    [cfg.backupPath] + cfg.excludeDefault + CustomOrEmpty(cfg)
  }

  function ExcludeFlag(path: string): string {
    "--exclude=" + path
  }

  /** The exclusions rendered as `--exclude=<path>` flags joined by single
      spaces (`getExclude` applies it to `getExcludeList()`). */
  function ExcludeFlags(paths: seq<string>): string {
    Join(seq(|paths|, k requires 0 <= k < |paths| => ExcludeFlag(paths[k])), " ")
  }

  function GetExclude(cfg: Config): string {
    ExcludeFlags(ExcludeList(cfg))
  }

  /** When no path contains a space, the flag string splits back into one
      `--exclude=` flag per path, in order. */
  lemma ExcludeFlagsSplit(paths: seq<string>)
    requires |paths| >= 1
    requires forall k :: 0 <= k < |paths| ==> ' ' !in paths[k]
    ensures |SplitOn(ExcludeFlags(paths), ' ')| == |paths|
    ensures forall k :: 0 <= k < |paths| ==>
      SplitOn(ExcludeFlags(paths), ' ')[k] == "--exclude=" + paths[k]
  {
    var flags := seq(|paths|, k requires 0 <= k < |paths| => ExcludeFlag(paths[k]));
    forall k | 0 <= k < |flags| ensures ' ' !in flags[k] {
      assert flags[k] == "--exclude=" + paths[k];
    }
    SplitOnJoin(flags, ' ');
  }

  // ----------------------------------------------------------- paths

  /** `getStoreDirPath`: `store` under the repository root `base`. */
  function StoreDirPath(base: string): string {
    base + "store"
  }

  /** `getWorkDirPath`: the directory named after `date` inside the store. */
  function WorkDirPath(base: string, date: string): (r: string)
    ensures |r| == |StoreDirPath(base)| + 1 + |date|
    ensures r[..|StoreDirPath(base)| + 1] == StoreDirPath(base) + "/"
    ensures r[|StoreDirPath(base)| + 1..] == date
  {
    StoreDirPath(base) + "/" + date
  }

  /** `getTarFile`: the archive inside the work directory named `workDir`. */
  function TarFile(base: string, workDir: string): string {
    StoreDirPath(base) + "/" + workDir + "/tarsync.tar.gz"
  }

  /** Two work directories coincide exactly when their date strings do: the
      naming has no other source of uniqueness. */
  lemma WorkDirPathInjective(base: string, d1: string, d2: string)
    ensures WorkDirPath(base, d1) == WorkDirPath(base, d2) <==> d1 == d2
  {
    if WorkDirPath(base, d1) == WorkDirPath(base, d2) {
      var n := |StoreDirPath(base)| + 1;
      assert d1 == WorkDirPath(base, d1)[n..];
    }
  }

  /** The archive of a work directory is `tarsync.tar.gz` inside it. */
  lemma TarFileInWorkDir(base: string, date: string)
    ensures TarFile(base, date) == WorkDirPath(base, date) + "/tarsync.tar.gz"
  {
  }

  // ------------------------------------------------------ convertSize

  /** A human-readable size: the exact `"<n> Bytes"` text, or an amount in KB,
      MB or GB (rounded to two decimals by `toFixed(2)` in the source). */
  datatype HumanSize = Exact(text: string) | Scaled(amount: real, unit: string)

  const KiB: int := 1024
  const MiB: int := 1024 * 1024
  const GiB: int := 1024 * 1024 * 1024

  function UnitScale(unit: string): int {
    if unit == "GB" then GiB else if unit == "MB" then MiB else KiB
  }

  /** `convertSize`: below 1 KiB (and for NaN) the number itself followed by
      " Bytes"; otherwise the largest of KB, MB, GB whose size it reaches, so the
      amount is at least 1 and, below GB, less than 1024 of that unit. */
  function ConvertSize(size: JsNum): (r: HumanSize)
    ensures r.Exact? <==> size.NaN? || size.value < KiB
    ensures r.Exact? ==> r.text == NumToString(size) + " Bytes"
    ensures r.Scaled? ==>
      && (r.unit == "KB" || r.unit == "MB" || r.unit == "GB")
      && r.amount * (UnitScale(r.unit) as real) == size.value as real
      && 1.0 <= r.amount
      && (r.unit != "GB" ==> r.amount < 1024.0)
  {
    match size
    case NaN => Exact("NaN Bytes")
    case Num(n) =>
      if n >= GiB then Scaled(n as real / GiB as real, "GB")
      else if n >= MiB then Scaled(n as real / MiB as real, "MB")
      else if n >= KiB then Scaled(n as real / KiB as real, "KB")
      else Exact(IntToString(n) + " Bytes")
  }

  /** The tier boundaries are inclusive lower bounds. */
  lemma ConvertSizeBoundaries()
    ensures ConvertSize(Num(1023)) == Exact("1023 Bytes")
    ensures ConvertSize(Num(1024)) == Scaled(1.0, "KB")
    ensures ConvertSize(Num(MiB - 1)).unit == "KB"
    ensures ConvertSize(Num(MiB)) == Scaled(1.0, "MB")
    ensures ConvertSize(Num(GiB - 1)).unit == "MB"
    ensures ConvertSize(Num(GiB)) == Scaled(1.0, "GB")
  {
    assert IntToString(1023) == "1023";
  }

  // ------------------------------------------------------- df queries

  /** A device (partition) and the place it is mounted; the mount is
      `undefined` when the `df` line has a single field. */
  datatype DiskInfo = DiskInfo(device: string, mount: Option<string>)

  /** The `.then` of `getDiskinfo`: split the `df --output=source,target` line
      on white space; the first field is the device, the second the mount. */
  function ParseDiskInfo(line: string): DiskInfo {
    var fields := SplitWs(line);
    DiskInfo(fields[0], if |fields| > 1 then Some(fields[1]) else None)
  }

  /** Parsing a line made of the device, the mount and any further fields
      gives back that device and mount; a line with one field has no mount. */
  lemma ParseDiskInfoOfFields(fields: seq<string>)
    requires |fields| >= 1
    requires forall k :: 0 <= k < |fields| ==> fields[k] != [] && SpaceFree(fields[k])
    ensures ParseDiskInfo(Join(fields, " ")).device == fields[0]
    ensures ParseDiskInfo(Join(fields, " ")).mount ==
      if |fields| > 1 then Some(fields[1]) else None
  {
    SplitWsJoin(fields);
  }

  /** `getDiskinfo(path)`: the `df` query for `path`; a failed query is
      rethrown. */
  function GetDiskinfo(host: Host, path: string): (r: Effect<DiskInfo>)
    ensures !r.Exit?
  {
    var line :- Sh(host, ["df --output=source,target \"" + path + "\" | tail -n 1"]);
    Ok(ParseDiskInfo(line))
  }

  /** `isPathExists`: `Deno.stat` succeeds; its failure is turned into "no". */
  function IsPathExists(host: Host, path: string): bool {
    host.pathExists(path)
  }

  /** `getPathDevice`: the device `df` reports for `path`. */
  function GetPathDevice(host: Host, path: string): (r: Effect<string>)
    ensures !r.Exit?
  {
    var out :- Sh(host, ["df --output=source \"" + path + "\" 2>/dev/null | tail -n 1"]);
    Ok(Trim(out))
  }

  /** `getDiskUsageWithPathKb`: `du -sk --one-file-system` of `path`, read by
      `parseInt` (NaN when the output has no number). */
  function GetDiskUsageWithPathKb(host: Host, path: string): (r: Effect<JsNum>)
    ensures !r.Exit?
  {
    var out :- Sh(host, ["du -sk --one-file-system \"" + path + "\" 2>/dev/null | awk '{print $1}'"]);
    Ok(ParseInt(out))
  }

  /** `mkdir(path)`: `mkdir -p <path>` through the shell. */
  function Mkdir(host: Host, path: string): (r: Effect<string>)
    ensures !r.Exit?
  {
    Sh(host, ["mkdir", "-p", path])
  }

  /** `ensureCommandExists`: the process exits with status 1 exactly when the
      `command -v` query throws, i.e. writes to standard error. */
  function EnsureCommandExists(host: Host, command: string, installCommand: string): (r: Effect<()>)
    ensures r.Ok? || r == Exit(1)
    ensures r == Exit(1) <==> host.run(["/bin/sh", "-c", "command -v " + command]).stderr != ""
  {
    match Sh(host, ["command -v " + command])
    case Ok(_) => Ok(())
    case _ => Exit(1)
  }

  /** `checkInstalledProgram` of src/util/util.ts: exit 1 when `which` prints
      nothing; a failed query propagates. */
  function CheckInstalledProgram(host: Host, name: string): (r: Effect<()>)
    ensures r == Exit(1) <==> Sh(host, ["which", name]) == Ok("")
    ensures r.Ok? <==> Sh(host, ["which", name]).Ok? && Sh(host, ["which", name]).value != ""
  {
    var out :- Sh(host, ["which", name]);
    if out == "" then Exit(1) else Ok(())
  }

  // ------------------------------------------------ capacity planner

  /** What `calculateFinalDiskUsage` reports for each exclusion path, and at
      the end.  `Excluded` carries the KB it subtracted. */
  datatype PlanEvent =
    | Missing(path: string)
    | OtherDevice(path: string)
    | Excluded(path: string, kb: int)
    | NoSpace(path: string)
    | Failed(path: string)
    | NegativeTotal
    | Totals(mount: Option<string>, used: HumanSize, final: HumanSize)

  /** How the planner classifies one exclusion path: absent, on another device,
      a failed query, occupying no space (size not positive or not a number),
      or excluded with its `du` size. */
  function PathEvent(host: Host, device: string, path: string): PlanEvent {
    if !IsPathExists(host, path) then Missing(path)
    else
      var dev := GetPathDevice(host, path);
      if !dev.Ok? then Failed(path)
      else if dev.value != device then OtherDevice(path)
      else
        var size := GetDiskUsageWithPathKb(host, path);
        if !size.Ok? then Failed(path)
        else if size.value.Num? && size.value.value > 0 then Excluded(path, size.value.value)
        else NoSpace(path)
  }

  /** The KB one exclusion path takes off the projected usage. */
  function Deduction(host: Host, device: string, path: string): (kb: nat) {
    match PathEvent(host, device, path)
    case Excluded(_, kb) => kb
    case _ => 0
  }

  /** A path deducts something exactly when it exists, `df` places it on the
      device being backed up and `du` reports a positive size, and then it
      deducts that size. */
  lemma DeductionMeaning(host: Host, device: string, path: string)
    ensures Deduction(host, device, path) > 0 <==>
      && host.pathExists(path)
      && GetPathDevice(host, path) == Ok(device)
      && GetDiskUsageWithPathKb(host, path).Ok?
      && GetDiskUsageWithPathKb(host, path).value.Num?
      && GetDiskUsageWithPathKb(host, path).value.value > 0
    ensures Deduction(host, device, path) > 0 ==>
      Deduction(host, device, path) == GetDiskUsageWithPathKb(host, path).value.value
  {
  }

  /** The sum of the deductions of `paths`. */
  function TotalDeduction(host: Host, device: string, paths: seq<string>): nat {
    if paths == [] then 0
    else TotalDeduction(host, device, paths[..|paths| - 1]) + Deduction(host, device, paths[|paths| - 1])
  }

  lemma {:induction false} TotalDeductionAppend(host: Host, device: string, a: seq<string>, b: seq<string>)
    ensures TotalDeduction(host, device, a + b) ==
      TotalDeduction(host, device, a) + TotalDeduction(host, device, b)
    decreases |b|
  {
    if b == [] {
      assert a + b == a;
    } else {
      var b' := b[..|b| - 1];
      assert (a + b)[..|a + b| - 1] == a + b';
      assert (a + b)[|a + b| - 1] == b[|b| - 1];
      TotalDeductionAppend(host, device, a, b');
    }
  }

  /** Removing an exclusion that deducts nothing (absent, on another device,
      empty, unparsable or failing) never changes the projected usage. */
  lemma SkippedPathIrrelevant(host: Host, device: string, xs: seq<string>, p: string, ys: seq<string>)
    requires Deduction(host, device, p) == 0
    ensures TotalDeduction(host, device, xs + [p] + ys) == TotalDeduction(host, device, xs + ys)
  {
    var front := TotalDeduction(host, device, xs + [p]);
    assert front == TotalDeduction(host, device, xs) by {
      TotalDeductionAppend(host, device, xs, [p]);
      TotalDeductionSingle(host, device, p);
    }
    TotalDeductionAppend(host, device, xs + [p], ys);
    TotalDeductionAppend(host, device, xs, ys);
  }

  lemma TotalDeductionSingle(host: Host, device: string, p: string)
    ensures TotalDeduction(host, device, [p]) == Deduction(host, device, p)
  {
    assert [p][..0] == [];
  }

  /** In particular an exclusion that `df` places on another device. */
  lemma CrossDevicePathIrrelevant(host: Host, device: string, xs: seq<string>, p: string, ys: seq<string>)
    requires GetPathDevice(host, p).Ok? && GetPathDevice(host, p).value != device
    ensures TotalDeduction(host, device, xs + [p] + ys) == TotalDeduction(host, device, xs + ys)
  {
    SkippedPathIrrelevant(host, device, xs, p, ys);
  }

  lemma TotalDeductionStep(host: Host, device: string, paths: seq<string>, i: nat)
    requires i < |paths|
    ensures TotalDeduction(host, device, paths[..i + 1]) ==
      TotalDeduction(host, device, paths[..i]) + Deduction(host, device, paths[i])
  {
    assert paths[..i + 1][..i] == paths[..i];
  }

  /** The events reported for `paths`, in order. */
  function PlanEvents(host: Host, device: string, paths: seq<string>): (r: seq<PlanEvent>)
    ensures |r| == |paths|
  {
    if paths == [] then []
    else PlanEvents(host, device, paths[..|paths| - 1]) + [PathEvent(host, device, paths[|paths| - 1])]
  }

  /** Each path's event sits at the path's own position. */
  lemma {:induction false} PlanEventsAt(host: Host, device: string, paths: seq<string>)
    ensures forall k :: 0 <= k < |paths| ==> PlanEvents(host, device, paths)[k] == PathEvent(host, device, paths[k])
  {
    if paths != [] {
      var init := paths[..|paths| - 1];
      PlanEventsAt(host, device, init);
      forall k | 0 <= k < |paths|
        ensures PlanEvents(host, device, paths)[k] == PathEvent(host, device, paths[k])
      {
        if k < |init| {
          assert paths[k] == init[k];
        }
      }
    }
  }

  lemma PlanEventsStep(host: Host, device: string, paths: seq<string>, i: nat)
    requires i < |paths|
    ensures PlanEvents(host, device, paths[..i + 1]) ==
      PlanEvents(host, device, paths[..i]) + [PathEvent(host, device, paths[i])]
  {
    assert paths[..i + 1][..i] == paths[..i];
  }

  /** One pass of the planner's loop for the exclusion `path`: the event it
      reports and the KB it subtracts. */
  method ClassifyExclusion(host: Host, device: string, path: string) returns (event: PlanEvent, kb: nat)
    ensures event == PathEvent(host, device, path)
    ensures kb == Deduction(host, device, path)
    ensures kb > 0 <==> event.Excluded?
  {
    kb := 0;
    if !IsPathExists(host, path) {
      event := Missing(path);
      return;
    }
    var dev := GetPathDevice(host, path);
    if !dev.Ok? {
      event := Failed(path);
      return;
    }
    if dev.value != device {
      event := OtherDevice(path);
      return;
    }
    var size := GetDiskUsageWithPathKb(host, path);
    if !size.Ok? {
      event := Failed(path);
    } else if size.value.Num? && size.value.value > 0 {
      kb := size.value.value;
      event := Excluded(path, kb);
    } else {
      event := NoSpace(path);
    }
  }

  /** `calculateFinalDiskUsage(diskinfo, totalUsedKb)` over the exclusion list
      `excludes`: starting from `totalUsedKb`, every exclusion that exists, sits
      on `diskinfo.device` and has a positive `du` size is subtracted; every
      other one, including one whose query throws, is reported and skipped.
      A negative result is reported and returned as it is. */
  method CalculateFinalDiskUsage(host: Host, diskinfo: DiskInfo, totalUsedKb: int, excludes: seq<string>)
    returns (res: int, events: seq<PlanEvent>)
    ensures res == totalUsedKb - TotalDeduction(host, diskinfo.device, excludes)
    ensures res <= totalUsedKb
    ensures |events| == |excludes| + 1
    ensures forall k :: 0 <= k < |excludes| ==> events[k] == PathEvent(host, diskinfo.device, excludes[k])
    ensures events[|excludes|] ==
      if res < 0 then NegativeTotal
      else Totals(diskinfo.mount, ConvertSize(Num(totalUsedKb * 1024)), ConvertSize(Num(res * 1024)))
  {
    var device := diskinfo.device;
    res := totalUsedKb;
    events := [];
    var i := 0;
    while i < |excludes|
      invariant 0 <= i <= |excludes|
      invariant res == totalUsedKb - TotalDeduction(host, device, excludes[..i])
      invariant events == PlanEvents(host, device, excludes[..i])
    {
      var path := excludes[i];
      TotalDeductionStep(host, device, excludes, i);
      PlanEventsStep(host, device, excludes, i);
      // the body of the `try`: each `continue` and the `catch` end the step
      var event, kb := ClassifyExclusion(host, device, path);
      res := res - kb;
      events := events + [event];
      i := i + 1;
    }
    assert excludes[..i] == excludes;
    PlanEventsAt(host, device, excludes);
    if res < 0 {
      events := events + [NegativeTotal];
    } else {
      events := events + [Totals(diskinfo.mount, ConvertSize(Num(totalUsedKb * 1024)), ConvertSize(Num(res * 1024)))];
    }
  }
}
