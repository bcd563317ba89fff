/** src/util.ts: the older helper object that Logger imports.  Its `$$` runs the
    program directly instead of through `/bin/sh`; its path builders are the
    ones of src/util/util.ts and are modelled there (Util.StoreDirPath,
    Util.WorkDirPath, Util.TarFile). */
module RootUtil {
  import opened Outcomes
  import opened Js
  import Util

  /** `$$(cmd, ...args)`: `cmd` spawned with `args`, the same stderr rule. */
  function Run(host: Util.Host, cmd: string, args: seq<string>): (r: Effect<string>)
    ensures !r.Exit?
  {
    Util.Capture(host.run([cmd] + args))
  }

  /** The sixteen paths `getExcludeDirs` lists, in its order. */
  const ExcludeDirList: seq<string> := [
    "/proc", "/swap.img", "/sys", "/cdrom", "/dev", "/run", "/tmp", "/mnt",
    "/media", "/var/run", "/var/tmp", "/lost+found", "/var/lib/docker",
    "/var/lib/containerd", "/var/run/docker.sock", "/swapfile"]

  /** `getExcludeDirs`: one `--exclude=<path>` flag per listed path, in order,
      joined by single spaces. */
  function GetExcludeDirs(): (r: string)
    ensures |SplitOn(r, ' ')| == 16
    ensures forall k :: 0 <= k < 16 ==> SplitOn(r, ' ')[k] == "--exclude=" + ExcludeDirList[k]
  {
    assert forall k :: 0 <= k < |ExcludeDirList| ==> ' ' !in ExcludeDirList[k];
    Util.ExcludeFlagsSplit(ExcludeDirList);
    Util.ExcludeFlags(ExcludeDirList)
  }

  /** `mkdir(path)`: `mkdir -p path` spawned directly. */
  function Mkdir(host: Util.Host, path: string): (r: Effect<string>)
    ensures !r.Exit?
  {
    Run(host, "mkdir", ["-p", path])
  }

  /** `checkInstalledProgram(name)`: exit 1 exactly when `which name` prints
      nothing; a `which` that writes to standard error throws that text. */
  function CheckInstalledProgram(host: Util.Host, name: string): (r: Effect<()>)
    ensures r == Exit(1) <==> host.run(["which", name]).stderr == "" && Trim(host.run(["which", name]).stdout) == ""
    ensures r.Throw? <==> host.run(["which", name]).stderr != ""
    ensures r.Throw? ==> r.message == host.run(["which", name]).stderr
  {
    assert ["which"] + [name] == ["which", name];
    var out :- Run(host, "which", [name]);
    if out == "" then Exit(1) else Ok(())
  }
}
