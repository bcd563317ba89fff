/** src/util/DiskFree.ts: a `df -k` report for one path, loaded in place. */
module DiskFree {
  import opened Outcomes
  import opened Js
  import Util

  /** The five values `load` takes from a `df` line. */
  datatype DfFields = DfFields(device: string, mount: string, total: int, used: int, available: int)

  /** A text field of the destructured line: `field || ""`. */
  function TextField(fields: seq<string>, k: nat): string {
    if k < |fields| then fields[k] else ""
  }

  /** A numeric field: `parseInt(field, 10) || 0`, where a missing field is
      `parseInt(undefined)`, i.e. NaN. */
  function NumberField(fields: seq<string>, k: nat): int {
    if k < |fields| then OrZero(ParseInt(fields[k])) else 0
  }

  /** The parsing in `load`: the line is trimmed and split on white space into
      device, file-system type (ignored), size, used, available and mount. */
  function ParseDfLine(line: string): DfFields {
    var f := SplitWs(Trim(line));
    DfFields(TextField(f, 0), TextField(f, 5), NumberField(f, 2), NumberField(f, 3), NumberField(f, 4))
  }

  /** A line made of the six columns gives back device, mount and the three
      numbers, whatever the file-system type. */
  lemma ParseDfLineOfColumns(device: string, fstype: string, total: int, used: int, avail: int, mount: string)
    requires device != [] && SpaceFree(device)
    requires fstype != [] && SpaceFree(fstype)
    requires mount != [] && SpaceFree(mount)
    ensures ParseDfLine(Join([device, fstype, IntToString(total), IntToString(used), IntToString(avail), mount], " "))
      == DfFields(device, mount, total, used, avail)
  {
    var cols := [device, fstype, IntToString(total), IntToString(used), IntToString(avail), mount];
    var line := Join(cols, " ");
    JoinStartsWithFirst(cols, " ");
    JoinEndsWithLast(cols, " ");
    TrimTrimmed(line);
    SplitWsJoin(cols);
    ParseIntOfIntToString(total);
    ParseIntOfIntToString(used);
    ParseIntOfIntToString(avail);
  }

  lemma {:induction false} JoinEndsWithLast(parts: seq<string>, sep: string)
    requires |parts| >= 1
    ensures |Join(parts, sep)| >= |parts[|parts| - 1]|
    ensures Join(parts, sep)[|Join(parts, sep)| - |parts[|parts| - 1]|..] == parts[|parts| - 1]
  {
    if |parts| > 1 {
      JoinEndsWithLast(parts[1..], sep);
    }
  }

  /** A blank line leaves every field at its empty value. */
  lemma ParseDfLineBlank(line: string)
    requires AllSpace(line)
    ensures ParseDfLine(line) == DfFields("", "", 0, 0, 0)
  {
  }

  /** The command `load` runs for `path`. */
  function DfCommand(path: string): string {
    "df -k --output=source,fstype,size,used,avail,target \"" + path + "\" | tail -n 1"
  }

  const DeviceLabel := "디스크 장치: "
  const MountLabel := "마운트 지점: "
  const TotalLabel := "총 용량: "
  const UsedLabel := "사용 중: "
  const AvailableLabel := "사용 가능: "
  const UsageLabel := "사용률: "

  class DiskFree {
    const path: string
    var device: string
    var mount: string
    var total: int
    var used: int
    var available: int

    /** Before `load` every field holds its empty value. */
    constructor(path: string)
      ensures this.path == path
      ensures device == "" && mount == "" && total == 0 && used == 0 && available == 0
    {
      this.path := path;
      device, mount := "", "";
      total, used, available := 0, 0, 0;
    }

    function Fields(): DfFields
      reads this
    {
      DfFields(device, mount, total, used, available)
    }

    /** `load`: run the `df` query; on success every field is replaced by the
        parsed line, and a failed query is rethrown before any field is
        assigned. */
    method Load(host: Util.Host) returns (r: Effect<()>)
      modifies this
      ensures r.Ok? <==> Util.Sh(host, [DfCommand(path)]).Ok?
      ensures r.Ok? ==> Fields() == ParseDfLine(Util.Sh(host, [DfCommand(path)]).value)
      ensures !r.Ok? ==> r == Throw(Util.Sh(host, [DfCommand(path)]).message) && Fields() == old(Fields())
    {
      var result := Util.Sh(host, [DfCommand(path)]);
      if !result.Ok? {
        return Throw(result.message);
      }
      var f := ParseDfLine(result.value);
      device := f.device;
      mount := f.mount;
      total := f.total;
      used := f.used;
      available := f.available;
      r := Ok(());
    }

    /** `getUsagePercentage`: 0 when the total is 0, otherwise the used share
        in whole percent, rounded down (computed here on exact rationals). */
    function UsagePercentage(): (r: int)
      reads this
      ensures total == 0 ==> r == 0
      ensures total != 0 ==>
        r as real <= (used as real / total as real) * 100.0 < r as real + 1.0
      ensures 0 <= used <= total ==> 0 <= r <= 100
    {
      if total == 0 then 0
      else
        var share := (used as real / total as real) * 100.0;
        assert 0 <= used <= total ==> 0.0 <= share <= 100.0 by {
          if 0 <= used <= total {
            assert used as real / total as real <= 1.0;
          }
        }
        share.Floor
    }

    /** `toString`: six lines naming the device, the mount point, the three
        sizes with a KB suffix and the usage percentage. */
    function ToString(): (r: string)
      reads this
      ensures '\n' !in device && '\n' !in mount ==>
        SplitOn(r, '\n') == [
          DeviceLabel + device,
          MountLabel + mount,
          TotalLabel + IntToString(total) + "KB",
          UsedLabel + IntToString(used) + "KB",
          AvailableLabel + IntToString(available) + "KB",
          UsageLabel + IntToString(UsagePercentage()) + "%"]
    {
      var lines := [
        DeviceLabel + device,
        MountLabel + mount,
        TotalLabel + IntToString(total) + "KB",
        UsedLabel + IntToString(used) + "KB",
        AvailableLabel + IntToString(available) + "KB",
        UsageLabel + IntToString(UsagePercentage()) + "%"];
      assert '\n' !in device && '\n' !in mount ==> SplitOn(Join(lines, "\n"), '\n') == lines by {
        if '\n' !in device && '\n' !in mount {
          IntToStringNoNewline(total);
          IntToStringNoNewline(used);
          IntToStringNoNewline(available);
          IntToStringNoNewline(UsagePercentage());
          SplitOnJoin(lines, '\n');
        }
      }
      Join(lines, "\n")
    }
  }

  /** Digits and a minus sign hold no line break. */
  lemma IntToStringNoNewline(i: int)
    ensures '\n' !in IntToString(i)
  {
  }
}
