/** The `Mounts` class of src/disks/disks.py: the kernel mount table, read
    line by line and grouped by base device name (the device path with
    "/dev/" cut off and trailing partition digits stripped). */
module MountTable {
  import opened Wrappers
  import opened Strings

  /** One mount of a device: where, which file system, which options. */
  datatype MountRecord = MountRecord(mount: string, fs: string, options: seq<string>)

  /** The exception `_parse_mounts` raises on line number `line` (0-based). */
  datatype MountError =
    | WrongFieldCount(line: nat, fields: nat)  // unpacking `split(" ")` into six names fails
    | NoDevDirectory(line: nat)                // `split("/dev/")[1]` is out of range

  type Table = map<string, seq<MountRecord>>

  const DevPrefix := "/dev"
  const DevDirectory := "/dev/"

  function Lookup(t: Table, key: string): seq<MountRecord> {
    if key in t then t[key] else []
  }

  /** A string has a second piece when split on `sep` exactly when it contains `sep`. */
  lemma SplitHasSecondPiece(s: string, sep: string)
    requires |sep| > 0
    ensures |Split(s, sep)| >= 2 <==> Contains(s, sep)
  {
    match Find(s, sep)
    case None =>
      assert Split(s, sep) == [s];
    case Some(i) =>
      assert |Split(s, sep)| == 1 + |Split(s[i + |sep|..], sep)|;
  }

  /** `device.split("/dev/")[1].rstrip("1234567890")`, or None where the
      indexing raises. */
  function DeviceKey(device: string): (r: Option<string>)
    ensures r.None? <==> !Contains(device, DevDirectory)
    ensures r.Some? ==> !EndsInDigit(r.value)
  {
    SplitHasSecondPiece(device, DevDirectory);
    var pieces := Split(device, DevDirectory);
    if |pieces| < 2 then None else Some(StripDigits(pieces[1]))
  }

  /** For an ordinary device path the key is the name after "/dev/" with its
      partition number stripped. */
  lemma DeviceKeyOfDevPath(name: string)
    requires !Contains(name, DevDirectory)
    ensures DeviceKey(DevDirectory + name) == Some(StripDigits(name))
  {
    var s := DevDirectory + name;
    assert OccursAt(s, DevDirectory, 0);
    assert Find(s, DevDirectory) == Some(0);
    assert s[|DevDirectory|..] == name;
    SplitHasSecondPiece(name, DevDirectory);
    assert Split(name, DevDirectory) == [name];
    assert Split(s, DevDirectory) == [s[..0]] + [name];
  }

  /** Only trailing digits are stripped: the first partition of an NVMe
      namespace is keyed "nvme0n1p", not by the drive's entry name "nvme0n1". */
  lemma NvmePartitionKey(name: string)
    requires name == "nvme0n1p1"
    ensures DeviceKey(DevDirectory + name) == Some("nvme0n1p")
  {
    assert !Contains(name, DevDirectory) by {
      forall i: nat | i <= |name| ensures !OccursAt(name, DevDirectory, i) {
        if i + |DevDirectory| <= |name| {
          assert name[i..i + |DevDirectory|][0] == name[i] != '/';
        }
      }
    }
    DeviceKeyOfDevPath(name);
    StripDigitsUnique(name, "nvme0n1p");
  }

  /** What one line contributes to the table: nothing, one keyed record, or
      the error `_parse_mounts` raises. */
  function ParseLine(line: string, index: nat): (r: Result<Option<(string, MountRecord)>, MountError>)
    ensures !StartsWith(line, DevPrefix) ==> r == Success(None)
    ensures StartsWith(line, DevPrefix) ==> r != Success(None)
    ensures StartsWith(line, DevPrefix) && |Split(line, " ")| != 6 ==>
              r == Failure(WrongFieldCount(index, |Split(line, " ")|))
    ensures StartsWith(line, DevPrefix) && |Split(line, " ")| == 6 && DeviceKey(Split(line, " ")[0]).None? ==>
              r == Failure(NoDevDirectory(index))
    ensures r.Failure? ==> r.error.line == index
    ensures r.Success? && r.value.Some? ==> !EndsInDigit(r.value.value.0)
  {
    if line == "" || !StartsWith(line, DevPrefix) then Success(None)
    else
      var fields := Split(line, " ");
      if |fields| != 6 then Failure(WrongFieldCount(index, |fields|))
      else
        match DeviceKey(fields[0])
        case None => Failure(NoDevDirectory(index))
        case Some(key) => Success(Some((key, MountRecord(fields[1], fields[2], Split(fields[3], ",")))))
  }

  function SixFields(a: string, b: string, c: string, d: string, e: string, f: string): seq<string> {
    [a, b, c, d, e, f]
  }

  /** A well-formed mount line is keyed by its device's base name and keeps
      its mount point, file system and the comma-separated options. */
  lemma ParseWellFormedLine(name: string, mount: string, fs: string, options: seq<string>,
                            dump: string, pass: string, index: nat)
    requires !Contains(name, DevDirectory)
    requires ' ' !in name && ' ' !in mount && ' ' !in fs && ' ' !in dump && ' ' !in pass
    requires |options| >= 1
    requires forall k :: 0 <= k < |options| ==> ' ' !in options[k] && ',' !in options[k]
    ensures ParseLine(Join(SixFields(DevDirectory + name, mount, fs, Join(options, ","), dump, pass), " "), index)
         == Success(Some((StripDigits(name), MountRecord(mount, fs, options))))
  {
    var opts := Join(options, ",");
    JoinHasNoChar(options, ",", ' ');
    var fields := SixFields(DevDirectory + name, mount, fs, opts, dump, pass);
    assert ' ' !in DevDirectory + name;
    SplitJoin(fields, ' ');
    SplitJoin(options, ',');
    DeviceKeyOfDevPath(name);
    var line := Join(fields, " ");
    JoinStartsWithFirst(fields, " ");
    StartsWithPrefix(line, fields[0], DevPrefix);
    ParseLineOfFields(line, fields, index);
  }

  /** ParseLine on a "/dev" line that splits into six fields. */
  lemma ParseLineOfFields(line: string, fields: seq<string>, index: nat)
    requires StartsWith(line, DevPrefix) && Split(line, " ") == fields && |fields| == 6
    requires DeviceKey(fields[0]).Some?
    ensures ParseLine(line, index)
         == Success(Some((DeviceKey(fields[0]).value, MountRecord(fields[1], fields[2], Split(fields[3], ",")))))
  {
  }

  /** A joined string starts with its first part. */
  lemma JoinStartsWithFirst(parts: seq<string>, sep: string)
    requires |parts| >= 1
    ensures StartsWith(Join(parts, sep), parts[0])
  {
    if |parts| > 1 {
      var rest := sep + Join(parts[1..], sep);
      assert Join(parts, sep) == parts[0] + rest;
    }
  }

  lemma StartsWithPrefix(s: string, p: string, q: string)
    requires StartsWith(s, p) && StartsWith(p, q)
    ensures StartsWith(s, q)
  {
    assert s[..|q|] == p[..|q|];
  }

  /** Joining parts that lack a character with a separator that lacks it
      gives a string that lacks it. */
  lemma {:induction false} JoinHasNoChar(parts: seq<string>, sep: string, c: char)
    requires c !in sep
    requires forall k :: 0 <= k < |parts| ==> c !in parts[k]
    ensures c !in Join(parts, sep)
  {
    if |parts| > 1 {
      JoinHasNoChar(parts[1..], sep, c);
    }
  }

  /** The line the kernel's mount table shows for a mounted first partition
      is filed under the whole disk "sdb". */
  lemma ParseExampleLine(line: string)
    requires line == "/dev/sdb1 /mnt ext4 rw,relatime 0 0"
    ensures ParseLine(line, 0) == Success(Some(("sdb", MountRecord("/mnt", "ext4", ["rw", "relatime"]))))
  {
    ParseExampleLineParts(line, "sdb1", "/mnt", "ext4", ["rw", "relatime"], "0");
  }

  /** ParseExampleLine with the fields of the line named, so that the proof
      goes through ParseWellFormedLine instead of evaluating the literal. */
  lemma ParseExampleLineParts(line: string, name: string, mount: string, fs: string,
                              options: seq<string>, zero: string)
    requires line == "/dev/sdb1 /mnt ext4 rw,relatime 0 0"
    requires name == "sdb1" && mount == "/mnt" && fs == "ext4" && zero == "0"
    requires options == ["rw", "relatime"]
    ensures ParseLine(line, 0) == Success(Some(("sdb", MountRecord("/mnt", "ext4", ["rw", "relatime"]))))
  {
    ExampleLineFields(line, name, mount, fs, options, zero);
    assert StripDigits(name) == "sdb" by {
      StripDigitsUnique(name, "sdb");
    }
    assert !Contains(name, DevDirectory) by {
      forall i: nat | i <= |name| ensures !OccursAt(name, DevDirectory, i) { }
    }
    ParseWellFormedLine(name, mount, fs, options, zero, zero, 0);
  }

  /** The example line is the six fields joined by single spaces. */
  lemma ExampleLineFields(line: string, name: string, mount: string, fs: string,
                          options: seq<string>, zero: string)
    requires line == "/dev/sdb1 /mnt ext4 rw,relatime 0 0"
    requires name == "sdb1" && mount == "/mnt" && fs == "ext4" && zero == "0"
    requires options == ["rw", "relatime"]
    ensures Join(SixFields(DevDirectory + name, mount, fs, Join(options, ","), zero, zero), " ") == line
  {
    JoinCons(options[0], [options[1]], ",");
    assert options == [options[0]] + [options[1]];
    JoinSixFields(DevDirectory + name, mount, fs, Join(options, ","), zero, zero);
  }

  lemma JoinSixFields(a: string, b: string, c: string, d: string, e: string, f: string)
    ensures Join(SixFields(a, b, c, d, e, f), " ") == a + " " + b + " " + c + " " + d + " " + e + " " + f
  {
    var ef, def, cdef, bcdef := [e, f], [d, e, f], [c, d, e, f], [b, c, d, e, f];
    JoinCons(e, [f], " ");
    assert [e] + [f] == ef;
    JoinCons(d, ef, " ");
    assert [d] + ef == def;
    JoinCons(c, def, " ");
    assert [c] + def == cdef;
    JoinCons(b, cdef, " ");
    assert [b] + cdef == bcdef;
    JoinCons(a, bcdef, " ");
    assert [a] + bcdef == SixFields(a, b, c, d, e, f);
  }

  /** One step of `_parse_mounts`: the table after one more line. */
  function Apply(t: Table, line: string, index: nat): (r: Result<Table, MountError>)
    ensures r.Failure? <==> ParseLine(line, index).Failure?
    ensures ParseLine(line, index) == Success(None) ==> r == Success(t)
    ensures ParseLine(line, index).Success? && ParseLine(line, index).value.Some? ==>
              var (key, rec) := ParseLine(line, index).value.value;
              && r.Success?
              && r.value.Keys == t.Keys + {key}
              && r.value[key] == Lookup(t, key) + [rec]
              && forall k :: k in t && k != key ==> r.value[k] == t[k]
  {
    match ParseLine(line, index)
    case Failure(e) => Failure(e)
    case Success(None) => Success(t)
    case Success(Some((key, rec))) => Success(t[key := Lookup(t, key) + [rec]])
  }

  /** The table after `_parse_mounts(lines)` starting from `t`: lines are
      taken in file order and the first bad line stops the parse. */
  function Parsed(t: Table, lines: seq<string>): Result<Table, MountError>
    decreases |lines|
  {
    if lines == [] then Success(t)
    else
      match Parsed(t, lines[..|lines| - 1])
      case Failure(e) => Failure(e)
      case Success(t') => Apply(t', lines[|lines| - 1], |lines| - 1)
  }

  /** Once a prefix fails, every longer prefix fails with the same error. */
  lemma {:induction false} ParsedFailureSticks(t: Table, lines: seq<string>, n: nat, m: nat)
    requires n <= m <= |lines|
    requires Parsed(t, lines[..n]).Failure?
    ensures Parsed(t, lines[..m]) == Parsed(t, lines[..n])
    decreases m
  {
    if m > n {
      ParsedFailureSticks(t, lines, n, m - 1);
      assert lines[..m][..m - 1] == lines[..m - 1];
    }
  }

  /** The parse of one more line continues from the table so far. */
  lemma ParsedStep(t: Table, lines: seq<string>, i: nat, acc: Table)
    requires i < |lines| && Parsed(t, lines[..i]) == Success(acc)
    ensures Parsed(t, lines[..i + 1]) == Apply(acc, lines[i], i)
  {
    assert lines[..i + 1][..i] == lines[..i];
  }

  /** A line that fails fails the whole parse. */
  lemma ParsedStops(t: Table, lines: seq<string>, i: nat, e: MountError)
    requires i < |lines| && Parsed(t, lines[..i + 1]) == Failure(e)
    ensures Parsed(t, lines) == Failure(e)
  {
    ParsedFailureSticks(t, lines, i + 1, |lines|);
    assert lines[..|lines|] == lines;
  }

  /** A line that is empty or does not start with "/dev" leaves the table
      exactly as it was. */
  lemma NonDeviceLineIgnored(t: Table, lines: seq<string>, line: string)
    requires !StartsWith(line, DevPrefix)
    ensures Parsed(t, lines + [line]) == Parsed(t, lines)
  {
    assert (lines + [line])[..|lines|] == lines;
  }

  /** The records the lines file under `key`, in line order. */
  function RecordsFor(lines: seq<string>, key: string): seq<MountRecord>
    decreases |lines|
  {
    if lines == [] then []
    else
      RecordsFor(lines[..|lines| - 1], key) +
      match ParseLine(lines[|lines| - 1], |lines| - 1)
      case Success(Some((k, rec))) => if k == key then [rec] else []
      case _ => []
  }

  /** After a successful parse every key holds its old records followed by
      the records of its lines in file order; nothing is overwritten. */
  lemma {:induction false} ParsedGroupsByKey(t: Table, lines: seq<string>, key: string)
    requires Parsed(t, lines).Success?
    ensures Lookup(Parsed(t, lines).value, key) == Lookup(t, key) + RecordsFor(lines, key)
    ensures key in Parsed(t, lines).value <==> key in t || RecordsFor(lines, key) != []
    decreases |lines|
  {
    if lines != [] {
      var n := |lines| - 1;
      ParsedGroupsByKey(t, lines[..n], key);
      var before := Parsed(t, lines[..n]).value;
      var step := ParseLine(lines[n], n);
      assert Parsed(t, lines) == Apply(before, lines[n], n);
      if step.value.Some? {
        var (k, rec) := step.value.value;
        assert RecordsFor(lines, key) == RecordsFor(lines[..n], key) + (if k == key then [rec] else []);
      } else {
        assert RecordsFor(lines, key) == RecordsFor(lines[..n], key);
      }
    }
  }

  /** Keys of a table parsed from an empty one never end in a digit. */
  lemma {:induction false} ParsedKeysHaveNoDigitSuffix(lines: seq<string>)
    requires Parsed(map[], lines).Success?
    ensures forall k :: k in Parsed(map[], lines).value ==> !EndsInDigit(k)
    decreases |lines|
  {
    if lines != [] {
      ParsedKeysHaveNoDigitSuffix(lines[..|lines| - 1]);
    }
  }

  /** Every key of a table parsed from one with non-empty record lists has a
      non-empty record list. */
  lemma {:induction false} ParsedKeepsRecords(t: Table, lines: seq<string>)
    requires forall k :: k in t ==> |t[k]| > 0
    requires Parsed(t, lines).Success?
    ensures forall k :: k in Parsed(t, lines).value ==> |Parsed(t, lines).value[k]| > 0
    decreases |lines|
  {
    if lines != [] {
      ParsedKeepsRecords(t, lines[..|lines| - 1]);
    }
  }

  /** `"mapper/{}".format(name)`; Python formats None as "None". */
  function MapperKey(name: Option<string>): string {
    "mapper/" + match name
      case Some(n) => n
      case None => "None"
  }

  /** What `is_mounted` decides: the device is a key, or one of the volume
      names is a key under "mapper/". */
  predicate MountedIn(t: Table, device: string, lvsNames: Option<seq<Option<string>>>) {
    || device in t
    || (lvsNames.Some? && exists i :: 0 <= i < |lvsNames.value| && MapperKey(lvsNames.value[i]) in t)
  }

  /** The mount table keeps "/dev/mapper/vg-lv0" as "mapper/vg-lv": a volume
      whose name ends in a digit is never found mounted under mapper/. */
  lemma DigitNamedVolumeNotFound(lines: seq<string>, name: string)
    requires Parsed(map[], lines).Success?
    requires EndsInDigit(name)
    ensures MapperKey(Some(name)) !in Parsed(map[], lines).value
  {
    ParsedKeysHaveNoDigitSuffix(lines);
    assert EndsInDigit(MapperKey(Some(name)));
  }

  /** The mount point of each of the device's records, in table order;
      empty for an unknown device. */
  function MountPoints(t: Table, device: string): (r: seq<string>)
    ensures device !in t ==> r == []
    ensures |r| == |Lookup(t, device)|
    ensures forall i :: 0 <= i < |r| ==> r[i] == Lookup(t, device)[i].mount
  {
    var records := Lookup(t, device);
    seq(|records|, i requires 0 <= i < |records| => records[i].mount)
  }

  class Mounts {
    var table: Table

    /** Every key the table holds has at least one record. */
    predicate Valid()
      reads this
    {
      forall k :: k in table ==> |table[k]| > 0
    }

    /** `self._mounts = dict()` */
    constructor ()
      ensures table == map[] && Valid()
    {
      table := map[];
    }

    /** `_parse_mounts`: appends the record of every "/dev" line to its
        key's list, in file order, and stops at the first malformed line
        (the Python code raises there; the table then holds the lines
        before it). */
    method ParseMounts(lines: seq<string>) returns (err: Option<MountError>)
      requires Valid()
      modifies this
      ensures Valid()
      ensures err.None? ==> Parsed(old(table), lines) == Success(table)
      ensures err.Some? ==> err.value.line < |lines|
      ensures err.Some? ==> Parsed(old(table), lines) == Failure(err.value)
      ensures err.Some? ==> Parsed(old(table), lines[..err.value.line]) == Success(table)
    {
      var i := 0;
      while i < |lines|
        invariant 0 <= i <= |lines|
        invariant Valid()
        invariant Parsed(old(table), lines[..i]) == Success(table)
      {
        ParsedStep(old(table), lines, i, table);
        err := AddLine(lines[i], i);
        if err.Some? {
          ParsedStops(old(table), lines, i, err.value);
          return;
        }
        i := i + 1;
      }
      assert lines[..i] == lines;
      err := None;
    }

    /** The body of the loop of `_parse_mounts` for line number `index`:
        skip the line, append its record to its key's list (creating the
        list on first use), or raise. */
    method AddLine(mount: string, index: nat) returns (err: Option<MountError>)
      requires Valid()
      modifies this
      ensures Valid()
      ensures err.None? ==> Apply(old(table), mount, index) == Success(table)
      ensures err.Some? ==> Apply(old(table), mount, index) == Failure(err.value) && err.value.line == index
      ensures err.Some? ==> table == old(table)
    {
      if mount == "" || !StartsWith(mount, DevPrefix) {
        return None;
      }
      var fields := Split(mount, " ");
      if |fields| != 6 {
        return Some(WrongFieldCount(index, |fields|));
      }
      var pieces := Split(fields[0], DevDirectory);
      if |pieces| < 2 {
        assert DeviceKey(fields[0]).None?;
        return Some(NoDevDirectory(index));
      }
      var device := StripDigits(pieces[1]);
      var record := MountRecord(fields[1], fields[2], Split(fields[3], ","));
      assert ParseLine(mount, index) == Success(Some((device, record)));
      if device !in table {
        table := table[device := []];
      }
      var partitions := table[device];
      table := table[device := partitions + [record]];
      assert partitions == Lookup(old(table), device);
      assert table == old(table)[device := Lookup(old(table), device) + [record]];
      return None;
    }

    /** `is_mounted`: scans the volume names for one mounted under
        "mapper/", then checks the device itself. */
    method IsMounted(device: string, lvsNames: Option<seq<Option<string>>>) returns (mounted: bool)
      ensures mounted <==> MountedIn(table, device, lvsNames)
      ensures (lvsNames.None? || lvsNames.value == []) ==> (mounted <==> device in table)
    {
      var lvsMounted := false;
      if lvsNames.Some? && lvsNames.value != [] {
        var names := lvsNames.value;
        var i := 0;
        while i < |names|
          invariant 0 <= i <= |names|
          invariant !lvsMounted
          invariant forall j :: 0 <= j < i ==> MapperKey(names[j]) !in table
        {
          if MapperKey(names[i]) in table {
            lvsMounted := true;
            break;
          }
          i := i + 1;
        }
      }
      mounted := lvsMounted || device in table;
    }

    /** `get_mount_points`: the mount points of the device's records; a
        device the table knows always has at least one. */
    function GetMountPoints(device: string): (r: seq<string>)
      reads this
      ensures r == MountPoints(table, device)
      ensures Valid() && device in table ==> r != []
    {
      MountPoints(table, device)
    }
  }

  /** `Mounts()`: the mount-table lines, or None when /proc/mounts cannot be
      opened, in which case the table stays empty. */
  method LoadMounts(content: Option<seq<string>>) returns (r: Result<Mounts, MountError>)
    ensures r.Success? ==> fresh(r.value) && r.value.Valid()
    ensures r.Success? ==> Parsed(map[], content.GetOr([])) == Success(r.value.table)
    ensures r.Failure? ==> Parsed(map[], content.GetOr([])) == Failure(r.error)
  {
    var mounts := new Mounts();
    var lines := content.GetOr([]);
    var err := mounts.ParseMounts(lines);
    if err.Some? {
      return Failure(err.value);
    }
    return Success(mounts);
  }
}
