/** `Drive`, `LVSDrive` and `main` of src/disks/disks.py: list the entries of
    the block-device directory, keep the physical drives, note for each the
    device-mapper volumes it backs, sort the drives by name and print one
    line per drive and a total.

    The file system is a snapshot: the set of existing paths, the directory
    listings, the first lines of the files under each entry, and the lines
    of the kernel mount table. Each exception of the modelled operations is
    an `Error` (text decoding and float overflow are not modelled), and a
    run ends either unsupported, crashed after some lines, or finished. */
module Inventory {
  import opened Wrappers
  import opened Strings
  import opened MountTable
  import opened HumanSizes
  import opened Devices
  import opened Sorting

  /** What reading the files of one entry directory gives. `model` and
      `dmName` are the first line of `device/model` and `dm/name`, `size` and
      `logicalBlockSize` the integers `int()` makes of `size` and
      `queue/logical_block_size`, `slaves` the listing of `slaves/`; None
      stands for a file that cannot be read (or, for the integers, whose
      content is not a number). */
  datatype EntryFiles = EntryFiles(
    model: Option<string>,
    size: Option<int>,
    logicalBlockSize: Option<int>,
    dmName: Option<string>,
    slaves: Option<seq<string>>)

  const NoFiles := EntryFiles(None, None, None, None, None)

  /** The machine as the program sees it. `files` is keyed by the entry
      directory, root + "/" + entry. `mountLines` is None when the mount
      table cannot be opened. */
  datatype Host = Host(
    paths: set<string>,
    listings: map<string, seq<string>>,
    files: map<string, EntryFiles>,
    mountLines: Option<seq<string>>)

  function FilesOf(host: Host, root: string, entry: string): EntryFiles {
    var dir := root + "/" + entry;
    if dir in host.files then host.files[dir] else NoFiles
  }

  /** Why `__str__` raises: `",".join` meets a None volume name, or the
      model or the size is None where a string is formatted. */
  datatype RenderError = NoneVolumeName | NoneModel | NoneSize

  /** The exceptions that end a run. */
  datatype Error =
    | MountTableError(mountError: MountError)         // raised by `Mounts()`
    | RootUnlistable(root: string)                // `os.listdir(info_root)` fails
    | SizeUnreadable(entry: string)               // `int(...)` of `size`
    | BlockSizeUnreadable(entry: string)          // `int(...)` of `queue/logical_block_size`
    | SlavesUnlistable(entry: string)             // `os.listdir` of `slaves`
    | Unprintable(entry: string, renderError: RenderError)

  /** The attributes of a `Drive` object. */
  datatype DriveInfo = DriveInfo(
    name: string,
    model: Option<string>,
    capacityBlocks: int,
    logicalBlockSize: int,
    size: Option<HumanSize>,
    isLvs: bool,
    lvsNames: seq<Option<string>>)

  /** A `Drive` as `__init__` leaves it: sized, not yet part of a volume. */
  function NewDrive(name: string, model: Option<string>, blocks: int, blockSize: int): DriveInfo {
    DriveInfo(name, model, blocks, blockSize, HumanSizeOf(blocks * blockSize), false, [])
  }

  /** One printed drive line: name, model, size and the parenthesised
      qualifiers, before column padding and number formatting. */
  datatype DriveLine = DriveLine(name: string, model: string, size: HumanSize, qualifiers: seq<string>)

  predicate AllNamed(names: seq<Option<string>>) {
    forall i :: 0 <= i < |names| ==> names[i].Some?
  }

  function NameValues(names: seq<Option<string>>): (r: seq<string>)
    requires AllNamed(names)
    ensures |r| == |names|
    ensures forall i :: 0 <= i < |r| ==> Some(r[i]) == names[i]
  {
    seq(|names|, i requires 0 <= i < |names| => names[i].value)
  }

  /** The first qualifier of a mounted drive. */
  function MountedQualifier(points: seq<string>): string {
    if points != [] then "mounted: " + Join(points, ",") else "mounted"
  }

  /** What `Drive.__str__` prints for a drive, or the exception it raises.
      The mount qualifier comes first, the volume qualifier second; the
      volume names are joined before the model and then the size are
      formatted, which fixes the order of the errors. */
  function RenderSpec(t: Table, d: DriveInfo): (r: Result<DriveLine, RenderError>) {
    var mounted := if MountedIn(t, d.name, Some(d.lvsNames)) then [MountedQualifier(MountPoints(t, d.name))] else [];
    if d.isLvs && !AllNamed(d.lvsNames) then Failure(NoneVolumeName)
    else
      var volumes := if d.isLvs then ["lvs: " + Join(NameValues(d.lvsNames), ",")] else [];
      if d.model.None? then Failure(NoneModel)
      else if d.size.None? then Failure(NoneSize)
      else Success(DriveLine(d.name, d.model.value, d.size.value, mounted + volumes))
  }

  /** `__str__` raises exactly when a volume name is None (checked first),
      the model is None, or the size is None (checked last). A printed line
      carries the drive's name, model and size, at most one mount qualifier,
      first, and the volume qualifier last. */
  lemma RenderShape(t: Table, d: DriveInfo)
    ensures var r := RenderSpec(t, d);
            && (r.Failure? <==> (d.isLvs && !AllNamed(d.lvsNames)) || d.model.None? || d.size.None?)
            && (r.Failure? && d.isLvs && !AllNamed(d.lvsNames) ==> r.error == NoneVolumeName)
            && (r.Failure? && (!d.isLvs || AllNamed(d.lvsNames)) ==>
                  r.error == (if d.model.None? then NoneModel else NoneSize))
    ensures var r := RenderSpec(t, d);
            r.Success? ==>
              && r.value.name == d.name && Some(r.value.model) == d.model && Some(r.value.size) == d.size
              && |r.value.qualifiers| == (if MountedIn(t, d.name, Some(d.lvsNames)) then 1 else 0) + (if d.isLvs then 1 else 0)
              && (MountedIn(t, d.name, Some(d.lvsNames)) ==>
                    r.value.qualifiers[0] == MountedQualifier(MountPoints(t, d.name)))
              && (d.isLvs ==>
                    r.value.qualifiers[|r.value.qualifiers| - 1] == "lvs: " + Join(NameValues(d.lvsNames), ","))
  {
  }

  /** A drive the mount table does not know shows a bare "mounted" exactly
      when one of its volumes is mounted under mapper/; a drive the table
      knows always lists its mount points. */
  lemma BareMountedOnlyThroughVolumes(t: Table, d: DriveInfo)
    requires forall k :: k in t ==> |t[k]| > 0
    requires RenderSpec(t, d).Success?
    ensures var q := RenderSpec(t, d).value.qualifiers;
            |q| > 0 && q[0] == "mounted" <==>
              d.name !in t && exists i :: 0 <= i < |d.lvsNames| && MapperKey(d.lvsNames[i]) in t
    ensures d.name in t ==>
              RenderSpec(t, d).value.qualifiers[0] == "mounted: " + Join(MountPoints(t, d.name), ",")
  {
    RenderShape(t, d);
    var q := RenderSpec(t, d).value.qualifiers;
    var mounted := MountedIn(t, d.name, Some(d.lvsNames));
    if d.name in t {
      assert |MountPoints(t, d.name)| > 0;
      assert |q[0]| > |"mounted"|;
    } else if mounted {
      assert MountPoints(t, d.name) == [];
    } else if d.isLvs {
      var v := q[0];
      assert v == "lvs: " + Join(NameValues(d.lvsNames), ",");
      assert v[0] == 'l';
    }
  }

  /** Scan results so far: the drives in listing order, and the volumes. */
  datatype Scan = Scan(drives: seq<DriveInfo>, volumes: seq<Volume>)

  /** `Drive.__init__` on an entry's files: `size` is converted before the
      logical block size, so a missing size is reported first. */
  function DriveFromFiles(entry: string, f: EntryFiles): (r: Result<DriveInfo, Error>)
    ensures r.Success? <==> f.size.Some? && f.logicalBlockSize.Some?
    ensures f.size.None? ==> r == Failure(SizeUnreadable(entry))
    ensures f.size.Some? && f.logicalBlockSize.None? ==> r == Failure(BlockSizeUnreadable(entry))
    ensures r.Success? ==> r.value.name == entry && !r.value.isLvs && r.value.lvsNames == []
    ensures r.Success? ==> r.value.model == f.model
    ensures r.Success? ==> r.value.capacityBlocks == f.size.value && r.value.logicalBlockSize == f.logicalBlockSize.value
    ensures r.Success? ==> r.value.size == HumanSizeOf(f.size.value * f.logicalBlockSize.value)
  {
    if f.size.None? then Failure(SizeUnreadable(entry))
    else if f.logicalBlockSize.None? then Failure(BlockSizeUnreadable(entry))
    else Success(NewDrive(entry, f.model, f.size.value, f.logicalBlockSize.value))
  }

  /** `LVSDrive.__init__` on an entry's files: fails only when `slaves/`
      cannot be listed. */
  function VolumeFromFiles(entry: string, f: EntryFiles): (r: Result<Volume, Error>)
    ensures r.Failure? <==> f.slaves.None?
    ensures r.Failure? ==> r.error == SlavesUnlistable(entry)
    ensures r.Success? ==> r.value.entry == entry && r.value.name == f.dmName
    ensures r.Success? ==> forall d :: d in r.value.disks <==> exists s :: s in f.slaves.value && StripDigits(s) == d
  {
    if f.slaves.None? then Failure(SlavesUnlistable(entry))
    else Success(Volume(entry, f.dmName, BackingSet(f.slaves.value)))
  }

  /** One iteration of the listing loop of `main`. */
  function ScanEntry(host: Host, root: string, acc: Scan, entry: string): Result<Scan, Error> {
    match Classify(host.paths, root, entry)
    case Physical =>
      (match DriveFromFiles(entry, FilesOf(host, root, entry))
       case Failure(e) => Failure(e)
       case Success(d) => Success(acc.(drives := acc.drives + [d])))
    case Logical =>
      (match VolumeFromFiles(entry, FilesOf(host, root, entry))
       case Failure(e) => Failure(e)
       case Success(v) => Success(acc.(volumes := acc.volumes + [v])))
    case Neither => Success(acc)
  }

  /** The listing loop of `main` over `entries`, stopping at the first
      exception. */
  function ScanSpec(host: Host, root: string, entries: seq<string>): Result<Scan, Error>
    decreases |entries|
  {
    if entries == [] then Success(Scan([], []))
    else
      match ScanSpec(host, root, entries[..|entries| - 1])
      case Failure(e) => Failure(e)
      case Success(acc) => ScanEntry(host, root, acc, entries[|entries| - 1])
  }

  lemma {:induction false} ScanFailureSticks(host: Host, root: string, entries: seq<string>, n: nat, m: nat)
    requires n <= m <= |entries|
    requires ScanSpec(host, root, entries[..n]).Failure?
    ensures ScanSpec(host, root, entries[..m]) == ScanSpec(host, root, entries[..n])
    decreases m
  {
    if m > n {
      ScanFailureSticks(host, root, entries, n, m - 1);
      assert entries[..m][..m - 1] == entries[..m - 1];
    }
  }

  /** The entries that are physical drives, in listing order. */
  function PhysicalEntries(paths: set<string>, root: string, entries: seq<string>): (r: seq<string>)
    ensures forall e :: e in r ==> e in entries && IsDrive(paths, root, e)
    decreases |entries|
  {
    if entries == [] then []
    else
      var last := entries[|entries| - 1];
      PhysicalEntries(paths, root, entries[..|entries| - 1]) + (if IsDrive(paths, root, last) then [last] else [])
  }

  /** An entry that is neither a drive nor a volume changes nothing. */
  lemma IgnoredEntryContributesNothing(host: Host, root: string, entries: seq<string>, entry: string)
    requires !IsDrive(host.paths, root, entry) && !IsLvs(host.paths, root, entry)
    ensures ScanSpec(host, root, entries + [entry]) == ScanSpec(host, root, entries)
    ensures PhysicalEntries(host.paths, root, entries + [entry]) == PhysicalEntries(host.paths, root, entries)
  {
    assert (entries + [entry])[..|entries|] == entries;
  }

  /** An entry that is a drive is scanned as a drive even when it also looks
      like a volume: it adds one drive and no volume. */
  lemma DriveEntryNeverAVolume(host: Host, root: string, entries: seq<string>, entry: string)
    requires IsDrive(host.paths, root, entry)
    requires ScanSpec(host, root, entries + [entry]).Success?
    ensures ScanSpec(host, root, entries).Success?
    ensures var before := ScanSpec(host, root, entries).value;
            var after := ScanSpec(host, root, entries + [entry]).value;
            && after.volumes == before.volumes
            && after.drives == before.drives + [after.drives[|after.drives| - 1]]
            && after.drives[|after.drives| - 1].name == entry
  {
    assert (entries + [entry])[..|entries|] == entries;
  }

  /** A successful scan holds one freshly initialised drive per physical
      entry, in listing order, built from that entry's files. */
  lemma {:induction false} ScanFindsPhysicalEntries(host: Host, root: string, entries: seq<string>)
    requires ScanSpec(host, root, entries).Success?
    ensures var drives := ScanSpec(host, root, entries).value.drives;
            && |drives| == |PhysicalEntries(host.paths, root, entries)|
            && forall i :: 0 <= i < |drives| ==>
                 drives[i].name == PhysicalEntries(host.paths, root, entries)[i]
                 && !drives[i].isLvs && drives[i].lvsNames == []
                 && DriveFromFiles(drives[i].name, FilesOf(host, root, drives[i].name)) == Success(drives[i])
    decreases |entries|
  {
    if entries != [] {
      ScanFindsPhysicalEntries(host, root, entries[..|entries| - 1]);
    }
  }

  /** The `lvs_drives` dictionary: for each backing device, the volume names. */
  type VolumeIndex = map<string, seq<Option<string>>>

  function NamesAt(index: VolumeIndex, d: string): seq<Option<string>> {
    if d in index then index[d] else []
  }

  /** The index after appending `name` for every device of `disks`. */
  function AddNames(index: VolumeIndex, disks: set<string>, name: Option<string>): (r: VolumeIndex)
    ensures r.Keys == index.Keys + disks
    ensures forall d :: NamesAt(r, d) == NamesAt(index, d) + (if d in disks then [name] else [])
  {
    map d | d in index.Keys + disks :: NamesAt(index, d) + (if d in disks then [name] else [])
  }

  /** The index `main` builds from the volumes, in scan order. */
  function IndexOf(volumes: seq<Volume>): VolumeIndex
    decreases |volumes|
  {
    if volumes == [] then map[]
    else
      var last := volumes[|volumes| - 1];
      AddNames(IndexOf(volumes[..|volumes| - 1]), last.disks, last.name)
  }

  /** The names of the volumes a device backs, in scan order. */
  function NamesFor(volumes: seq<Volume>, d: string): seq<Option<string>>
    decreases |volumes|
  {
    if volumes == [] then []
    else
      var last := volumes[|volumes| - 1];
      NamesFor(volumes[..|volumes| - 1], d) + (if d in last.disks then [last.name] else [])
  }

  /** The index files every volume once under each device it backs, and
      holds exactly the devices that back some volume. */
  lemma {:induction false} IndexMatchesNamesFor(volumes: seq<Volume>)
    ensures forall d :: NamesAt(IndexOf(volumes), d) == NamesFor(volumes, d)
    ensures forall d :: d in IndexOf(volumes) <==> NamesFor(volumes, d) != []
    decreases |volumes|
  {
    if volumes != [] {
      IndexMatchesNamesFor(volumes[..|volumes| - 1]);
    }
  }

  /** A volume over two partitions of one disk is listed once for that disk. */
  lemma PartitionsListedOnce(volumes: seq<Volume>, entry: string, name: Option<string>)
    ensures NamesFor(volumes + [Volume(entry, name, BackingSet(["sda1", "sda2"]))], "sda")
         == NamesFor(volumes, "sda") + [name]
  {
    PartitionsCollapse();
    var vs := volumes + [Volume(entry, name, BackingSet(["sda1", "sda2"]))];
    assert vs[..|vs| - 1] == volumes;
  }

  /** The merge loop of `main` on one drive. */
  function Enrich(d: DriveInfo, index: VolumeIndex): (r: DriveInfo)
    ensures r.(isLvs := d.isLvs, lvsNames := d.lvsNames) == d
    ensures d.name in index ==> r.isLvs && r.lvsNames == index[d.name]
    ensures d.name !in index ==> r == d
  {
    if d.name in index then d.(isLvs := true, lvsNames := index[d.name]) else d
  }

  function EnrichAll(ds: seq<DriveInfo>, index: VolumeIndex): (r: seq<DriveInfo>)
    ensures |r| == |ds|
    ensures forall i :: 0 <= i < |ds| ==> r[i] == Enrich(ds[i], index)
  {
    seq(|ds|, i requires 0 <= i < |ds| => Enrich(ds[i], index))
  }

  /** After the merge a fresh drive is a volume member exactly when some
      volume lists it among its disks, and then it carries the names of all
      such volumes, in scan order. */
  lemma MergeMarksBackingDrives(ds: seq<DriveInfo>, volumes: seq<Volume>)
    requires forall i :: 0 <= i < |ds| ==> !ds[i].isLvs && ds[i].lvsNames == []
    ensures forall i :: 0 <= i < |ds| ==>
              var e := EnrichAll(ds, IndexOf(volumes))[i];
              && e.name == ds[i].name
              && (e.isLvs <==> NamesFor(volumes, e.name) != [])
              && e.lvsNames == NamesFor(volumes, e.name)
  {
    IndexMatchesNamesFor(volumes);
  }

  function InfoName(d: DriveInfo): string {
    d.name
  }

  datatype RunResult =
    | Unsupported                                     // "Your system is not supported, sorry", exit status 1
    | Crashed(error: Error, printed: seq<DriveLine>)  // an exception after printing `printed`
    | Finished(lines: seq<DriveLine>, total: nat)     // every drive line, then "----Total: <total>"

  /** The printing loop of `main` and the total line after it. */
  function PrintAll(t: Table, ds: seq<DriveInfo>): (r: RunResult)
    ensures r.Finished? || r.Crashed?
    decreases |ds|
  {
    if ds == [] then Finished([], 0)
    else
      match RenderSpec(t, ds[0])
      case Failure(e) => Crashed(Unprintable(ds[0].name, e), [])
      case Success(line) =>
        var rest := PrintAll(t, ds[1..]);
        if rest.Crashed? then Crashed(rest.error, [line] + rest.printed)
        else Finished([line] + rest.lines, rest.total + 1)
  }

  /** The drives are printed in order: a finished run printed every drive
      and counts them all; a crashed run printed the drives before the first
      that raises, and reports that drive's error. */
  lemma {:induction false} PrintAllInOrder(t: Table, ds: seq<DriveInfo>)
    ensures var r := PrintAll(t, ds);
            r.Finished? ==>
              && r.total == |ds| && |r.lines| == |ds|
              && forall i :: 0 <= i < |ds| ==> RenderSpec(t, ds[i]) == Success(r.lines[i])
    ensures var r := PrintAll(t, ds);
            r.Crashed? ==>
              && |r.printed| < |ds|
              && (forall i :: 0 <= i < |r.printed| ==> RenderSpec(t, ds[i]) == Success(r.printed[i]))
              && RenderSpec(t, ds[|r.printed|]).Failure?
              && r.error == Unprintable(ds[|r.printed|].name, RenderSpec(t, ds[|r.printed|]).error)
    decreases |ds|
  {
    if ds != [] && RenderSpec(t, ds[0]).Success? {
      var line := RenderSpec(t, ds[0]).value;
      var tail := ds[1..];
      PrintAllInOrder(t, tail);
      var rest := PrintAll(t, tail);
      assert forall i :: 1 <= i < |ds| ==> ds[i] == tail[i - 1];
      if rest.Crashed? {
        var printed := [line] + rest.printed;
        assert PrintAll(t, ds) == Crashed(rest.error, printed);
        assert forall i :: 1 <= i < |printed| ==> printed[i] == rest.printed[i - 1];
        assert ds[|printed|] == tail[|rest.printed|];
      } else {
        var lines := [line] + rest.lines;
        assert PrintAll(t, ds) == Finished(lines, rest.total + 1);
        assert forall i :: 1 <= i < |lines| ==> lines[i] == rest.lines[i - 1];
      }
    }
  }

  /** What one run of `main` does on a machine. */
  function RunSpec(host: Host): RunResult {
    match RootFor(host.paths)
    case None => Unsupported
    case Some(root) =>
      match Parsed(map[], host.mountLines.GetOr([]))
      case Failure(e) => Crashed(MountTableError(e), [])
      case Success(table) =>
        if root !in host.listings then Crashed(RootUnlistable(root), [])
        else
          match ScanSpec(host, root, host.listings[root])
          case Failure(e) => Crashed(e, [])
          case Success(scan) =>
            PrintAll(table, SortBy(EnrichAll(scan.drives, IndexOf(scan.volumes)), InfoName))
  }

  /** A run is unsupported exactly when neither block-device directory exists. */
  lemma UnsupportedIffNoRoot(host: Host)
    ensures RunSpec(host) == Unsupported <==> "/sys/class/block" !in host.paths && "/sys/block" !in host.paths
  {
  }

  /** A malformed mount table stops the run before any drive is printed. */
  lemma BadMountTablePrintsNothing(host: Host)
    requires RootFor(host.paths).Some?
    requires Parsed(map[], host.mountLines.GetOr([])).Failure?
    ensures RunSpec(host) == Crashed(MountTableError(Parsed(map[], host.mountLines.GetOr([])).error), [])
  {
  }

  function LineNames(lines: seq<DriveLine>): (r: seq<string>)
    ensures |r| == |lines|
    ensures forall i :: 0 <= i < |lines| ==> r[i] == lines[i].name
  {
    seq(|lines|, i requires 0 <= i < |lines| => lines[i].name)
  }

  /** A finished run prints one line per physical entry, sorted by name as
      strings, and a total equal to the number of physical entries. */
  lemma FinishedRunListsPhysicalDrives(host: Host)
    requires RunSpec(host).Finished?
    ensures var root := RootFor(host.paths).value;
            var physical := PhysicalEntries(host.paths, root, host.listings[root]);
            var lines := RunSpec(host).lines;
            && RunSpec(host).total == |lines| == |physical|
            && multiset(LineNames(lines)) == multiset(physical)
            && forall i, j :: 0 <= i < j < |lines| ==> !LexLess(lines[j].name, lines[i].name)
  {
    var root := RootFor(host.paths).value;
    var table := Parsed(map[], host.mountLines.GetOr([])).value;
    var scan := ScanSpec(host, root, host.listings[root]).value;
    var physical := PhysicalEntries(host.paths, root, host.listings[root]);
    var merged := EnrichAll(scan.drives, IndexOf(scan.volumes));
    var sorted := SortBy(merged, InfoName);
    RunSpecOfScan(host, root, table, scan);
    PrintedNames(table, sorted);
    ScanFindsPhysicalEntries(host, root, host.listings[root]);
    assert KeysOf(merged, InfoName) == physical;
    SortBySorted(merged, InfoName);
    SortByKeys(merged, InfoName);
  }

  /** A finished printing loop prints the drives' names in order. */
  lemma PrintedNames(t: Table, ds: seq<DriveInfo>)
    requires PrintAll(t, ds).Finished?
    ensures PrintAll(t, ds).total == |ds|
    ensures LineNames(PrintAll(t, ds).lines) == KeysOf(ds, InfoName)
  {
    PrintAllInOrder(t, ds);
    var lines := PrintAll(t, ds).lines;
    forall i | 0 <= i < |ds| ensures lines[i].name == ds[i].name {
      RenderShape(t, ds[i]);
    }
  }

  /** A `Drive` object. The fields the merge step of `main` sets are
      variables; the rest never change after `__init__`. */
  class Drive {
    const mounts: Mounts
    const name: string
    const model: Option<string>
    const capacityBlocks: int
    const logicalBlockSize: int
    const size: Option<HumanSize>
    var isLvs: bool
    var lvsNames: seq<Option<string>>

    function Info(): DriveInfo
      reads this
    {
      DriveInfo(name, model, capacityBlocks, logicalBlockSize, size, isLvs, lvsNames)
    }

    /** `Drive.__init__` once the files are read: the size is computed by
        `human_size`, and the drive is not yet part of a volume. */
    constructor (mounts: Mounts, name: string, model: Option<string>, capacityBlocks: int, logicalBlockSize: int)
      ensures this.mounts == mounts
      ensures Info() == NewDrive(name, model, capacityBlocks, logicalBlockSize)
    {
      this.mounts := mounts;
      this.name := name;
      this.model := model;
      this.capacityBlocks := capacityBlocks;
      this.logicalBlockSize := logicalBlockSize;
      var s := HumanSizeFor(logicalBlockSize, capacityBlocks);
      this.size := s;
      this.isLvs := false;
      this.lvsNames := [];
    }

    /** `__str__` */
    method Render() returns (r: Result<DriveLine, RenderError>)
      ensures r == RenderSpec(mounts.table, Info())
    {
      var options: seq<string> := [];
      var mounted := mounts.IsMounted(name, Some(lvsNames));
      if mounted {
        var points := mounts.GetMountPoints(name);
        if points != [] {
          options := options + ["mounted: " + Join(points, ",")];
        } else {
          options := options + ["mounted"];
        }
        assert options == [MountedQualifier(MountPoints(mounts.table, name))];
      }
      ghost var mountedPart := options;
      if isLvs {
        if !AllNamed(lvsNames) {
          return Failure(NoneVolumeName);
        }
        options := options + ["lvs: " + Join(NameValues(lvsNames), ",")];
      }
      assert options == mountedPart + (if isLvs then ["lvs: " + Join(NameValues(lvsNames), ",")] else []);
      if model.None? {
        return Failure(NoneModel);
      }
      if size.None? {
        return Failure(NoneSize);
      }
      return Success(DriveLine(name, model.value, size.value, options));
    }
  }

  /** `__lt__` compares names. */
  function DriveName(d: Drive): string {
    d.name
  }

  /** The attributes of each drive, in order. */
  function Infos(ds: seq<Drive>): (r: seq<DriveInfo>)
    reads set d | d in ds
    ensures |r| == |ds|
    ensures forall i :: 0 <= i < |ds| ==> r[i] == ds[i].Info()
  {
    if ds == [] then [] else [ds[0].Info()] + Infos(ds[1..])
  }

  /** Sorting the objects and then reading them gives what sorting their
      attributes gives. */
  lemma {:induction false} InfosOfSorted(ds: seq<Drive>)
    ensures Infos(SortBy(ds, DriveName)) == SortBy(Infos(ds), InfoName)
    decreases |ds|
  {
    if ds != [] {
      InfosOfSorted(ds[1..]);
      assert Infos(ds)[1..] == Infos(ds[1..]);
      InfosOfInsert(ds[0], SortBy(ds[1..], DriveName));
    }
  }

  lemma {:induction false} InfosOfInsert(x: Drive, ds: seq<Drive>)
    ensures Infos(Insert(x, ds, DriveName)) == Insert(x.Info(), Infos(ds), InfoName)
    decreases |ds|
  {
    if ds != [] {
      InfosOfInsert(x, ds[1..]);
      assert Infos(ds)[1..] == Infos(ds[1..]);
    }
  }

  /** `Drive(info_root, drive, mounts)`: reads the entry's files and builds
      the object, or raises. */
  method OpenDrive(host: Host, root: string, entry: string, mounts: Mounts) returns (r: Result<Drive, Error>)
    ensures r.Failure? ==> DriveFromFiles(entry, FilesOf(host, root, entry)) == Failure(r.error)
    ensures r.Success? ==> DriveFromFiles(entry, FilesOf(host, root, entry)) == Success(r.value.Info())
    ensures r.Success? ==> fresh(r.value) && r.value.mounts == mounts
  {
    var files := FilesOf(host, root, entry);
    if files.size.None? {
      return Failure(SizeUnreadable(entry));
    }
    if files.logicalBlockSize.None? {
      return Failure(BlockSizeUnreadable(entry));
    }
    var drive := new Drive(mounts, entry, files.model, files.size.value, files.logicalBlockSize.value);
    return Success(drive);
  }

  /** The listing loop of `main`: drives are collected in listing order and
      every volume's name is appended to the list of each of its disks. */
  method ScanEntries(host: Host, root: string, mounts: Mounts) returns (r: Result<(seq<Drive>, VolumeIndex), Error>)
    requires root in host.listings
    ensures r.Failure? ==> ScanSpec(host, root, host.listings[root]) == Failure(r.error)
    ensures r.Success? ==>
              && ScanSpec(host, root, host.listings[root]).Success?
              && Infos(r.value.0) == ScanSpec(host, root, host.listings[root]).value.drives
              && r.value.1 == IndexOf(ScanSpec(host, root, host.listings[root]).value.volumes)
    ensures r.Success? ==> forall d :: d in r.value.0 ==> fresh(d) && d.mounts == mounts
  {
    var entries := host.listings[root];
    var systemDrives: seq<Drive> := [];
    var lvsDrives: VolumeIndex := map[];
    ghost var infos: seq<DriveInfo> := [];
    ghost var volumes: seq<Volume> := [];
    for i := 0 to |entries|
      invariant ScanSpec(host, root, entries[..i]) == Success(Scan(infos, volumes))
      invariant |systemDrives| == |infos|
      invariant forall j :: 0 <= j < |infos| ==> systemDrives[j].Info() == infos[j]
      invariant lvsDrives == IndexOf(volumes)
      invariant forall d :: d in systemDrives ==> fresh(d) && d.mounts == mounts
    {
      var drive := entries[i];
      if IsDrive(host.paths, root, drive) {
        var made := OpenDrive(host, root, drive, mounts);
        if made.Failure? {
          ScanFails(host, root, entries, i, Scan(infos, volumes), made.error);
          return Failure(made.error);
        }
        ScanAddsDrive(host, root, entries, i, Scan(infos, volumes), made.value.Info());
        systemDrives := systemDrives + [made.value];
        infos := infos + [made.value.Info()];
      } else if IsLvs(host.paths, root, drive) {
        var files := FilesOf(host, root, drive);
        if files.slaves.None? {
          ScanFails(host, root, entries, i, Scan(infos, volumes), SlavesUnlistable(drive));
          return Failure(SlavesUnlistable(drive));
        }
        var lvsDrive := Volume(drive, files.dmName, BackingSet(files.slaves.value));
        ScanAddsVolume(host, root, entries, i, Scan(infos, volumes), lvsDrive);
        lvsDrives := AddVolume(lvsDrives, lvsDrive);
        volumes := volumes + [lvsDrive];
      } else {
        ScanSkips(host, root, entries, i, Scan(infos, volumes));
      }
    }
    assert entries[..|entries|] == entries;
    assert Infos(systemDrives) == infos;
    return Success((systemDrives, lvsDrives));
  }

  lemma ScanAddsDrive(host: Host, root: string, entries: seq<string>, i: nat, acc: Scan, d: DriveInfo)
    requires i < |entries| && ScanSpec(host, root, entries[..i]) == Success(acc)
    requires IsDrive(host.paths, root, entries[i])
    requires DriveFromFiles(entries[i], FilesOf(host, root, entries[i])) == Success(d)
    ensures ScanSpec(host, root, entries[..i + 1]) == Success(Scan(acc.drives + [d], acc.volumes))
  {
    assert entries[..i + 1][..i] == entries[..i];
  }

  lemma ScanAddsVolume(host: Host, root: string, entries: seq<string>, i: nat, acc: Scan, v: Volume)
    requires i < |entries| && ScanSpec(host, root, entries[..i]) == Success(acc)
    requires !IsDrive(host.paths, root, entries[i]) && IsLvs(host.paths, root, entries[i])
    requires VolumeFromFiles(entries[i], FilesOf(host, root, entries[i])) == Success(v)
    ensures ScanSpec(host, root, entries[..i + 1]) == Success(Scan(acc.drives, acc.volumes + [v]))
    ensures IndexOf(acc.volumes + [v]) == AddNames(IndexOf(acc.volumes), v.disks, v.name)
  {
    assert entries[..i + 1][..i] == entries[..i];
    assert (acc.volumes + [v])[..|acc.volumes|] == acc.volumes;
  }

  lemma ScanSkips(host: Host, root: string, entries: seq<string>, i: nat, acc: Scan)
    requires i < |entries| && ScanSpec(host, root, entries[..i]) == Success(acc)
    requires !IsDrive(host.paths, root, entries[i]) && !IsLvs(host.paths, root, entries[i])
    ensures ScanSpec(host, root, entries[..i + 1]) == Success(acc)
  {
    assert entries[..i + 1][..i] == entries[..i];
  }

  lemma ScanFails(host: Host, root: string, entries: seq<string>, i: nat, acc: Scan, e: Error)
    requires i < |entries| && ScanSpec(host, root, entries[..i]) == Success(acc)
    requires var files := FilesOf(host, root, entries[i]);
             || (IsDrive(host.paths, root, entries[i]) && DriveFromFiles(entries[i], files) == Failure(e))
             || (!IsDrive(host.paths, root, entries[i]) && IsLvs(host.paths, root, entries[i])
                 && VolumeFromFiles(entries[i], files) == Failure(e))
    ensures ScanSpec(host, root, entries) == Failure(e)
  {
    assert entries[..i + 1][..i] == entries[..i];
    ScanStops(host, root, entries, i, e);
  }

  lemma ScanStops(host: Host, root: string, entries: seq<string>, i: nat, e: Error)
    requires i < |entries| && ScanSpec(host, root, entries[..i + 1]) == Failure(e)
    ensures ScanSpec(host, root, entries) == Failure(e)
  {
    ScanFailureSticks(host, root, entries, i + 1, |entries|);
    assert entries[..|entries|] == entries;
  }

  /** The inner loop of `main` over `lvs_drive.disks`: the volume's name is
      appended to the list of each of its disks, starting a list for a disk
      not yet seen. The set is visited in any order. */
  method AddVolume(index: VolumeIndex, v: Volume) returns (r: VolumeIndex)
    ensures r == AddNames(index, v.disks, v.name)
  {
    r := index;
    var disks := v.disks;
    ghost var done: set<string> := {};
    AddNoNames(index, v.name);
    while disks != {}
      invariant done !! disks && done + disks == v.disks
      invariant r == AddNames(index, done, v.name)
      decreases disks
    {
      var d :| d in disks;
      AddOneDisk(index, done, d, v.name, r);
      if d !in r {
        r := r[d := [v.name]];
      } else {
        r := r[d := r[d] + [v.name]];
      }
      disks := disks - {d};
      done := done + {d};
    }
  }

  lemma AddNoNames(index: VolumeIndex, name: Option<string>)
    ensures AddNames(index, {}, name) == index
  {
    var r := AddNames(index, {}, name);
    forall d | d in r ensures r[d] == index[d] {
      assert r[d] == NamesAt(r, d);
    }
  }

  /** One step of the inner loop: the dictionary update `main` makes for
      one more disk. */
  lemma AddOneDisk(index: VolumeIndex, done: set<string>, d: string, name: Option<string>, r: VolumeIndex)
    requires d !in done && r == AddNames(index, done, name)
    ensures (if d !in r then r[d := [name]] else r[d := r[d] + [name]]) == AddNames(index, done + {d}, name)
  {
    AddNamesStep(index, done, d, name);
    if d !in r {
      assert NamesAt(r, d) + [name] == [name];
    }
  }

  /** Adding one more device to the set appends the name to that device's
      list and leaves the others alone. */
  lemma AddNamesStep(index: VolumeIndex, done: set<string>, d: string, name: Option<string>)
    requires d !in done
    ensures AddNames(index, done + {d}, name) == AddNames(index, done, name)[d := NamesAt(AddNames(index, done, name), d) + [name]]
  {
    var a := AddNames(index, done + {d}, name);
    var b := AddNames(index, done, name)[d := NamesAt(AddNames(index, done, name), d) + [name]];
    assert a.Keys == b.Keys;
    forall k | k in a ensures a[k] == b[k] {
      assert a[k] == NamesAt(a, k);
      if k != d {
        assert k in AddNames(index, done, name);
      }
    }
  }

  /** The merge loop of `main`: every drive whose name is a key of the index
      becomes a volume member with that key's list. A drive listed twice is
      updated twice to the same values. */
  method MergeVolumes(drives: seq<Drive>, index: VolumeIndex)
    modifies set d | d in drives
    ensures forall j :: 0 <= j < |drives| ==> drives[j].Info() == Enrich(old(drives[j].Info()), index)
    ensures Infos(drives) == EnrichAll(old(Infos(drives)), index)
  {
    for i := 0 to |drives|
      invariant forall j :: 0 <= j < |drives| ==>
                  drives[j].Info() == if drives[j] in drives[..i] then Enrich(old(drives[j].Info()), index)
                                      else old(drives[j].Info())
    {
      var drive := drives[i];
      assert drives[..i + 1] == drives[..i] + [drive];
      if drive.name in index {
        drive.isLvs := true;
        drive.lvsNames := index[drive.name];
      }
    }
    assert drives[..|drives|] == drives;
  }

  /** The printing loop of `main`: renders the drives in order and stops at
      the first that raises. */
  method PrintDrives(drives: seq<Drive>, mounts: Mounts) returns (r: RunResult)
    requires forall d :: d in drives ==> d.mounts == mounts
    ensures r == PrintAll(mounts.table, Infos(drives))
  {
    var infos := Infos(drives);
    var printed: seq<DriveLine> := [];
    for i := 0 to |drives|
      invariant |printed| == i
      invariant forall j :: 0 <= j < i ==> RenderSpec(mounts.table, infos[j]) == Success(printed[j])
    {
      assert drives[i] in drives;
      var line := drives[i].Render();
      if line.Failure? {
        PrintAllStops(mounts.table, infos, printed, line.error);
        return Crashed(Unprintable(drives[i].name, line.error), printed);
      }
      printed := printed + [line.value];
    }
    PrintAllFinishes(mounts.table, infos, printed);
    r := Finished(printed, |drives|);
  }

  /** When every drive renders, the run prints all their lines. */
  lemma PrintAllFinishes(t: Table, ds: seq<DriveInfo>, lines: seq<DriveLine>)
    requires |lines| == |ds|
    requires forall j :: 0 <= j < |ds| ==> RenderSpec(t, ds[j]) == Success(lines[j])
    ensures PrintAll(t, ds) == Finished(lines, |ds|)
  {
    var spec := PrintAll(t, ds);
    PrintAllInOrder(t, ds);
    assert !spec.Crashed?;
    assert spec.lines == lines;
  }

  /** When drive k is the first that raises, the run prints the lines before it. */
  lemma PrintAllStops(t: Table, ds: seq<DriveInfo>, printed: seq<DriveLine>, e: RenderError)
    requires |printed| < |ds|
    requires forall j :: 0 <= j < |printed| ==> RenderSpec(t, ds[j]) == Success(printed[j])
    requires RenderSpec(t, ds[|printed|]) == Failure(e)
    ensures PrintAll(t, ds) == Crashed(Unprintable(ds[|printed|].name, e), printed)
  {
    var spec := PrintAll(t, ds);
    PrintAllInOrder(t, ds);
    assert !spec.Finished?;
    assert !(|spec.printed| < |printed|);
    assert !(|spec.printed| > |printed|);
    assert spec.printed == printed;
  }

  lemma RunSpecOfScan(host: Host, root: string, table: Table, scan: Scan)
    requires RootFor(host.paths) == Some(root)
    requires Parsed(map[], host.mountLines.GetOr([])) == Success(table)
    requires root in host.listings
    requires ScanSpec(host, root, host.listings[root]) == Success(scan)
    ensures RunSpec(host) == PrintAll(table, SortBy(EnrichAll(scan.drives, IndexOf(scan.volumes)), InfoName))
  {
  }

  /** `main` on a machine. */
  method Run(host: Host) returns (r: RunResult)
    ensures r == RunSpec(host)
  {
    var root := SelectRoot(host.paths);
    if root.None? {
      return Unsupported;
    }
    var loaded := LoadMounts(host.mountLines);
    if loaded.Failure? {
      return Crashed(MountTableError(loaded.error), []);
    }
    var mounts := loaded.value;
    if root.value !in host.listings {
      return Crashed(RootUnlistable(root.value), []);
    }
    var scanned := ScanEntries(host, root.value, mounts);
    if scanned.Failure? {
      return Crashed(scanned.error, []);
    }
    var (drives, index) := scanned.value;
    RunSpecOfScan(host, root.value, mounts.table, ScanSpec(host, root.value, host.listings[root.value]).value);
    r := Report(drives, index, mounts);
  }

  /** The end of `main`: merge the volume lists into the drives, sort the
      drives and print them. */
  method Report(drives: seq<Drive>, index: VolumeIndex, mounts: Mounts) returns (r: RunResult)
    requires forall d :: d in drives ==> d.mounts == mounts
    modifies set d | d in drives
    ensures r == PrintAll(mounts.table, SortBy(EnrichAll(old(Infos(drives)), index), InfoName))
    ensures Infos(drives) == EnrichAll(old(Infos(drives)), index)
  {
    ghost var before := Infos(drives);
    MergeVolumes(drives, index);
    ghost var merged := Infos(drives);
    var sorted := SortBy(drives, DriveName);
    InfosOfSorted(drives);
    SortedKeepsDrives(drives, sorted);
    r := PrintDrives(sorted, mounts);
    assert Infos(sorted) == SortBy(merged, InfoName);
    assert Infos(drives) == merged;
  }

  lemma SortedKeepsDrives(drives: seq<Drive>, sorted: seq<Drive>)
    requires sorted == SortBy(drives, DriveName)
    ensures forall d :: d in sorted ==> d in drives
  {
    forall d | d in sorted ensures d in drives {
      assert d in multiset(sorted);
    }
  }
}
