/** The decisions src/disks/disks.py takes about directory entries: which
    root directory to list (`main`), whether an entry is a physical drive
    (`is_drive`) or a device-mapper volume (`is_lvs`), and which physical
    devices back a volume (`LVSDrive.__init__`). Path existence is a set of
    existing paths. */
module Devices {
  import opened Wrappers
  import opened Strings

  /** DISKS_PATH_SYS, in order of preference. */
  const DisksPathSys: seq<string> := ["/sys/class/block", "/sys/block"]

  /** DRIVE_PATH_MASK, "{}/{}/{}": a file under an entry's directory. */
  function DrivePath(root: string, entry: string, rel: string): string {
    root + "/" + entry + "/" + rel
  }

  /** The root path `main` settles on: the preferred candidate if it exists,
      otherwise the first existing one; None means "not supported". */
  function RootFor(paths: set<string>): (r: Option<string>)
    ensures r.Some? ==> r.value in DisksPathSys && r.value in paths
    ensures r.Some? && r.value != DisksPathSys[0] ==> DisksPathSys[0] !in paths
    ensures r.None? <==> forall i :: 0 <= i < |DisksPathSys| ==> DisksPathSys[i] !in paths
  {
    if DisksPathSys[0] in paths then Some(DisksPathSys[0])
    else if DisksPathSys[1] in paths then Some(DisksPathSys[1])
    else None
  }

  /** The root selection at the start of `main`: keep the preferred path if
      it exists, otherwise scan the candidates and stop at the first that
      exists. */
  method SelectRoot(paths: set<string>) returns (root: Option<string>)
    ensures root == RootFor(paths)
  {
    var infoRoot := DisksPathSys[0];
    if infoRoot !in paths {
      var i := 0;
      while i < |DisksPathSys|
        invariant 0 <= i <= |DisksPathSys|
        invariant infoRoot == DisksPathSys[0]
        invariant forall j :: 0 <= j < i ==> DisksPathSys[j] !in paths
      {
        if DisksPathSys[i] in paths {
          infoRoot := DisksPathSys[i];
          break;
        }
        i := i + 1;
      }
    }
    if infoRoot !in paths {
      return None;
    }
    return Some(infoRoot);
  }

  /** `is_drive`: the entry has a `device` link. */
  predicate IsDrive(paths: set<string>, root: string, entry: string) {
    DrivePath(root, entry, "device") in paths
  }

  /** `is_lvs`: the entry's name starts with "dm" and it has a `dm/name` file. */
  predicate IsLvs(paths: set<string>, root: string, entry: string) {
    StartsWith(entry, "dm") && DrivePath(root, entry, "dm/name") in paths
  }

  datatype Kind = Physical | Logical | Neither

  /** The `if is_drive ... elif is_lvs ...` of `main`: a drive first, a
      volume only when it is not a drive, otherwise dropped. */
  function Classify(paths: set<string>, root: string, entry: string): (k: Kind)
    ensures k == Physical <==> IsDrive(paths, root, entry)
    ensures k == Logical <==> !IsDrive(paths, root, entry) && IsLvs(paths, root, entry)
    ensures k == Neither <==> !IsDrive(paths, root, entry) && !IsLvs(paths, root, entry)
  {
    if IsDrive(paths, root, entry) then Physical
    else if IsLvs(paths, root, entry) then Logical
    else Neither
  }

  /** An entry whose name does not start with "dm" is never a volume,
      whatever files it has. */
  lemma OnlyDmEntriesAreVolumes(paths: set<string>, root: string, entry: string)
    requires |entry| < 2 || entry[..2] != "dm"
    ensures Classify(paths, root, entry) != Logical
  {
  }

  /** The set comprehension of `LVSDrive.__init__`: every slave name with its
      partition digits stripped. */
  function BackingSet(slaves: seq<string>): (r: set<string>)
    ensures forall d :: d in r <==> exists s :: s in slaves && StripDigits(s) == d
    ensures forall d :: d in r ==> !EndsInDigit(d)
  {
    set s | s in slaves :: StripDigits(s)
  }

  /** Stripping can only merge slaves: the set is never larger than the list. */
  lemma {:induction false} BackingSetNoLarger(slaves: seq<string>)
    ensures |BackingSet(slaves)| <= |slaves|
    decreases |slaves|
  {
    if slaves != [] {
      var init := slaves[..|slaves| - 1];
      BackingSetNoLarger(init);
      assert slaves == init + [slaves[|slaves| - 1]];
      assert BackingSet(slaves) == BackingSet(init) + {StripDigits(slaves[|slaves| - 1])};
    }
  }

  /** Two partitions of one disk back a volume with that single disk. */
  lemma PartitionsCollapse()
    ensures BackingSet(["sda1", "sda2"]) == {"sda"}
  {
    StripDigitsUnique("sda1", "sda");
    StripDigitsUnique("sda2", "sda");
  }

  /** A device-mapper volume: its entry name, the first line of `dm/name`
      (None when unreadable) and its backing devices. */
  datatype Volume = Volume(entry: string, name: Option<string>, disks: set<string>)
}
