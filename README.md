# linuxDrives block-device inventory, in Dafny

`src/disks/disks.py` is a small Linux command-line tool. It lists the
physical block devices of a machine, one line per drive:

- the drive's name, model and human-readable capacity;
- whether and where the drive is mounted;
- which device-mapper (LVM) volumes it backs.

It then prints the total number of drives.

How it works:

- It chooses a block-device directory: `/sys/class/block`, or else `/sys/block`.
- It reads the kernel mount table into a dictionary keyed by base device
  name. The key is the device path with `/dev/` removed and its trailing
  partition digits stripped.
- It classifies every directory entry as a physical drive, a device-mapper
  volume, or neither.
- It files each volume's name under every disk that backs the volume.
- It marks the drives that back volumes, sorts the drives by name, and
  prints them.

This project models that core and proves properties of it.

| file | module | models |
|---|---|---|
| `wrappers.dfy` | `Wrappers` | `Option` and `Result` |
| `strings.dfy` | `Strings` | the Python `str` operations the tool uses: `split`, `join`, `startswith`, `rstrip("1234567890")`, and the `<` order on strings |
| `mounts.dfy` | `MountTable` | the `Mounts` class: parsing the mount table, `is_mounted`, `get_mount_points` |
| `sizes.dfy` | `HumanSizes` | `Drive.human_size`, including Python's round-half-to-even `round` |
| `devices.dfy` | `Devices` | the choice of root directory, `is_drive`, `is_lvs`, and the backing set of `LVSDrive` |
| `sorting.dfy` | `Sorting` | `sorted()` under `Drive.__lt__`, as a stable insertion sort |
| `inventory.dfy` | `Inventory` | `Drive` (a class), `Drive.__str__`, and `main`: scan, merge, sort, print |

The file system is given as a snapshot, `Inventory.Host`. It holds:

- the set of paths that exist;
- the directory listings;
- the first line of each file the tool reads, with the two integer files
  already converted;
- the lines of `/proc/mounts`.

Every exception of the modelled operations is a value: the errors of
the mount-table parse, unreadable directories and integer files, and
failures while printing a drive. The exceptions listed under "Left out"
are not modelled. A run of `main` ends in one of three ways:

- `Unsupported`: neither directory exists;
- `Crashed`: an error, together with the lines printed before it;
- `Finished`: the printed lines, plus the total.

Parts of the model that follow the code rather than what one might expect:

- A mount-table line that starts with "/dev" but does not split into
  exactly six space-separated fields is an error that ends the run. Any
  other line is skipped, whatever its field count.
- A "/dev" line whose first field has no "/dev/" is also an error that ends
  the run.
- Only trailing digits are stripped from a device name:
  - `/dev/nvme0n1p1` is filed under `nvme0n1p` (`MountTable.NvmePartitionKey`).
  - `/dev/mapper/vg-lv0` is filed under `mapper/vg-lv`, so a volume whose
    name ends in a digit is never found mounted
    (`MountTable.DigitNamedVolumeNotFound`).
- A volume whose `dm/name` cannot be read is filed as `None`. It is looked
  up in the mount table as `mapper/None`, and printing the `lvs:` qualifier
  then fails.
- An unreadable `size` or `queue/logical_block_size` file fails when the
  drive is built (`SizeUnreadable`, `BlockSizeUnreadable`). Printing a drive
  fails when its model could not be read, or when `human_size` found no
  unit and returned None. The model records these as errors, not as
  preconditions.

## Model

| member | source | states |
|---|---|---|
| Strings.StripDigits | src/disks/disks.py:32 | the result is a prefix of the input, does not end in a digit, and everything cut off is digits |
| Strings.StripDigitsUnique | src/disks/disks.py:73 | those three facts determine the stripped name uniquely |
| Strings.JoinSplit | src/disks/disks.py:31 | joining the pieces of a split with the same separator gives back the original string |
| Strings.SplitJoin | src/disks/disks.py:41 | splitting the comma-join of option words that contain no comma gives back the words |
| Strings.SplitPiecesFree | src/disks/disks.py:31 | no piece of a split contains the separator |
| Strings.LexLessIrreflexive | src/disks/disks.py:107-108 | no name is less than itself |
| Strings.LexLessTransitive | src/disks/disks.py:107-108 | the string order is transitive |
| Strings.LexLessTotal | src/disks/disks.py:107-108 | any two distinct names are ordered one way or the other |
| Strings.LexLessNotNumeric | src/disks/disks.py:107-108 | "sda10" < "sda2" and not the reverse |
| MountTable.DeviceKey | src/disks/disks.py:32 | no key exactly when the device contains no "/dev/"; a key never ends in a digit |
| MountTable.DeviceKeyOfDevPath | src/disks/disks.py:32 | for "/dev/" + name the key is the name with its partition number stripped |
| MountTable.NvmePartitionKey | src/disks/disks.py:32 | "/dev/nvme0n1p1" is keyed "nvme0n1p" |
| MountTable.ParseLine | src/disks/disks.py:27-41 | an empty or non-"/dev" line contributes nothing; a "/dev" line contributes a record or fails; a wrong field count fails with that count; six fields whose device has no "/dev/" fail with NoDevDirectory; errors carry the line number; keys never end in a digit |
| MountTable.ParseWellFormedLine | src/disks/disks.py:31-41 | a well-formed six-field line yields the stripped device name, its mount point, its file system and its comma-split options |
| MountTable.ParseExampleLine | src/disks/disks.py:31-41 | "/dev/sdb1 /mnt ext4 rw,relatime 0 0" yields key "sdb" with record ("/mnt", "ext4", ["rw", "relatime"]) |
| MountTable.Apply | src/disks/disks.py:34-42 | one line fails exactly when its parse fails; a skipped line leaves the table as it was; otherwise exactly one record is appended under its key, a missing key is created, and every other key is unchanged |
| MountTable.ParsedFailureSticks | src/disks/disks.py:27-31 | after the first bad line the parse result no longer changes |
| MountTable.NonDeviceLineIgnored | src/disks/disks.py:28-29 | appending an empty or non-"/dev" line leaves the parsed table exactly as it was |
| MountTable.ParsedGroupsByKey | src/disks/disks.py:26-42 | after a parse, each key holds its old records followed by the records of its own lines, in file order; a key is present exactly when it had or gained a record |
| MountTable.ParsedKeysHaveNoDigitSuffix | src/disks/disks.py:32 | no key of a parsed table ends in a digit |
| MountTable.ParsedKeepsRecords | src/disks/disks.py:34-38 | every key of a parsed table has at least one record |
| MountTable.DigitNamedVolumeNotFound | src/disks/disks.py:48 | a volume name ending in a digit is never a "mapper/" key of a parsed table |
| MountTable.MountPoints | src/disks/disks.py:53-57 | empty for an unknown device; otherwise one mount point per record, in record order |
| MountTable.Mounts.constructor | src/disks/disks.py:16 | the table starts empty |
| MountTable.Mounts.ParseMounts | src/disks/disks.py:26-42 | on success the table is the parse of all lines; on error, the error is the parse's error and the table is the parse of the lines before the bad one |
| MountTable.Mounts.AddLine | src/disks/disks.py:28-42 | the table becomes `Apply` of the line; on error it is unchanged and the error carries the line number |
| MountTable.Mounts.IsMounted | src/disks/disks.py:44-51 | true exactly when the device is a key or some volume name is a "mapper/" key; with no volume names, exactly when the device is a key |
| MountTable.Mounts.GetMountPoints | src/disks/disks.py:53-57 | the device's mount points; never empty for a device the table knows |
| MountTable.LoadMounts | src/disks/disks.py:14-24 | an unreadable mount table gives the empty table; a malformed one gives the parse error |
| HumanSizes.RoundHalfEven | src/disks/disks.py:91 | the result is within 0.5 of x, and a tie goes to the even integer |
| HumanSizes.RoundedAtMost999 | src/disks/disks.py:91 | a value rounds to at most 999 exactly when it is below 999.5 |
| HumanSizes.HumanSizeOf | src/disks/disks.py:85-94 | the chosen unit is the first whose rounded quotient is at most 999, and the value is the byte count in that unit; None exactly when no unit fits |
| HumanSizes.HumanSizeFor | src/disks/disks.py:85-94 | the loop of `human_size` computes HumanSizeOf of blocks times block size |
| HumanSizes.FitsUpward | src/disks/disks.py:89-92 | a unit that fits a non-negative size is followed by another that fits |
| HumanSizes.UnitMonotonic | src/disks/disks.py:85-94 | a larger non-negative size never gets a smaller unit |
| HumanSizes.NoUnitIffHuge | src/disks/disks.py:89-94 | a non-negative size gets no unit exactly when it is at least 999.5 Pb |
| HumanSizes.ZeroIsKb | src/disks/disks.py:85-94 | zero bytes is 0 Kb |
| HumanSizes.JustUnder999KbIsKb | src/disks/disks.py:89-94 | 1023487 bytes stays in Kb |
| HumanSizes.HalfwayKbIsMb | src/disks/disks.py:89-94 | exactly 999.5 Kb rounds to 1000 and is shown in Mb |
| HumanSizes.ThousandKbIsMb | src/disks/disks.py:89-94 | exactly 1000 Kb is shown in Mb |
| Devices.RootFor | src/disks/disks.py:135-145 | the root is an existing candidate; it is not the preferred one only when the preferred one is missing; none exactly when no candidate exists |
| Devices.SelectRoot | src/disks/disks.py:135-145 | the selection loop chooses RootFor |
| Devices.Classify | src/disks/disks.py:151-153 | physical exactly when `is_drive`; a volume exactly when not a drive and `is_lvs`; otherwise neither |
| Devices.OnlyDmEntriesAreVolumes | src/disks/disks.py:129-130 | an entry whose name does not start with "dm" is never a volume |
| Devices.BackingSet | src/disks/disks.py:73 | exactly the slave names with partition digits stripped; none ends in a digit |
| Devices.BackingSetNoLarger | src/disks/disks.py:73 | the set is never larger than the slave list |
| Devices.PartitionsCollapse | src/disks/disks.py:73 | slaves "sda1" and "sda2" give the single disk "sda" |
| Sorting.SortBy | src/disks/disks.py:166 | the output is a permutation of the input |
| Sorting.SortBySorted | src/disks/disks.py:166 | the output is in non-decreasing string order of names |
| Sorting.SortByKeys | src/disks/disks.py:166 | the output's names are a permutation of the input's names |
| Sorting.NamesSortAsText | src/disks/disks.py:107-108 | "sda10" is placed before "sda2" |
| Inventory.RenderShape | src/disks/disks.py:110-122 | printing fails exactly when a volume name, the model or the size is None, in that order of precedence; a line has the drive's name, model and size, one mount qualifier first when mounted, and the "lvs: " qualifier last when it backs volumes |
| Inventory.BareMountedOnlyThroughVolumes | src/disks/disks.py:112-117 | the bare "mounted" appears exactly when the drive is not itself a key but one of its volumes is mounted; a drive that is a key lists its mount points |
| Inventory.DriveFromFiles | src/disks/disks.py:96-105 | succeeds exactly when both integers can be read, reporting an unreadable size first; a new drive has the `device/model` line as its model and the two integers as its capacity and block size, is sized by HumanSizeOf, and is not a volume member |
| Inventory.VolumeFromFiles | src/disks/disks.py:68-73 | fails exactly when `slaves/` cannot be listed; the volume keeps its entry and `dm/name`, and its disks are the stripped slave names |
| Inventory.IgnoredEntryContributesNothing | src/disks/disks.py:150-153 | an entry that is neither a drive nor a volume changes neither the scan nor the physical entries |
| Inventory.DriveEntryNeverAVolume | src/disks/disks.py:151-153 | an entry that is a drive adds exactly one drive with its name and no volume, even if it also looks like a volume |
| Inventory.ScanFailureSticks | src/disks/disks.py:150-159 | after the first failing entry the scan result no longer changes |
| Inventory.ScanFindsPhysicalEntries | src/disks/disks.py:150-152 | a successful scan has one fresh drive per physical entry, in listing order, each built from that entry's files by DriveFromFiles |
| Inventory.IndexMatchesNamesFor | src/disks/disks.py:155-159 | each backing device maps to the names of all volumes it backs, in scan order; the keys are exactly the devices that back some volume |
| Inventory.PartitionsListedOnce | src/disks/disks.py:73 | a volume over two partitions of "sda" adds its name to "sda" once |
| Inventory.Enrich | src/disks/disks.py:161-164 | only `is_lvs` and `lvs_names` change; a drive in the index is marked and takes its names; any other drive is unchanged |
| Inventory.MergeMarksBackingDrives | src/disks/disks.py:155-164 | after the merge a drive is a volume member exactly when some volume lists it, and it then carries all those volume names in scan order |
| Inventory.PrintAllInOrder | src/disks/disks.py:168-171 | a finished run prints each drive in order and totals their count; a crashed run printed the drives before the first that fails, and reports that drive's error |
| Inventory.UnsupportedIffNoRoot | src/disks/disks.py:137-145 | a run is unsupported exactly when neither block-device directory exists |
| Inventory.BadMountTablePrintsNothing | src/disks/disks.py:147 | a malformed mount table crashes the run before any line is printed |
| Inventory.FinishedRunListsPhysicalDrives | src/disks/disks.py:148-171 | a finished run prints one line per physical entry, as a permutation of their names sorted as strings, and a total equal to that count |
| Inventory.PrintedNames | src/disks/disks.py:168-171 | a finished printing loop prints the drive names in order |
| Inventory.Drive.constructor | src/disks/disks.py:96-105 | a new drive has the given attributes, the size HumanSizeOf gives, and is not a volume member |
| Inventory.Drive.Render | src/disks/disks.py:110-122 | `__str__` gives RenderSpec of the shared table and the drive's attributes |
| Inventory.InfosOfSorted | src/disks/disks.py:166 | sorting drive objects and then reading their attributes is the same as sorting the attributes |
| Inventory.OpenDrive | src/disks/disks.py:96-105 | a new drive object with DriveFromFiles' attributes and the shared mount table, or DriveFromFiles' error |
| Inventory.ScanEntries | src/disks/disks.py:148-159 | the listing loop gives ScanSpec's error, or its drives (fresh objects, in order) and the index of its volumes |
| Inventory.AddVolume | src/disks/disks.py:155-159 | for every backing device of a volume, the name is appended to that device's list (the list is created if missing); every other list is unchanged |
| Inventory.MergeVolumes | src/disks/disks.py:161-164 | each drive's attributes become Enrich of its old attributes |
| Inventory.PrintDrives | src/disks/disks.py:168-171 | the printing loop gives PrintAll of the drives' attributes |
| Inventory.Report | src/disks/disks.py:161-171 | merging, sorting and printing gives PrintAll of the sorted, merged attributes; each drive's new attributes are Enrich of its old ones |
| Inventory.Run | src/disks/disks.py:133-171 | `main` on a machine gives RunSpec of that machine |

## Left out

- File-system and process I/O. `os.path.exists`, `os.listdir`, `open` and
  `readline` are replaced by the `Host` snapshot. The model does not require
  the snapshot to be self-consistent, e.g. that a listed directory exists.
- Line-ending handling. Lines are given with the line separator already
  removed, so `rstrip(os.linesep)` and `strip(os.linesep)` are not modelled.
- `int()` parsing. A `size` or `queue/logical_block_size` file that cannot
  be read or is not a number is `None`, which becomes the matching error.
- `print`, `sys.exit` and `sys.argv`. A run returns its lines and total, or
  `Unsupported`, instead of writing to stdout and exiting.
- Output formatting. Drive lines are kept as fields and qualifier lists.
  Left out are:
  - the column padding of `"{:4s}: {:16s}  {:10s}"`;
  - the `"{:.3f}"` rendering of the size;
  - the `"; "` join of the qualifiers;
  - the text of the total line.
- HumanSizes.HumanSizeFor: computes on exact reals, not binary floats. The
  two agree exactly for byte counts below 2^53, which covers real disks.
  Above that, Python's first division may round.
- HumanSizes.NoUnitIffHuge: the cut-off of 999.5 Pb is the exact-real
  one. Above 2^53 bytes Python rounds the first division, which can move
  it. Take 1999·2^49 − 1 bytes, about 1.13e18. Python rounds the Kb
  quotient to 1999·2^39, so the Pb quotient is exactly 999.5, which rounds
  to 1000, and `human_size` returns None. The exact quotient is
  999.5 − 2^-50, so the model picks Pb.
- HumanSizes.HumanSizeOf: the same exact-real caveat applies to its unit
  choice above 2^53 bytes.
- Sorting.SortBy: Python's `sorted` is Timsort. It is modelled as a stable
  insertion sort, which gives the same output for any input.
- Inventory.AddVolume: Python iterates over the backing set in an arbitrary
  order. The model chooses the order nondeterministically, and its contract
  holds for every order.
- Inventory.MergeVolumes: in Python, a drive's `lvs_names` is the same list
  object as the dictionary entry. The model copies the value. Nothing
  changes the list after the merge, so this changes no output.
- Text decoding. Lines are already strings. Reading a non-UTF-8
  `/proc/mounts` or entry file in text mode raises `UnicodeDecodeError`
  when the file object is read. That is not modelled, since
  `except IOError` does not catch it.
- Float overflow in `human_size`. `size / 1024` on two integers raises
  `OverflowError` in `Drive.__init__` only when the quotient itself is
  beyond the float range. That means byte counts above about
  1.8e308 × 1024 ≈ 1.8e311. The run then crashes during the scan. The
  model instead sizes such a drive `None`, and it fails only when that
  drive is printed. Between 999.5 Pb and that bound, `human_size` returns
  None in both Python and the model.
- `setup.py` and packaging are not part of this model.
