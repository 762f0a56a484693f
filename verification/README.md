# Device registry of the `lutils` mount tool, in Dafny

This project models the device-identity registry of `src/mount.rs`. The
automounter uses it to learn which block devices exist and which of them can
be mounted by label. It has five parts:

- **`Blkid::new`** reads one line of `blkid -d` output. The line reader uses
  the regular expression
  `^(.*): *(LABEL="(.*?)")?.*?UUID="(.*?)".*?TYPE="(.*?)".*?(PARTUUID="(.*)")?$`.
  `BlkidLine` gives it two definitions:
  - `IsMatch` is every way the expression can match a line, and `Preferred`
    is the match a leftmost-first engine reports. These are the reference
    definitions.
  - `Scan` is a scanner. It is proved sound and complete, and it returns the
    preferred match, which is unique.

  `Records.Parse` turns that match into a `Blkid` record, or into
  `BlkidError("no match: <line>")`. It stamps the record with the mount state
  of its name at parse time.
- **`check_mount`** (`MountTable.CheckMount`) is a bare prefix test. It asks
  whether any line of the mount table starts with the device path.
- **`BlkidList::new`** (`Registry.New`) splits the whole output on `"\n"`. It
  keeps the records of the lines that parse, in order.
- **`get_label_device` and `find_device`** (`Registry.GetLabelDevice`,
  `Registry.FindDevice`) select from the registry: the labelled unmounted
  records, and the first of them with a given label.
- **Outputs.** `Display` for a record and for a list is modelled in `Display`,
  with readers that invert it. The argument vectors of `mount` and `umount`
  are modelled in `Commands`.

`LineLayout` assembles `blkid -d` lines from their parts. It proves that
`Blkid::new` reads each part back, and that it inverts the canonical
line format (`FormatLineRoundTrip`). `Scenarios` applies this to the three
lines of the source's unit test, each written as the layout of its parts, and
to a small registry.

The mount table, which the source reads from `/proc/mounts`, is a parameter
here: a sequence of lines.

Two behaviours of the code are worth knowing:

- **Mount check.** `check_mount` builds the pattern `^<device>.*`. That is a
  bare prefix test, not a comparison with the line's first field, so
  `/dev/sda1` counts as mounted when the table has a `/dev/sda10` line
  (`MountTable.PrefixOfLongerPathCountsAsMounted`).
- **List output.** `Display for BlkidList` uses `writeln!` on a record text
  that already ends in a newline. Every record row is therefore followed by
  one blank line, not only the last (`Display.Rows`, built from
  `Display.RowBlock`).

Some definitions carry no contract of their own because they are the
reference the contracts are stated against: `BlkidLine.IsMatch` and
`BlkidLine.Preferred` (the matches of the expression at src/mount.rs:96 and
the one a leftmost-first engine reports), `Records.FromMatch` (the record
built from the groups, src/mount.rs:103-112), and `Display.Rows` /
`Display.RowBlock` (the `writeln!` loop, src/mount.rs:197-199), whose
properties are stated by `RowsAppend`, `RowInPlace` and `ReadListRoundTrip`.

## Model

| member | source | states |
|---|---|---|
| MountTable.CheckMount | src/mount.rs:204-215 | a device counts as mounted exactly when some mount-table line starts with its path |
| MountTable.ListedDeviceIsMounted | src/mount.rs:208-212 | a device whose path is the first field of a mount-table line counts as mounted |
| MountTable.PrefixOfLongerPathCountsAsMounted | src/mount.rs:208-212 | `/dev/sda1` counts as mounted when the only line lists `/dev/sda10`, although that line's device field differs |
| MountTable.EmptyPathMountedIffTableNonEmpty | src/mount.rs:208-214 | the empty path counts as mounted exactly when the table has a line |
| BlkidLine.Scan | src/mount.rs:95-102 | the scanner returns a match that the expression admits and the engine prefers, and returns nothing only when the expression cannot match the line at all |
| BlkidLine.PreferredUnique | src/mount.rs:96 | a line has at most one preferred match, so the capture groups are determined by the line |
| BlkidLine.ScanIsPreferred | src/mount.rs:96-102 | whenever a match is the preferred one, the scanner returns exactly that match |
| Records.Parse | src/mount.rs:86-119 | parsing succeeds exactly when the expression matches. Failure carries `BlkidError("no match: " + line)`. Success holds the groups of the preferred match, an absent optional group read as empty, and `is_mount` equal to the mount check of the name |
| Records.ParsedName | src/mount.rs:103 | the name is the text before a colon of the line |
| Records.LabelOnlyAfterColon | src/mount.rs:105-107 | a non-empty label needs `LABEL="` right after the colon and its spaces, and holds no quote |
| Records.PartuuidOnlyWhenItClosesTheLine | src/mount.rs:110-112 | a non-empty partuuid needs a `PARTUUID="` whose value runs to a quote that ends the line |
| Records.UuidAndTypeHoldNoQuote | src/mount.rs:108-109 | the uuid and type values stop at the first quote after their keys |
| Records.NoUuidThenTypeFails | src/mount.rs:113-117 | a line with no `UUID="` followed by a later `TYPE="` is rejected with the no-match error |
| Records.NoColonOrNewlineFails | src/mount.rs:113-117 | a line without a colon, or with a newline in it, is rejected with the no-match error |
| LineLayout.ExpectedIsMatch | src/mount.rs:96 | a line assembled from a name, an optional label, gaps, a uuid, a type and an optional partuuid matches with those parts in the groups |
| LineLayout.ExpectedIsPreferred | src/mount.rs:96 | when the gaps cannot hide an earlier key, that match is the one the engine prefers |
| LineLayout.ParseLayout | src/mount.rs:102-112 | `Blkid::new` of such a line yields exactly its parts, a missing label or partuuid as empty, and the mount state of its name |
| LineLayout.FormatLineRoundTrip | src/mount.rs:86-119 | `Blkid::new` inverts the canonical `blkid -d` line of a record whose fields hold no colon, newline or stray quote |
| Text.Split | src/mount.rs:161 | splitting gives at least one piece, as `str::split` does even for the empty text |
| Text.SplitJoins | src/mount.rs:161 | the pieces of a split hold no separator and join back to the text |
| Text.SplitUnique | src/mount.rs:161 | splitting a joined list of newline-free pieces gives back the pieces |
| Registry.Build | src/mount.rs:161-165 | the loop keeps at most one record per line, and every record's mount flag is the mount check of its name |
| Registry.New | src/mount.rs:159-167 | the registry has no more records than the output has lines, and every record's mount flag is the mount check of its name |
| Registry.NewKeepsParsingLines | src/mount.rs:159-167 | the k-th record is the parse of the k-th accepted line, and the accepted lines are exactly those `Blkid::new` accepts, in increasing order |
| Registry.BuildParsesKeptLines | src/mount.rs:161-165 | building keeps the parses of the accepted lines one for one |
| Registry.BuildCons | src/mount.rs:161-165 | the first line contributes its record, when it parses, ahead of the records of the lines after it |
| Registry.BuildAppend | src/mount.rs:161-165 | the registry of two runs of lines is the concatenation of their registries |
| Registry.BuildSkipsFailing | src/mount.rs:162-164 | a rejected line leaves the records of all other lines unchanged |
| Registry.NewIgnoresTrailingNewline | src/mount.rs:161-164 | a trailing newline, which adds an empty last line, does not change the registry |
| Registry.NewOfLines | src/mount.rs:161 | the registry of newline-joined lines is built from exactly those lines |
| Registry.GetLabelDevice | src/mount.rs:169-177 | the result is the in-order subsequence of the records with a non-empty label that are not mounted, and it holds exactly those records |
| Registry.FindDevice | src/mount.rs:179-186 | the result is the first record with a non-empty label equal to the one asked for that is not mounted, and is absent exactly when none exists. It is never mounted, always absent for the empty label, and it equals the first `get_label_device` record with that label |
| Registry.PickIsFirstLabelDevice | src/mount.rs:169-186 | picking among all records is picking by label among the records `get_label_device` keeps |
| Display.RowText | src/mount.rs:73-83 | a record's row ends in the newline written after the mount flag; `ReadRowRoundTrip` states that the row is the six fields with tabs between them |
| Display.ReadRowRoundTrip | src/mount.rs:73-83 | a record row, read back by cutting at tabs before its final newline, gives the record when its fields hold no tab or newline |
| Display.ReadList | src/mount.rs:189-202 | whatever the listing reader accepts is the listing of the registry it returns |
| Display.ListText | src/mount.rs:191-196 | the listing starts with the fixed header line |
| Display.ReadListRoundTrip | src/mount.rs:189-202 | a listing, read back as the header and then rows each followed by a blank line, gives the registry |
| Display.RowInPlace | src/mount.rs:197-199 | each record's row stands in the listing after the rows of the records before it, followed by a blank line and the rows after it |
| Display.RowsAppend | src/mount.rs:197-199 | the rows of two runs of records are the rows of the first run followed by those of the second |
| Commands.MountCommand | src/mount.rs:122-141 | `mount` gets `-o rw`, then `-t ntfs` exactly for an `ntfs` record, then the device name and the path |
| Commands.UmountCommand | src/mount.rs:143-150 | `umount` gets the path as its only argument |
| Commands.MountArgsRoundTrip | src/mount.rs:124-137 | the mount vector reads back as the device name, the path and whether NTFS is forced |
| Commands.MountArgsDependOnNameAndNtfs | src/mount.rs:125-137 | two records give the same mount vector exactly when they share the name and agree on whether the type is `ntfs` |
| Scenarios.SwapLineParses | src/mount.rs:250-255 | the swap test line, whose `BLOCK_SIZE` value lacks its closing quote, gives type `swap` and an empty partuuid |
| Scenarios.LvmLineParses | src/mount.rs:256-261 | the `/dev/nvme0n1p3` test line gives type `LVM2_member` and its partuuid |
| Scenarios.NtfsLineParses | src/mount.rs:262-269 | the `/dev/sda2` test line gives the label 系统, type `ntfs` and its partuuid, and is not mounted when no mount-table line starts with `/dev/sda2` |
| Scenarios.SysLineParses | src/mount.rs:102-112 | the line `blkid -d` prints for a labelled NTFS record parses back to that record, stamped with the mount check of `/dev/sda2` |
| Scenarios.KeylessLineFails | src/mount.rs:113-117 | a line with neither uuid nor type is rejected |
| Scenarios.MixedOutputKeepsOneRecord | src/mount.rs:159-167 | an output with that line and a valid line holds exactly the valid line's record |
| Scenarios.SysRecordSelection | src/mount.rs:169-186 | an unmounted labelled record is offered for mounting and found by its label. Once it is mounted it is neither |

## Left out

- `capacity` (src/mount.rs:48-59) is left out. It is floating-point arithmetic with panicking `unwrap` calls.
- `Device`, `Block` and their JSON deserialization (src/mount.rs:14-46) are left out. They are serde library code, and `Block::new` only unwraps.
- Reading `/proc/mounts` (src/mount.rs:205-207) is I/O. The mount table is a parameter, a sequence of lines, as `lines()` would give them. The source re-reads the file for every line that matches (src/mount.rs:104), while the model stamps every line of one `BlkidList::new` with the same snapshot, so mounts that change during the loop are not modelled.
- Process spawning in `mount` and `umount` (src/mount.rs:132-139, 145-148) is I/O. Only the program name and the argument vector are modelled, not the `Output`.
- The branch for a pattern that fails to compile (src/mount.rs:98-101) is left out, because the pattern is a constant that compiles.
- The name passed to `check_mount` is put into a pattern without escaping (src/mount.rs:208). The model treats it as literal text. The name is everything before the last colon that still admits a match, so a label holding a `:` carries label text into the name (`/dev/sda1: LABEL="x(y:z" UUID="u" TYPE="t"` gives the name `/dev/sda1: LABEL="x(y`). For such a name the source either tests a different pattern or, when the text is not a valid pattern, panics in `unwrap` and aborts all of `BlkidList::new`; the model returns a record.
- The host-dependent tests `test_mount_point` and `test_check_mount` (src/mount.rs:272-289) are left out. They depend on the machine they run on.
- The binaries, the logger and the error module are not part of this model. `UtilsError` appears only as its `BlkidError(message)` case.
- `Registry.FindDevice` returns a copy of the record rather than a reference into the registry. Its contract names the record's position through `Seqs.FirstWith`.
