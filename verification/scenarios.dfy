/** Character facts about the pieces of the source's test lines, each about
    one literal, kept apart from the rest of the model so that each is quick to
    check. */
module TestPieces {
  lemma SwapName()
    ensures ':' !in "/dev/mapper/openeuler-swap" && '\n' !in "/dev/mapper/openeuler-swap"
  {
  }

  lemma SwapUuid()
    ensures var s := "75d304ca-20a0-47d2-bf29-da460789c643"; ':' !in s && '\n' !in s && '"' !in s
  {
    var s := "75d304ca-20a0-47d2-bf29-da460789c643";
    assert forall i :: 0 <= i < |s| ==> s[i] != ':' && s[i] != '\n' && s[i] != '"';
  }

  lemma SwapGap()
    ensures var s := " BLOCK_SIZE=\"512  "; ':' !in s && '\n' !in s && 'T' !in s
  {
    var s := " BLOCK_SIZE=\"512  ";
    assert forall i :: 0 <= i < |s| ==> s[i] != ':' && s[i] != '\n' && s[i] != 'T';
  }

  lemma LvmName()
    ensures ':' !in "/dev/nvme0n1p3" && '\n' !in "/dev/nvme0n1p3"
  {
  }

  lemma LvmUuid()
    ensures var s := "SB2XCA-H6oF-tZVR-TYkd-wVBC-Hee6-t4QUg1"; ':' !in s && '\n' !in s && '"' !in s
  {
    var s := "SB2XCA-H6oF-tZVR-TYkd-wVBC-Hee6-t4QUg1";
    assert forall i :: 0 <= i < |s| ==> s[i] != ':' && s[i] != '\n' && s[i] != '"';
  }

  lemma LvmType()
    ensures var s := "LVM2_member"; ':' !in s && '\n' !in s && '"' !in s
  {
    var s := "LVM2_member";
    assert forall i :: 0 <= i < |s| ==> s[i] != ':' && s[i] != '\n' && s[i] != '"';
  }

  lemma LvmPart()
    ensures var s := "67426631-3f86-4de0-9d16-ca5fbd540604"; ':' !in s && '\n' !in s
  {
    var s := "67426631-3f86-4de0-9d16-ca5fbd540604";
    assert forall i :: 0 <= i < |s| ==> s[i] != ':' && s[i] != '\n';
  }

  lemma NtfsName()
    ensures ':' !in "/dev/sda2" && '\n' !in "/dev/sda2"
  {
  }

  lemma NtfsLabel()
    ensures var s := "\U{7CFB}\U{7EDF}"; ':' !in s && '\n' !in s && '"' !in s
  {
    var s := "\U{7CFB}\U{7EDF}";
    assert forall i :: 0 <= i < |s| ==> s[i] != ':' && s[i] != '\n' && s[i] != '"';
  }

  lemma NtfsGap1()
    ensures var s := " BLOCK_SIZE=\"512\" "; ':' !in s && '\n' !in s && 'U' !in s
  {
    var s := " BLOCK_SIZE=\"512\" ";
    assert forall i :: 0 <= i < |s| ==> s[i] != ':' && s[i] != '\n' && s[i] != 'U';
  }

  lemma NtfsUuid()
    ensures var s := "F4C41C2EC41BF21A"; ':' !in s && '\n' !in s && '"' !in s
  {
    var s := "F4C41C2EC41BF21A";
    assert forall i :: 0 <= i < |s| ==> s[i] != ':' && s[i] != '\n' && s[i] != '"';
  }

  lemma NtfsGap3()
    ensures var s := " PARTLABEL=\"Basic data partition\" "; ':' !in s && '\n' !in s && 'U' !in s
  {
    var s := " PARTLABEL=\"Basic data partition\" ";
    assert forall i :: 0 <= i < |s| ==> s[i] != ':' && s[i] != '\n' && s[i] != 'U';
  }

  lemma SysFields()
    ensures ':' !in "/dev/sda2" && '\n' !in "/dev/sda2"
    ensures var s := "SYS"; ':' !in s && '\n' !in s && '"' !in s
    ensures var s := "ABC-123"; ':' !in s && '\n' !in s && '"' !in s
    ensures var s := "ntfs"; ':' !in s && '\n' !in s && '"' !in s
    ensures var s := "xyz"; ':' !in s && '\n' !in s
  {
    var s := "xyz";
    assert forall i :: 0 <= i < |s| ==> s[i] != ':' && s[i] != '\n';
  }

  lemma Keyless()
    ensures var s := "/dev/sdx1: BLOCK_SIZE=\"512\""; 'U' !in s && '\n' !in s
  {
    var s := "/dev/sdx1: BLOCK_SIZE=\"512\"";
    assert forall i :: 0 <= i < |s| ==> s[i] != 'U' && s[i] != '\n';
  }

  lemma NtfsPart()
    ensures var s := "15565c7f-ea2b-41ed-b159-fe00ad7991f0"; ':' !in s && '\n' !in s
  {
    var s := "15565c7f-ea2b-41ed-b159-fe00ad7991f0";
    assert forall i :: 0 <= i < |s| ==> s[i] != ':' && s[i] != '\n';
  }
}

/** Concrete lines: the three `blkid -d` lines of the source's own unit test,
    and a registry built from a labelled line and a line without keys. */
module Scenarios {
  import opened Results
  import opened Text
  import opened Seqs
  import opened MountTable
  import opened BlkidLine
  import opened Records
  import opened LineLayout
  import opened Registry
  import opened TestPieces

  /** The swap line, whose `BLOCK_SIZE` value is missing its closing quote:
      no label, the uuid, that unclosed value as the gap before the type, the
      type and nothing after its closing quote. */
  const SwapLayout: Layout :=
    Layout("/dev/mapper/openeuler-swap", None, "", "75d304ca-20a0-47d2-bf29-da460789c643",
           " BLOCK_SIZE=\"512  ", "swap", "", None)

  const SwapLine: string := LineOf(SwapLayout)

  /** The LVM line, which closes with a partuuid. */
  const LvmLayout: Layout :=
    Layout("/dev/nvme0n1p3", None, "", "SB2XCA-H6oF-tZVR-TYkd-wVBC-Hee6-t4QUg1",
           " ", "LVM2_member", " ", Some("67426631-3f86-4de0-9d16-ca5fbd540604"))

  const LvmLine: string := LineOf(LvmLayout)

  /** The NTFS line, with a non-ASCII label, a `BLOCK_SIZE` key between the
      label and the uuid, and a `PARTLABEL` key between the type and the
      partuuid. */
  const NtfsLayout: Layout :=
    Layout("/dev/sda2", Some("\U{7CFB}\U{7EDF}"), " BLOCK_SIZE=\"512\" ", "F4C41C2EC41BF21A",
           " ", "ntfs", " PARTLABEL=\"Basic data partition\" ",
           Some("15565c7f-ea2b-41ed-b159-fe00ad7991f0"))

  const NtfsLine: string := LineOf(NtfsLayout)

  /** The swap line's parts fit the layout the parser reads back. */
  lemma SwapWellFormed()
    ensures WellFormed(SwapLayout)
  {
    SwapName();
    SwapUuid();
    SwapGap();
  }

  /** The swap line gives type `swap` and no partuuid. */
  lemma SwapLineParses(table: seq<string>)
    ensures Parse(SwapLine, table)
         == Ok(Blkid("/dev/mapper/openeuler-swap", "", "75d304ca-20a0-47d2-bf29-da460789c643",
                     "swap", "", CheckMount(table, "/dev/mapper/openeuler-swap")))
  {
    SwapWellFormed();
    ParseLayout(SwapLayout, table);
  }

  /** The LVM line's parts fit the layout the parser reads back. */
  lemma LvmWellFormed()
    ensures WellFormed(LvmLayout)
  {
    LvmName();
    LvmUuid();
    LvmType();
    LvmPart();
  }

  /** The LVM line gives type `LVM2_member` and its partuuid. */
  lemma LvmLineParses(table: seq<string>)
    ensures Parse(LvmLine, table)
         == Ok(Blkid("/dev/nvme0n1p3", "", "SB2XCA-H6oF-tZVR-TYkd-wVBC-Hee6-t4QUg1",
                     "LVM2_member", "67426631-3f86-4de0-9d16-ca5fbd540604",
                     CheckMount(table, "/dev/nvme0n1p3")))
  {
    LvmWellFormed();
    ParseLayout(LvmLayout, table);
  }

  /** The NTFS line's parts fit the layout the parser reads back. */
  lemma NtfsWellFormed()
    ensures WellFormed(NtfsLayout)
  {
    NtfsName();
    NtfsLabel();
    NtfsGap1();
    NtfsUuid();
    NtfsGap3();
    NtfsPart();
  }

  /** No mount-table line starting with `/dev/sda2` leaves it unmounted. */
  lemma Sda2Unmounted(table: seq<string>)
    requires forall i :: 0 <= i < |table| ==> !IsPrefix("/dev/sda2", table[i])
    ensures !CheckMount(table, "/dev/sda2")
  {
  }

  /** The NTFS line gives its label, type `ntfs` and the partuuid that closes
      the line, and is not mounted when no mount-table line starts with
      `/dev/sda2`. */
  lemma NtfsLineParses(table: seq<string>)
    requires forall i :: 0 <= i < |table| ==> !IsPrefix("/dev/sda2", table[i])
    ensures Parse(NtfsLine, table)
         == Ok(Blkid("/dev/sda2", "\U{7CFB}\U{7EDF}", "F4C41C2EC41BF21A", "ntfs",
                     "15565c7f-ea2b-41ed-b159-fe00ad7991f0", false))
  {
    NtfsWellFormed();
    Sda2Unmounted(table);
    ParseLayout(NtfsLayout, table);
  }

  /** A labelled NTFS record, mounted or not. */
  function SysRecord(mounted: bool): Blkid {
    Blkid("/dev/sda2", "SYS", "ABC-123", "ntfs", "xyz", mounted)
  }

  /** The line `blkid -d` prints for it. */
  const SysLine: string := FormatLine(SysRecord(false))

  /** A line with neither a uuid nor a type. */
  const KeylessLine: string := "/dev/sdx1: BLOCK_SIZE=\"512\""

  /** The labelled record's fields can be printed and read back. */
  lemma SysPrintable(mounted: bool)
    ensures Printable(SysRecord(mounted))
  {
    SysFields();
  }

  /** The mount flag does not show in the printed line. */
  lemma SysLineIsPrinted(mounted: bool)
    ensures FormatLine(SysRecord(mounted)) == SysLine
  {
    assert LayoutOf(SysRecord(mounted)) == LayoutOf(SysRecord(false));
  }

  /** The labelled line is the printed form of its record, so it parses back
      to it, stamped with whether `/dev/sda2` starts a mount-table line. */
  lemma SysLineParses(table: seq<string>)
    ensures Parse(SysLine, table) == Ok(SysRecord(CheckMount(table, "/dev/sda2")))
  {
    var b := SysRecord(CheckMount(table, "/dev/sda2"));
    SysPrintable(b.isMount);
    SysLineIsPrinted(b.isMount);
    FormatLineRoundTrip(b, table);
  }

  /** The keyless line has no `U`, so no `UUID="`, and fails. */
  lemma KeylessLineFails(table: seq<string>)
    ensures Parse(KeylessLine, table) == Err(BlkidError("no match: " + KeylessLine))
  {
    Keyless();
    NoneInSlice(KeylessLine, 'U', 0, |KeylessLine|);
    NoAtWithoutFirstChar(KeylessLine, UuidKey, 0, |KeylessLine|);
    NoUuidThenTypeFails(KeylessLine, table);
  }

  /** Neither line holds a newline. */
  lemma NoNewlineInLines()
    ensures '\n' !in KeylessLine && '\n' !in SysLine
  {
    Keyless();
    SysPrintable(false);
    SysLineIsPrinted(false);
    CleanAfterName(LayoutOf(SysRecord(false)));
  }

  /** The output of the two lines is their newline join. */
  lemma MixedOutputLines()
    ensures Join([KeylessLine, SysLine], '\n') == KeylessLine + "\n" + SysLine
  {
    assert [KeylessLine, SysLine][1..] == [SysLine];
  }

  /** Of two lines, a rejected one and an accepted one, only the accepted
      one's record is kept. */
  lemma BuildRejectedThenAccepted(x: string, y: string, table: seq<string>, b: Blkid)
    requires Parse(x, table).Err? && Parse(y, table) == Ok(b)
    ensures Build([x, y], table) == [b]
  {
    BuildCons(x, [y], table);
    BuildCons(y, [], table);
    assert [x] + [y] == [x, y];
    assert [y] + [] == [y];
  }

  /** The records of the two lines: the keyless one is dropped. */
  lemma MixedBuild(table: seq<string>)
    ensures Build([KeylessLine, SysLine], table) == [SysRecord(CheckMount(table, "/dev/sda2"))]
  {
    KeylessLineFails(table);
    SysLineParses(table);
    BuildRejectedThenAccepted(KeylessLine, SysLine, table, SysRecord(CheckMount(table, "/dev/sda2")));
  }

  /** An output of the keyless line and the labelled line holds one record:
      the labelled one. */
  lemma MixedOutputKeepsOneRecord(table: seq<string>)
    ensures New(KeylessLine + "\n" + SysLine, table).blkids
         == [SysRecord(CheckMount(table, "/dev/sda2"))]
  {
    NoNewlineInLines();
    MixedOutputLines();
    NewOfLines([KeylessLine, SysLine], table);
    MixedBuild(table);
  }

  /** With `/dev/sda2` unmounted the record is offered for mounting by label
      and found under `SYS`; with it mounted it is neither. */
  lemma SysRecordSelection(table: seq<string>)
    ensures var reg := New(KeylessLine + "\n" + SysLine, table).blkids;
      && (!CheckMount(table, "/dev/sda2") ==>
            Filter(reg, Mountable) == reg
            && FirstWith(reg, PicksLabel("SYS")) == Some(SysRecord(false)))
      && (CheckMount(table, "/dev/sda2") ==>
            Filter(reg, Mountable) == []
            && FirstWith(reg, PicksLabel("SYS")) == None)
  {
    MixedOutputKeepsOneRecord(table);
    var reg := New(KeylessLine + "\n" + SysLine, table).blkids;
    assert reg[1..] == [];
  }
}
