/** `check_mount`: whether a device path counts as mounted, decided against the
    lines of the mount table. The table is an input here; reading
    `/proc/mounts` is left to the caller. */
module MountTable {
  import opened Text

  /** The device path, as the first whitespace-delimited field of a mount
      table line: the text up to the first space or tab. */
  function FirstField(line: string): (field: string)
    ensures IsPrefix(field, line)
    ensures ' ' !in field && '\t' !in field
    ensures |field| == |line| || line[|field|] == ' ' || line[|field|] == '\t'
  {
    if |line| == 0 || line[0] == ' ' || line[0] == '\t' then ""
    else [line[0]] + FirstField(line[1..])
  }

  /** `check_mount(device)`: the pattern `^device.*` is tried on every line,
      which (for a path without regular-expression metacharacters) is a bare
      prefix test on the line, not a comparison of its first field. */
  function CheckMount(table: seq<string>, device: string): (mounted: bool)
    ensures mounted <==> exists i :: 0 <= i < |table| && IsPrefix(device, table[i])
    decreases |table|
  {
    if |table| == 0 then false
    else if IsPrefix(device, table[0]) then
      assert IsPrefix(device, table[0]);
      true
    else
      var rest := CheckMount(table[1..], device);
      assert forall i :: 1 <= i < |table| ==> table[i] == table[1..][i - 1];
      rest
  }

  /** A device listed by its own path in the table is reported mounted. */
  lemma {:induction false} ListedDeviceIsMounted(table: seq<string>, device: string, i: nat)
    requires i < |table| && FirstField(table[i]) == device
    ensures CheckMount(table, device)
  {
    assert IsPrefix(device, table[i]);
  }

  /** Because the test is a bare prefix, a device also counts as mounted when
      only a longer path that begins with it is in the table:
      `/dev/sda1` is reported mounted by a line for `/dev/sda10`. */
  lemma PrefixOfLongerPathCountsAsMounted()
    ensures FirstField("/dev/sda10 /data ext4 rw 0 0") != "/dev/sda1"
    ensures CheckMount(["/dev/sda10 /data ext4 rw 0 0"], "/dev/sda1")
  {
    var line := "/dev/sda10 /data ext4 rw 0 0";
    assert IsPrefix("/dev/sda1", line) by {
      assert line[..9] == "/dev/sda1";
    }
    assert FirstField(line) == "/dev/sda10" by {
      assert line[10] == ' ';
      FirstFieldUpToBlank(line, 10);
    }
  }

  /** The first field is the text before the first blank. */
  lemma {:induction false} FirstFieldUpToBlank(line: string, n: nat)
    requires n < |line| && (line[n] == ' ' || line[n] == '\t')
    requires forall k :: 0 <= k < n ==> line[k] != ' ' && line[k] != '\t'
    ensures FirstField(line) == line[..n]
    decreases n
  {
    if n > 0 {
      FirstFieldUpToBlank(line[1..], n - 1);
      assert line[..n] == [line[0]] + line[1..][..n - 1];
    }
  }

  /** The empty path is a prefix of every line: it is mounted exactly when the
      table has a line at all. */
  lemma EmptyPathMountedIffTableNonEmpty(table: seq<string>)
    ensures CheckMount(table, "") <==> |table| > 0
  {
    if |table| > 0 {
      assert IsPrefix("", table[0]);
    }
  }
}
