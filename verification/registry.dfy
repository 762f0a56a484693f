/** `BlkidList`: the registry of devices built from the whole `blkid -d`
    output, and the two queries the mounting tool asks of it. */
module Registry {
  import opened Results
  import opened Text
  import opened Seqs
  import opened MountTable
  import opened BlkidLine
  import opened Records

  datatype BlkidList = BlkidList(blkids: seq<Blkid>)

  /** `Blkid::new` against a fixed mount table, as a value to map with. */
  function ParseWith(table: seq<string>): string -> Result<Blkid, UtilsError> {
    (line: string) => Parse(line, table)
  }

  /** The records of the lines `Blkid::new` accepts, in line order; the other
      lines leave no trace. */
  function Build(lines: seq<string>, table: seq<string>): (reg: seq<Blkid>)
    ensures |reg| <= |lines|
    ensures forall k :: 0 <= k < |reg| ==> reg[k].isMount == CheckMount(table, reg[k].name)
  {
    var reg := KeepOk(lines, ParseWith(table));
    assert forall k :: 0 <= k < |reg| ==> exists i :: 0 <= i < |lines| && Parse(lines[i], table) == Ok(reg[k]);
    reg
  }

  /** `BlkidList::new`: the output split on every newline, each piece parsed
      with the mount table given. */
  function New(output: string, table: seq<string>): (list: BlkidList)
    ensures |list.blkids| <= |Split(output, '\n')|
    ensures forall b :: b in list.blkids ==> b.isMount == CheckMount(table, b.name)
  {
    BlkidList(Build(Split(output, '\n'), table))
  }

  /** `Build` holds the parses of `Filter(lines, Parses)`, one for one. */
  lemma BuildParsesKeptLines(lines: seq<string>, table: seq<string>)
    ensures var reg, kept := Build(lines, table), Filter(lines, Parses);
      |reg| == |kept| && forall k :: 0 <= k < |reg| ==> Parse(kept[k], table) == Ok(reg[k])
  {
    var f := ParseWith(table);
    KeepOkOfFilter(lines, f);
    forall line
      ensures Accepts(f)(line) == Parses(line)
    {
    }
    FilterSame(lines, Accepts(f), Parses);
  }

  /** The registry holds, in order and once each, the records of exactly the
      lines of the output that `Blkid::new` accepts: the `k`-th record comes
      from the `k`-th accepted line. */
  lemma NewKeepsParsingLines(output: string, table: seq<string>)
    ensures var lines, reg := Split(output, '\n'), New(output, table).blkids;
      var idx := Indices(lines, Parses);
      && Increasing(idx)
      && (forall i :: i in idx <==> 0 <= i < |lines| && Parses(lines[i]))
      && |reg| == |idx|
      && forall k :: 0 <= k < |reg| ==> Parse(lines[idx[k]], table) == Ok(reg[k])
  {
    var lines := Split(output, '\n');
    BuildParsesKeptLines(lines, table);
    FilterAtIndices(lines, Parses);
  }

  /** Building from two runs of lines concatenates their registries. */
  lemma BuildAppend(a: seq<string>, b: seq<string>, table: seq<string>)
    ensures Build(a + b, table) == Build(a, table) + Build(b, table)
  {
    KeepOkAppend(a, b, ParseWith(table));
  }

  /** The first line contributes its record, if it parses, ahead of the
      records of the lines after it. */
  lemma BuildCons(line: string, lines: seq<string>, table: seq<string>)
    ensures Build([line] + lines, table)
         == (match Parse(line, table) case Ok(b) => [b] case Err(_) => []) + Build(lines, table)
  {
    KeepOkCons(line, lines, ParseWith(table));
  }

  /** A line `Blkid::new` rejects changes nothing about the others. */
  lemma BuildSkipsFailing(a: seq<string>, line: string, b: seq<string>, table: seq<string>)
    requires !Parses(line)
    ensures Build(a + [line] + b, table) == Build(a + b, table)
  {
    KeepOkSkips(a, line, b, ParseWith(table));
  }

  /** A trailing newline yields an empty last line, which fails to parse, so
      the registry is the same with or without it. */
  lemma NewIgnoresTrailingNewline(output: string, table: seq<string>)
    ensures New(output + "\n", table) == New(output, table)
  {
    SplitTrailingSeparator(output, '\n');
    BuildAppend(Split(output, '\n'), [""], table);
    NoColonOrNewlineFails("", table);
    assert Build([""], table) == [];
  }

  /** Lines joined by newlines come back as the same lines. */
  lemma NewOfLines(lines: seq<string>, table: seq<string>)
    requires |lines| >= 1 && forall k :: 0 <= k < |lines| ==> '\n' !in lines[k]
    ensures New(Join(lines, '\n'), table).blkids == Build(lines, table)
  {
    SplitUnique(lines, '\n');
  }

  /** What `get_label_device` keeps: a labelled device that is not mounted. */
  predicate Mountable(b: Blkid) {
    |b.fsLabel| > 0 && !b.isMount
  }

  /** What `find_device` looks for: a labelled, unmounted device with label `l`. */
  predicate Picks(l: string, b: Blkid) {
    |b.fsLabel| > 0 && b.fsLabel == l && !b.isMount
  }

  /** `Picks` and a label test, as values to select with. */
  function PicksLabel(l: string): Blkid -> bool {
    (b: Blkid) => Picks(l, b)
  }

  function HasLabel(l: string): Blkid -> bool {
    (b: Blkid) => b.fsLabel == l
  }

  /** Picking among all records is picking among those `get_label_device`
      keeps, by label alone. */
  lemma PickIsFirstLabelDevice(s: seq<Blkid>, l: string)
    ensures FirstWith(s, PicksLabel(l)) == FirstWith(Filter(s, Mountable), HasLabel(l))
  {
    FirstWithOfFilter(s, Mountable, HasLabel(l), PicksLabel(l));
  }

  /** `get_label_device`: the labelled, unmounted records, in registry order. */
  method GetLabelDevice(list: BlkidList) returns (res: seq<Blkid>)
    ensures res == Filter(list.blkids, Mountable)
    ensures forall b :: b in res <==> b in list.blkids && Mountable(b)
    ensures var idx := Indices(list.blkids, Mountable);
      |res| == |idx| && forall k :: 0 <= k < |res| ==> res[k] == list.blkids[idx[k]]
  {
    var s := list.blkids;
    res := [];
    for i := 0 to |s|
      invariant res == Filter(s[..i], Mountable)
    {
      var item := s[i];
      assert s[..i + 1] == s[..i] + [item];
      FilterAppend(s[..i], [item], Mountable);
      assert [item][1..] == [];
      if !item.isMount && |item.fsLabel| > 0 {
        res := res + [item];
      }
    }
    assert s[..|s|] == s;
    FilterAtIndices(s, Mountable);
  }

  /** `find_device`: the first labelled, unmounted record whose label is `l`.
      It is the first record of `get_label_device` with that label. */
  method FindDevice(list: BlkidList, l: string) returns (r: Option<Blkid>)
    ensures r == FirstWith(list.blkids, PicksLabel(l))
    ensures r == FirstWith(Filter(list.blkids, Mountable), HasLabel(l))
    ensures r.Some? ==> r.value in list.blkids && r.value.fsLabel == l && !r.value.isMount
    ensures r.None? <==> forall b :: b in list.blkids ==> !Picks(l, b)
    ensures l == "" ==> r.None?
  {
    var s := list.blkids;
    PickIsFirstLabelDevice(s, l);
    for i := 0 to |s|
      invariant forall j :: 0 <= j < i ==> !Picks(l, s[j])
    {
      var item := s[i];
      if |item.fsLabel| > 0 && item.fsLabel == l && !item.isMount {
        FirstWithAt(s, PicksLabel(l), i);
        return Some(item);
      }
    }
    return None;
  }
}
