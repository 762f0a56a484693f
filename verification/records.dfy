/** The `Blkid` record and `Blkid::new`, which turns one `blkid -d` line into
    a record and stamps it with the mount state at parse time. */
module Records {
  import opened Results
  import opened Text
  import opened MountTable
  import opened BlkidLine

  /** One device as `blkid -d` reports it. `fsLabel` is the source's `label`
      (a reserved word here) and `dType` its `d_type`. */
  datatype Blkid = Blkid(name: string, fsLabel: string, uuid: string,
                         dType: string, partuuid: string, isMount: bool)

  /** The parse-error case of the source's `UtilsError`. */
  datatype UtilsError = BlkidError(message: string)

  /** The value inside a quoted span. */
  function Value(line: string, sp: Span): string
    requires sp.start <= sp.end <= |line|
  {
    line[sp.start..sp.end]
  }

  /** The record a match describes: the capture groups, an absent optional
      group read as `""`, and the mount state of the name. */
  function FromMatch(line: string, m: Match, table: seq<string>): Blkid
    requires IsMatch(line, m)
  {
    var name := line[..m.colon];
    Blkid(name,
          if m.labelSpan.Some? then Value(line, m.labelSpan.value) else "",
          Value(line, m.uuid),
          Value(line, m.dType),
          if m.partuuid.Some? then Value(line, m.partuuid.value) else "",
          CheckMount(table, name))
  }

  /** `Blkid::new`, with the mount table the source reads from `/proc/mounts`
      passed in. A line fails exactly when the expression does not match it,
      and then with `BlkidError("no match: <line>")`; otherwise the record
      holds the groups of the match the engine prefers. */
  function Parse(line: string, table: seq<string>): (r: Result<Blkid, UtilsError>)
    ensures r.Ok? <==> exists m :: IsMatch(line, m)
    ensures r.Err? ==> r.error == BlkidError("no match: " + line)
    ensures r.Ok? ==> exists m :: IsMatch(line, m) && Preferred(line, m) && r.value == FromMatch(line, m, table)
    ensures r.Ok? ==> r.value.isMount == CheckMount(table, r.value.name)
  {
    match Scan(line)
    case None => Err(BlkidError("no match: " + line))
    case Some(m) => Ok(FromMatch(line, m, table))
  }

  /** Whether `Blkid::new` accepts the line; it does not depend on the mount
      table. */
  predicate Parses(line: string) {
    Scan(line).Some?
  }

  /** The name is everything before a colon of the line. */
  lemma ParsedName(line: string, table: seq<string>)
    requires Parse(line, table).Ok?
    ensures var b := Parse(line, table).value;
      |b.name| < |line| && line[|b.name|] == ':' && b.name == line[..|b.name|]
  {
  }

  /** The spaces after the colon of a preferred match run to `SpacesEnd`. */
  lemma PreferredBody(line: string, m: Match)
    requires IsMatch(line, m) && Preferred(line, m)
    ensures m.body == SpacesEnd(line, m.colon + 1)
  {
  }

  /** A parsed record has a non-empty label only when `LABEL="` comes right
      after the colon and the spaces that follow it, and the label then holds
      no quote. */
  lemma LabelOnlyAfterColon(line: string, table: seq<string>)
    requires Parse(line, table).Ok?
    ensures var b := Parse(line, table).value;
      b.fsLabel != "" ==>
        |b.name| < |line| && At(line, SpacesEnd(line, |b.name| + 1), LabelKey) && Quote !in b.fsLabel
  {
    var m := Scan(line).value;
    LabelOfMatch(line, m, table);
  }

  /** The same, for the record of the preferred match. */
  lemma LabelOfMatch(line: string, m: Match, table: seq<string>)
    requires IsMatch(line, m) && Preferred(line, m)
    ensures var b := FromMatch(line, m, table);
      b.fsLabel != "" ==>
        |b.name| < |line| && At(line, SpacesEnd(line, |b.name| + 1), LabelKey) && Quote !in b.fsLabel
  {
    if m.labelSpan.Some? {
      PreferredBody(line, m);
      var ls := m.labelSpan.value;
      NoneInSlice(line, Quote, ls.start, ls.end);
    }
  }

  /** A parsed record has a non-empty partuuid only when the line ends in a
      quote and a `PARTUUID="` opens it; it then runs from there to the final
      quote. */
  lemma PartuuidOnlyWhenItClosesTheLine(line: string, table: seq<string>)
    requires Parse(line, table).Ok?
    ensures var b := Parse(line, table).value;
      b.partuuid != "" ==>
        exists k: nat :: At(line, k, PartUuidKey) && k + |PartUuidKey| < |line|
                    && line[|line| - 1] == Quote
                    && b.partuuid == line[k + |PartUuidKey|..|line| - 1]
  {
    var m := Scan(line).value;
    PartuuidOfMatch(line, m, table);
  }

  /** The same, for the record of any match. */
  lemma PartuuidOfMatch(line: string, m: Match, table: seq<string>)
    requires IsMatch(line, m)
    ensures var b := FromMatch(line, m, table);
      b.partuuid != "" ==>
        exists k: nat :: At(line, k, PartUuidKey) && k + |PartUuidKey| < |line|
                    && line[|line| - 1] == Quote
                    && b.partuuid == line[k + |PartUuidKey|..|line| - 1]
  {
    if m.partuuid.Some? {
      var k := m.partuuid.value.start - |PartUuidKey|;
      assert At(line, k, PartUuidKey) && k + |PartUuidKey| < |line|;
    }
  }

  /** The uuid and type values never contain a quote: each ends at the first
      quote after its key. */
  lemma UuidAndTypeHoldNoQuote(line: string, table: seq<string>)
    requires Parse(line, table).Ok?
    ensures Quote !in Parse(line, table).value.uuid
    ensures Quote !in Parse(line, table).value.dType
  {
    var m := Scan(line).value;
    var b := Parse(line, table).value;
    assert b == FromMatch(line, m, table);
    NoneInSlice(line, Quote, m.uuid.start, m.uuid.end);
    NoneInSlice(line, Quote, m.dType.start, m.dType.end);
  }

  /** A line with no `UUID="` followed (after at least its closing quote) by a
      `TYPE="` is rejected with `BlkidError("no match: <line>")`. */
  lemma NoUuidThenTypeFails(line: string, table: seq<string>)
    requires forall i: nat, j: nat :: At(line, i, UuidKey) && At(line, j, TypeKey) ==> j <= i + |UuidKey|
    ensures Parse(line, table) == Err(BlkidError("no match: " + line))
  {
  }

  /** A line without a colon, or with a newline in it, is rejected. */
  lemma NoColonOrNewlineFails(line: string, table: seq<string>)
    requires ':' !in line || '\n' in line
    ensures Parse(line, table) == Err(BlkidError("no match: " + line))
  {
  }
}
