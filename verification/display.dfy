/** The text `Display` gives a `Blkid` and a `BlkidList`, and readers that
    take that text apart again. */
module Display {
  import opened Results
  import opened Text
  import opened Records
  import opened Registry
  import opened Seqs

  /** How Rust prints a `bool`. */
  function BoolText(v: bool): string {
    if v then "true" else "false"
  }

  /** The fields a row prints, in order, as text. */
  function Fields(b: Blkid): seq<string> {
    [b.name, b.fsLabel, b.uuid, b.dType, b.partuuid, BoolText(b.isMount)]
  }

  /** `Display for Blkid`: the fields with a tab between neighbours, then a
      newline. */
  function RowText(b: Blkid): (row: string)
    ensures |row| > 0 && row[|row| - 1] == '\n'
  {
    Join(Fields(b), '\t') + "\n"
  }

  /** The fixed header line of `Display for BlkidList`. */
  const Header: string := "Name     |Label    |UUID     |Type     |PartUUID |IsMount  |\n"

  /** A record's row and the extra newline `writeln!` adds after it. */
  function RowBlock(b: Blkid): string {
    RowText(b) + "\n"
  }

  /** The records' rows, each followed by a blank line. */
  function Rows(s: seq<Blkid>): string {
    Flatten(s, RowBlock)
  }

  /** The first record's row, a blank line, and the rows of the rest. */
  lemma RowsHead(s: seq<Blkid>)
    requires |s| > 0
    ensures Rows(s) == RowText(s[0]) + ("\n" + Rows(s[1..]))
  {
    assert Rows(s) == RowBlock(s[0]) + Rows(s[1..]);
  }

  /** `Display for BlkidList`. */
  function ListText(list: BlkidList): (text: string)
    ensures IsPrefix(Header, text)
  {
    Header + Rows(list.blkids)
  }

  /** A record whose text fields hold neither a tab nor a newline, so that its
      row can be cut back into them. */
  predicate Displayable(b: Blkid) {
    && '\t' !in b.name && '\t' !in b.fsLabel && '\t' !in b.uuid
    && '\t' !in b.dType && '\t' !in b.partuuid
    && '\n' !in b.name && '\n' !in b.fsLabel && '\n' !in b.uuid
    && '\n' !in b.dType && '\n' !in b.partuuid
  }

  /** Reads one row back: the text before the final newline, cut at tabs into
      five fields and a mount flag. */
  function ReadRow(row: string): Option<Blkid>
  {
    if |row| == 0 || row[|row| - 1] != '\n' then None
    else
      var parts := Split(row[..|row| - 1], '\t');
      if |parts| != 6 || (parts[5] != "true" && parts[5] != "false") then None
      else
        Some(Blkid(parts[0], parts[1], parts[2], parts[3], parts[4], parts[5] == "true"))
  }

  /** Whatever the row reader accepts is the row of the record it returns. */
  lemma ReadRowSound(row: string)
    ensures ReadRow(row).Some? ==> RowText(ReadRow(row).value) == row
  {
    if ReadRow(row).Some? {
      var b := ReadRow(row).value;
      var parts := Split(row[..|row| - 1], '\t');
      SplitJoins(row[..|row| - 1], '\t');
      assert Fields(b) == parts;
      assert row == row[..|row| - 1] + "\n";
    }
  }

  /** A displayable record's row reads back as the record. */
  lemma ReadRowRoundTrip(b: Blkid)
    requires Displayable(b)
    ensures ReadRow(RowText(b)) == Some(b)
  {
    var row := RowText(b);
    var f := Fields(b);
    assert row[..|row| - 1] == Join(f, '\t');
    assert forall k :: 0 <= k < |f| ==> '\t' !in f[k];
    SplitUnique(f, '\t');
  }

  /** The newline ending a displayable record's row is its only one. */
  lemma RowHasOneNewline(b: Blkid)
    requires Displayable(b)
    ensures NoneIn(RowText(b), '\n', 0, |RowText(b)| - 1)
  {
    var row := RowText(b);
    var f := Fields(b);
    JoinKeeps(f, '\t', '\n');
    NoneInFront(row, 0, Join(f, '\t'), "\n", '\n');
  }

  /** Reads the rows back: each row up to its newline, then the blank line. */
  function ReadRows(t: string): Option<seq<Blkid>>
    decreases |t|
  {
    if |t| == 0 then Some([])
    else
      var i := FindChar(t, '\n', 0);
      if i + 1 < |t| && t[i + 1] == '\n' then
        match ReadRow(t[..i + 1])
        case None => None
        case Some(b) =>
          match ReadRows(t[i + 2..])
          case None => None
          case Some(rest) => Some([b] + rest)
      else None
  }

  /** A row, the blank line and the rows after it are the rows of the
      longer run. */
  lemma RowsCons(t: string, i: nat, b: Blkid, rest: seq<Blkid>)
    requires i + 1 < |t| && t[i + 1] == '\n'
    requires RowText(b) == t[..i + 1] && Rows(rest) == t[i + 2..]
    ensures Rows([b] + rest) == t
  {
    assert ([b] + rest)[1..] == rest;
    RowsHead([b] + rest);
    assert t == t[..i + 1] + ("\n" + t[i + 2..]);
  }

  /** Whatever the row reader accepts is the rows text of the records it
      returns. */
  lemma {:induction false} ReadRowsSound(t: string)
    ensures ReadRows(t).Some? ==> Rows(ReadRows(t).value) == t
    decreases |t|
  {
    if |t| > 0 && ReadRows(t).Some? {
      var i := FindChar(t, '\n', 0);
      var b, rest := ReadRow(t[..i + 1]).value, ReadRows(t[i + 2..]).value;
      ReadRowSound(t[..i + 1]);
      ReadRowsSound(t[i + 2..]);
      RowsCons(t, i, b, rest);
    }
  }

  /** The row reader finds the first newline where a row ends whose only
      newline is its last character. */
  lemma FirstNewline(row: string, t: string)
    requires |row| > 0 && row[|row| - 1] == '\n' && NoneIn(row, '\n', 0, |row| - 1)
    ensures var whole := row + ("\n" + t);
      && FindChar(whole, '\n', 0) == |row| - 1 && |row| < |whole| && whole[|row|] == '\n'
      && whole[..|row|] == row && whole[|row| + 1..] == t
  {
    var whole := row + ("\n" + t);
    var i := FindChar(whole, '\n', 0);
    assert whole[|row| - 1] == '\n';
    assert i == |row| - 1 by {
      assert whole[i] == '\n' || i == |whole|;
    }
    assert whole[|row|..] == "\n" + t;
    assert whole[|row|] == whole[|row|..][0];
    assert whole[|row| + 1..] == whole[|row|..][1..];
  }

  /** The row reader's step, where the first newline ends `row` and is
      followed by a blank line. */
  lemma ReadRowsAt(t: string, row: string, b: Blkid, rest: seq<Blkid>)
    requires |row| > 0 && FindChar(t, '\n', 0) == |row| - 1
    requires |row| < |t| && t[|row|] == '\n' && t[..|row|] == row
    requires ReadRow(row) == Some(b) && ReadRows(t[|row| + 1..]) == Some(rest)
    ensures ReadRows(t) == Some([b] + rest)
  {
  }

  /** One step of the row reader: a row whose only newline ends it, a blank
      line, then the rows after it. */
  lemma ReadRowsStep(row: string, t: string, b: Blkid, rest: seq<Blkid>)
    requires |row| > 0 && row[|row| - 1] == '\n' && NoneIn(row, '\n', 0, |row| - 1)
    requires ReadRow(row) == Some(b) && ReadRows(t) == Some(rest)
    ensures ReadRows(row + ("\n" + t)) == Some([b] + rest)
  {
    FirstNewline(row, t);
    ReadRowsAt(row + ("\n" + t), row, b, rest);
  }

  /** The rows of displayable records read back as the records. */
  lemma {:induction false} ReadRowsRoundTrip(s: seq<Blkid>)
    requires forall k :: 0 <= k < |s| ==> Displayable(s[k])
    ensures ReadRows(Rows(s)) == Some(s)
  {
    if |s| > 0 {
      RowsHead(s);
      RowHasOneNewline(s[0]);
      ReadRowRoundTrip(s[0]);
      ReadRowsRoundTrip(s[1..]);
      ReadRowsStep(RowText(s[0]), Rows(s[1..]), s[0], s[1..]);
      assert [s[0]] + s[1..] == s;
    }
  }

  /** Reads a whole listing: the header, then the rows. */
  function ReadList(text: string): (r: Option<BlkidList>)
    ensures r.Some? ==> ListText(r.value) == text
  {
    if !IsPrefix(Header, text) then None
    else
      match ReadRows(text[|Header|..])
      case None => None
      case Some(s) =>
        ReadRowsSound(text[|Header|..]);
        assert text == Header + text[|Header|..];
        Some(BlkidList(s))
  }

  /** A listing of displayable records reads back as the registry. */
  lemma ReadListRoundTrip(list: BlkidList)
    requires forall k :: 0 <= k < |list.blkids| ==> Displayable(list.blkids[k])
    ensures ReadList(ListText(list)) == Some(list)
  {
    var text := ListText(list);
    assert text[|Header|..] == Rows(list.blkids);
    ReadRowsRoundTrip(list.blkids);
  }

  /** The rows of two runs of records are the rows of each, in order. */
  lemma {:induction false} RowsAppend(a: seq<Blkid>, b: seq<Blkid>)
    ensures Rows(a + b) == Rows(a) + Rows(b)
  {
    FlattenAppend(a, b, RowBlock);
  }

  /** Every record's row appears in the listing, after the rows of the records
      before it and followed by the blank line and the rows after it. */
  lemma RowInPlace(list: BlkidList, k: nat)
    requires k < |list.blkids|
    ensures var s := list.blkids;
      ListText(list) == Header + Rows(s[..k]) + (RowText(s[k]) + ("\n" + Rows(s[k + 1..])))
  {
    var s := list.blkids;
    assert s == s[..k] + s[k..];
    RowsAppend(s[..k], s[k..]);
    RowsHead(s[k..]);
    assert s[k..][0] == s[k] && s[k..][1..] == s[k + 1..];
  }
}
