/** `blkid -d` lines assembled from their parts, and what `Blkid::new` makes of
    them. This is the forward direction of the parser: whoever writes a line in
    this shape gets its parts back. */
module LineLayout {
  import opened Results
  import opened Text
  import opened MountTable
  import opened BlkidLine
  import opened Records

  /** A line `name: [LABEL="l"]<gap1>UUID="u"<gap2>TYPE="t"<gap3>[PARTUUID="p"]`.
      The gaps hold whatever else `blkid` prints between the keys, such as
      ` BLOCK_SIZE="512" `. */
  datatype Layout = Layout(name: string, fsLabel: Option<string>, gap1: string,
                           uuid: string, gap2: string, dType: string, gap3: string,
                           partuuid: Option<string>)

  function LabelGroup(l: Option<string>): string {
    if l.Some? then LabelKey + (l.value + [Quote]) else ""
  }

  function PartGroup(p: Option<string>): string {
    if p.Some? then PartUuidKey + (p.value + [Quote]) else ""
  }

  /** The line, written right-nested so that each part is followed by the
      rest of the line: the text after the type's closing quote, after the
      type key, after the uuid's closing quote, after the uuid key, and after
      the name. */
  function AfterTypeQuote(lay: Layout): string {
    lay.gap3 + PartGroup(lay.partuuid)
  }

  function AfterTypeKey(lay: Layout): string {
    lay.dType + ([Quote] + AfterTypeQuote(lay))
  }

  function AfterUuidQuote(lay: Layout): string {
    lay.gap2 + (TypeKey + AfterTypeKey(lay))
  }

  function AfterUuidKey(lay: Layout): string {
    lay.uuid + ([Quote] + AfterUuidQuote(lay))
  }

  function AfterSpaces(lay: Layout): string {
    LabelGroup(lay.fsLabel) + (lay.gap1 + (UuidKey + AfterUuidKey(lay)))
  }

  function LineOf(lay: Layout): string {
    lay.name + (": " + AfterSpaces(lay))
  }

  /** No colon and no newline. */
  predicate Clean(s: string) {
    ':' !in s && '\n' !in s
  }

  /** The parts of a layout that the expression reads back unchanged: one
      colon (the one after the name), no newline, label, uuid and type values
      without quotes, and gaps that cannot hold an earlier key of the kind
      that follows them. */
  predicate WellFormed(lay: Layout) {
    && Clean(lay.name) && Clean(lay.gap1) && Clean(lay.uuid) && Clean(lay.gap2)
    && Clean(lay.dType) && Clean(lay.gap3)
    && (lay.fsLabel.Some? ==> Clean(lay.fsLabel.value) && Quote !in lay.fsLabel.value)
    && (lay.partuuid.Some? ==> Clean(lay.partuuid.value))
    && (lay.fsLabel.None? ==> lay.gap1 == [] || (lay.gap1[0] != ' ' && lay.gap1[0] != 'L'))
    && 'U' !in lay.gap1 && Quote !in lay.uuid
    && 'T' !in lay.gap2 && Quote !in lay.dType
    && 'U' !in lay.gap3
  }

  /** Offsets of the parts in the line. */
  function Body(lay: Layout): nat { |lay.name| + 2 }
  function UuidKeyAt(lay: Layout): nat { Body(lay) + |LabelGroup(lay.fsLabel)| + |lay.gap1| }
  function TypeKeyAt(lay: Layout): nat { UuidKeyAt(lay) + |UuidKey| + |lay.uuid| + 1 + |lay.gap2| }
  function PartKeyAt(lay: Layout): nat { TypeKeyAt(lay) + |TypeKey| + |lay.dType| + 1 + |lay.gap3| }

  /** The match of a well-formed layout line that the engine prefers. */
  function Expected(lay: Layout): Match {
    var body := Body(lay);
    var uk := UuidKeyAt(lay);
    var tk := TypeKeyAt(lay);
    var pk := PartKeyAt(lay);
    Match(|lay.name|, body,
          if lay.fsLabel.Some? then Some(Span(body + |LabelKey|, body + |LabelKey| + |lay.fsLabel.value|)) else None,
          Span(uk + |UuidKey|, uk + |UuidKey| + |lay.uuid|),
          Span(tk + |TypeKey|, tk + |TypeKey| + |lay.dType|),
          if lay.partuuid.Some? then Some(Span(pk + |PartUuidKey|, pk + |PartUuidKey| + |lay.partuuid.value|)) else None)
  }

  /** The text after the spaces, after the uuid key, after the uuid's quote,
      after the type key, after the type's quote and after the third gap,
      each found from the one before. */
  lemma BodyPosition(lay: Layout)
    ensures var line := LineOf(lay);
      Body(lay) <= |line| && line[Body(lay)..] == AfterSpaces(lay)
  {
    var line := LineOf(lay);
    assert line[0..] == line;
    SuffixAfter(line, 0, lay.name, ": " + AfterSpaces(lay));
    SuffixAfter(line, |lay.name|, ": ", AfterSpaces(lay));
  }

  lemma UuidKeyPosition(lay: Layout)
    ensures var line := LineOf(lay);
      UuidKeyAt(lay) <= |line| && line[UuidKeyAt(lay)..] == UuidKey + AfterUuidKey(lay)
  {
    var line, rest := LineOf(lay), UuidKey + AfterUuidKey(lay);
    BodyPosition(lay);
    SuffixAfter2(line, Body(lay), LabelGroup(lay.fsLabel), lay.gap1, rest);
  }

  lemma UuidQuotePosition(lay: Layout)
    ensures var line, g2 := LineOf(lay), UuidKeyAt(lay) + |UuidKey| + |lay.uuid| + 1;
      g2 <= |line| && line[g2..] == AfterUuidQuote(lay)
  {
    var line, uk := LineOf(lay), UuidKeyAt(lay);
    UuidKeyPosition(lay);
    SuffixAfter2(line, uk, UuidKey, lay.uuid, [Quote] + AfterUuidQuote(lay));
    SuffixAfter(line, uk + |UuidKey| + |lay.uuid|, [Quote], AfterUuidQuote(lay));
  }

  lemma TypeKeyPosition(lay: Layout)
    ensures var line := LineOf(lay);
      TypeKeyAt(lay) <= |line| && line[TypeKeyAt(lay)..] == TypeKey + AfterTypeKey(lay)
  {
    var line, g2 := LineOf(lay), UuidKeyAt(lay) + |UuidKey| + |lay.uuid| + 1;
    UuidQuotePosition(lay);
    SuffixAfter(line, g2, lay.gap2, TypeKey + AfterTypeKey(lay));
  }

  lemma TypeQuotePosition(lay: Layout)
    ensures var line, g3 := LineOf(lay), TypeKeyAt(lay) + |TypeKey| + |lay.dType| + 1;
      g3 <= |line| && line[g3..] == AfterTypeQuote(lay)
  {
    var line, tk := LineOf(lay), TypeKeyAt(lay);
    TypeKeyPosition(lay);
    SuffixAfter2(line, tk, TypeKey, lay.dType, [Quote] + AfterTypeQuote(lay));
    SuffixAfter(line, tk + |TypeKey| + |lay.dType|, [Quote], AfterTypeQuote(lay));
  }

  lemma PartKeyPosition(lay: Layout)
    ensures var line := LineOf(lay);
      && PartKeyAt(lay) <= |line| && line[PartKeyAt(lay)..] == PartGroup(lay.partuuid)
      && |line| == PartKeyAt(lay) + |PartGroup(lay.partuuid)|
  {
    var line, g3 := LineOf(lay), TypeKeyAt(lay) + |TypeKey| + |lay.dType| + 1;
    TypeQuotePosition(lay);
    SuffixAfter(line, g3, lay.gap3, PartGroup(lay.partuuid));
  }

  /** The name, its colon and the space after it. */
  lemma NamePosition(lay: Layout)
    ensures var line := LineOf(lay);
      && |lay.name| + 2 <= |line| && line[..|lay.name|] == lay.name
      && line[|lay.name|] == ':' && line[|lay.name| + 1] == ' '
  {
    var line := LineOf(lay);
    assert line[..|lay.name|] == lay.name;
    assert line[|lay.name|..] == ": " + AfterSpaces(lay);
    assert line[|lay.name|] == line[|lay.name|..][0];
    assert line[|lay.name| + 1] == line[|lay.name|..][1];
  }

  /** After the name, a well-formed line has no colon; it has no newline at all. */
  lemma CleanAfterName(lay: Layout)
    requires WellFormed(lay)
    ensures ':' !in AfterSpaces(lay) && '\n' !in AfterSpaces(lay)
    ensures '\n' !in LineOf(lay)
  {
    assert Clean(PartGroup(lay.partuuid));
    assert Clean(AfterTypeQuote(lay));
    assert Clean(AfterTypeKey(lay));
    assert Clean(AfterUuidQuote(lay));
    assert Clean(AfterUuidKey(lay));
    assert Clean(LabelGroup(lay.fsLabel));
    assert Clean(AfterSpaces(lay));
    assert '\n' !in ": " + AfterSpaces(lay);
  }

  /** The name, its colon and the single space after it. */
  lemma HeadIsMatched(lay: Layout)
    requires WellFormed(lay)
    ensures var line, m := LineOf(lay), Expected(lay);
      && '\n' !in line
      && m.colon < |line| && line[m.colon] == ':'
      && m.colon < m.body <= |line|
      && (forall k :: m.colon < k < m.body ==> line[k] == ' ')
  {
    NamePosition(lay);
    BodyPosition(lay);
    CleanAfterName(lay);
  }

  /** The label group, when there is one, and where the gap after it starts. */
  lemma LabelIsMatched(lay: Layout)
    requires WellFormed(lay)
    ensures var line, m := LineOf(lay), Expected(lay);
      && GapStart(m) == Body(lay) + |LabelGroup(lay.fsLabel)|
      && (m.labelSpan.Some? ==>
            At(line, m.body, LabelKey) && m.labelSpan.value.start == m.body + |LabelKey|
            && Quoted(line, m.labelSpan.value))
  {
    var line, m := LineOf(lay), Expected(lay);
    BodyPosition(lay);
    var body := Body(lay);
    if lay.fsLabel.Some? {
      var l := lay.fsLabel.value;
      AtSuffix2(line, body, LabelKey, l + [Quote], lay.gap1 + (UuidKey + AfterUuidKey(lay)));
      assert line[m.labelSpan.value.end] == Quote by {
        assert line[body..][|LabelKey| + |l|] == Quote;
      }
    }
  }

  /** The uuid key and its value. */
  lemma UuidIsMatched(lay: Layout)
    requires WellFormed(lay)
    ensures Keyed(LineOf(lay), UuidKey, Expected(lay).uuid, GapStart(Expected(lay)))
  {
    var line, m := LineOf(lay), Expected(lay);
    var uk := UuidKeyAt(lay);
    UuidKeyPosition(lay);
    LabelIsMatched(lay);
    AtSuffix(line, uk, UuidKey, AfterUuidKey(lay));
    assert line[m.uuid.end] == Quote by {
      assert line[uk..][|UuidKey| + |lay.uuid|] == Quote;
    }
    KeyedIntro(line, UuidKey, m.uuid, GapStart(m), uk);
  }

  /** The type key and its value. */
  lemma TypeIsMatched(lay: Layout)
    requires WellFormed(lay)
    ensures Keyed(LineOf(lay), TypeKey, Expected(lay).dType, Expected(lay).uuid.end + 1)
  {
    var line, m := LineOf(lay), Expected(lay);
    var tk := TypeKeyAt(lay);
    TypeKeyPosition(lay);
    AtSuffix(line, tk, TypeKey, AfterTypeKey(lay));
    assert line[m.dType.end] == Quote by {
      assert line[tk..][|TypeKey| + |lay.dType|] == Quote;
    }
    KeyedIntro(line, TypeKey, m.dType, m.uuid.end + 1, tk);
  }

  /** The partuuid group, when there is one, closing the line. */
  lemma PartIsMatched(lay: Layout)
    requires WellFormed(lay)
    ensures var line, m := LineOf(lay), Expected(lay);
      m.partuuid.Some? ==>
        Keyed(line, PartUuidKey, m.partuuid.value, m.dType.end + 1)
        && m.partuuid.value.end == |line| - 1
  {
    var line, m := LineOf(lay), Expected(lay);
    var pk := PartKeyAt(lay);
    PartKeyPosition(lay);
    if lay.partuuid.Some? {
      var p := lay.partuuid.value;
      AtSuffix(line, pk, PartUuidKey, p + [Quote]);
      assert line[m.partuuid.value.end] == Quote by {
        assert line[pk..][|PartUuidKey| + |p|] == Quote;
      }
      KeyedIntro(line, PartUuidKey, m.partuuid.value, m.dType.end + 1, pk);
    }
  }

  /** The parts are where `Expected` says: the line matches with them. */
  lemma ExpectedIsMatch(lay: Layout)
    requires WellFormed(lay)
    ensures IsMatch(LineOf(lay), Expected(lay))
  {
    HeadIsMatched(lay);
    LabelIsMatched(lay);
    UuidIsMatched(lay);
    TypeIsMatched(lay);
    PartIsMatched(lay);
  }

  /** Where the name ends the colon is, and no colon comes after it. */
  lemma OnlyColon(lay: Layout)
    requires WellFormed(lay)
    ensures var line := LineOf(lay);
      forall k :: |lay.name| < k < |line| ==> line[k] != ':'
  {
    var line := LineOf(lay);
    NamePosition(lay);
    BodyPosition(lay);
    CleanAfterName(lay);
    forall k | Body(lay) <= k < |line|
      ensures line[k] != ':'
    {
      assert line[k] == AfterSpaces(lay)[k - Body(lay)];
    }
  }

  /** With a label group, the text after the spaces is the label key, the
      label, its closing quote and the rest. */
  lemma LabelPosition(lay: Layout)
    requires lay.fsLabel.Some?
    ensures var line, l := LineOf(lay), lay.fsLabel.value;
      line[Body(lay)..] == LabelKey + (l + ([Quote] + (lay.gap1 + (UuidKey + AfterUuidKey(lay)))))
  {
    BodyPosition(lay);
  }

  /** The colon after the name is the last one, so every match uses it. */
  lemma ColonIsPreferred(lay: Layout)
    requires WellFormed(lay)
    ensures forall m' :: IsMatch(LineOf(lay), m') ==> m'.colon <= Expected(lay).colon
  {
    OnlyColon(lay);
  }

  /** The spaces stop at the label key, the first gap or the uuid key. */
  lemma SpacesArePreferred(lay: Layout)
    requires WellFormed(lay)
    ensures var line, m := LineOf(lay), Expected(lay);
      m.body < |line| && line[m.body] != ' ' && SpacesEnd(line, m.colon + 1) == m.body
      && (line[m.body] == 'L' ==> lay.fsLabel.Some?)
  {
    var line := LineOf(lay);
    BodyPosition(lay);
    assert line[Body(lay)] == line[Body(lay)..][0];
    assert AfterSpaces(lay)[0] != ' ';
    assert AfterSpaces(lay)[0] == 'L' ==> lay.fsLabel.Some?;
  }

  /** Without a label group in the layout no match at its colon has one. */
  lemma NoLabelIsPreferred(lay: Layout)
    requires WellFormed(lay) && lay.fsLabel.None?
    ensures var line, m := LineOf(lay), Expected(lay);
      NoLabelAt(line, m.colon)
  {
    var line, m := LineOf(lay), Expected(lay);
    SpacesArePreferred(lay);
    forall m' | IsMatch(line, m') && m'.colon == m.colon && m'.labelSpan.Some?
      ensures false
    {
      BodyOfMatch(line, m', m.body);
      AtChar(line, m.body, LabelKey, 0);
    }
  }

  /** The label value holds no quote. */
  lemma LabelValueIsPreferred(lay: Layout)
    requires WellFormed(lay)
    ensures var line, m := LineOf(lay), Expected(lay);
      m.labelSpan.Some? ==> NoneIn(line, Quote, m.labelSpan.value.start, m.labelSpan.value.end)
  {
    if lay.fsLabel.Some? {
      var l := lay.fsLabel.value;
      LabelPosition(lay);
      NoneInPiece(LineOf(lay), Body(lay), LabelKey, l,
                  [Quote] + (lay.gap1 + (UuidKey + AfterUuidKey(lay))), Quote);
    }
  }

  /** The uuid key is the first after the label group, and its value holds no quote. */
  lemma UuidIsFirst(lay: Layout)
    requires WellFormed(lay)
    ensures FirstKeyed(LineOf(lay), UuidKey, Expected(lay).uuid, GapStart(Expected(lay)))
  {
    var line, m := LineOf(lay), Expected(lay);
    var uk := UuidKeyAt(lay);
    UuidIsMatched(lay);
    LabelIsMatched(lay);
    BodyPosition(lay);
    UuidKeyPosition(lay);
    NoneInPiece(line, Body(lay), LabelGroup(lay.fsLabel), lay.gap1, UuidKey + AfterUuidKey(lay), 'U');
    NoAtWithoutFirstChar(line, UuidKey, GapStart(m), uk);
    NoneInPiece(line, uk, UuidKey, lay.uuid, [Quote] + AfterUuidQuote(lay), Quote);
  }

  /** The type key is the first after the uuid's closing quote, and its value
      holds no quote. */
  lemma TypeIsFirst(lay: Layout)
    requires WellFormed(lay)
    ensures FirstKeyed(LineOf(lay), TypeKey, Expected(lay).dType, Expected(lay).uuid.end + 1)
  {
    var line, m := LineOf(lay), Expected(lay);
    var tk := TypeKeyAt(lay);
    TypeIsMatched(lay);
    UuidQuotePosition(lay);
    TypeKeyPosition(lay);
    NoneInFront(line, m.uuid.end + 1, lay.gap2, TypeKey + AfterTypeKey(lay), 'T');
    NoAtWithoutFirstChar(line, TypeKey, m.uuid.end + 1, tk);
    NoneInPiece(line, tk, TypeKey, lay.dType, [Quote] + AfterTypeQuote(lay), Quote);
  }

  /** No `PARTUUID="` starts in the third gap: the gap has no `U`, and a key
      running into the text after the gap would need a `P` where the key has
      none. */
  lemma NoPartKeyInGap(lay: Layout)
    requires WellFormed(lay)
    ensures var line, m := LineOf(lay), Expected(lay);
      forall k :: m.dType.end + 1 <= k < PartKeyAt(lay) ==> !At(line, k, PartUuidKey)
  {
    ThirdGapHasNoU(lay);
    PartKeyStartsWithP(lay);
    NoPartKeyBefore(LineOf(lay), Expected(lay).dType.end + 1, PartKeyAt(lay));
  }

  /** `PARTUUID="` starts nowhere in a stretch without `U` that ends at a `P`
      or at the end of the line: its fifth character is a `U`, and its second
      to fifth characters are not `P`. */
  lemma NoPartKeyBefore(line: string, a: nat, b: nat)
    requires NoneIn(line, 'U', a, b) && b <= |line| && (b < |line| ==> line[b] == 'P')
    ensures forall k :: a <= k < b ==> !At(line, k, PartUuidKey)
  {
    forall k | a <= k < b && At(line, k, PartUuidKey)
      ensures false
    {
      AtChar(line, k, PartUuidKey, 4);
      if b <= k + 4 {
        AtChar(line, k, PartUuidKey, b - k);
      }
    }
  }

  /** The third gap holds no `U`. */
  lemma ThirdGapHasNoU(lay: Layout)
    requires WellFormed(lay)
    ensures NoneIn(LineOf(lay), 'U', Expected(lay).dType.end + 1, PartKeyAt(lay))
  {
    TypeQuotePosition(lay);
    NoneInFront(LineOf(lay), Expected(lay).dType.end + 1, lay.gap3, PartGroup(lay.partuuid), 'U');
  }

  /** The partuuid group starts with `P`, or the line ends where it would start. */
  lemma PartKeyStartsWithP(lay: Layout)
    ensures var line := LineOf(lay);
      PartKeyAt(lay) <= |line| && (PartKeyAt(lay) < |line| ==> line[PartKeyAt(lay)] == 'P')
  {
    var line, pk := LineOf(lay), PartKeyAt(lay);
    PartKeyPosition(lay);
    if pk < |line| {
      assert line[pk] == line[pk..][0];
    }
  }

  /** The partuuid group the layout has, or its absence, is the engine's choice. */
  lemma PartIsPreferred(lay: Layout)
    requires WellFormed(lay)
    ensures var line, m := LineOf(lay), Expected(lay);
      && (m.partuuid.Some? ==>
            forall k :: m.dType.end + 1 <= k < m.partuuid.value.start - |PartUuidKey| ==>
              !At(line, k, PartUuidKey))
      && (m.partuuid.None? ==>
            NoPartAfter(line, m.dType))
  {
    var line, m := LineOf(lay), Expected(lay);
    NoPartKeyInGap(lay);
    PartKeyPosition(lay);
    if m.partuuid.None? {
      forall m' | IsMatch(line, m') && m'.dType == m.dType && m'.partuuid.Some?
        ensures false
      {
      }
    }
  }

  /** The match `Expected` describes is the one the engine prefers. */
  lemma ExpectedIsPreferred(lay: Layout)
    requires WellFormed(lay)
    ensures Preferred(LineOf(lay), Expected(lay))
  {
    ColonIsPreferred(lay);
    SpacesArePreferred(lay);
    if lay.fsLabel.None? {
      NoLabelIsPreferred(lay);
    }
    LabelValueIsPreferred(lay);
    UuidIsFirst(lay);
    TypeIsFirst(lay);
    PartIsPreferred(lay);
  }

  /** The slices of the line that the record's fields are read from hold the
      layout's parts: the name and the uuid, */
  lemma FrontSlices(lay: Layout)
    ensures var line, m := LineOf(lay), Expected(lay);
      && |lay.name| <= |line| && line[..|lay.name|] == lay.name
      && m.uuid.end <= |line| && line[m.uuid.start..m.uuid.end] == lay.uuid
  {
    NamePosition(lay);
    UuidKeyPosition(lay);
    SliceOfPiece(LineOf(lay), UuidKeyAt(lay), UuidKey, lay.uuid, [Quote] + AfterUuidQuote(lay));
  }

  /** the type, */
  lemma TypeSlice(lay: Layout)
    ensures var line, m := LineOf(lay), Expected(lay);
      m.dType.end <= |line| && line[m.dType.start..m.dType.end] == lay.dType
  {
    TypeKeyPosition(lay);
    SliceOfPiece(LineOf(lay), TypeKeyAt(lay), TypeKey, lay.dType, [Quote] + AfterTypeQuote(lay));
  }

  /** the label, */
  lemma LabelSlice(lay: Layout)
    requires lay.fsLabel.Some?
    ensures var line, sp := LineOf(lay), Expected(lay).labelSpan.value;
      sp.end <= |line| && line[sp.start..sp.end] == lay.fsLabel.value
  {
    var l := lay.fsLabel.value;
    LabelPosition(lay);
    SliceOfPiece(LineOf(lay), Body(lay), LabelKey, l, [Quote] + (lay.gap1 + (UuidKey + AfterUuidKey(lay))));
  }

  /** and the partuuid. */
  lemma PartSlice(lay: Layout)
    requires lay.partuuid.Some?
    ensures var line, sp := LineOf(lay), Expected(lay).partuuid.value;
      sp.end <= |line| && line[sp.start..sp.end] == lay.partuuid.value
  {
    PartKeyPosition(lay);
    SliceOfPiece(LineOf(lay), PartKeyAt(lay), PartUuidKey, lay.partuuid.value, [Quote]);
  }

  /** What `Blkid::new` makes of a well-formed layout line: exactly its parts,
      an absent label or partuuid read as empty, and the mount state of its
      name. */
  lemma ParseLayout(lay: Layout, table: seq<string>)
    requires WellFormed(lay)
    ensures Parse(LineOf(lay), table)
         == Ok(Blkid(lay.name, lay.fsLabel.GetOr(""), lay.uuid, lay.dType,
                     lay.partuuid.GetOr(""), CheckMount(table, lay.name)))
  {
    var line, m := LineOf(lay), Expected(lay);
    ExpectedIsMatch(lay);
    ExpectedIsPreferred(lay);
    ScanIsPreferred(line, m);
    FrontSlices(lay);
    TypeSlice(lay);
    if lay.fsLabel.Some? {
      LabelSlice(lay);
    }
    if lay.partuuid.Some? {
      PartSlice(lay);
    }
    assert Parse(line, table) == Ok(FromMatch(line, m, table));
  }

  /** The fields of a record that a `blkid -d` line can carry so that
      `Blkid::new` reads them back: no colon or newline anywhere, and no quote
      in the label, uuid or type. */
  predicate Printable(b: Blkid) {
    && Clean(b.name) && Clean(b.fsLabel) && Clean(b.uuid) && Clean(b.dType) && Clean(b.partuuid)
    && Quote !in b.fsLabel && Quote !in b.uuid && Quote !in b.dType
  }

  /** The layout `blkid -d` uses for a record: single spaces between the
      groups, and no label or partuuid group for an empty value. */
  function LayoutOf(b: Blkid): (lay: Layout)
    ensures Printable(b) ==> WellFormed(lay)
  {
    var hasLabel := b.fsLabel != "";
    Layout(b.name,
           if hasLabel then Some(b.fsLabel) else None,
           if hasLabel then " " else "",
           b.uuid, " ", b.dType,
           if b.partuuid != "" then " " else "",
           if b.partuuid != "" then Some(b.partuuid) else None)
  }

  /** The line `blkid -d` prints for a record. */
  function FormatLine(b: Blkid): string {
    LineOf(LayoutOf(b))
  }

  /** `Blkid::new` inverts `FormatLine`: a printable record whose mount flag
      agrees with the mount table comes back unchanged. */
  lemma FormatLineRoundTrip(b: Blkid, table: seq<string>)
    requires Printable(b) && b.isMount == CheckMount(table, b.name)
    ensures Parse(FormatLine(b), table) == Ok(b)
  {
    ParseLayout(LayoutOf(b), table);
  }

  /** Every printed line is accepted. */
  lemma FormatLineParses(b: Blkid)
    requires Printable(b)
    ensures Parses(FormatLine(b))
  {
    ParseLayout(LayoutOf(b), []);
  }
}
