/** The line grammar of `Blkid::new`. The source matches every `blkid -d` line
    against the regular expression

      ^(.*): *(LABEL="(.*?)")?.*?UUID="(.*?)".*?TYPE="(.*?)".*?(PARTUUID="(.*)")?$

    with leftmost-first (backtracking-priority) semantics. This module states
    that grammar twice: `IsMatch` is the set of ALL ways the expression can
    match a line, `Preferred` is the priority order the engine uses to pick one
    of them, and `Scan` is a hand-written scanner proved to return a match
    exactly when one exists, and then the preferred one, which is unique. */
module BlkidLine {
  import opened Results
  import opened Text

  const LabelKey: string := "LABEL=\""
  const UuidKey: string := "UUID=\""
  const TypeKey: string := "TYPE=\""
  const PartUuidKey: string := "PARTUUID=\""
  const Quote: char := '"'

  /** A captured value `line[start..end]` whose closing quote is `line[end]`. */
  datatype Span = Span(start: nat, end: nat)

  /** One way of matching the expression: the position of the `:` ending the
      name, where the run of spaces after it ends, and the spans of the
      optional label, the uuid, the type and the optional partuuid. */
  datatype Match = Match(colon: nat, body: nat, labelSpan: Option<Span>,
                         uuid: Span, dType: Span, partuuid: Option<Span>)

  /** `sp` is a value closed by a quote. */
  predicate Quoted(line: string, sp: Span) {
    sp.start <= sp.end < |line| && line[sp.end] == Quote
  }

  /** `key` then the quoted value `sp`, with the key starting at or after `from`. */
  predicate Keyed(line: string, key: string, sp: Span, from: nat) {
    from + |key| <= sp.start && At(line, sp.start - |key|, key) && Quoted(line, sp)
  }

  /** `Keyed`, from the position `k` of the key. */
  lemma KeyedIntro(line: string, key: string, sp: Span, from: nat, k: nat)
    requires from <= k && k + |key| == sp.start && At(line, k, key) && Quoted(line, sp)
    ensures Keyed(line, key, sp, from)
  {
  }

  /** As `Keyed`, and with the choices a lazy `.*?` before the key and a lazy
      `(.*?)` inside the quotes make: the first occurrence of the key and the
      first quote after it. */
  predicate FirstKeyed(line: string, key: string, sp: Span, from: nat) {
    && Keyed(line, key, sp, from)
    && (forall k :: from <= k < sp.start - |key| ==> !At(line, k, key))
    && NoneIn(line, Quote, sp.start, sp.end)
  }

  /** Where the lazy gap before `UUID="` starts: after the label's closing
      quote, or where the spaces end. */
  function GapStart(m: Match): nat {
    if m.labelSpan.Some? then m.labelSpan.value.end + 1 else m.body
  }

  /** Every way the expression matches the whole of `line`. The dot of the
      expression does not match a newline, so no line containing one matches. */
  predicate IsMatch(line: string, m: Match) {
    && '\n' !in line
    && m.colon < |line| && line[m.colon] == ':'
    && m.colon < m.body <= |line|
    && (forall k :: m.colon < k < m.body ==> line[k] == ' ')
    && (m.labelSpan.Some? ==>
          At(line, m.body, LabelKey) && m.labelSpan.value.start == m.body + |LabelKey|
          && Quoted(line, m.labelSpan.value))
    && Keyed(line, UuidKey, m.uuid, GapStart(m))
    && Keyed(line, TypeKey, m.dType, m.uuid.end + 1)
    && (m.partuuid.Some? ==>
          Keyed(line, PartUuidKey, m.partuuid.value, m.dType.end + 1)
          && m.partuuid.value.end == |line| - 1)
  }

  /** No match whose name ends at colon `c` includes the label group. */
  ghost predicate NoLabelAt(line: string, c: nat) {
    forall m :: IsMatch(line, m) && m.colon == c ==> m.labelSpan.None?
  }

  /** No match whose type value is `t` includes the partuuid group. */
  ghost predicate NoPartAfter(line: string, t: Span) {
    forall m :: IsMatch(line, m) && m.dType == t ==> m.partuuid.None?
  }

  /** The choices the engine makes once the colon is fixed: as many spaces as
      there are; the label group whenever it can take part, closed at its first
      quote; the first `UUID="` and the first `TYPE="` after it, each value
      closed at its first quote; and the partuuid group at the first
      `PARTUUID="` whenever it can take part. */
  ghost predicate PreferredAtColon(line: string, m: Match) {
    && (m.body >= |line| || line[m.body] != ' ')
    && (m.labelSpan.Some? ==> NoneIn(line, Quote, m.labelSpan.value.start, m.labelSpan.value.end))
    && (m.labelSpan.None? ==>
          NoLabelAt(line, m.colon))
    && FirstKeyed(line, UuidKey, m.uuid, GapStart(m))
    && FirstKeyed(line, TypeKey, m.dType, m.uuid.end + 1)
    && (m.partuuid.Some? ==>
          forall k :: m.dType.end + 1 <= k < m.partuuid.value.start - |PartUuidKey| ==>
            !At(line, k, PartUuidKey))
    && (m.partuuid.None? ==>
          NoPartAfter(line, m.dType))
  }

  /** The match the engine returns: the greedy `(.*)` makes the last colon
      that admits a match end the name, and the choices after it are those of
      `PreferredAtColon`. */
  ghost predicate Preferred(line: string, m: Match) {
    && (forall m' :: IsMatch(line, m') ==> m'.colon <= m.colon)
    && PreferredAtColon(line, m)
  }

  /** The end of the run of spaces starting at `i`. */
  function SpacesEnd(line: string, i: nat): (j: nat)
    requires i <= |line|
    ensures i <= j <= |line|
    ensures forall k :: i <= k < j ==> line[k] == ' '
    ensures j == |line| || line[j] != ' '
    decreases |line| - i
  {
    if i == |line| || line[i] != ' ' then i else SpacesEnd(line, i + 1)
  }

  /** The first `key` at or after `from` and the value after it, closed at the
      first quote; `None` when there is no such key-and-quote. */
  function KeyedFrom(line: string, key: string, from: nat): (r: Option<Span>)
    requires |key| > 0
    ensures r.Some? ==> FirstKeyed(line, key, r.value, from)
    ensures r.None? ==> forall sp :: !Keyed(line, key, sp, from)
  {
    match FindFrom(line, key, from)
    case None => None
    case Some(i) =>
      var q := FindChar(line, Quote, i + |key|);
      if q == |line| then None
      else
        var sp := Span(i + |key|, q);
        assert Keyed(line, key, sp, from);
        Some(sp)
  }

  /** Once the first key is found, a later key cannot close sooner: if any
      keyed value starts at or after `from`, `KeyedFrom` finds one closing no
      later than it. */
  lemma KeyedFromCloses(line: string, key: string, from: nat, sp: Span)
    requires |key| > 0 && Keyed(line, key, sp, from)
    ensures KeyedFrom(line, key, from).Some?
    ensures KeyedFrom(line, key, from).value.end <= sp.end
  {
    var i := FindFrom(line, key, from).value;
    assert i <= sp.start - |key|;
    var q := FindChar(line, Quote, i + |key|);
    assert q <= sp.end;
  }

  /** `UUID="u"` starting at or after `from`, then `TYPE="t"` after its quote. */
  predicate Pair(line: string, from: nat, u: Span, t: Span) {
    Keyed(line, UuidKey, u, from) && Keyed(line, TypeKey, t, u.end + 1)
  }

  /** `UUID="u"` and then `TYPE="t"`, found the way the lazy groups find them. */
  function Chain(line: string, from: nat): (r: Option<(Span, Span)>)
    ensures r.Some? ==> FirstKeyed(line, UuidKey, r.value.0, from)
    ensures r.Some? ==> FirstKeyed(line, TypeKey, r.value.1, r.value.0.end + 1)
    ensures r.None? ==> forall u, t :: !Pair(line, from, u, t)
  {
    match KeyedFrom(line, UuidKey, from)
    case None => None
    case Some(u) =>
      match KeyedFrom(line, TypeKey, u.end + 1)
      case None =>
        assert forall u', t :: !Pair(line, from, u', t) by {
          forall u', t | Pair(line, from, u', t)
            ensures false
          {
            KeyedFromCloses(line, UuidKey, from, u');
          }
        }
        None
      case Some(t) => Some((u, t))
  }

  /** `Chain` succeeds whenever some uuid-then-type pair starts at or after `from`. */
  lemma ChainFinds(line: string, from: nat, u: Span, t: Span)
    requires Pair(line, from, u, t)
    ensures Chain(line, from).Some?
  {
  }

  /** The optional trailing `PARTUUID="…"` group: the first `PARTUUID="` at or
      after `from`, taken only when the line ends in a quote after it. */
  function PartFrom(line: string, from: nat): (r: Option<Span>)
    ensures r.Some? ==> Keyed(line, PartUuidKey, r.value, from) && r.value.end == |line| - 1
    ensures r.Some? ==> forall k :: from <= k < r.value.start - |PartUuidKey| ==> !At(line, k, PartUuidKey)
    ensures r.None? ==> forall sp :: Keyed(line, PartUuidKey, sp, from) ==> sp.end != |line| - 1
  {
    match FindFrom(line, PartUuidKey, from)
    case None => None
    case Some(x) =>
      if x + |PartUuidKey| < |line| && line[|line| - 1] == Quote then
        Some(Span(x + |PartUuidKey|, |line| - 1))
      else None
  }

  /** The match whose name ends at colon `c`, if the rest of the line admits one. */
  function AtColon(line: string, c: nat): (r: Option<Match>)
    requires c < |line| && line[c] == ':' && '\n' !in line
    ensures r.Some? ==> IsMatch(line, r.value) && r.value.colon == c && PreferredAtColon(line, r.value)
    ensures r.None? ==> forall m :: IsMatch(line, m) ==> m.colon != c
  {
    var body := SpacesEnd(line, c + 1);
    var labelled := Labelled(line, c, body);
    if labelled.Some? then labelled else Unlabelled(line, c, body)
  }

  /** The match at colon `c` that includes the label group, which the engine
      tries first: `LABEL="` right where the spaces end, the label closed at
      its first quote. */
  function Labelled(line: string, c: nat, body: nat): (r: Option<Match>)
    requires c < |line| && line[c] == ':' && '\n' !in line
    requires body == SpacesEnd(line, c + 1)
    ensures r.Some? ==> IsMatch(line, r.value) && r.value.colon == c && PreferredAtColon(line, r.value)
    ensures r.None? ==> NoLabelAt(line, c)
  {
    if !At(line, body, LabelKey) then
      LabelNeedsKey(line, c, body);
      None
    else
      var q := FindChar(line, Quote, body + |LabelKey|);
      if q == |line| then
        LabelNeedsQuote(line, c, body);
        None
      else LabelledAt(line, c, body, q)
  }

  /** The label group closed at quote `q`, followed by the rest of the match. */
  function LabelledAt(line: string, c: nat, body: nat, q: nat): (r: Option<Match>)
    requires c < |line| && line[c] == ':' && '\n' !in line
    requires body == SpacesEnd(line, c + 1) && At(line, body, LabelKey)
    requires q == FindChar(line, Quote, body + |LabelKey|) && q < |line|
    ensures r.Some? ==> IsMatch(line, r.value) && r.value.colon == c && PreferredAtColon(line, r.value)
    ensures r.None? ==> NoLabelAt(line, c)
  {
    match Chain(line, q + 1)
    case None =>
      LabelNeedsChain(line, c, body, q);
      None
    case Some(ut) =>
      LabelledIsMatch(line, c, body, q, ut);
      LabelledIsPreferred(line, c, body, q, ut.0, ut.1);
      Some(Match(c, body, Some(Span(body + |LabelKey|, q)), ut.0, ut.1, PartFrom(line, ut.1.end + 1)))
  }

  /** The match at colon `c` without the label group, used once no match at
      this colon can include it. */
  function Unlabelled(line: string, c: nat, body: nat): (r: Option<Match>)
    requires c < |line| && line[c] == ':' && '\n' !in line
    requires body == SpacesEnd(line, c + 1)
    requires NoLabelAt(line, c)
    ensures r.Some? ==> IsMatch(line, r.value) && r.value.colon == c && PreferredAtColon(line, r.value)
    ensures r.None? ==> forall m :: IsMatch(line, m) ==> m.colon != c
  {
    match Chain(line, body)
    case None =>
      NoMatchAtColon(line, c, body);
      None
    case Some(ut) =>
      UnlabelledIsMatch(line, c, body, ut);
      UnlabelledIsPreferred(line, c, body, ut.0, ut.1);
      Some(Match(c, body, None, ut.0, ut.1, PartFrom(line, ut.1.end + 1)))
  }

  /** A match whose name ends at `c` starts its label (if any) where the
      spaces end, and its uuid key no earlier than that. */
  lemma BodyOfMatch(line: string, m: Match, body: nat)
    requires IsMatch(line, m)
    requires body == SpacesEnd(line, m.colon + 1)
    ensures m.body <= body
    ensures m.labelSpan.Some? ==> m.body == body
    ensures m.uuid.start - |UuidKey| >= body
  {
    if m.labelSpan.Some? {
      AtChar(line, m.body, LabelKey, 0);
    }
    AtChar(line, m.uuid.start - |UuidKey|, UuidKey, 0);
  }

  /** The label group closed at its first quote, the first uuid-then-type
      pair after it and the partuuid `PartFrom` picks make a match of the line, */
  lemma LabelledIsMatch(line: string, c: nat, body: nat, q: nat, ut: (Span, Span))
    requires c < |line| && line[c] == ':' && '\n' !in line
    requires body == SpacesEnd(line, c + 1) && At(line, body, LabelKey)
    requires q == FindChar(line, Quote, body + |LabelKey|) && q < |line|
    requires Chain(line, q + 1) == Some(ut)
    ensures IsMatch(line, Match(c, body, Some(Span(body + |LabelKey|, q)), ut.0, ut.1,
                                PartFrom(line, ut.1.end + 1)))
  {
  }

  /** and that match is the engine's choice at its colon. */
  lemma LabelledIsPreferred(line: string, c: nat, body: nat, q: nat, u: Span, t: Span)
    requires body >= |line| || line[body] != ' '
    requires NoneIn(line, Quote, body + |LabelKey|, q)
    requires FirstKeyed(line, UuidKey, u, q + 1) && FirstKeyed(line, TypeKey, t, u.end + 1)
    ensures PreferredAtColon(line, Match(c, body, Some(Span(body + |LabelKey|, q)), u, t,
                                         PartFrom(line, t.end + 1)))
  {
    PartIsPreferred(line, Match(c, body, Some(Span(body + |LabelKey|, q)), u, t,
                                PartFrom(line, t.end + 1)));
  }

  /** Without a label group, the first uuid-then-type pair after the spaces
      and the partuuid `PartFrom` picks make a match of the line, */
  lemma UnlabelledIsMatch(line: string, c: nat, body: nat, ut: (Span, Span))
    requires c < |line| && line[c] == ':' && '\n' !in line
    requires body == SpacesEnd(line, c + 1)
    requires Chain(line, body) == Some(ut)
    ensures IsMatch(line, Match(c, body, None, ut.0, ut.1, PartFrom(line, ut.1.end + 1)))
  {
  }

  /** and, when no match at this colon has the label group, that match is the
      engine's choice at its colon. */
  lemma UnlabelledIsPreferred(line: string, c: nat, body: nat, u: Span, t: Span)
    requires body >= |line| || line[body] != ' '
    requires NoLabelAt(line, c)
    requires FirstKeyed(line, UuidKey, u, body) && FirstKeyed(line, TypeKey, t, u.end + 1)
    ensures PreferredAtColon(line, Match(c, body, None, u, t, PartFrom(line, t.end + 1)))
  {
    PartIsPreferred(line, Match(c, body, None, u, t, PartFrom(line, t.end + 1)));
  }

  /** The partuuid group `PartFrom` picks is the engine's choice. */
  lemma PartIsPreferred(line: string, m: Match)
    requires m.partuuid == PartFrom(line, m.dType.end + 1)
    ensures m.partuuid.None? ==>
      NoPartAfter(line, m.dType)
  {
  }

  /** No label group without `LABEL="` where the spaces end. */
  lemma LabelNeedsKey(line: string, c: nat, body: nat)
    requires c < |line| && line[c] == ':' && '\n' !in line
    requires body == SpacesEnd(line, c + 1) && !At(line, body, LabelKey)
    ensures NoLabelAt(line, c)
  {
    forall m | IsMatch(line, m) && m.colon == c
      ensures m.labelSpan.None?
    {
      BodyOfMatch(line, m, body);
    }
  }

  /** No label group without a quote to close it. */
  lemma LabelNeedsQuote(line: string, c: nat, body: nat)
    requires c < |line| && line[c] == ':' && '\n' !in line
    requires body == SpacesEnd(line, c + 1) && body + |LabelKey| <= |line|
    requires FindChar(line, Quote, body + |LabelKey|) == |line|
    ensures NoLabelAt(line, c)
  {
    forall m | IsMatch(line, m) && m.colon == c && m.labelSpan.Some?
      ensures false
    {
      BodyOfMatch(line, m, body);
    }
  }

  /** No label group when nothing after its first closing quote matches: a
      later closing quote leaves even less of the line. */
  lemma LabelNeedsChain(line: string, c: nat, body: nat, q: nat)
    requires c < |line| && line[c] == ':' && '\n' !in line
    requires body == SpacesEnd(line, c + 1) && body + |LabelKey| <= |line|
    requires q == FindChar(line, Quote, body + |LabelKey|) && Chain(line, q + 1).None?
    ensures NoLabelAt(line, c)
  {
    forall m | IsMatch(line, m) && m.colon == c
      ensures m.labelSpan.None?
    {
      BodyOfMatch(line, m, body);
      if m.labelSpan.Some? {
        assert q <= m.labelSpan.value.end;
        assert Pair(line, q + 1, m.uuid, m.dType);
      }
    }
  }

  /** When neither scan succeeds, no match ends its name at this colon. */
  lemma NoMatchAtColon(line: string, c: nat, body: nat)
    requires c < |line| && line[c] == ':' && '\n' !in line
    requires body == SpacesEnd(line, c + 1)
    requires NoLabelAt(line, c)
    requires Chain(line, body).None?
    ensures forall m :: IsMatch(line, m) ==> m.colon != c
  {
    forall m | IsMatch(line, m) && m.colon == c
      ensures false
    {
      BodyOfMatch(line, m, body);
      assert Pair(line, body, m.uuid, m.dType);
    }
  }

  /** Tries the colons before index `n`, the last one first. */
  function ScanColons(line: string, n: nat): (r: Option<Match>)
    requires n <= |line| && '\n' !in line
    ensures r.Some? ==> IsMatch(line, r.value) && PreferredAtColon(line, r.value) && r.value.colon < n
    ensures r.Some? ==> forall m :: IsMatch(line, m) && m.colon < n ==> m.colon <= r.value.colon
    ensures r.None? ==> forall m :: IsMatch(line, m) ==> m.colon >= n
    decreases n
  {
    if n == 0 then None
    else if line[n - 1] == ':' then
      match AtColon(line, n - 1)
      case Some(m) => Some(m)
      case None => ScanColons(line, n - 1)
    else ScanColons(line, n - 1)
  }

  /** The scanner: the engine's match of the line, or `None` when the line
      does not match at all. */
  function Scan(line: string): (r: Option<Match>)
    ensures r.Some? ==> IsMatch(line, r.value) && Preferred(line, r.value)
    ensures r.None? ==> forall m :: !IsMatch(line, m)
  {
    if '\n' in line then None else ScanColons(line, |line|)
  }

  /** Two first-keyed values from the same place are the same value. */
  lemma FirstKeyedUnique(line: string, key: string, from: nat, a: Span, b: Span)
    requires FirstKeyed(line, key, a, from) && FirstKeyed(line, key, b, from)
    ensures a == b
  {
  }

  /** Two preferred matches end the name at the same colon and the spaces at
      the same place. */
  lemma PreferredSameBody(line: string, m1: Match, m2: Match)
    requires IsMatch(line, m1) && Preferred(line, m1)
    requires IsMatch(line, m2) && Preferred(line, m2)
    ensures m1.colon == m2.colon && m1.body == m2.body
  {
  }

  /** Two preferred matches at the same colon agree on the label group. */
  lemma PreferredSameLabel(line: string, m1: Match, m2: Match)
    requires IsMatch(line, m1) && PreferredAtColon(line, m1)
    requires IsMatch(line, m2) && PreferredAtColon(line, m2)
    requires m1.colon == m2.colon && m1.body == m2.body
    ensures m1.labelSpan == m2.labelSpan
  {
    if m1.labelSpan.Some? && m2.labelSpan.Some? {
      FirstQuoteUnique(line, m1.labelSpan.value, m2.labelSpan.value);
    } else if m1.labelSpan.Some? || m2.labelSpan.Some? {
      assert false;
    }
  }

  /** Two values from the same start, each closed at its first quote, are the
      same value. */
  lemma FirstQuoteUnique(line: string, a: Span, b: Span)
    requires a.start == b.start && Quoted(line, a) && Quoted(line, b)
    requires NoneIn(line, Quote, a.start, a.end) && NoneIn(line, Quote, b.start, b.end)
    ensures a == b
  {
  }

  /** Two preferred matches with the same type agree on the partuuid group. */
  lemma PreferredSamePart(line: string, m1: Match, m2: Match)
    requires IsMatch(line, m1) && PreferredAtColon(line, m1)
    requires IsMatch(line, m2) && PreferredAtColon(line, m2)
    requires m1.dType == m2.dType
    ensures m1.partuuid == m2.partuuid
  {
    if m1.partuuid.Some? && m2.partuuid.Some? {
      FirstPartUnique(line, m1.dType.end + 1, m1.partuuid.value, m2.partuuid.value);
    }
  }

  /** Two partuuid groups that both start at the first `PARTUUID="` and both
      run to the end of the line are the same. */
  lemma FirstPartUnique(line: string, from: nat, p1: Span, p2: Span)
    requires Keyed(line, PartUuidKey, p1, from) && p1.end == |line| - 1
    requires Keyed(line, PartUuidKey, p2, from) && p2.end == |line| - 1
    requires forall k :: from <= k < p1.start - |PartUuidKey| ==> !At(line, k, PartUuidKey)
    requires forall k :: from <= k < p2.start - |PartUuidKey| ==> !At(line, k, PartUuidKey)
    ensures p1 == p2
  {
  }

  /** The priority order leaves no choice: at most one match is preferred, so
      the scanner's answer is the engine's. */
  lemma PreferredUnique(line: string, m1: Match, m2: Match)
    requires IsMatch(line, m1) && Preferred(line, m1)
    requires IsMatch(line, m2) && Preferred(line, m2)
    ensures m1 == m2
  {
    PreferredSameBody(line, m1, m2);
    PreferredSameLabel(line, m1, m2);
    FirstKeyedUnique(line, UuidKey, GapStart(m1), m1.uuid, m2.uuid);
    FirstKeyedUnique(line, TypeKey, m1.uuid.end + 1, m1.dType, m2.dType);
    PreferredSamePart(line, m1, m2);
  }

  /** Whatever match satisfies the priority order is what `Scan` returns. */
  lemma ScanIsPreferred(line: string, m: Match)
    requires IsMatch(line, m) && Preferred(line, m)
    ensures Scan(line) == Some(m)
  {
    var r := Scan(line);
    assert r.Some?;
    PreferredUnique(line, r.value, m);
  }
}
