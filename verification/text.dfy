/** Character-level helpers shared by the parser, the registry and the
    renderer: literal occurrences, first-occurrence search, prefixes, and
    splitting on a separator as Rust's `str::split` does. */
module Text {
  import opened Results

  /** `pat` occurs in `s` starting at index `i`. */
  predicate At(s: string, i: nat, pat: string) {
    i + |pat| <= |s| && s[i..i + |pat|] == pat
  }

  /** A pattern occurs at the front of any text it starts. */
  lemma AtFront(pat: string, rest: string)
    ensures At(pat + rest, 0, pat)
  {
    assert (pat + rest)[..|pat|] == pat;
  }

  /** Text put in front moves an occurrence right by its length. */
  lemma AtShift(x: string, s: string, i: nat, pat: string)
    requires At(s, i, pat)
    ensures At(x + s, |x| + i, pat)
  {
    assert (x + s)[|x| + i..|x| + i + |pat|] == s[i..i + |pat|];
  }

  /** A pattern occurs where a suffix starting with it begins. */
  lemma AtSuffix(s: string, i: nat, pat: string, rest: string)
    requires i <= |s| && s[i..] == pat + rest
    ensures At(s, i, pat)
  {
    assert s[i..i + |pat|] == s[i..][..|pat|];
  }

  /** A pattern occurs where a suffix starting with it and then two more
      pieces begins. */
  lemma AtSuffix2(s: string, i: nat, pat: string, a: string, b: string)
    requires i <= |s| && s[i..] == (pat + a) + b
    ensures At(s, i, pat)
  {
    assert s[i..i + |pat|] == s[i..][..|pat|];
  }

  /** Each character of an occurrence is the pattern's character. */
  lemma AtChar(s: string, i: nat, pat: string, j: nat)
    requires At(s, i, pat) && j < |pat|
    ensures s[i + j] == pat[j]
  {
    assert s[i..i + |pat|][j] == s[i + j];
  }

  /** A pattern cannot start where its first character is absent. */
  lemma NoAtWithoutFirstChar(s: string, pat: string, a: nat, b: nat)
    requires |pat| > 0
    requires NoneIn(s, pat[0], a, b)
    ensures forall k :: a <= k < b ==> !At(s, k, pat)
  {
    forall k | a <= k < b && At(s, k, pat)
      ensures false
    {
    }
  }

  /** `p` is a prefix of `s` (Rust's `s.starts_with(p)`). */
  predicate IsPrefix(p: string, s: string) {
    |p| <= |s| && s[..|p|] == p
  }

  /** No character of `s[a..b]` is `c`. */
  predicate NoneIn(s: string, c: char, a: nat, b: nat) {
    forall k :: a <= k < b && k < |s| ==> s[k] != c
  }

  /** `NoneIn` says the same as `!in` on the slice. */
  lemma NoneInSlice(s: string, c: char, a: nat, b: nat)
    requires a <= b <= |s|
    ensures NoneIn(s, c, a, b) <==> c !in s[a..b]
  {
    if !NoneIn(s, c, a, b) {
      var k :| a <= k < b && k < |s| && s[k] == c;
      assert s[a..b][k - a] == c;
    }
  }

  /** Past a prefix `p` of a suffix comes the rest of that suffix. */
  lemma SuffixAfter(s: string, i: nat, p: string, rest: string)
    requires i <= |s| && s[i..] == p + rest
    ensures i + |p| <= |s| && s[i + |p|..] == rest
  {
    assert s[i + |p|..] == s[i..][|p|..];
  }

  /** Past two pieces `p` and `q` of a suffix comes the rest of that suffix. */
  lemma SuffixAfter2(s: string, i: nat, p: string, q: string, rest: string)
    requires i <= |s| && s[i..] == p + (q + rest)
    ensures i + |p| + |q| <= |s| && s[i + |p| + |q|..] == rest
  {
    SuffixAfter(s, i, p, q + rest);
    SuffixAfter(s, i + |p|, q, rest);
  }

  /** Where a suffix is a prefix `p`, a piece `a` and a rest, the piece is the
      slice after the prefix. */
  lemma SliceOfPiece(s: string, i: nat, p: string, a: string, b: string)
    requires i <= |s| && s[i..] == p + (a + b)
    ensures i + |p| + |a| <= |s| && s[i + |p|..i + |p| + |a|] == a
  {
    assert |s[i..]| == |p| + |a| + |b|;
    assert s[i..][|p|..|p| + |a|] == a;
    assert s[i + |p|..i + |p| + |a|] == s[i..][|p|..|p| + |a|];
  }

  /** A character absent from a piece is absent from where the piece sits. */
  lemma NoneInFront(s: string, i: nat, a: string, b: string, c: char)
    requires i <= |s| && s[i..] == a + b && c !in a
    ensures NoneIn(s, c, i, i + |a|)
  {
    assert s[i..i + |a|] == s[i..][..|a|];
    NoneInSlice(s, c, i, i + |a|);
  }

  /** As `NoneInFront`, for a piece after a prefix `p`. */
  lemma NoneInPiece(s: string, i: nat, p: string, a: string, b: string, c: char)
    requires i <= |s| && s[i..] == p + (a + b) && c !in a
    ensures NoneIn(s, c, i + |p|, i + |p| + |a|)
  {
    assert s[i + |p|..] == s[i..][|p|..];
    NoneInFront(s, i + |p|, a, b, c);
  }

  /** The first index at or after `from` at which `pat` occurs in `s`. */
  function FindFrom(s: string, pat: string, from: nat): (r: Option<nat>)
    ensures r.Some? ==> from <= r.value && At(s, r.value, pat)
    ensures r.Some? ==> forall k :: from <= k < r.value ==> !At(s, k, pat)
    ensures r.None? ==> forall k :: from <= k ==> !At(s, k, pat)
    decreases |s| + 1 - from
  {
    if from > |s| then None
    else if At(s, from, pat) then Some(from)
    else FindFrom(s, pat, from + 1)
  }

  /** The first index at or after `from` holding `c`, or `|s|` when there is
      none. */
  function FindChar(s: string, c: char, from: nat): (r: nat)
    requires from <= |s|
    ensures from <= r <= |s|
    ensures NoneIn(s, c, from, r)
    ensures r < |s| ==> s[r] == c
    decreases |s| - from
  {
    if from == |s| then from
    else if s[from] == c then from
    else FindChar(s, c, from + 1)
  }

  /** The pieces joined back together with `sep` between neighbours. */
  function Join(parts: seq<string>, sep: char): string
  {
    if |parts| == 0 then ""
    else if |parts| == 1 then parts[0]
    else parts[0] + [sep] + Join(parts[1..], sep)
  }

  /** A character other than the separator, absent from every piece, is
      absent from the joined text. */
  lemma {:induction false} JoinKeeps(parts: seq<string>, sep: char, c: char)
    requires c != sep && forall k :: 0 <= k < |parts| ==> c !in parts[k]
    ensures c !in Join(parts, sep)
    decreases |parts|
  {
    if |parts| > 1 {
      JoinKeeps(parts[1..], sep, c);
    }
  }

  /** `s.split(sep)`: the maximal `sep`-free pieces between separators. There
      is always at least one piece, so `""` splits to `[""]` and a trailing
      separator leaves a trailing empty piece. */
  function Split(s: string, sep: char): (parts: seq<string>)
    ensures |parts| >= 1
    decreases |s|
  {
    var i := FindChar(s, sep, 0);
    if i == |s| then [s]
    else [s[..i]] + Split(s[i + 1..], sep)
  }

  /** The pieces hold no separator and join back to the text. */
  lemma {:induction false} SplitJoins(s: string, sep: char)
    ensures var parts := Split(s, sep);
      && Join(parts, sep) == s
      && forall k :: 0 <= k < |parts| ==> sep !in parts[k]
    decreases |s|
  {
    var i := FindChar(s, sep, 0);
    if i == |s| {
      assert s[..i] == s;
    } else {
      var parts, rest := Split(s, sep), Split(s[i + 1..], sep);
      SplitJoins(s[i + 1..], sep);
      assert parts[1..] == rest;
      assert s == s[..i] + [sep] + s[i + 1..];
      assert forall k :: 1 <= k < |parts| ==> parts[k] == rest[k - 1];
    }
  }

  /** Splitting is the only way to cut `s` into `sep`-free pieces: any such
      cutting is `Split(s, sep)`. */
  lemma {:induction false} SplitUnique(parts: seq<string>, sep: char)
    requires |parts| >= 1
    requires forall k :: 0 <= k < |parts| ==> sep !in parts[k]
    ensures Split(Join(parts, sep), sep) == parts
    decreases |parts|
  {
    var s := Join(parts, sep);
    if |parts| == 1 {
      var i := FindChar(s, sep, 0);
      assert i == |s|;
    } else {
      var head := parts[0];
      var tail := Join(parts[1..], sep);
      assert s == head + [sep] + tail;
      var i := FindChar(s, sep, 0);
      assert s[|head|] == sep;
      assert forall k :: 0 <= k < |head| ==> s[k] == head[k];
      assert i == |head|;
      assert s[..i] == head;
      assert s[i + 1..] == tail;
      SplitUnique(parts[1..], sep);
      assert parts == [head] + parts[1..];
    }
  }

  /** A separator appended to the text adds exactly one empty trailing piece. */
  lemma SplitTrailingSeparator(s: string, sep: char)
    ensures Split(s + [sep], sep) == Split(s, sep) + [""]
  {
    var parts := Split(s, sep);
    var longer := parts + [""];
    SplitJoins(s, sep);
    JoinAppendEmpty(parts, sep);
    assert forall k :: 0 <= k < |longer| ==> sep !in longer[k] by {
      forall k | 0 <= k < |longer|
        ensures sep !in longer[k]
      {
        if k < |parts| { assert longer[k] == parts[k]; }
      }
    }
    SplitUnique(longer, sep);
  }

  /** Joining after appending an empty piece appends one separator. */
  lemma {:induction false} JoinAppendEmpty(parts: seq<string>, sep: char)
    requires |parts| >= 1
    ensures Join(parts + [""], sep) == Join(parts, sep) + [sep]
    decreases |parts|
  {
    if |parts| == 1 {
      assert (parts + [""])[1..] == [""];
    } else {
      assert (parts + [""])[1..] == parts[1..] + [""];
      JoinAppendEmpty(parts[1..], sep);
    }
  }
}
