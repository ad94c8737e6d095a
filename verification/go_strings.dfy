/** The parts of Go's `strings` package the handlers rely on: `Index`,
    `Contains`, `Split` (with a non-empty separator), `HasPrefix` and
    `TrimPrefix`, plus `Join` as the inverse of `Split`. A Go string is a byte
    sequence; here it is a `string`, one character per byte. */
module GoStrings {
  import opened Wrappers

  /** `pat` occurs in `s` starting at index `i`. */
  predicate OccursAt(s: string, pat: string, i: int) {
    0 <= i && i + |pat| <= |s| && s[i..i + |pat|] == pat
  }

  /** The first occurrence of `pat` in `s` at or after index `k`. */
  function IndexFrom(s: string, pat: string, k: nat): (r: Option<nat>)
    requires |pat| > 0
    ensures r.Some? ==> k <= r.value && OccursAt(s, pat, r.value)
    ensures forall j | k <= j && (r.None? || j < r.value) :: !OccursAt(s, pat, j)
    decreases |s| - k
  {
    if k + |pat| > |s| then None
    else if s[k..k + |pat|] == pat then Some(k)
    else IndexFrom(s, pat, k + 1)
  }

  /** strings.Index: the first occurrence of `pat` in `s`, if any. */
  function Index(s: string, pat: string): (r: Option<nat>)
    requires |pat| > 0
    ensures r.Some? ==> OccursAt(s, pat, r.value)
    ensures r.Some? ==> forall j | 0 <= j < r.value :: !OccursAt(s, pat, j)
    ensures r.None? ==> forall j :: !OccursAt(s, pat, j)
  {
    IndexFrom(s, pat, 0)
  }

  /** strings.Contains, which Go defines as `Index(s, substr) >= 0`. */
  predicate Contains(s: string, pat: string)
    requires |pat| > 0
  {
    Index(s, pat).Some?
  }

  /** A prefix of `s` that stops before the first occurrence of `pat`
      does not contain `pat`. */
  lemma NoOccurrenceInPrefix(s: string, pat: string, n: nat)
    requires |pat| > 0 && n <= |s|
    requires forall j | 0 <= j < n :: !OccursAt(s, pat, j)
    ensures !Contains(s[..n], pat)
  {
    forall j ensures !OccursAt(s[..n], pat, j) {
      if 0 <= j && j + |pat| <= n {
        assert !OccursAt(s, pat, j);
        assert s[..n][j..j + |pat|] == s[j..j + |pat|];
      }
    }
  }

  /** strings.Split(s, sep) for a non-empty `sep`: the pieces between
      successive non-overlapping occurrences of `sep`, scanning from the left.
      Go never returns fewer than one piece, and no piece contains `sep`. */
  function Split(s: string, sep: string): (parts: seq<string>)
    requires |sep| > 0
    ensures |parts| >= 1
    ensures forall p | p in parts :: !Contains(p, sep)
    decreases |s|
  {
    match Index(s, sep)
    case None => [s]
    case Some(i) =>
      NoOccurrenceInPrefix(s, sep, i);
      [s[..i]] + Split(s[i + |sep|..], sep)
  }

  /** strings.Join: the pieces with `sep` between consecutive ones. */
  function Join(parts: seq<string>, sep: string): string
    decreases |parts|
  {
    if |parts| == 0 then ""
    else if |parts| == 1 then parts[0]
    else parts[0] + sep + Join(parts[1..], sep)
  }

  /** The first piece of a split is exactly the text before the first
      occurrence of the separator, or the whole string when there is none. */
  lemma SplitFirstPiece(s: string, sep: string)
    requires |sep| > 0
    ensures Contains(s, sep) ==>
      var u := Split(s, sep)[0];
      s[..|u|] == u && OccursAt(s, sep, |u|)
      && forall j | 0 <= j < |u| :: !OccursAt(s, sep, j)
    ensures !Contains(s, sep) ==> Split(s, sep) == [s]
  {
  }

  /** Joining the pieces of a split with the same separator gives back the
      original string. */
  lemma {:induction false} JoinSplit(s: string, sep: string)
    requires |sep| > 0
    ensures Join(Split(s, sep), sep) == s
    decreases |s|
  {
    match Index(s, sep)
    case None =>
      assert Split(s, sep) == [s];
    case Some(i) =>
      JoinSplit(s[i + |sep|..], sep);
      SplitAt(s, sep, i);
      JoinAroundOccurrence(s, sep, i, Split(s[i + |sep|..], sep));
  }

  /** One step of Split: the piece before the first occurrence, then the
      split of what follows it. */
  lemma SplitAt(s: string, sep: string, i: nat)
    requires |sep| > 0 && Index(s, sep) == Some(i)
    ensures i + |sep| <= |s|
    ensures Split(s, sep) == [s[..i]] + Split(s[i + |sep|..], sep)
  {
  }

  /** Joining a piece in front of a non-empty list puts one separator
      between it and the rest. */
  lemma JoinCons(head: string, tail: seq<string>, sep: string)
    requires |tail| >= 1
    ensures Join([head] + tail, sep) == head + sep + Join(tail, sep)
  {
    assert ([head] + tail)[1..] == tail;
  }

  /** Text around an occurrence of the separator is rebuilt by joining the
      piece before it with pieces that rebuild the text after it. */
  lemma JoinAroundOccurrence(s: string, sep: string, i: nat, tail: seq<string>)
    requires OccursAt(s, sep, i) && |tail| >= 1 && Join(tail, sep) == s[i + |sep|..]
    ensures Join([s[..i]] + tail, sep) == s
  {
    JoinCons(s[..i], tail, sep);
    AroundOccurrence(s, sep, i);
  }

  /** A string is the text before an occurrence, the occurrence, and the
      text after it. */
  lemma AroundOccurrence(s: string, pat: string, i: nat)
    requires OccursAt(s, pat, i)
    ensures s[..i] + pat + s[i + |pat|..] == s
  {
    assert s[..i + |pat|] == s[..i] + s[i..i + |pat|];
    assert s == s[..i + |pat|] + s[i + |pat|..];
  }

  /** The first occurrence of the one-character separator in
      `p + [c] + rest` is right after `p` when `p` has no `c`. */
  lemma IndexAfterPiece(p: string, c: char, rest: string)
    requires c !in p
    ensures Index(p + [c] + rest, [c]) == Some(|p|)
  {
    var s := p + [c] + rest;
    assert s[|p|..|p| + 1] == [c];
    assert OccursAt(s, [c], |p|);
    forall j | 0 <= j < |p| ensures !OccursAt(s, [c], j) {
      assert s[j..j + 1] == [p[j]];
    }
    var r := Index(s, [c]);
    assert r.Some?;
    assert !(r.value < |p|);
    assert !(|p| < r.value);
  }

  /** A string without the separator character does not split. */
  lemma SplitNoSeparator(s: string, c: char)
    requires c !in s
    ensures Split(s, [c]) == [s]
  {
    forall j | 0 <= j < |s| ensures !OccursAt(s, [c], j) {
      assert s[j..j + 1] == [s[j]];
    }
  }

  /** Splitting a join on a one-character separator recovers the pieces,
      provided no piece contains that character: a topic built from levels
      is taken apart into the same levels. */
  lemma {:induction false} SplitJoin(parts: seq<string>, c: char)
    requires |parts| >= 1
    requires forall p | p in parts :: c !in p
    ensures Split(Join(parts, [c]), [c]) == parts
    decreases |parts|
  {
    if |parts| == 1 {
      SplitNoSeparator(parts[0], c);
    } else {
      var rest := Join(parts[1..], [c]);
      var s := parts[0] + [c] + rest;
      assert Join(parts, [c]) == s;
      IndexAfterPiece(parts[0], c, rest);
      assert s[..|parts[0]|] == parts[0];
      assert s[|parts[0]| + 1..] == rest;
      SplitJoin(parts[1..], c);
      assert parts == [parts[0]] + parts[1..];
    }
  }

  /** strings.HasPrefix. */
  predicate HasPrefix(s: string, prefix: string) {
    |prefix| <= |s| && s[..|prefix|] == prefix
  }

  /** strings.TrimPrefix: `s` without `prefix` when it starts with it,
      `s` unchanged otherwise. */
  function TrimPrefix(s: string, prefix: string): (r: string)
    ensures HasPrefix(s, prefix) ==> prefix + r == s
    ensures !HasPrefix(s, prefix) ==> r == s
  {
    if HasPrefix(s, prefix) then s[|prefix|..] else s
  }

  /** Trimming a prefix that was just prepended gives back the suffix. */
  lemma TrimPrefixOfConcat(prefix: string, x: string)
    ensures HasPrefix(prefix + x, prefix)
    ensures TrimPrefix(prefix + x, prefix) == x
  {
    assert (prefix + x)[..|prefix|] == prefix;
  }
}
