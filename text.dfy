/** The JavaScript string operations the console relies on, for literal patterns:
    `includes`, `replace(/lit/g, rep)` and `join(sep)`. `IndexOf` is the search behind
    `includes`; `SplitOn` (`split(lit)`) only reads an output back into its lines. */
module TextOps {
  import opened Results

  /** `pat` occurs in `s` starting at index `i`. */
  predicate OccursAt(s: string, pat: string, i: nat) {
    i + |pat| <= |s| && s[i..i + |pat|] == pat
  }

  /** The leftmost index at or after `from` where `pat` occurs (`s.indexOf(pat, from)`). */
  function IndexOf(s: string, pat: string, from: nat): (r: Option<nat>)
    requires from <= |s|
    ensures r.Some? ==> from <= r.value <= |s| && OccursAt(s, pat, r.value)
    ensures r.Some? ==> forall j :: from <= j < r.value ==> !OccursAt(s, pat, j)
    ensures r.None? ==> forall j :: from <= j ==> !OccursAt(s, pat, j)
    decreases |s| - from
  {
    if OccursAt(s, pat, from) then Some(from)
    else if from == |s| then None
    else IndexOf(s, pat, from + 1)
  }

  /** `s.includes(pat)`. */
  function Contains(s: string, pat: string): (r: bool)
    ensures r <==> exists i: nat :: OccursAt(s, pat, i)
  {
    IndexOf(s, pat, 0).Some?
  }

  /** `s.replace(/pat/g, rep)` for a pattern without metacharacters and a replacement
      without `$` sequences: every leftmost, non-overlapping occurrence becomes `rep`. */
  function ReplaceAll(s: string, pat: string, rep: string): string
    requires pat != []
    decreases |s|
  {
    if |s| < |pat| then s
    else if s[..|pat|] == pat then rep + ReplaceAll(s[|pat|..], pat, rep)
    else [s[0]] + ReplaceAll(s[1..], pat, rep)
  }

  /** `s.split(sep)` for a non-empty separator. */
  function SplitOn(s: string, sep: string): (parts: seq<string>)
    requires sep != []
    ensures |parts| >= 1
    decreases |s|
  {
    match IndexOf(s, sep, 0)
    case None => [s]
    case Some(i) => [s[..i]] + SplitOn(s[i + |sep|..], sep)
  }

  /** `parts.join(sep)`. */
  function Join(parts: seq<string>, sep: string): string
  {
    if |parts| == 0 then ""
    else if |parts| == 1 then parts[0]
    else parts[0] + sep + Join(parts[1..], sep)
  }

  /** A string in which the first character of `pat` never appears does not contain `pat`. */
  lemma AbsentFirstChar(s: string, pat: string)
    requires pat != [] && pat[0] !in s
    ensures !Contains(s, pat)
  {
    forall i: nat
      ensures !OccursAt(s, pat, i)
    {
      if i + |pat| <= |s| {
        assert s[i..i + |pat|][0] == s[i];
      }
    }
  }

  /** Until its first occurrence of `pat`, replacing copies `s` unchanged. */
  lemma {:induction false} ReplaceAllSkip(s: string, pat: string, rep: string, i: nat)
    requires pat != [] && i <= |s|
    requires forall j :: 0 <= j < i ==> !OccursAt(s, pat, j)
    ensures ReplaceAll(s, pat, rep) == s[..i] + ReplaceAll(s[i..], pat, rep)
  {
    if i == 0 {
      assert s[..0] + s[0..] == s;
    } else if |s| < |pat| {
      assert s[..i] + s[i..] == s;
    } else {
      assert !OccursAt(s, pat, 0);
      forall j | 0 <= j < i - 1
        ensures !OccursAt(s[1..], pat, j)
      {
        assert !OccursAt(s, pat, j + 1);
        if j + |pat| <= |s[1..]| {
          assert s[1..][j..j + |pat|] == s[j + 1..j + 1 + |pat|];
        }
      }
      assert s[..|pat|] != pat;
      assert ReplaceAll(s, pat, rep) == [s[0]] + ReplaceAll(s[1..], pat, rep);
      ReplaceAllSkip(s[1..], pat, rep, i - 1);
      assert s[1..][..i - 1] == s[1..i];
      assert s[1..][i - 1..] == s[i..];
      assert [s[0]] + s[1..i] == s[..i];
    }
  }

  /** Every occurrence is replaced by the same text: replacing all occurrences is
      splitting at them and joining the pieces with the replacement. */
  lemma {:induction false} ReplaceAllIsSplitJoin(s: string, pat: string, rep: string)
    requires pat != []
    ensures ReplaceAll(s, pat, rep) == Join(SplitOn(s, pat), rep)
    decreases |s|
  {
    match IndexOf(s, pat, 0)
    case None =>
      ReplaceAllSkip(s, pat, rep, |s|);
      assert s[..|s|] == s;
    case Some(i) =>
      ReplaceAllSkip(s, pat, rep, i);
      var rest := s[i + |pat|..];
      assert s[i..][..|pat|] == pat;
      assert s[i..][|pat|..] == rest;
      ReplaceAllIsSplitJoin(rest, pat, rep);
      assert SplitOn(s, pat) == [s[..i]] + SplitOn(rest, pat);
  }

  /** A string that does not contain `pat` is left unchanged by replacing `pat`. */
  lemma ReplaceAllAbsent(s: string, pat: string, rep: string)
    requires pat != [] && !Contains(s, pat)
    ensures ReplaceAll(s, pat, rep) == s
  {
    ReplaceAllSkip(s, pat, rep, |s|);
    assert s[..|s|] == s;
  }

  /** Joining the pieces of a split with the same separator gives back the string. */
  lemma {:induction false} JoinSplit(s: string, sep: string)
    requires sep != []
    ensures Join(SplitOn(s, sep), sep) == s
    decreases |s|
  {
    var found := IndexOf(s, sep, 0);
    if found.Some? {
      var i := found.value;
      var rest := s[i + |sep|..];
      var pieces := SplitOn(rest, sep);
      JoinSplit(rest, sep);
      assert SplitOn(s, sep) == [s[..i]] + pieces;
      assert ([s[..i]] + pieces)[1..] == pieces;
      assert Join(SplitOn(s, sep), sep) == s[..i] + sep + rest;
      assert s[i..i + |sep|] == sep;
      assert s == s[..i] + s[i..i + |sep|] + rest;
    }
  }

  /** Splitting lines joined by a one-character separator that none of them holds
      gives back exactly those lines, in order. */
  lemma {:induction false} SplitJoin(parts: seq<string>, c: char)
    requires |parts| >= 1
    requires forall k :: 0 <= k < |parts| ==> c !in parts[k]
    ensures SplitOn(Join(parts, [c]), [c]) == parts
    decreases |parts|
  {
    var s := Join(parts, [c]);
    var p0 := parts[0];
    if |parts| == 1 {
      AbsentFirstChar(p0, [c]);
    } else {
      var tail := Join(parts[1..], [c]);
      assert s == p0 + [c] + tail;
      assert OccursAt(s, [c], |p0|) by {
        assert s[|p0|..|p0| + 1] == [c];
      }
      forall j | 0 <= j < |p0|
        ensures !OccursAt(s, [c], j)
      {
        assert s[j] == p0[j];
        assert s[j..j + 1][0] == s[j];
      }
      assert IndexOf(s, [c], 0) == Some(|p0|);
      assert s[..|p0|] == p0;
      assert s[|p0| + 1..] == tail;
      SplitJoin(parts[1..], c);
    }
  }

  /** Joining two non-empty lists of lines is joining each and putting the separator between. */
  lemma {:induction false} JoinAppend(a: seq<string>, b: seq<string>, sep: string)
    requires |a| >= 1 && |b| >= 1
    ensures Join(a + b, sep) == Join(a, sep) + sep + Join(b, sep)
    decreases |a|
  {
    if |a| == 1 {
      assert (a + b)[1..] == b;
    } else {
      assert (a + b)[1..] == a[1..] + b;
      JoinAppend(a[1..], b, sep);
    }
  }
}
