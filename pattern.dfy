/** The fragment of JavaScript regular expressions that the mock C compiler uses:
    literal text, greedy runs of `\s`, `\w`, `\d` or `[^c]` (optionally captured),
    the end-of-input anchor `$` (no `m` flag) and one optional non-capturing group.

    Runs are matched greedily and never give characters back. For the two patterns
    of the compiler this agrees with backtracking: every run is followed by an element
    that cannot start with a character of the run's class, or (for `\s*` before
    `[^)]*`, and `[^)]*` before `\s*`) by elements that end at the same place whatever
    the split. The optional group is tried first and dropped when the rest of the
    pattern fails after it, as a backtracking matcher does. */
module Pattern {
  import opened Results

  datatype CharClass =
    | Space          // \s
    | Word           // \w
    | Digit          // \d
    | NoneOf(c: char) // [^c]

  /** JavaScript's `\s`: WhiteSpace and LineTerminator code points. */
  predicate IsSpace(c: char) {
    c == '\t' || c == '\n' || c == '\U{b}' || c == '\U{c}' || c == '\r' || c == ' '
    || c == '\U{a0}' || c == '\U{1680}' || ('\U{2000}' <= c <= '\U{200a}')
    || c == '\U{2028}' || c == '\U{2029}' || c == '\U{202f}' || c == '\U{205f}'
    || c == '\U{3000}' || c == '\U{feff}'
  }

  predicate IsDigit(c: char) {
    '0' <= c <= '9'
  }

  /** JavaScript's `\w` without the `u` flag: ASCII letters, digits and `_`. */
  predicate IsWordChar(c: char) {
    ('a' <= c <= 'z') || ('A' <= c <= 'Z') || IsDigit(c) || c == '_'
  }

  predicate InClass(c: char, cls: CharClass) {
    match cls
    case Space => IsSpace(c)
    case Word => IsWordChar(c)
    case Digit => IsDigit(c)
    case NoneOf(x) => c != x
  }

  /** A pattern step that consumes characters without choice. */
  datatype Atom =
    | Lit(text: string)                                 // the characters themselves
    | Run(cls: CharClass, atLeastOne: bool, group: nat) // cls* or cls+, stored as `group` unless it is 0
    | EndOfInput                                        // $

  datatype Elem =
    | One(atom: Atom)
    | Optional(body: seq<Atom>)                         // (?: body )?

  /** Captured groups by number; a group that did not take part is absent. */
  type Groups = map<nat, string>

  /** Where a partial match stands. */
  datatype Step = Step(pos: nat, groups: Groups)

  /** A match of a whole pattern: `code[start..end]` with its groups. */
  datatype Found = Found(start: nat, end: nat, groups: Groups)

  /** The end of the longest run of `cls` characters starting at `pos`. */
  function RunEnd(code: string, pos: nat, cls: CharClass): (e: nat)
    requires pos <= |code|
    ensures pos <= e <= |code|
    ensures forall k :: pos <= k < e ==> InClass(code[k], cls)
    ensures e < |code| ==> !InClass(code[e], cls)
    decreases |code| - pos
  {
    if pos < |code| && InClass(code[pos], cls) then RunEnd(code, pos + 1, cls) else pos
  }

  function MatchAtom(code: string, pos: nat, a: Atom, groups: Groups): (r: Option<Step>)
    requires pos <= |code|
    ensures r.Some? ==> pos <= r.value.pos <= |code|
  {
    match a
    case Lit(t) =>
      if pos + |t| <= |code| && code[pos..pos + |t|] == t then Some(Step(pos + |t|, groups)) else None
    case Run(cls, atLeastOne, g) =>
      var e := RunEnd(code, pos, cls);
      if atLeastOne && e == pos then None
      else Some(Step(e, if g == 0 then groups else groups[g := code[pos..e]]))
    case EndOfInput =>
      if pos == |code| then Some(Step(pos, groups)) else None
  }

  function MatchAtoms(code: string, pos: nat, atoms: seq<Atom>, groups: Groups): (r: Option<Step>)
    requires pos <= |code|
    ensures r.Some? ==> pos <= r.value.pos <= |code|
    decreases |atoms|
  {
    if atoms == [] then Some(Step(pos, groups))
    else
      match MatchAtom(code, pos, atoms[0], groups)
      case None => None
      case Some(st) => MatchAtoms(code, st.pos, atoms[1..], st.groups)
  }

  function MatchElems(code: string, pos: nat, elems: seq<Elem>, groups: Groups): (r: Option<Step>)
    requires pos <= |code|
    ensures r.Some? ==> pos <= r.value.pos <= |code|
    decreases |elems|
  {
    if elems == [] then Some(Step(pos, groups))
    else
      match elems[0]
      case One(a) =>
        (match MatchAtom(code, pos, a, groups)
         case None => None
         case Some(st) => MatchElems(code, st.pos, elems[1..], st.groups))
      case Optional(body) =>
        var skipped := MatchElems(code, pos, elems[1..], groups);
        match MatchAtoms(code, pos, body, groups)
        case None => skipped
        case Some(st) =>
          var taken := MatchElems(code, st.pos, elems[1..], st.groups);
          if taken.Some? then taken else skipped
  }

  /** The pattern matched at exactly `pos`, with no groups captured beforehand. */
  function MatchAt(code: string, pos: nat, elems: seq<Elem>): Option<Step>
    requires pos <= |code|
  {
    MatchElems(code, pos, elems, map[])
  }

  /** The leftmost match starting at or after `from` (a regular-expression search). */
  function Search(code: string, elems: seq<Elem>, from: nat): (r: Option<Found>)
    requires from <= |code|
    ensures r.Some? ==> from <= r.value.start <= r.value.end <= |code|
    ensures r.Some? ==> MatchAt(code, r.value.start, elems) == Some(Step(r.value.end, r.value.groups))
    ensures r.Some? ==> forall j :: from <= j < r.value.start ==> MatchAt(code, j, elems).None?
    ensures r.None? ==> forall j :: from <= j <= |code| ==> MatchAt(code, j, elems).None?
    decreases |code| - from
  {
    match MatchAt(code, from, elems)
    case Some(st) => Some(Found(from, st.pos, st.groups))
    case None => if from == |code| then None else Search(code, elems, from + 1)
  }

  /** The texts of all matches from `from` on, as `String.prototype.match` with the `g`
      flag collects them: after an empty match the search moves one character on. */
  function MatchAll(code: string, elems: seq<Elem>, from: nat): (r: seq<string>)
    requires from <= |code|
    ensures r == [] <==> forall j :: from <= j <= |code| ==> MatchAt(code, j, elems).None?
    decreases |code| - from
  {
    match Search(code, elems, from)
    case None => []
    case Some(f) =>
      var text := code[f.start..f.end];
      if f.start < f.end then [text] + MatchAll(code, elems, f.end)
      else if f.end < |code| then [text] + MatchAll(code, elems, f.end + 1)
      else [text]
  }

  /** The pattern that steps through `atoms` one by one. */
  function Ones(atoms: seq<Atom>): (r: seq<Elem>)
    ensures |r| == |atoms| && forall k :: 0 <= k < |atoms| ==> r[k] == One(atoms[k])
  {
    seq(|atoms|, k requires 0 <= k < |atoms| => One(atoms[k]))
  }

  /** Atoms that store no group. */
  predicate CapturesNothing(atoms: seq<Atom>) {
    forall k :: 0 <= k < |atoms| ==> atoms[k].Run? ==> atoms[k].group == 0
  }

  /** Plain atoms at the head of a pattern are matched as one block before the rest. */
  lemma {:induction false} ThroughAtoms(code: string, pos: nat, atoms: seq<Atom>, tail: seq<Elem>, groups: Groups)
    requires pos <= |code|
    ensures MatchElems(code, pos, Ones(atoms) + tail, groups)
         == match MatchAtoms(code, pos, atoms, groups)
            case None => None
            case Some(st) => MatchElems(code, st.pos, tail, st.groups)
    decreases |atoms|
  {
    if atoms == [] {
      assert Ones(atoms) + tail == tail;
    } else {
      var elems := Ones(atoms) + tail;
      assert elems[0] == One(atoms[0]);
      assert elems[1..] == Ones(atoms[1..]) + tail;
      match MatchAtom(code, pos, atoms[0], groups)
      case None =>
      case Some(st) => ThroughAtoms(code, st.pos, atoms[1..], tail, st.groups);
    }
  }

  /** Atoms that store no group leave the groups as they were. */
  lemma {:induction false} AtomsKeepGroups(code: string, pos: nat, atoms: seq<Atom>, groups: Groups)
    requires pos <= |code| && CapturesNothing(atoms)
    ensures MatchAtoms(code, pos, atoms, groups).Some? ==> MatchAtoms(code, pos, atoms, groups).value.groups == groups
    decreases |atoms|
  {
    if atoms != [] {
      match MatchAtom(code, pos, atoms[0], groups)
      case None =>
      case Some(st) =>
        assert st.groups == groups;
        assert CapturesNothing(atoms[1..]) by {
          forall k | 0 <= k < |atoms| - 1 ensures atoms[1..][k] == atoms[k + 1] { }
        }
        AtomsKeepGroups(code, st.pos, atoms[1..], groups);
    }
  }

  /** A pattern of plain atoms that capture nothing, then one captured `cls+` run:
      a match stores exactly group 1, a non-empty run of `cls` characters. */
  lemma CapturedRunAfterAtoms(code: string, pos: nat, prefix: seq<Atom>, cls: CharClass, elems: seq<Elem>)
    requires pos <= |code| && CapturesNothing(prefix)
    requires elems == Ones(prefix) + [One(Run(cls, true, 1))]
    ensures MatchAt(code, pos, elems).Some? ==>
      var g := MatchAt(code, pos, elems).value.groups;
      MatchAtoms(code, pos, prefix, map[]).Some? && 1 in g && g == map[1 := g[1]]
      && |g[1]| > 0 && forall k :: 0 <= k < |g[1]| ==> InClass(g[1][k], cls)
  {
    var last := [One(Run(cls, true, 1))];
    ThroughAtoms(code, pos, prefix, last, map[]);
    var before := MatchAtoms(code, pos, prefix, map[]);
    if before.Some? {
      AtomsKeepGroups(code, pos, prefix, map[]);
      var start := before.value.pos;
      var stop := RunEnd(code, start, cls);
      if stop != start {
        assert MatchAt(code, pos, elems) == Some(Step(stop, map[1 := code[start..stop]]));
        assert forall k :: 0 <= k < stop - start ==> code[start..stop][k] == code[start + k];
      }
    }
  }

  /** A match of atoms that begin with literal text starts with that text. */
  lemma LeadingLiteral(code: string, pos: nat, atoms: seq<Atom>)
    requires pos <= |code| && atoms != [] && atoms[0].Lit?
    requires MatchAtoms(code, pos, atoms, map[]).Some?
    ensures pos + |atoms[0].text| <= |code| && code[pos..pos + |atoms[0].text|] == atoms[0].text
  {
  }
}
