/**
 * The byte-level searches the converter performs on one input line:
 * the leftmost `": "` (strings.SplitN with the separator), the leftmost
 * `": "` followed by an opening delimiter (the multiLineMatch regexp and
 * multiLineMatcher), the opener-to-closer table, and strings.Count of a
 * single byte.
 */
module Matcher {
  import opened Wrappers

  /** Go strings are byte strings. */
  newtype byte = b: int | 0 <= b < 256

  type Line = seq<byte>

  const Newline: byte := 10       // '\n'
  const Space: byte := 32         // ' '
  const Quote: byte := 34         // '"'
  const Colon: byte := 58         // ':'
  const Semicolon: byte := 59     // ';'
  const LeftBracket: byte := 91   // '['
  const RightBracket: byte := 93  // ']'

  /** The constant `separator = ": "`. */
  const Separator: Line := [Colon, Space]

  /** multiLineStartChars and multiLineEndChars, paired by position. */
  const StartChars: seq<byte> := [Quote, LeftBracket]
  const EndChars: seq<byte> := [Quote, RightBracket]

  /** The regexp's character class: one of the start characters. */
  predicate IsOpener(b: byte) {
    b == Quote || b == LeftBracket
  }

  /** The closer paired with an opener: '"' with '"', '[' with ']'. */
  function CloserOf(o: byte): byte {
    if o == LeftBracket then RightBracket else Quote
  }

  /** The separator `": "` starts at position i of s. */
  predicate SeparatorAt(s: Line, i: int) {
    0 <= i && i + 1 < |s| && s[i] == Colon && s[i + 1] == Space
  }

  /** The pattern `": "` followed by an opener starts at position i of s. */
  predicate OpensAt(s: Line, i: int) {
    SeparatorAt(s, i) && i + 2 < |s| && IsOpener(s[i + 2])
  }

  /** The leftmost separator at or after `from`. */
  function FindSeparator(s: Line, from: nat): Option<nat>
    decreases |s| - from
  {
    if from + 1 >= |s| then None
    else if SeparatorAt(s, from) then Some(from)
    else FindSeparator(s, from + 1)
  }

  /** FindSeparator returns the leftmost separator position at or after `from`, if any. */
  lemma {:induction false} FindSeparatorSpec(s: Line, from: nat)
    decreases |s| - from
    ensures var r := FindSeparator(s, from);
      (r.Some? ==> from <= r.value && SeparatorAt(s, r.value)) &&
      (forall j :: from <= j && (r.None? || j < r.value) ==> !SeparatorAt(s, j))
  {
    if from + 1 < |s| && !SeparatorAt(s, from) {
      FindSeparatorSpec(s, from + 1);
    }
  }

  /**
   * strings.SplitN(s, ": ", 2): None when the separator does not occur
   * (the one-element result), otherwise the text before the first
   * separator and everything after it.
   */
  function SplitN(s: Line): Option<(Line, Line)> {
    match FindSeparator(s, 0)
    case None => None
    case Some(i) =>
      FindSeparatorSpec(s, 0);
      Some((s[..i], s[i + 2..]))
  }

  /**
   * SplitN fails exactly on lines without the separator; otherwise it cuts
   * the line at the first separator, and joining the parts with the
   * separator gives the line back.
   */
  lemma SplitNSpec(s: Line)
    ensures SplitN(s).None? <==> forall i :: !SeparatorAt(s, i)
    ensures SplitN(s).Some? ==> s == SplitN(s).value.0 + Separator + SplitN(s).value.1
    ensures SplitN(s).Some? ==> forall j :: 0 <= j < |SplitN(s).value.0| ==> !SeparatorAt(s, j)
  {
    FindSeparatorSpec(s, 0);
    if FindSeparator(s, 0).Some? {
      var i := FindSeparator(s, 0).value;
      assert s == s[..i] + Separator + s[i + 2..];
    }
  }

  /** The leftmost match of the multi-line pattern at or after `from`. */
  function FindOpener(s: Line, from: nat): Option<nat>
    decreases |s| - from
  {
    if from + 2 >= |s| then None
    else if OpensAt(s, from) then Some(from)
    else FindOpener(s, from + 1)
  }

  /** FindOpener returns the leftmost pattern position at or after `from`, if any. */
  lemma {:induction false} FindOpenerSpec(s: Line, from: nat)
    decreases |s| - from
    ensures var r := FindOpener(s, from);
      (r.Some? ==> from <= r.value && OpensAt(s, r.value)) &&
      (forall j :: from <= j && (r.None? || j < r.value) ==> !OpensAt(s, j))
  {
    if from + 2 < |s| && !OpensAt(s, from) {
      FindOpenerSpec(s, from + 1);
    }
  }

  /** The loop over multiLineStartChars from index k on. */
  function PairFrom(o: byte, k: nat): Option<(byte, byte)>
    requires k <= |StartChars|
    decreases |StartChars| - k
  {
    if k == |StartChars| then None
    else if StartChars[k] == o then Some((o, EndChars[k]))
    else PairFrom(o, k + 1)
  }

  /** The leftmost i at which the multi-line pattern matches. */
  predicate FirstOpener(s: Line, i: int) {
    OpensAt(s, i) && forall j :: 0 <= j < i ==> !OpensAt(s, j)
  }

  /**
   * multiLineMatcher: Some((start, end)) when the line contains `": "`
   * followed by an opener, taken at the leftmost such place.
   */
  function MultiLineMatcher(s: Line): Option<(byte, byte)> {
    match FindOpener(s, 0)
    case None => None
    case Some(i) =>
      FindOpenerSpec(s, 0);
      PairFrom(s[i + 2], 0)
  }

  /** The matcher succeeds exactly when the pattern occurs, and then reports the leftmost opener and its closer. */
  lemma MatcherSpec(s: Line)
    ensures MultiLineMatcher(s).Some? <==> exists i :: OpensAt(s, i)
    ensures MultiLineMatcher(s).Some? ==>
      exists i :: FirstOpener(s, i) && MultiLineMatcher(s).value == (s[i + 2], CloserOf(s[i + 2]))
  {
    FindOpenerSpec(s, 0);
    if FindOpener(s, 0).Some? {
      var i := FindOpener(s, 0).value;
      assert FirstOpener(s, i);
      PairTable(s[i + 2]);
    }
  }

  /** strings.Count(s, string(b)) for a single byte b. */
  function Count(s: Line, b: byte): nat {
    if s == [] then 0
    else (if s[0] == b then 1 else 0) + Count(s[1..], b)
  }

  /**
   * Lines 117-134: the closer to wait for when the line opens a value that
   * does not close on the same line, i.e. when the count of the opener,
   * plus the count of the closer where the two differ, is odd.
   */
  function OpensMultiLine(s: Line): Option<byte> {
    match MultiLineMatcher(s)
    case None => None
    case Some((start, end)) =>
      var c1 := Count(s, start);
      var c2 := if start != end then Count(s, end) else 0;
      if (c1 + c2) % 2 != 0 then Some(end) else None
  }

  /** The lookup loop over the two tables returns each opener's paired closer. */
  lemma PairTable(o: byte)
    ensures PairFrom(o, 0) == if IsOpener(o) then Some((o, CloserOf(o))) else None
  {
  }

  /** Count agrees with the multiplicity of b in the line. */
  lemma {:induction false} CountIsMultiplicity(s: Line, b: byte)
    ensures Count(s, b) == multiset(s)[b]
  {
    if s != [] {
      assert s == [s[0]] + s[1..];
      assert multiset(s) == multiset([s[0]]) + multiset(s[1..]);
      CountIsMultiplicity(s[1..], b);
    }
  }

  /** The first separator decomposes a line uniquely: joining and splitting are inverse. */
  lemma SplitJoin(k: Line, v: Line)
    requires forall j :: 0 <= j < |k| ==> !SeparatorAt(k + Separator + v, j)
    ensures SplitN(k + Separator + v) == Some((k, v))
  {
    var s := k + Separator + v;
    assert SeparatorAt(s, |k|);
    SplitNSpec(s);
    var r := SplitN(s);
    var i := |r.value.0|;
    assert s[i] == Colon && s[i + 1] == Space;
    assert SeparatorAt(s, i);
    assert i == |k|;
    assert r.value.0 == s[..i] == k;
    assert r.value.1 == s[i + 2..] == v;
  }

  /**
   * Every line the matcher accepts contains the separator, and the first
   * separator is at or before the matched one, so the split may cut the line
   * at an earlier `": "` than the one that opened the value.
   */
  lemma OpenerLineSplits(s: Line, i: int)
    requires FirstOpener(s, i)
    ensures SplitN(s).Some? && |SplitN(s).value.0| <= i
  {
    assert SeparatorAt(s, i);
    SplitNSpec(s);
  }

  /**
   * OpensMultiLine, stated without the search: some closer c is returned
   * exactly when the leftmost `": "`-plus-opener exists, c is the opener's
   * partner, and the opener's multiplicity (plus the closer's, when
   * different) is odd.
   */
  lemma OpensMultiLineSpec(s: Line, c: byte)
    ensures OpensMultiLine(s) == Some(c) <==>
      exists i :: FirstOpener(s, i) && c == CloserOf(s[i + 2]) &&
        (multiset(s)[s[i + 2]] + (if c != s[i + 2] then multiset(s)[c] else 0)) % 2 == 1
  {
    MatcherSpec(s);
    var m := MultiLineMatcher(s);
    if m.Some? {
      var i :| FirstOpener(s, i) && m.value == (s[i + 2], CloserOf(s[i + 2]));
      var o := s[i + 2];
      CountIsMultiplicity(s, o);
      CountIsMultiplicity(s, CloserOf(o));
    }
  }
}
