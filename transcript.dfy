/**
 * The converter's line-by-line state machine as a pure specification: one
 * transition per scanned line (Step), the fold over the input (Run) and the
 * end-of-input check (Parse). The class in converter.dfy is proved to follow
 * these functions.
 */
module Transcript {
  import opened Wrappers
  import opened Matcher

  /** The log.Fatal exits of the scan loop. */
  datatype ParseError =
    | MissingSeparator(line: nat)  // "Split error": no `": "` on the line
    | EmptyKeyOrValue              // "split err": nothing before or after the separator
    | Unterminated                 // "Error parsing multiline input" after the last line

  /**
   * The loop's variables: the line and ignore counters, the multi-line
   * flag, key, accumulated text and closing byte, the sounds map and the
   * soundOrder slice.
   */
  datatype State = State(
    line: nat,
    ignore: nat,
    active: bool,
    index: Line,
    prevLines: Line,
    closer: byte,
    sounds: map<Line, Line>,
    order: seq<Line>)

  /** Go's zero values before the first line. */
  const Initial: State := State(0, 0, false, [], [], 0, map[], [])

  /** What the converter reports when the input ends cleanly. */
  datatype Summary = Summary(
    order: seq<Line>,
    sounds: map<Line, Line>,
    lines: nat,
    ignored: nat,
    distinct: nat)

  /** Empty lines and lines whose first byte is ';' are ignored. */
  predicate IsSkipped(cur: Line) {
    |cur| == 0 || cur[0] == Semicolon
  }

  /** sounds[key] = value; soundOrder = append(soundOrder, key). */
  function Record(s: State, key: Line, value: Line): State {
    s.(sounds := s.sounds[key := value], order := s.order + [key])
  }

  /**
   * The invariant the loop keeps: an idle machine holds no multi-line
   * leftovers, an active one has a key and a real closer, and the keys of
   * the order list are exactly the keys of the map.
   */
  ghost predicate Valid(s: State) {
    && (!s.active ==> s.prevLines == [] && s.index == [] && s.closer == 0)
    && (s.active ==> s.index != [] && (s.closer == Quote || s.closer == RightBracket))
    && (forall k :: k in s.order <==> k in s.sounds)
  }

  /** No multi-line value is being read and none of its leftovers remain. */
  predicate Idle(s: State) {
    !s.active && s.prevLines == [] && s.index == [] && s.closer == 0
  }

  /** One iteration of the scan loop on line `cur`. */
  function Step(s: State, cur: Line): Result<State, ParseError> {
    var s := s.(line := s.line + 1);
    if IsSkipped(cur) then
      Success(s.(ignore := s.ignore + 1))
    else if s.active && cur[|cur| - 1] == s.closer then
      var t := Record(s, s.index, s.prevLines + [Newline] + cur[..|cur| - 1]);
      Success(t.(prevLines := [], closer := 0, index := [], active := false))
    else if s.active then
      Success(s.(prevLines := s.prevLines + (if |s.prevLines| != 0 then [Newline] else []) + cur))
    else
      var s := match OpensMultiLine(cur)
        case Some(end) => s.(active := true, closer := end)
        case None => s;
      match SplitN(cur)
      case None => Failure(MissingSeparator(s.line))
      case Some((key, rest)) =>
        if |key| == 0 || |rest| == 0 then Failure(EmptyKeyOrValue)
        else if s.active && |s.prevLines| == 0 then Success(s.(index := key, prevLines := rest[1..]))
        else Success(Record(s, key, rest))
  }

  /** The number of skipped lines in the input. */
  function Skipped(lines: seq<Line>): (n: nat)
    ensures n <= |lines|
  {
    if lines == [] then 0
    else (if IsSkipped(lines[0]) then 1 else 0) + Skipped(lines[1..])
  }

  /** The scan loop over `lines`, stopping at the first fatal error. */
  function Run(s: State, lines: seq<Line>): Result<State, ParseError>
    decreases |lines|
  {
    if lines == [] then Success(s)
    else
      match Step(s, lines[0])
      case Failure(e) => Failure(e)
      case Success(t) => Run(t, lines[1..])
  }

  /**
   * What one scanned line does to the state, whatever the line: the line
   * counter advances by one, the ignore counter by one exactly for skipped
   * lines, the order list and the key set only grow (by at most one key),
   * only a non-skipped line scanned while idle can fail, and the invariant
   * is kept.
   */
  lemma StepInvariants(s: State, cur: Line)
    ensures var r := Step(s, cur);
      && (r.Success? ==> r.value.line == s.line + 1)
      && (r.Success? ==> r.value.ignore == s.ignore + (if IsSkipped(cur) then 1 else 0))
      && (r.Success? ==> s.order <= r.value.order && |r.value.order| <= |s.order| + 1)
      && (r.Success? ==> s.sounds.Keys <= r.value.sounds.Keys)
      && (r.Failure? ==> !IsSkipped(cur) && !s.active && !r.error.Unterminated?)
      && (Valid(s) && r.Success? ==> Valid(r.value))
  {
  }

  /**
   * Over a whole scan: every line is counted, the skipped ones are the
   * ignored ones, the order list only grows, the invariant is kept, and
   * the end-of-input error never comes from the scan itself.
   */
  lemma {:induction false} RunInvariants(s: State, lines: seq<Line>)
    decreases |lines|
    ensures var r := Run(s, lines);
      && (r.Success? ==> r.value.line == s.line + |lines|)
      && (r.Success? ==> r.value.ignore == s.ignore + Skipped(lines))
      && (r.Success? ==> s.order <= r.value.order)
      && (Valid(s) && r.Success? ==> Valid(r.value))
      && (r.Failure? ==> !r.error.Unterminated?)
  {
    if lines != [] {
      StepInvariants(s, lines[0]);
      if Step(s, lines[0]).Success? {
        RunInvariants(Step(s, lines[0]).value, lines[1..]);
      }
    }
  }

  /** The whole conversion: scan every line, then reject an open multi-line value. */
  function Parse(lines: seq<Line>): (r: Result<Summary, ParseError>)
    ensures r.Success? ==> r.value.lines == |lines| && r.value.ignored == Skipped(lines)
    ensures r.Success? ==> forall k :: k in r.value.order <==> k in r.value.sounds
    ensures r.Success? ==> r.value.distinct == |r.value.sounds|
  {
    match Run(Initial, lines)
    case Failure(e) => Failure(e)
    case Success(s) =>
      assert Valid(Initial);
      RunInvariants(Initial, lines);
      if s.active || |s.prevLines| != 0 then Failure(Unterminated)
      else Success(Summary(s.order, s.sounds, s.line, s.ignore, |s.sounds|))
  }

  /** A skipped line only advances the two counters, whatever the state. */
  lemma SkipOnlyCounts(s: State, cur: Line)
    requires IsSkipped(cur)
    ensures Step(s, cur) == Success(s.(line := s.line + 1, ignore := s.ignore + 1))
  {
  }

  /**
   * A line ending in the awaited closer finishes the value: the key gets the
   * accumulated text, a newline and the line without its last byte, the key
   * is appended to the order, and the machine is idle again.
   */
  lemma CloseRecordsValue(s: State, cur: Line)
    requires !IsSkipped(cur) && s.active && cur[|cur| - 1] == s.closer
    ensures Step(s, cur) == Success(State(s.line + 1, s.ignore, false, [], [], 0,
      s.sounds[s.index := s.prevLines + [Newline] + cur[..|cur| - 1]], s.order + [s.index]))
  {
  }

  /** Any other line while active is appended verbatim, newline-separated, and nothing is recorded. */
  lemma ContinueAccumulates(s: State, cur: Line)
    requires !IsSkipped(cur) && s.active && cur[|cur| - 1] != s.closer
    ensures Step(s, cur) == Success(s.(line := s.line + 1,
      prevLines := if s.prevLines == [] then cur else s.prevLines + [Newline] + cur))
  {
    if s.prevLines == [] {
      assert s.prevLines + [] + cur == cur;
    }
  }

  /**
   * A line scanned while idle fails exactly when it has no separator or an
   * empty side of the first separator; the line that opens a multi-line
   * value is no exception. Nothing else ever fails.
   */
  lemma FailsOnlyOnSplit(s: State, cur: Line)
    ensures Step(s, cur).Failure? <==>
      !IsSkipped(cur) && !s.active &&
      (SplitN(cur).None? || SplitN(cur).value.0 == [] || SplitN(cur).value.1 == [])
    ensures Step(s, cur) == Failure(MissingSeparator(s.line + 1)) <==>
      !IsSkipped(cur) && !s.active && SplitN(cur).None?
  {
  }

  /**
   * An idle line that opens a value left open on that line enters
   * multi-line mode: the key is remembered, the rest minus its first byte
   * starts the accumulation, and nothing is recorded yet.
   */
  lemma OpenStartsValue(s: State, cur: Line, key: Line, rest: Line, end: byte)
    requires Idle(s) && !IsSkipped(cur)
    requires SplitN(cur) == Some((key, rest)) && key != [] && rest != []
    requires OpensMultiLine(cur) == Some(end)
    ensures Step(s, cur) == Success(s.(line := s.line + 1, active := true, closer := end,
      index := key, prevLines := rest[1..]))
  {
  }

  /**
   * Any other idle line is an entry: the map takes its value (last write
   * wins) and the key is appended to the order even when it is already there.
   */
  lemma OrdinaryEntry(s: State, cur: Line, key: Line, rest: Line)
    requires Idle(s) && !IsSkipped(cur)
    requires SplitN(cur) == Some((key, rest)) && key != [] && rest != []
    requires OpensMultiLine(cur).None?
    ensures Step(s, cur) == Success(s.(line := s.line + 1,
      sounds := s.sounds[key := rest], order := s.order + [key]))
  {
  }

  /**
   * The input is rejected at its end exactly when the scan finished inside
   * a multi-line value; the extra test on the accumulated text adds nothing.
   */
  lemma UnterminatedExactly(lines: seq<Line>)
    ensures Parse(lines) == Failure(Unterminated) <==>
      Run(Initial, lines).Success? && Run(Initial, lines).value.active
  {
    assert Valid(Initial);
    RunInvariants(Initial, lines);
  }

  /** Continue a scan that may already have failed. */
  function Then(r: Result<State, ParseError>, lines: seq<Line>): Result<State, ParseError> {
    match r
    case Failure(e) => Failure(e)
    case Success(t) => Run(t, lines)
  }

  /** Scanning a + b is scanning a, then scanning b from where a left off. */
  lemma {:induction false} RunAppend(s: State, a: seq<Line>, b: seq<Line>)
    decreases |a|
    ensures Run(s, a + b) == Then(Run(s, a), b)
  {
    if a == [] {
      assert a + b == b;
    } else {
      assert (a + b)[0] == a[0];
      assert (a + b)[1..] == a[1..] + b;
      match Step(s, a[0])
      case Failure(_) =>
      case Success(t) => RunAppend(t, a[1..], b);
    }
  }

  /** Scanning one more line after a prefix is one more Step. */
  lemma RunSnoc(s: State, pre: seq<Line>, x: Line)
    ensures Run(s, pre + [x]) ==
      match Run(s, pre)
      case Failure(e) => Failure(e)
      case Success(t) => Step(t, x)
  {
    RunAppend(s, pre, [x]);
    if Run(s, pre).Success? {
      var t := Run(s, pre).value;
      assert [x][1..] == [];
      if Step(t, x).Success? {
        assert Run(Step(t, x).value, []) == Step(t, x);
      }
    }
  }
}
