/**
 * Properties of whole conversions: skipped lines are invisible, plain
 * entries give last-write-wins with repeated keys kept in the order list,
 * a multi-line value is its lines joined by newlines, and the written rows
 * read back to the parsed map.
 */
module Properties {
  import opened Wrappers
  import opened Matcher
  import opened Transcript
  import opened Table

  // ---------------------------------------------------------------------
  // Skipped lines change nothing but the counters

  /** t is s with the two counters moved by dl and di. */
  predicate Shifted(s: State, t: State, dl: int, di: int) {
    t == s.(line := t.line, ignore := t.ignore) && t.line == s.line + dl && t.ignore == s.ignore + di
  }

  /** The counters never steer a transition. */
  lemma StepShift(s: State, t: State, dl: int, di: int, cur: Line)
    requires Shifted(s, t, dl, di)
    ensures Step(s, cur).Success? <==> Step(t, cur).Success?
    ensures Step(s, cur).Success? ==> Shifted(Step(s, cur).value, Step(t, cur).value, dl, di)
  {
  }

  lemma {:induction false} RunShift(s: State, t: State, dl: int, di: int, lines: seq<Line>)
    requires Shifted(s, t, dl, di)
    decreases |lines|
    ensures Run(s, lines).Success? <==> Run(t, lines).Success?
    ensures Run(s, lines).Success? ==> Shifted(Run(s, lines).value, Run(t, lines).value, dl, di)
  {
    if lines != [] {
      StepShift(s, t, dl, di, lines[0]);
      if Step(s, lines[0]).Success? {
        RunShift(Step(s, lines[0]).value, Step(t, lines[0]).value, dl, di, lines[1..]);
      }
    }
  }

  /**
   * Inserting a blank or comment line anywhere, also inside a multi-line
   * value, leaves the outcome, the order list and the map unchanged and
   * adds one to the scanned and to the ignored count.
   */
  lemma SkippedLineInvisible(a: seq<Line>, c: Line, b: seq<Line>)
    requires IsSkipped(c)
    ensures Parse(a + [c] + b).Success? <==> Parse(a + b).Success?
    ensures Parse(a + b).Success? ==>
      var p, q := Parse(a + [c] + b).value, Parse(a + b).value;
      p.order == q.order && p.sounds == q.sounds && p.distinct == q.distinct &&
      p.lines == q.lines + 1 && p.ignored == q.ignored + 1
  {
    assert a + [c] + b == a + ([c] + b);
    RunAppend(Initial, a, [c] + b);
    RunAppend(Initial, a, b);
    match Run(Initial, a)
    case Failure(_) =>
    case Success(t) =>
      assert ([c] + b)[0] == c && ([c] + b)[1..] == b;
      SkipOnlyCounts(t, c);
      RunShift(t, Step(t, c).value, 1, 1, b);
  }

  // ---------------------------------------------------------------------
  // Plain single-line entries: order with repeats, last write wins

  /** A line that is recorded as a single-line entry when scanned while idle. */
  predicate IsEntry(cur: Line) {
    && !IsSkipped(cur)
    && OpensMultiLine(cur).None?
    && SplitN(cur).Some?
    && SplitN(cur).value.0 != []
    && SplitN(cur).value.1 != []
  }

  predicate AllPlain(lines: seq<Line>) {
    forall i :: 0 <= i < |lines| ==> IsSkipped(lines[i]) || IsEntry(lines[i])
  }

  /** The (key, value) pairs of the entry lines, in input order. */
  function Entries(lines: seq<Line>): (es: seq<(Line, Line)>)
    requires AllPlain(lines)
    ensures |es| + Skipped(lines) == |lines|
  {
    if lines == [] then []
    else (if IsSkipped(lines[0]) then [] else [SplitN(lines[0]).value]) + Entries(lines[1..])
  }

  function Keys(es: seq<(Line, Line)>): seq<Line> {
    seq(|es|, i requires 0 <= i < |es| => es[i].0)
  }

  /** Entry i is the last one with its key. */
  predicate LastFor(es: seq<(Line, Line)>, i: int) {
    0 <= i < |es| && forall j :: i < j < |es| ==> es[j].0 != es[i].0
  }

  /** The map after writing each entry in turn. */
  function Apply(m: map<Line, Line>, es: seq<(Line, Line)>): map<Line, Line>
    decreases |es|
  {
    if es == [] then m else Apply(m[es[0].0 := es[0].1], es[1..])
  }

  /** Writing entries with other keys leaves a key's presence and value alone. */
  lemma {:induction false} ApplyKeeps(m: map<Line, Line>, es: seq<(Line, Line)>, k: Line)
    requires k !in Keys(es)
    decreases |es|
    ensures k in Apply(m, es) <==> k in m
    ensures k in m ==> Apply(m, es)[k] == m[k]
  {
    if es != [] {
      assert es[0].0 == Keys(es)[0];
      assert Keys(es[1..]) == Keys(es)[1..];
      ApplyKeeps(m[es[0].0 := es[0].1], es[1..], k);
    }
  }

  /** Last write wins: a key ends up with the value of its last entry. */
  lemma {:induction false} ApplyLast(m: map<Line, Line>, es: seq<(Line, Line)>, i: int)
    requires LastFor(es, i)
    decreases |es|
    ensures es[i].0 in Apply(m, es) && Apply(m, es)[es[i].0] == es[i].1
  {
    var m' := m[es[0].0 := es[0].1];
    if i == 0 {
      assert es[0].0 !in Keys(es[1..]) by {
        forall j | 0 <= j < |es| - 1 ensures Keys(es[1..])[j] != es[0].0 {
          assert es[1..][j] == es[j + 1];
        }
      }
      ApplyKeeps(m', es[1..], es[0].0);
    } else {
      assert LastFor(es[1..], i - 1) by {
        forall j | i - 1 < j < |es| - 1 ensures es[1..][j].0 != es[1..][i - 1].0 {
          assert es[1..][j] == es[j + 1];
        }
      }
      ApplyLast(m', es[1..], i - 1);
    }
  }

  /** One plain line scanned while idle. */
  lemma PlainStep(s: State, x: Line)
    requires Idle(s) && (IsSkipped(x) || IsEntry(x))
    ensures Step(s, x) == Success(
      if IsSkipped(x) then s.(line := s.line + 1, ignore := s.ignore + 1)
      else s.(line := s.line + 1,
              sounds := s.sounds[SplitN(x).value.0 := SplitN(x).value.1],
              order := s.order + [SplitN(x).value.0]))
  {
    if IsSkipped(x) {
      SkipOnlyCounts(s, x);
    } else {
      OrdinaryEntry(s, x, SplitN(x).value.0, SplitN(x).value.1);
    }
  }

  /** The tail of a plain input is plain, and so is its first line. */
  lemma AllPlainTail(lines: seq<Line>)
    requires AllPlain(lines) && lines != []
    ensures IsSkipped(lines[0]) || IsEntry(lines[0])
    ensures AllPlain(lines[1..])
  {
    forall i | 0 <= i < |lines| - 1 ensures IsSkipped(lines[1..][i]) || IsEntry(lines[1..][i]) {
      assert lines[1..][i] == lines[i + 1];
    }
  }

  /** How the summary of a plain input grows by its first line. */
  lemma PlainCons(m: map<Line, Line>, lines: seq<Line>)
    requires AllPlain(lines) && lines != []
    ensures AllPlain(lines[1..])
    ensures IsSkipped(lines[0]) ==>
      Skipped(lines) == 1 + Skipped(lines[1..]) && Entries(lines) == Entries(lines[1..])
    ensures !IsSkipped(lines[0]) ==>
      && Skipped(lines) == Skipped(lines[1..])
      && Apply(m, Entries(lines)) == Apply(m[SplitN(lines[0]).value.0 := SplitN(lines[0]).value.1], Entries(lines[1..]))
      && Keys(Entries(lines)) == [SplitN(lines[0]).value.0] + Keys(Entries(lines[1..]))
  {
    AllPlainTail(lines);
    if !IsSkipped(lines[0]) {
      var es := Entries(lines);
      assert es == [SplitN(lines[0]).value] + Entries(lines[1..]);
      assert es[1..] == Entries(lines[1..]);
    }
  }

  lemma {:induction false} RunPlain(s: State, lines: seq<Line>)
    requires Idle(s) && AllPlain(lines)
    decreases |lines|
    ensures Run(s, lines) == Success(s.(
      line := s.line + |lines|,
      ignore := s.ignore + Skipped(lines),
      sounds := Apply(s.sounds, Entries(lines)),
      order := s.order + Keys(Entries(lines))))
  {
    if lines == [] {
      assert s.order + [] == s.order;
    } else {
      var x, rest := lines[0], lines[1..];
      AllPlainTail(lines);
      PlainStep(s, x);
      PlainCons(s.sounds, lines);
      var t1 := Step(s, x).value;
      assert Run(s, lines) == Run(t1, rest);
      RunPlain(t1, rest);
      if !IsSkipped(x) {
        var k := SplitN(x).value.0;
        assert s.order + [k] + Keys(Entries(rest)) == s.order + Keys(Entries(lines));
      }
    }
  }

  /**
   * An input of blank, comment and single-line entry lines always converts:
   * the order list is every entry's key in input order, repeats included,
   * each key maps to the value of its last entry, and every non-ignored line
   * produced one entry.
   */
  lemma PlainLinesTable(lines: seq<Line>)
    requires AllPlain(lines)
    ensures Parse(lines).Success?
    ensures Parse(lines).value.order == Keys(Entries(lines))
    ensures forall i :: LastFor(Entries(lines), i) ==>
      Entries(lines)[i].0 in Parse(lines).value.sounds &&
      Parse(lines).value.sounds[Entries(lines)[i].0] == Entries(lines)[i].1
    ensures Parse(lines).value.ignored + |Entries(lines)| == |lines|
  {
    RunPlain(Initial, lines);
    assert [] + Keys(Entries(lines)) == Keys(Entries(lines));
    forall i | LastFor(Entries(lines), i)
      ensures Entries(lines)[i].0 in Apply(map[], Entries(lines))
      ensures Apply(map[], Entries(lines))[Entries(lines)[i].0] == Entries(lines)[i].1
    {
      ApplyLast(map[], Entries(lines), i);
    }
  }

  // ---------------------------------------------------------------------
  // Multi-line values

  /** The parts separated by single newlines. */
  function JoinLines(parts: seq<Line>): Line {
    if parts == [] then []
    else if |parts| == 1 then parts[0]
    else parts[0] + [Newline] + JoinLines(parts[1..])
  }

  lemma {:induction false} JoinSnoc(parts: seq<Line>, p: Line)
    requires parts != []
    decreases |parts|
    ensures JoinLines(parts + [p]) == JoinLines(parts) + [Newline] + p
  {
    if |parts| > 1 {
      assert (parts + [p])[1..] == parts[1..] + [p];
      JoinSnoc(parts[1..], p);
    } else {
      assert (parts + [p])[1..] == [p];
    }
  }

  /** The accumulated text as a list of parts: nothing when it is empty. */
  function Pending(prev: Line): seq<Line> {
    if prev == [] then [] else [prev]
  }

  /** Appending m to the accumulated text p, as a continuation line does. */
  function Push(p: Line, m: Line): Line {
    if p == [] then m else p + [Newline] + m
  }

  /** Accumulating one more line adds one more part to the join. */
  lemma JoinPush(p: Line, m: Line, rest: seq<Line>)
    ensures JoinLines([Push(p, m)] + rest) == JoinLines(Pending(p) + [m] + rest)
  {
    if p == [] {
      assert Pending(p) + [m] + rest == [m] + rest;
    } else {
      var parts := [p, m] + rest;
      assert Pending(p) + [m] + rest == parts;
      assert parts[1..] == [m] + rest;
      if rest != [] {
        assert ([m] + rest)[1..] == rest;
        assert ([Push(p, m)] + rest)[1..] == rest;
      }
    }
  }

  /** Lines that neither are skipped nor end in the closer just accumulate. */
  lemma {:induction false} RunContinues(s: State, middle: seq<Line>)
    requires s.active
    requires forall i :: 0 <= i < |middle| ==>
      !IsSkipped(middle[i]) && middle[i][|middle[i]| - 1] != s.closer
    decreases |middle|
    ensures Run(s, middle) == Success(s.(line := s.line + |middle|,
      prevLines := JoinLines(Pending(s.prevLines) + middle)))
  {
    if middle != [] {
      var m, rest := middle[0], middle[1..];
      ContinueAccumulates(s, m);
      var t1 := s.(line := s.line + 1, prevLines := Push(s.prevLines, m));
      assert Step(s, m) == Success(t1);
      assert Run(s, middle) == Run(t1, rest);
      assert forall i :: 0 <= i < |rest| ==> rest[i] == middle[i + 1];
      RunContinues(t1, rest);
      assert Pending(t1.prevLines) == [t1.prevLines];
      JoinPush(s.prevLines, m, rest);
      assert Pending(s.prevLines) + middle == Pending(s.prevLines) + [m] + rest;
    }
  }

  /** The opening line and the continuation lines leave the machine active, holding the joined text. */
  lemma OpenThenContinue(s: State, start: Line, middle: seq<Line>, key: Line, rest: Line, closer: byte)
    requires Idle(s) && !IsSkipped(start)
    requires SplitN(start) == Some((key, rest)) && key != [] && rest != []
    requires OpensMultiLine(start) == Some(closer)
    requires forall i :: 0 <= i < |middle| ==>
      !IsSkipped(middle[i]) && middle[i][|middle[i]| - 1] != closer
    ensures Run(s, [start] + middle) == Success(s.(
      line := s.line + 1 + |middle|, active := true, closer := closer, index := key,
      prevLines := JoinLines(Pending(rest[1..]) + middle)))
  {
    RunAppend(s, [start], middle);
    OpenStartsValue(s, start, key, rest, closer);
    var t0 := s.(line := s.line + 1, active := true, closer := closer, index := key, prevLines := rest[1..]);
    assert [start][1..] == [];
    assert Run(s, [start]) == Success(t0);
    RunContinues(t0, middle);
  }

  /** After any prefix that leaves a value open, a line ending in the closer records it. */
  lemma CloseAfter(s: State, pre: seq<Line>, end: Line, t: State)
    requires Run(s, pre) == Success(t) && t.active
    requires !IsSkipped(end) && end[|end| - 1] == t.closer
    ensures Run(s, pre + [end]) == Success(State(t.line + 1, t.ignore, false, [], [], 0,
      t.sounds[t.index := t.prevLines + [Newline] + end[..|end| - 1]], t.order + [t.index]))
  {
    RunSnoc(s, pre, end);
    CloseRecordsValue(t, end);
  }

  /**
   * A value opened on `start`, continued by `middle` and closed by `end`
   * is recorded once, under the key of `start`, as its lines joined by
   * newlines: the rest of `start` without its first byte (left out when
   * that is empty), each middle line verbatim, and `end` without its
   * closer; the newline before `end`'s text is always there.
   */
  lemma MultiLineValue(s: State, start: Line, middle: seq<Line>, end: Line,
                       key: Line, rest: Line, closer: byte)
    requires Idle(s) && !IsSkipped(start)
    requires SplitN(start) == Some((key, rest)) && key != [] && rest != []
    requires OpensMultiLine(start) == Some(closer)
    requires forall i :: 0 <= i < |middle| ==>
      !IsSkipped(middle[i]) && middle[i][|middle[i]| - 1] != closer
    requires !IsSkipped(end) && end[|end| - 1] == closer
    ensures Run(s, [start] + middle + [end]) == Success(s.(
      line := s.line + |middle| + 2,
      sounds := s.sounds[key := JoinLines(Pending(rest[1..]) + middle) + [Newline] + end[..|end| - 1]],
      order := s.order + [key]))
  {
    var acc := JoinLines(Pending(rest[1..]) + middle);
    var t1 := s.(line := s.line + 1 + |middle|, active := true, closer := closer, index := key, prevLines := acc);
    OpenThenContinue(s, start, middle, key, rest, closer);
    assert Run(s, [start] + middle) == Success(t1);
    CloseAfter(s, [start] + middle, end, t1);
    var t2 := State(t1.line + 1, t1.ignore, false, [], [], 0,
      t1.sounds[t1.index := t1.prevLines + [Newline] + end[..|end| - 1]], t1.order + [t1.index]);
    assert Run(s, [start] + middle + [end]) == Success(t2);
    assert t2 == s.(line := s.line + |middle| + 2,
      sounds := s.sounds[key := acc + [Newline] + end[..|end| - 1]],
      order := s.order + [key]);
  }

  /**
   * When the opening line leaves text or continuation lines exist, the
   * recorded value is exactly all the parts joined by newlines.
   */
  lemma MultiLineValueJoined(rest: Line, middle: seq<Line>, end: Line)
    requires rest != [] && end != []
    requires Pending(rest[1..]) + middle != []
    ensures JoinLines(Pending(rest[1..]) + middle) + [Newline] + end[..|end| - 1] ==
      JoinLines(Pending(rest[1..]) + middle + [end[..|end| - 1]])
  {
    JoinSnoc(Pending(rest[1..]) + middle, end[..|end| - 1]);
  }

  // ---------------------------------------------------------------------
  // The output rows

  /** Reading the data rows back gives exactly the listed keys, each with its looked-up value. */
  lemma {:induction false} ReadBackRecords(order: seq<Line>, sounds: map<Line, Line>)
    decreases |order|
    ensures forall k :: k in ReadBack(Records(order, sounds)[1..]) <==> k in order
    ensures forall k :: k in order ==> ReadBack(Records(order, sounds)[1..])[k] == Lookup(sounds, k)
  {
    if order != [] {
      var n := |order| - 1;
      var front, last := order[..n], order[n];
      ReadBackRecords(front, sounds);
      var rows := Records(order, sounds)[1..];
      assert rows[..|rows| - 1] == Records(front, sounds)[1..];
      assert rows[|rows| - 1] == [last, Lookup(sounds, last)];
      var m := ReadBack(Records(front, sounds)[1..]);
      assert ReadBack(rows) == m[last := Lookup(sounds, last)];
      assert order == front + [last];
    }
  }

  /**
   * After a successful conversion the rows are the header and one
   * (key, latest value) row per entry of the order list, so the first
   * column is the order list, and reading the rows back gives exactly the
   * converter's map.
   */
  lemma OutputRows(lines: seq<Line>)
    requires Parse(lines).Success?
    ensures var p := Parse(lines).value; var rs := Records(p.order, p.sounds);
      && |rs| == |p.order| + 1 && rs[0] == Header
      && (forall i :: 0 <= i < |p.order| ==> p.order[i] in p.sounds && rs[i + 1] == [p.order[i], p.sounds[p.order[i]]])
      && ReadBack(rs[1..]) == p.sounds
  {
    var p := Parse(lines).value;
    ReadBackRecords(p.order, p.sounds);
    var m := ReadBack(Records(p.order, p.sounds)[1..]);
    assert m.Keys == p.sounds.Keys;
  }

  // ---------------------------------------------------------------------
  // Worked examples

  /** A line `k: "a` whose key has no colon and no quote, and whose text has no quote, opens a quoted value. */
  lemma QuotedOpens(k: Line, a: Line)
    requires k != [] && Colon !in k && Quote !in k && Quote !in a
    ensures SplitN(k + Separator + ([Quote] + a)) == Some((k, [Quote] + a))
    ensures OpensMultiLine(k + Separator + ([Quote] + a)) == Some(Quote)
  {
    var start := k + Separator + ([Quote] + a);
    SplitJoin(k, [Quote] + a);
    MatcherSpec(start);
    assert OpensAt(start, |k|);
    var i :| FirstOpener(start, i) && MultiLineMatcher(start).value == (start[i + 2], CloserOf(start[i + 2]));
    assert start[i] == Colon;
    assert i == |k|;
    CountIsMultiplicity(start, Quote);
    assert multiset(start) == multiset(k) + multiset(Separator) + multiset([Quote]) + multiset(a);
  }

  /**
   * The two-line quoted value: `k: "a` followed by `b"` gives the single
   * entry k with value a, a newline and b, both quotes dropped; when a is
   * empty the value still starts with the newline.
   */
  lemma QuotedValue(k: Line, a: Line, b: Line)
    requires k != [] && k[0] != Semicolon && Colon !in k && Quote !in k && Quote !in a
    requires b == [] || b[0] != Semicolon
    ensures Parse([k + Separator + ([Quote] + a), b + [Quote]]) ==
      Success(Summary([k], map[k := a + [Newline] + b], 2, 0, 1))
  {
    var start, end := k + Separator + ([Quote] + a), b + [Quote];
    QuotedOpens(k, a);
    MultiLineValue(Initial, start, [], end, k, [Quote] + a, Quote);
    assert [start] + [] + [end] == [start, end];
    assert ([Quote] + a)[1..] == a;
    assert Pending(a) + [] == Pending(a);
    assert JoinLines(Pending(a)) == a;
    assert end[..|end| - 1] == b;
    var value := a + [Newline] + b;
    assert JoinLines(Pending(([Quote] + a)[1..]) + []) + [Newline] + end[..|end| - 1] == value;
    assert Run(Initial, [start] + [] + [end]) == Success(Initial.(line := 2, sounds := map[][k := value], order := [] + [k]));
    assert [] + [k] == [k];
    assert Run(Initial, [start, end]) == Success(State(2, 0, false, [], [], 0, map[k := value], [k]));
    assert |map[k := value]| == 1;
  }

  /** No byte of s is an opening delimiter. */
  predicate NoOpener(s: Line) {
    Quote !in s && LeftBracket !in s
  }

  /** A line `k: v` without delimiters is an ordinary entry. */
  lemma PlainEntry(k: Line, v: Line)
    requires k != [] && k[0] != Semicolon && Colon !in k && NoOpener(k)
    requires v != [] && NoOpener(v)
    ensures IsEntry(k + Separator + v) && SplitN(k + Separator + v) == Some((k, v))
  {
    var line := k + Separator + v;
    SplitJoin(k, v);
    MatcherSpec(line);
    forall j | 0 <= j < |line| ensures !IsOpener(line[j]) {
      assert line[j] in line;
    }
  }

  /**
   * `k: x` then `k: y`: one distinct key whose value is y, while the order
   * list, and so the output, holds k twice.
   */
  lemma DuplicateKey(k: Line, x: Line, y: Line)
    requires k != [] && k[0] != Semicolon && Colon !in k && NoOpener(k)
    requires x != [] && NoOpener(x) && y != [] && NoOpener(y)
    ensures Parse([k + Separator + x, k + Separator + y]) ==
      Success(Summary([k, k], map[k := y], 2, 0, 1))
  {
    var first, second := k + Separator + x, k + Separator + y;
    PlainEntry(k, x);
    PlainEntry(k, y);
    OrdinaryEntry(Initial, first, k, x);
    var t1 := State(1, 0, false, [], [], 0, map[k := x], [k]);
    assert [] + [k] == [k];
    assert Step(Initial, first) == Success(t1);
    OrdinaryEntry(t1, second, k, y);
    var t2 := State(2, 0, false, [], [], 0, map[k := y], [k, k]);
    assert t1.sounds[k := y] == map[k := y];
    assert [k] + [k] == [k, k];
    assert Step(t1, second) == Success(t2);
    RunAppend(Initial, [first], [second]);
    assert [first] + [second] == [first, second];
    assert [first][1..] == [] && [second][1..] == [];
    assert Run(Initial, [first]) == Success(t1);
    assert Run(t1, [second]) == Success(t2);
  }
}
