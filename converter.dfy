/**
 * The converter as the source writes it: the scan loop's variables as the
 * fields of a Converter object updated line by line, the loop over the
 * input lines, and the loop that hands the rows to the CSV writer.
 */
module Converter {
  import opened Wrappers
  import opened Matcher
  import opened Transcript
  import opened Table

  class Converter {
    var line: nat
    var ignore: nat
    var multiLineActive: bool
    var multiLineIndex: Line
    var prevLines: Line
    var multiLineSeparator: byte
    var sounds: map<Line, Line>
    var soundOrder: seq<Line>

    /** The fields as a state of the specification machine. */
    function Snapshot(): State
      reads this
    {
      State(line, ignore, multiLineActive, multiLineIndex, prevLines,
        multiLineSeparator, sounds, soundOrder)
    }

    /** Every variable starts at Go's zero value. */
    constructor ()
      ensures Snapshot() == Initial
    {
      line, ignore := 0, 0;
      multiLineActive := false;
      multiLineIndex, prevLines := [], [];
      multiLineSeparator := 0;
      sounds, soundOrder := map[], [];
    }

    /** One iteration of the scan loop; Some(e) where the source calls log.Fatal. */
    method ScanLine(curLine: Line) returns (fatal: Option<ParseError>)
      modifies this
      ensures fatal.None? ==> Step(old(Snapshot()), curLine) == Success(Snapshot())
      ensures fatal.Some? ==> Step(old(Snapshot()), curLine) == Failure(fatal.value)
    {
      line := line + 1;

      if |curLine| == 0 || curLine[0] == Semicolon {
        ignore := ignore + 1;
        return None;
      }

      if multiLineActive && curLine[|curLine| - 1] == multiLineSeparator {
        sounds := sounds[multiLineIndex := prevLines + [Newline] + curLine[..|curLine| - 1]];
        soundOrder := soundOrder + [multiLineIndex];
        prevLines := [];
        multiLineSeparator := 0;
        multiLineIndex := [];
        multiLineActive := false;
        return None;
      }

      if multiLineActive {
        var sep: Line := [];
        if |prevLines| != 0 {
          sep := [Newline];
        }
        prevLines := prevLines + sep + curLine;
        return None;
      }

      var matched := MultiLineMatcher(curLine);
      if matched.Some? {
        var (start, end) := matched.value;
        // the "Multiline already active" exit cannot be reached: active lines were handled above
        assert !multiLineActive;
        var c1 := Count(curLine, start);
        var c2 := 0;
        if start != end {
          c2 := Count(curLine, end);
        }
        var c := c1 + c2;
        if c % 2 != 0 {
          multiLineActive := true;
          multiLineSeparator := end;
        }
      }

      var split := SplitN(curLine);
      if split.None? {
        return Some(MissingSeparator(line));
      }
      var (key, rest) := split.value;
      if |key| == 0 || |rest| == 0 {
        return Some(EmptyKeyOrValue);
      }

      if multiLineActive && |prevLines| == 0 {
        multiLineIndex := key;
        prevLines := rest[1..];
        return None;
      }

      sounds := sounds[key := rest];
      soundOrder := soundOrder + [key];
      return None;
    }
  }

  /** The scan loop of main over every input line, followed by the end-of-input check. */
  method Convert(lines: seq<Line>) returns (r: Result<Summary, ParseError>)
    ensures r == Parse(lines)
  {
    var c := new Converter();
    var i := 0;
    while i < |lines|
      invariant 0 <= i <= |lines|
      invariant Run(Initial, lines[..i]) == Success(c.Snapshot())
    {
      var fatal := c.ScanLine(lines[i]);
      RunSnoc(Initial, lines[..i], lines[i]);
      assert lines[..i + 1] == lines[..i] + [lines[i]];
      if fatal.Some? {
        RunAppend(Initial, lines[..i + 1], lines[i + 1..]);
        assert lines == lines[..i + 1] + lines[i + 1..];
        return Failure(fatal.value);
      }
      i := i + 1;
    }
    assert lines[..i] == lines;
    if c.multiLineActive || |c.prevLines| != 0 {
      return Failure(Unterminated);
    }
    return Success(Summary(c.soundOrder, c.sounds, c.line, c.ignore, |c.sounds|));
  }

  /** The header row, then one row per entry of the order list, as passed to w.Write. */
  method WriteRecords(order: seq<Line>, sounds: map<Line, Line>) returns (records: seq<Record>)
    ensures records == Records(order, sounds)
  {
    records := [Header];
    for i := 0 to |order|
      invariant records == Records(order[..i], sounds)
    {
      assert order[..i + 1][..i] == order[..i];
      records := records + [[order[i], Lookup(sounds, order[i])]];
    }
    assert order[..|order|] == order;
  }

  /**
   * main after opening the files: convert the lines and, on success, the
   * rows written to the output table.
   */
  method ConvertToTable(lines: seq<Line>) returns (r: Result<seq<Record>, ParseError>)
    ensures r.Success? <==> Parse(lines).Success?
    ensures r.Failure? ==> Parse(lines) == Failure(r.error)
    ensures r.Success? ==> r.value == Records(Parse(lines).value.order, Parse(lines).value.sounds)
  {
    var parsed := Convert(lines);
    if parsed.Failure? {
      return Failure(parsed.error);
    }
    var records := WriteRecords(parsed.value.order, parsed.value.sounds);
    return Success(records);
  }
}
