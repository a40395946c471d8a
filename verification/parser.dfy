/**
 * `PerfScriptParser`: walks each line of `perf script` output and calls the
 * handler's `on_stack_start`, `on_stack_frame` or `on_stack_end`.
 */
module Parser {
  import opened Wrappers
  import opened CStr
  import opened Events
  import opened Classifier
  import opened Collapse

  /** Every buffer holds a line `process` can be given. */
  predicate AllProcessable(raws: seq<string>) {
    forall i :: 0 <= i < |raws| ==> Processable(LineText(raws[i]))
  }

  /** What the lines of a whole input turn into, one outcome per buffer `getline` filled. */
  function Outcomes(raws: seq<string>): (os: seq<Outcome>)
    requires AllProcessable(raws)
    ensures |os| == |raws|
  {
    if raws == [] then []
    else
      Outcomes(raws[..|raws| - 1]) + [Classify(LineText(raws[|raws| - 1]))]
  }

  /** One more buffer adds its line's outcome. */
  lemma OutcomesStep(raws: seq<string>, i: nat)
    requires AllProcessable(raws) && i < |raws|
    ensures AllProcessable(raws[..i]) && AllProcessable(raws[..i + 1]) && Processable(LineText(raws[i]))
    ensures Outcomes(raws[..i + 1]) == Outcomes(raws[..i]) + [Classify(LineText(raws[i]))]
  {
    assert raws[..i + 1][..i] == raws[..i];
  }

  class PerfScriptParser {
    const handler: StackCollapsingHandler

    constructor (handler: StackCollapsingHandler)
      ensures this.handler == handler
    {
      this.handler := handler;
    }

    /**
     * `read_file` over `foreach_line_stdio`: each buffer loses its line ending
     * and is processed as the C string it then holds.
     */
    method ReadFile(raws: seq<string>)
      requires handler.Valid()
      requires AllProcessable(raws)
      modifies handler
      ensures handler.Valid()
      ensures handler.View() == FeedAll(old(handler.View()), Outcomes(raws))
      ensures handler.symbolNames == NamesAfter(old(handler.symbolNames), old(handler.View()), Outcomes(raws))
    {
      ghost var start := handler.View();
      ghost var startNames := handler.symbolNames;
      var i := 0;
      while i < |raws|
        invariant 0 <= i <= |raws|
        invariant handler.Valid()
        invariant handler.View() == FeedAll(start, Outcomes(raws[..i]))
        invariant handler.symbolNames == NamesAfter(startNames, start, Outcomes(raws[..i]))
      {
        var line := LineText(raws[i]);
        OutcomesStep(raws, i);
        FeedAllSnoc(start, Outcomes(raws[..i]), Classify(line));
        NamesAfterSnoc(startNames, start, Outcomes(raws[..i]), Classify(line));
        Process(line);
        i := i + 1;
      }
      assert raws[..i] == raws;
    }

    /**
     * `process`: a tab-led line is a frame, an empty line ends a block, any
     * other line is a header; a malformed line reaches no handler method.
     */
    method Process(line: string)
      requires Processable(line) && handler.Valid()
      modifies handler
      ensures handler.Valid()
      ensures handler.View() == Feed(old(handler.View()), Classify(line))
      ensures handler.symbolNames == InternStep(old(handler.symbolNames), old(handler.currentProcess), Classify(line))
    {
      ghost var o := Classify(line);
      if |line| > 0 && line[0] == '\t' {
        assert o == ClassifyFrame(line);
        // step over the address
        var p0 := SkipWs(line, 1);
        var p1 := IndexOf(line, p0, ' ');
        if p1.None? {
          assert o == Invalid(BadFrame);
          return; // invalid
        }
        p0 := SkipWs(line, p1.value);
        p1 := IndexOf(line, p0, ' ');
        if p1.None? {
          assert o == Invalid(BadFrame);
          return; // invalid
        }
        var sym := line[p0..p1.value];
        assert o == Emit(StackFrame(sym));
        handler.OnStackFrame(sym);
        return;
      }
      if |line| == 0 {
        handler.OnStackEnd();
        return;
      }
      if line[0] != '\t' {
        assert o == ClassifyHeader(line);
        var pidAt := FindPid(line);
        if pidAt.None? {
          assert o == Invalid(HeaderEol);
          return; // invalid (unexpected EOL)
        }
        var (p1, p2) := pidAt.value;
        var proc := line[..p1];

        var p0 := p2;
        var end := IndexOf(line, p0, ' ');
        if end.None? {
          assert o == Invalid(MissingPid);
          return; // invalid (unexpected EOL, expected PID)
        }
        var ptid := line[p0..end.value]; // PID/TID or just PID
        var pidTid := ParsePidTid(ptid);
        if pidTid.None? {
          assert o == Invalid(BadPidTid(ptid));
          return; // invalid (failed to parse PID or PID/TID)
        }
        var pid, tid := pidTid.value.0, pidTid.value.1;
        assert o == Emit(StackStart(proc, pid, tid));
        handler.OnStackStart(proc, pid, tid);
        return;
      }
      // the "unrecognized" diagnostic: no line gets here
      assert false;
    }

    /**
     * The header's `while (true)` scan: from space run to space run until a
     * run is followed by a digit; gives the run's first space and the digit's
     * position, or nothing when the line ends first.
     */
    static method FindPid(line: string) returns (r: Option<(nat, nat)>)
      ensures r == FindPidToken(line, 0)
    {
      var p1: nat, p2: nat := 0, 0;
      while true
        invariant p1 <= |line|
        invariant FindPidToken(line, 0) == FindPidToken(line, p1)
        decreases |line| - p1
      {
        ghost var from := p1;
        var space := IndexOf(line, p1, ' ');
        if space.None? {
          return None; // unexpected EOL
        }
        p1 := space.value;
        p2 := SkipWs(line, p1);
        if p2 == |line| {
          return None; // unexpected EOL
        }
        if IsDigit(line[p2]) {
          return Some((p1, p2));
        }
        assert FindPidToken(line, from) == FindPidToken(line, p2);
        p1 := p2;
      }
    }

    /**
     * The PID or PID/TID field: `std::stoi` on the text before the first `/`
     * (or on all of it), and on the text after it; -1 for a missing TID.
     */
    static method ParsePidTid(ptid: string) returns (r: Option<(int, int)>)
      requires ptid != [] && IsDigit(ptid[0])
      ensures r == PidTid(ptid)
    {
      var tid := -1;
      var slash := IndexOf(ptid, 0, '/');
      if slash.None? {
        var v := ParseInt(ptid);
        if v.None? {
          return None;
        }
        return Some((v.value, tid));
      }
      var v := ParseInt(ptid[..slash.value]);
      if v.None? {
        return None;
      }
      var w := ParseInt(ptid[slash.value + 1..]);
      if w.None? {
        return None;
      }
      tid := w.value;
      return Some((v.value, tid));
    }
  }
}
