/**
 * The events the line parser delivers to its handler, and what a sequence of
 * them means for stack collapsing, stated on names rather than interned ids.
 */
module Events {
  /** `on_stack_start(proc, pid, tid)`, `on_stack_frame(sym)`, `on_stack_end()`. */
  datatype Event = StackStart(proc: string, pid: int, tid: int) | StackFrame(sym: string) | StackEnd

  /** Why a line was dropped with a diagnostic. */
  datatype Reject =
    | BadFrame                 // frame line: no space after the address, or none after the symbol
    | HeaderEol                // header line: no digit-led token before the end of the line
    | MissingPid               // header line: the digit-led token runs to the end of the line
    | BadPidTid(field: string) // header line: PID or TID does not convert to an integer

  /** What one line turns into: exactly one event, or nothing but a diagnostic. */
  datatype Outcome = Emit(event: Event) | Invalid(reason: Reject)

  /**
   * The meaning of the handler's state: the current process name, the names of
   * the frames collected since the last blank line (innermost first), and every
   * completed stack in completion order (frames, then the process name).
   */
  datatype Trace = Trace(process: string, block: seq<string>, done: seq<seq<string>>)

  /** The handler before the first line: no process name yet (an empty string). */
  const Initial: Trace := Trace("", [], [])

  function Apply(t: Trace, e: Event): Trace {
    match e
    case StackStart(p, _, _) => t.(process := p)
    case StackFrame(sym) => t.(block := t.block + [sym])
    case StackEnd => Trace(t.process, [], t.done + [t.block + [t.process]])
  }

  /** A dropped line reaches no handler method. */
  function Feed(t: Trace, o: Outcome): Trace {
    match o
    case Emit(e) => Apply(t, e)
    case Invalid(_) => t
  }

  function FeedAll(t: Trace, os: seq<Outcome>): Trace
    decreases |os|
  {
    if os == [] then t else FeedAll(Feed(t, os[0]), os[1..])
  }

  function Frames(syms: seq<string>): (os: seq<Outcome>)
    ensures |os| == |syms|
    ensures forall i :: 0 <= i < |os| ==> os[i] == Emit(StackFrame(syms[i]))
  {
    if syms == [] then [] else [Emit(StackFrame(syms[0]))] + Frames(syms[1..])
  }

  /** One well-formed block: a header, its frame lines and the blank line that ends it. */
  function Block(proc: string, pid: int, tid: int, syms: seq<string>): seq<Outcome> {
    [Emit(StackStart(proc, pid, tid))] + Frames(syms) + [Emit(StackEnd)]
  }

  function CountEnds(os: seq<Outcome>): (n: nat)
    ensures n <= |os|
  {
    if os == [] then 0 else (if os[0] == Emit(StackEnd) then 1 else 0) + CountEnds(os[1..])
  }

  lemma {:induction false} FeedAllAppend(t: Trace, a: seq<Outcome>, b: seq<Outcome>)
    ensures FeedAll(t, a + b) == FeedAll(FeedAll(t, a), b)
    decreases |a|
  {
    if a != [] {
      assert (a + b)[1..] == a[1..] + b;
      FeedAllAppend(Feed(t, a[0]), a[1..], b);
    } else {
      assert a + b == b;
    }
  }

  /** Feeding one more outcome is one more step of `Feed`. */
  lemma FeedAllSnoc(t: Trace, os: seq<Outcome>, o: Outcome)
    ensures FeedAll(t, os + [o]) == Feed(FeedAll(t, os), o)
  {
    FeedAllAppend(t, os, [o]);
    assert FeedAll(Feed(FeedAll(t, os), o), []) == Feed(FeedAll(t, os), o);
  }

  /** Completed stacks are only ever appended, one per blank line. */
  lemma {:induction false} DoneGrowsByEnds(t: Trace, os: seq<Outcome>)
    ensures |FeedAll(t, os).done| == |t.done| + CountEnds(os)
    ensures FeedAll(t, os).done[..|t.done|] == t.done
    decreases |os|
  {
    if os != [] {
      DoneGrowsByEnds(Feed(t, os[0]), os[1..]);
      var u := Feed(t, os[0]);
      assert u.done[..|t.done|] == t.done;
      assert FeedAll(u, os[1..]).done[..|t.done|] == FeedAll(u, os[1..]).done[..|u.done|][..|t.done|];
    }
  }

  /** Frame lines append their symbols to the open block, in line order. */
  lemma {:induction false} FeedFrames(t: Trace, syms: seq<string>)
    ensures FeedAll(t, Frames(syms)) == t.(block := t.block + syms)
    decreases |syms|
  {
    if syms == [] {
      assert t.block + syms == t.block;
    } else {
      var u := t.(block := t.block + [syms[0]]);
      FeedOneFrame(t, syms);
      FeedFrames(u, syms[1..]);
      assert u.block + syms[1..] == t.block + syms;
    }
  }

  /** The first frame line of a run is appended to the open block. */
  lemma FeedOneFrame(t: Trace, syms: seq<string>)
    requires syms != []
    ensures FeedAll(t, Frames(syms)) == FeedAll(t.(block := t.block + [syms[0]]), Frames(syms[1..]))
  {
    assert Frames(syms)[1..] == Frames(syms[1..]);
  }

  /** A complete block records exactly one stack: its frames, then its process name. */
  lemma FeedBlock(t: Trace, proc: string, pid: int, tid: int, syms: seq<string>)
    requires t.block == []
    ensures FeedAll(t, Block(proc, pid, tid, syms)) == Trace(proc, [], t.done + [syms + [proc]])
  {
    var head := [Emit(StackStart(proc, pid, tid))];
    var tail := Frames(syms) + [Emit(StackEnd)];
    assert Block(proc, pid, tid, syms) == head + tail;
    FeedAllAppend(t, head, tail);
    var u := t.(process := proc);
    assert FeedAll(t, head) == FeedAll(u, []) == u;
    FeedEndAfterFrames(u, syms);
  }

  lemma FeedEndAfterFrames(t: Trace, syms: seq<string>)
    requires t.block == []
    ensures FeedAll(t, Frames(syms) + [Emit(StackEnd)]) == Trace(t.process, [], t.done + [syms + [t.process]])
  {
    var fs := Frames(syms);
    var end := [Emit(StackEnd)];
    FeedAllAppend(t, fs, end);
    FeedFrames(t, syms);
    var v := t.(block := syms);
    assert t.block + syms == syms;
    assert FeedAll(t, fs) == v;
    assert end[1..] == [];
    assert FeedAll(v, end) == FeedAll(Apply(v, StackEnd), []);
  }

  /**
   * A dropped header does not reset the process: the frames after it are
   * credited to the process of the previous header.
   */
  lemma OrphanFramesKeepProcess(t: Trace, why: Reject, syms: seq<string>)
    requires t.block == []
    ensures FeedAll(t, [Invalid(why)] + Frames(syms) + [Emit(StackEnd)])
         == Trace(t.process, [], t.done + [syms + [t.process]])
  {
    var tail := Frames(syms) + [Emit(StackEnd)];
    assert [Invalid(why)] + Frames(syms) + [Emit(StackEnd)] == [Invalid(why)] + tail;
    FeedAllAppend(t, [Invalid(why)], tail);
    assert FeedAll(t, [Invalid(why)]) == FeedAll(t, []) == t;
    FeedEndAfterFrames(t, syms);
  }

  /**
   * Two complete blocks record the same multiset of stacks in either order,
   * so the counts do not depend on the order of blocks in the input.
   */
  lemma BlocksCommute(t: Trace, p1: string, pid1: int, tid1: int, s1: seq<string>,
                      p2: string, pid2: int, tid2: int, s2: seq<string>)
    requires t.block == []
    ensures multiset(FeedAll(t, Block(p1, pid1, tid1, s1) + Block(p2, pid2, tid2, s2)).done)
         == multiset(FeedAll(t, Block(p2, pid2, tid2, s2) + Block(p1, pid1, tid1, s1)).done)
         == multiset(t.done) + multiset{s1 + [p1], s2 + [p2]}
  {
    FeedAllAppend(t, Block(p1, pid1, tid1, s1), Block(p2, pid2, tid2, s2));
    FeedBlock(t, p1, pid1, tid1, s1);
    FeedBlock(Trace(p1, [], t.done + [s1 + [p1]]), p2, pid2, tid2, s2);
    FeedAllAppend(t, Block(p2, pid2, tid2, s2), Block(p1, pid1, tid1, s1));
    FeedBlock(t, p2, pid2, tid2, s2);
    FeedBlock(Trace(p2, [], t.done + [s2 + [p2]]), p1, pid1, tid1, s1);
  }
}
