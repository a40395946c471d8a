/**
 * Whole lines run through the classifier and the handler's meaning: the
 * documented examples, stated as lemmas about concrete input.
 */
module Scenarios {
  import opened Wrappers
  import opened CStr
  import opened Events
  import opened Classifier
  import opened Symbols
  import Canon
  import Collapse

  /** A frame line once its address and symbol words are located. */
  lemma FrameAt(line: string, a: nat, p: nat, b: nat, e: nat)
    requires Processable(line) && |line| >= 2 && line[0] == '\t'
    requires SkipWsEnd(line, 1) == a && IndexOf(line, a, ' ') == Some(p)
    requires SkipWsEnd(line, p) == b && IndexOf(line, b, ' ') == Some(e)
    ensures Classify(line) == Emit(StackFrame(line[b..e]))
  {
  }

  /**
   * A frame line laid out as tab, space, address, space, symbol, space and a
   * tail yields that symbol.
   */
  lemma FrameWords(line: string, addr: string, sym: string, rest: string)
    requires line == "\t " + addr + " " + sym + " " + rest && IsCString(line)
    requires addr != [] && sym != [] && ' ' !in addr && ' ' !in sym
    ensures Processable(line) && Classify(line) == Emit(StackFrame(sym))
  {
    var p := 2 + |addr|;
    var b := p + 1;
    var e := b + |sym|;
    assert line[2..p] == addr && line[p] == ' ';
    assert line[b..e] == sym && line[e] == ' ';
    assert line[2] == addr[0] && line[b] == sym[0];
    assert SkipWsEnd(line, 1) == 2;
    assert SkipWsEnd(line, p) == b;
    IndexOfFinds(line, 2, ' ', p);
    IndexOfFinds(line, b, ' ', e);
    FrameAt(line, 2, p, b, e);
  }

  /** A frame symbol ends at its first space: `Foo Bar (mod)` yields the symbol `Foo`. */
  lemma SymbolStopsAtSpace()
    ensures Classify("\t 55d0 Foo Bar (mod)") == Emit(StackFrame("Foo"))
  {
    var line := "\t 55d0 Foo Bar (mod)";
    assert line == "\t " + "55d0" + " " + "Foo" + " " + "Bar (mod)";
    FrameWords(line, "55d0", "Foo", "Bar (mod)");
  }

  /**
   * The character right after the tab is stepped over unchecked: when a
   * one-character address follows the tab directly, the next word is taken
   * for the address and the word after it for the symbol.
   */
  lemma AddressRightAfterTab()
    ensures Classify("\t0 Foo Bar (mod)") == Emit(StackFrame("Bar"))
  {
    var line := "\t0 Foo Bar (mod)";
    assert Processable(line);
    assert SkipWsEnd(line, 1) == 3;
    assert line[3..6] == "Foo";
    assert SkipWsEnd(line, 6) == 7;
    assert line[7..10] == "Bar";
    IndexOfFinds(line, 3, ' ', 6);
    IndexOfFinds(line, 7, ' ', 10);
    FrameAt(line, 3, 6, 7, 10);
  }

  /** A header whose only other word is not digit-led is dropped. */
  lemma NonNumericPidDropped()
    ensures Classify("bad_pid xyz") == Invalid(HeaderEol)
  {
    var line := "bad_pid xyz";
    assert Processable(line);
    assert line[0..7] == "bad_pid";
    assert SkipWsEnd(line, 7) == 8;
    assert line[8..|line|] == "xyz";
    IndexOfFinds(line, 0, ' ', 7);
    IndexOfFinds(line, 8, ' ', |line|);
  }

  /** The first frame line of the sample block. */
  lemma FrameLineA()
    ensures Classify("\t 4005d0 sym_a (mod)") == Emit(StackFrame("sym_a"))
  {
    var line := "\t 4005d0 sym_a (mod)";
    assert line == "\t " + "4005d0" + " " + "sym_a" + " " + "(mod)";
    FrameWords(line, "4005d0", "sym_a", "(mod)");
  }

  /** The second frame line of the sample block. */
  lemma FrameLineB()
    ensures Classify("\t 4005e0 sym_b (mod)") == Emit(StackFrame("sym_b"))
  {
    var line := "\t 4005e0 sym_b (mod)";
    assert line == "\t " + "4005e0" + " " + "sym_b" + " " + "(mod)";
    FrameWords(line, "4005e0", "sym_b", "(mod)");
  }

  lemma PidField()
    ensures PidTid("123") == Some((123, -1))
  {
    var ptid := "123";
    assert ptid[0..3] == ptid;
    IndexOfFinds(ptid, 0, '/', 3);
    assert DigitRunEnd(ptid, 0) == 3;
    assert ptid[..3] == ptid;
    assert ptid[..2] == "12" && "12"[..1] == "1" && "1"[..0] == "";
    assert DecimalValue(ptid) == 123;
  }

  /** One pass of the header loop that stops at its first space run. */
  lemma PidTokenAt(line: string, p1: nat, p2: nat)
    requires IndexOf(line, 0, ' ') == Some(p1) && p1 < |line| && SkipWsEnd(line, p1) == p2
    requires p2 < |line| && IsDigit(line[p2])
    ensures FindPidToken(line, 0) == Some((p1, p2))
  {
  }

  /** A header line once its PID token and the space after it are located. */
  lemma HeaderAt(line: string, p1: nat, p2: nat, e: Option<nat>)
    requires Processable(line) && line != [] && line[0] != '\t'
    requires FindPidToken(line, 0) == Some((p1, p2)) && IndexOf(line, p2, ' ') == e
    ensures e.None? ==> Classify(line) == Invalid(MissingPid)
    ensures e.Some? && PidTid(line[p2..e.value]).Some? ==>
      Classify(line) == Emit(StackStart(line[..p1], PidTid(line[p2..e.value]).value.0, PidTid(line[p2..e.value]).value.1))
  {
  }

  /** Where the PID token of the sample header starts and ends. */
  lemma HeaderTokens(line: string)
    requires line == "myproc 123 1.0: cycles:"
    ensures FindPidToken(line, 0) == Some((6, 7)) && IndexOf(line, 7, ' ') == Some(10)
    ensures line[..6] == "myproc" && line[7..10] == "123"
  {
    assert line[0..6] == "myproc";
    assert SkipWsEnd(line, 6) == 7;
    assert line[7..10] == "123";
    IndexOfFinds(line, 0, ' ', 6);
    PidTokenAt(line, 6, 7);
    IndexOfFinds(line, 7, ' ', 10);
  }

  /** A `perf script` header: the process name, then the PID, then more words. */
  lemma HeaderLine()
    ensures Classify("myproc 123 1.0: cycles:") == Emit(StackStart("myproc", 123, -1))
  {
    var line := "myproc 123 1.0: cycles:";
    assert Processable(line);
    HeaderTokens(line);
    PidField();
    HeaderAt(line, 6, 7, Some(10));
  }

  /** A header whose PID ends the line lacks the space after it and is dropped. */
  lemma HeaderWithoutSpaceAfterPid()
    ensures Classify("myproc 123") == Invalid(MissingPid)
  {
    var line := "myproc 123";
    assert Processable(line);
    assert line[0..6] == "myproc";
    assert SkipWsEnd(line, 6) == 7;
    assert line[7..|line|] == "123";
    IndexOfFinds(line, 0, ' ', 6);
    PidTokenAt(line, 6, 7);
    IndexOfFinds(line, 7, ' ', |line|);
    HeaderAt(line, 6, 7, None);
  }

  /** A well-formed block fed twice from the start records its stack twice. */
  lemma BlockTwice(proc: string, pid: int, tid: int, syms: seq<string>)
    ensures var b := Block(proc, pid, tid, syms);
      FeedAll(Initial, b + b).done == [syms + [proc], syms + [proc]]
  {
    var b := Block(proc, pid, tid, syms);
    FeedAllAppend(Initial, b, b);
    FeedBlock(Initial, proc, pid, tid, syms);
    FeedBlock(FeedAll(Initial, b), proc, pid, tid, syms);
  }

  /** A block whose header is dropped, fed twice from the start, records its frames twice under the empty process name. */
  lemma OrphanBlockTwice(why: Reject, syms: seq<string>)
    ensures var b := [Invalid(why)] + Frames(syms) + [Emit(StackEnd)];
      FeedAll(Initial, b + b).done == [syms + [""], syms + [""]]
  {
    var b := [Invalid(why)] + Frames(syms) + [Emit(StackEnd)];
    FeedAllAppend(Initial, b, b);
    OrphanFramesKeepProcess(Initial, why, syms);
    OrphanFramesKeepProcess(FeedAll(Initial, b), why, syms);
  }

  /** The classified lines of the sample block. */
  lemma SampleBlock()
    ensures [Classify("myproc 123 1.0: cycles:"), Classify("\t 4005d0 sym_a (mod)"),
             Classify("\t 4005e0 sym_b (mod)"), Classify("")]
         == Block("myproc", 123, -1, ["sym_a", "sym_b"])
  {
    assert Block("myproc", 123, -1, ["sym_a", "sym_b"])
        == [Emit(StackStart("myproc", 123, -1)), Emit(StackFrame("sym_a")), Emit(StackFrame("sym_b")), Emit(StackEnd)] by {
      SampleFrames();
    }
    HeaderLine();
    FrameLineA();
    FrameLineB();
  }

  /** The sample block with its header dropped for want of a space after the PID. */
  lemma BareSampleBlock()
    ensures [Classify("myproc 123"), Classify("\t 4005d0 sym_a (mod)"),
             Classify("\t 4005e0 sym_b (mod)"), Classify("")]
         == [Invalid(MissingPid)] + Frames(["sym_a", "sym_b"]) + [Emit(StackEnd)]
  {
    assert [Invalid(MissingPid)] + Frames(["sym_a", "sym_b"]) + [Emit(StackEnd)]
        == [Invalid(MissingPid), Emit(StackFrame("sym_a")), Emit(StackFrame("sym_b")), Emit(StackEnd)] by {
      SampleFrames();
    }
    HeaderWithoutSpaceAfterPid();
    FrameLineA();
    FrameLineB();
  }

  /** The outcomes of the sample frame lines. */
  lemma SampleFrames()
    ensures Frames(["sym_a", "sym_b"]) == [Emit(StackFrame("sym_a")), Emit(StackFrame("sym_b"))]
  {
  }

  /**
   * Two identical blocks record one stack twice, so `dump` prints it once with
   * count 2 (its text: `SampleFoldedLine`).
   */
  lemma TwoIdenticalBlocks()
    ensures var block := [Classify("myproc 123 1.0: cycles:"), Classify("\t 4005d0 sym_a (mod)"),
                          Classify("\t 4005e0 sym_b (mod)"), Classify("")];
      && FeedAll(Initial, block + block).done == [["sym_a", "sym_b", "myproc"], ["sym_a", "sym_b", "myproc"]]
      && multiset(FeedAll(Initial, block + block).done)[["sym_a", "sym_b", "myproc"]] == 2
  {
    SampleBlock();
    BlockTwice("myproc", 123, -1, ["sym_a", "sym_b"]);
    assert ["sym_a", "sym_b"] + ["myproc"] == ["sym_a", "sym_b", "myproc"];
  }

  /**
   * The same two blocks with headers that end at the PID: both headers are
   * dropped and the frames go to the empty process name (the line printed:
   * `BareFoldedLine`).
   */
  lemma TwoBlocksWithBareHeaders()
    ensures var block := [Classify("myproc 123"), Classify("\t 4005d0 sym_a (mod)"),
                          Classify("\t 4005e0 sym_b (mod)"), Classify("")];
      FeedAll(Initial, block + block).done == [["sym_a", "sym_b", ""], ["sym_a", "sym_b", ""]]
  {
    BareSampleBlock();
    OrphanBlockTwice(MissingPid, ["sym_a", "sym_b"]);
    assert ["sym_a", "sym_b"] + [""] == ["sym_a", "sym_b", ""];
  }

  /** The line `dump` prints for the stack of `TwoIdenticalBlocks`, root first. */
  lemma SampleFoldedLine()
    ensures Canon.FoldedLine(Canon.Printed(["sym_a", "sym_b", "myproc"]), 2) == "myproc;sym_b;sym_a 2"
  {
    FoldedText(["myproc", "sym_b", "sym_a"], "myproc;sym_b;sym_a");
  }

  /** The line `dump` prints for the stack of `TwoBlocksWithBareHeaders`: an empty root. */
  lemma BareFoldedLine()
    ensures Canon.FoldedLine(Canon.Printed(["sym_a", "sym_b", ""]), 2) == ";sym_b;sym_a 2"
  {
    FoldedText(["", "sym_b", "sym_a"], ";sym_b;sym_a");
  }

  /** The text of a folded line with count 2 whose names hold no `;` or space. */
  lemma FoldedText(names: seq<string>, joined: string)
    requires |names| == 3 && joined == names[0] + ";" + names[1] + ";" + names[2]
    requires forall p :: p in names ==> ';' !in p && ' ' !in p
    ensures Canon.FoldedLine(Canon.Printed([names[2], names[1], names[0]]), 2) == joined + " 2"
  {
    var printed := Canon.Printed([names[2], names[1], names[0]]);
    forall i | 0 <= i < 3 ensures printed[i] == names[i] {
      Canon.DisplayKeepsClean(names[i]);
    }
    assert printed == names;
    assert names[1..][1..] == [names[2]];
    assert Canon.Join(names[1..]) == names[1] + ";" + names[2];
    assert Decimal(2) == "2";
  }

  /**
   * The output depends on the order the symbols arrived in. Both tables below
   * hold the same samples: the stack `a;b` under process `p` twice and the
   * stack `a:b` under `p` once. `a;b` and `a:b` share their display form, so
   * their canonical ids follow their interned ids, and the two folded texts
   * list the counts in opposite orders.
   */
  lemma ArrivalOrderShowsInOutput(names1: seq<string>, counts1: map<seq<int>, int>,
                                  names2: seq<string>, counts2: map<seq<int>, int>)
    requires names1 == ["a;b", "p", "a:b"] && counts1 == map[[0, 1] := 2, [2, 1] := 1]
    requires names2 == ["a:b", "p", "a;b"] && counts2 == map[[0, 1] := 1, [2, 1] := 2]
    ensures IdsBelow([0, 1], 3) && IdsBelow([2, 1], 3)
    ensures Decode(names1, [0, 1]) == Decode(names2, [2, 1]) == ["a;b", "p"]
    ensures Decode(names1, [2, 1]) == Decode(names2, [0, 1]) == ["a:b", "p"]
    ensures counts1[[0, 1]] == counts2[[2, 1]] == 2 && counts1[[2, 1]] == counts2[[0, 1]] == 1
    ensures forall k :: k in counts1 ==> IdsBelow(k, |names1|) && counts1[k] >= 0
    ensures forall k :: k in counts2 ==> IdsBelow(k, |names2|) && counts2[k] >= 0
    ensures Canon.Folded(names1, counts1) == "p;a:b 2\np;a:b 1\n"
    ensures Canon.Folded(names2, counts2) == "p;a:b 1\np;a:b 2\n"
  {
    SwappedKeys(names1, names2);
    SwappedCounts(counts1, counts2);
    SharedText(names1, counts1, 2, 1);
    SharedText(names2, counts2, 1, 2);
  }

  /** In the two tables the keys `0;1` and `2;1` decode to each other's stack. */
  lemma SwappedKeys(names1: seq<string>, names2: seq<string>)
    requires names1 == ["a;b", "p", "a:b"] && names2 == ["a:b", "p", "a;b"]
    ensures IdsBelow([0, 1], 3) && IdsBelow([2, 1], 3)
    ensures Decode(names1, [0, 1]) == Decode(names2, [2, 1]) == ["a;b", "p"]
    ensures Decode(names1, [2, 1]) == Decode(names2, [0, 1]) == ["a:b", "p"]
  {
    assert IdsBelow([0, 1], 3) && IdsBelow([2, 1], 3);
    Canon.DecodePair(names1, [0, 1]);
    Canon.DecodePair(names1, [2, 1]);
    Canon.DecodePair(names2, [0, 1]);
    Canon.DecodePair(names2, [2, 1]);
  }

  /** The two count maps give each key the other's count. */
  lemma SwappedCounts(counts1: map<seq<int>, int>, counts2: map<seq<int>, int>)
    requires counts1 == map[[0, 1] := 2, [2, 1] := 1] && counts2 == map[[0, 1] := 1, [2, 1] := 2]
    ensures [0, 1] in counts1 && [2, 1] in counts1 && [0, 1] in counts2 && [2, 1] in counts2
    ensures counts1[[0, 1]] == counts2[[2, 1]] == 2 && counts1[[2, 1]] == counts2[[0, 1]] == 1
  {
    assert [0, 1] != [2, 1] by {
      assert [0, 1][0] != [2, 1][0];
    }
  }

  /** Either table, with the counts 2 and 1 in either order, prints them in key order. */
  lemma SharedText(names: seq<string>, counts: map<seq<int>, int>, c0: nat, c2: nat)
    requires names == ["a;b", "p", "a:b"] || names == ["a:b", "p", "a;b"]
    requires counts == map[[0, 1] := c0, [2, 1] := c2]
    requires (c0, c2) == (2, 1) || (c0, c2) == (1, 2)
    ensures forall k :: k in counts ==> IdsBelow(k, |names|) && counts[k] >= 0
    ensures c0 == 2 ==> Canon.Folded(names, counts) == "p;a:b 2\np;a:b 1\n"
    ensures c0 == 1 ==> Canon.Folded(names, counts) == "p;a:b 1\np;a:b 2\n"
  {
    var one, two := Decimal(1), Decimal(2);
    assert one == "1" && two == "2";
    Canon.SharedDisplayRows(names, counts, c0, c2);
    if c0 == 2 {
      SharedLines(Canon.Folded(names, counts), two, one);
    } else {
      SharedLines(Canon.Folded(names, counts), one, two);
    }
  }

  /** Two `p;a:b` lines with counts 1 and 2, in either order, as one text. */
  lemma SharedLines(t: string, x: string, y: string)
    requires (x, y) == ("2", "1") || (x, y) == ("1", "2")
    requires t == ("p;a:b " + x + "\n") + ("p;a:b " + y + "\n")
    ensures x == "2" ==> t == "p;a:b 2\np;a:b 1\n"
    ensures x == "1" ==> t == "p;a:b 1\np;a:b 2\n"
  {
  }

  /** A block of process `p` (PID 1, no TID) whose one frame is `a;b`. */
  const SemicolonBlock: seq<Outcome> := Block("p", 1, -1, ["a;b"])

  /** A block of process `p` (PID 1, no TID) whose one frame is `a:b`. */
  const ColonBlock: seq<Outcome> := Block("p", 1, -1, ["a:b"])

  /**
   * Two one-frame blocks of the same process, the first fed twice and then
   * the second, or the second first: the names table lists the first-seen
   * frame first, and the completed stacks are the same three in another order.
   */
  lemma OneFrameBlocks(p: string, x: string, y: string)
    requires x != p && y != p && x != y
    ensures var a, b := Block(p, 1, -1, [x]), Block(p, 1, -1, [y]);
      && Collapse.NamesAfter([], Initial, a + a + b) == [x, p, y]
      && Collapse.NamesAfter([], Initial, b + a + a) == [y, p, x]
      && FeedAll(Initial, a + a + b).done == [[x, p], [x, p], [y, p]]
      && FeedAll(Initial, b + a + a).done == [[y, p], [x, p], [x, p]]
  {
    var a, b := Block(p, 1, -1, [x]), Block(p, 1, -1, [y]);
    TwiceThenOnceNames(p, x, y, a, b);
    TwiceThenOnceStacks(p, x, y, a, b);
    OnceThenTwiceNames(p, y, x, b, a);
    OnceThenTwiceStacks(p, y, x, b, a);
  }

  /** The names after one block fed twice, then another. */
  lemma TwiceThenOnceNames(p: string, x: string, y: string, first: seq<Outcome>, second: seq<Outcome>)
    requires x != p && y != p && x != y
    requires first == Block(p, 1, -1, [x]) && second == Block(p, 1, -1, [y])
    ensures Collapse.NamesAfter([], Initial, first + first + second) == [x, p, y]
  {
    InternAllOne([], x);
    InternAllOne([x, p], x);
    InternAllOne([x, p], y);
    assert Intern([x], p) == [x, p] && Intern([x, p], p) == [x, p] && Intern([x, p, y], p) == [x, p, y];
    assert Intern([x, p], x) == [x, p] && Intern([x, p], y) == [x, p, y];
    Collapse.NamesAfterBlock([], Initial, p, 1, -1, [x]);
    assert Collapse.NamesAfter([], Initial, first) == [x, p];
    Collapse.NamesAfterAppend([], Initial, first, first);
    Collapse.NamesAfterBlock([x, p], FeedAll(Initial, first), p, 1, -1, [x]);
    assert Collapse.NamesAfter([], Initial, first + first) == [x, p];
    Collapse.NamesAfterAppend([], Initial, first + first, second);
    Collapse.NamesAfterBlock([x, p], FeedAll(Initial, first + first), p, 1, -1, [y]);
  }

  /** The stacks after one block fed twice, then another. */
  lemma TwiceThenOnceStacks(p: string, x: string, y: string, first: seq<Outcome>, second: seq<Outcome>)
    requires first == Block(p, 1, -1, [x]) && second == Block(p, 1, -1, [y])
    ensures FeedAll(Initial, first + first + second).done == [[x, p], [x, p], [y, p]]
  {
    assert [x] + [p] == [x, p] && [y] + [p] == [y, p];
    FeedBlock(Initial, p, 1, -1, [x]);
    var t1 := FeedAll(Initial, first);
    assert t1 == Trace(p, [], [[x, p]]);
    FeedAllAppend(Initial, first, first);
    FeedBlock(t1, p, 1, -1, [x]);
    var t2 := FeedAll(Initial, first + first);
    assert t2 == Trace(p, [], [[x, p], [x, p]]);
    FeedAllAppend(Initial, first + first, second);
    FeedBlock(t2, p, 1, -1, [y]);
  }

  /** The names after one block, then another fed twice. */
  lemma OnceThenTwiceNames(p: string, x: string, y: string, first: seq<Outcome>, second: seq<Outcome>)
    requires x != p && y != p && x != y
    requires first == Block(p, 1, -1, [x]) && second == Block(p, 1, -1, [y])
    ensures Collapse.NamesAfter([], Initial, first + second + second) == [x, p, y]
  {
    InternAllOne([], x);
    InternAllOne([x, p], y);
    InternAllOne([x, p, y], y);
    assert Intern([x], p) == [x, p] && Intern([x, p, y], p) == [x, p, y];
    assert Intern([x, p], y) == [x, p, y] && Intern([x, p, y], y) == [x, p, y];
    Collapse.NamesAfterBlock([], Initial, p, 1, -1, [x]);
    assert Collapse.NamesAfter([], Initial, first) == [x, p];
    Collapse.NamesAfterAppend([], Initial, first, second);
    Collapse.NamesAfterBlock([x, p], FeedAll(Initial, first), p, 1, -1, [y]);
    assert Collapse.NamesAfter([], Initial, first + second) == [x, p, y];
    Collapse.NamesAfterAppend([], Initial, first + second, second);
    Collapse.NamesAfterBlock([x, p, y], FeedAll(Initial, first + second), p, 1, -1, [y]);
  }

  /** The stacks after one block, then another fed twice. */
  lemma OnceThenTwiceStacks(p: string, x: string, y: string, first: seq<Outcome>, second: seq<Outcome>)
    requires first == Block(p, 1, -1, [x]) && second == Block(p, 1, -1, [y])
    ensures FeedAll(Initial, first + second + second).done == [[x, p], [y, p], [y, p]]
  {
    assert [x] + [p] == [x, p] && [y] + [p] == [y, p];
    FeedBlock(Initial, p, 1, -1, [x]);
    var t1 := FeedAll(Initial, first);
    assert t1 == Trace(p, [], [[x, p]]);
    FeedAllAppend(Initial, first, second);
    FeedBlock(t1, p, 1, -1, [y]);
    var t2 := FeedAll(Initial, first + second);
    assert t2 == Trace(p, [], [[x, p], [y, p]]);
    FeedAllAppend(Initial, first + second, second);
    FeedBlock(t2, p, 1, -1, [y]);
  }

  /**
   * Two handlers fed the same three samples, `a;b` twice and `a:b` once (all
   * under `p`), in two arrival orders, from the value-initialised state: the
   * completed stacks agree as a multiset, yet `dump` prints different texts.
   */
  lemma ArrivalOrderDecidesDump(h1: Collapse.StackCollapsingHandler, h2: Collapse.StackCollapsingHandler)
    requires h1.Valid() && h1.View() == FeedAll(Initial, SemicolonBlock + SemicolonBlock + ColonBlock)
    requires h1.symbolNames == Collapse.NamesAfter([], Initial, SemicolonBlock + SemicolonBlock + ColonBlock)
    requires h2.Valid() && h2.View() == FeedAll(Initial, ColonBlock + SemicolonBlock + SemicolonBlock)
    requires h2.symbolNames == Collapse.NamesAfter([], Initial, ColonBlock + SemicolonBlock + SemicolonBlock)
    ensures multiset(h1.View().done) == multiset(h2.View().done)
    ensures forall k :: k in h1.stackCounts ==> IdsBelow(k, |h1.symbolNames|) && h1.stackCounts[k] >= 0
    ensures forall k :: k in h2.stackCounts ==> IdsBelow(k, |h2.symbolNames|) && h2.stackCounts[k] >= 0
    ensures Canon.Folded(h1.symbolNames, h1.stackCounts) == "p;a:b 2\np;a:b 1\n"
    ensures Canon.Folded(h2.symbolNames, h2.stackCounts) == "p;a:b 1\np;a:b 2\n"
  {
    SemicolonFirstTables(h1);
    ColonFirstTables(h2);
    Reordered(["a;b", "p"], ["a:b", "p"]);
    ArrivalOrderShowsInOutput(h1.symbolNames, h1.stackCounts, h2.symbolNames, h2.stackCounts);
  }

  /** The tables after `a;b` twice, then `a:b`: ids 0, 1, 2 for `a;b`, `p`, `a:b`. */
  lemma SemicolonFirstTables(h: Collapse.StackCollapsingHandler)
    requires h.Valid() && h.View() == FeedAll(Initial, SemicolonBlock + SemicolonBlock + ColonBlock)
    requires h.symbolNames == Collapse.NamesAfter([], Initial, SemicolonBlock + SemicolonBlock + ColonBlock)
    ensures h.symbolNames == ["a;b", "p", "a:b"] && h.stackCounts == map[[0, 1] := 2, [2, 1] := 1]
    ensures h.View().done == [["a;b", "p"], ["a;b", "p"], ["a:b", "p"]]
  {
    OneFrameBlocks("p", "a;b", "a:b");
    var keys: seq<seq<int>> := [[0, 1], [0, 1], [2, 1]];
    DecodedKeys(h.symbolNames, keys, [0, 1], [2, 1]);
    h.CountsFromKeys(keys);
    TallyOfThree([0, 1], [2, 1]);
  }

  /** The tables after `a:b`, then `a;b` twice: ids 0, 1, 2 for `a:b`, `p`, `a;b`. */
  lemma ColonFirstTables(h: Collapse.StackCollapsingHandler)
    requires h.Valid() && h.View() == FeedAll(Initial, ColonBlock + SemicolonBlock + SemicolonBlock)
    requires h.symbolNames == Collapse.NamesAfter([], Initial, ColonBlock + SemicolonBlock + SemicolonBlock)
    ensures h.symbolNames == ["a:b", "p", "a;b"] && h.stackCounts == map[[0, 1] := 1, [2, 1] := 2]
    ensures h.View().done == [["a:b", "p"], ["a;b", "p"], ["a;b", "p"]]
  {
    OneFrameBlocks("p", "a;b", "a:b");
    var keys: seq<seq<int>> := [[0, 1], [2, 1], [2, 1]];
    DecodedKeys(h.symbolNames, keys, [0, 1], [2, 1]);
    h.CountsFromKeys(keys);
    TallyOfThree([0, 1], [2, 1]);
  }

  /** One stack twice and another once hold the same samples in either order. */
  lemma Reordered(u: seq<string>, v: seq<string>)
    ensures multiset([u, u, v]) == multiset([v, u, u])
  {
    assert [u, u, v] == [u, u] + [v] && [v, u, u] == [v] + [u, u];
  }

  /** Keys of two interned ids each decode to the names they index. */
  lemma DecodedKeys(names: seq<string>, keys: seq<seq<int>>, a: seq<int>, b: seq<int>)
    requires |names| == 3 && |a| == 2 && |b| == 2 && IdsBelow(a, 3) && IdsBelow(b, 3)
    requires keys == [a, a, b] || keys == [a, b, b]
    ensures forall k :: k in keys ==> IdsBelow(k, |names|)
    ensures Collapse.DecodeAll(names, keys)
         == [[names[keys[0][0]], names[keys[0][1]]], [names[keys[1][0]], names[keys[1][1]]],
             [names[keys[2][0]], names[keys[2][1]]]]
  {
    Canon.DecodePair(names, a);
    Canon.DecodePair(names, b);
  }

  /** Three completed keys, one of them twice, tally to counts 2 and 1. */
  lemma TallyOfThree(a: seq<int>, b: seq<int>)
    requires a != b
    ensures Collapse.Tally([a, a, b]) == map[a := 2, b := 1]
    ensures Collapse.Tally([a, b, b]) == map[a := 1, b := 2]
  {
    assert [a, a, b][..2] == [a, a] && [a, a][..1] == [a] && [a][..0] == [];
    assert [a, b, b][..2] == [a, b] && [a, b][..1] == [a];
    assert Collapse.Tally([a]) == map[a := 1];
    assert Collapse.Tally([a, a]) == map[a := 2];
    assert Collapse.Tally([a, b]) == map[a := 1, b := 1];
  }

  /** The outcomes of the sample block (see `SampleBlock`). */
  const SampleOutcomes: seq<Outcome> := Block("myproc", 123, -1, ["sym_a", "sym_b"])

  /**
   * A handler fed the sample block twice from the value-initialised state
   * holds one key with count 2, and `dump` prints exactly one line for it.
   */
  lemma TwoIdenticalBlocksDump(h: Collapse.StackCollapsingHandler)
    requires h.Valid() && h.View() == FeedAll(Initial, SampleOutcomes + SampleOutcomes)
    requires h.symbolNames == Collapse.NamesAfter([], Initial, SampleOutcomes + SampleOutcomes)
    ensures h.symbolNames == ["sym_a", "sym_b", "myproc"] && h.stackCounts == map[[0, 1, 2] := 2]
    ensures forall k :: k in h.stackCounts ==> IdsBelow(k, |h.symbolNames|) && h.stackCounts[k] >= 0
    ensures Canon.Folded(h.symbolNames, h.stackCounts) == "myproc;sym_b;sym_a 2\n"
  {
    SampleTables(h);
    var names := h.symbolNames;
    Canon.FoldedOneStack(names, h.stackCounts, [0, 1, 2], 2);
    Canon.PathIsPrinted(names, [0, 1, 2]);
    DecodeInOrder(names);
    SampleFoldedLine();
    LineWithNewline(Canon.Folded(names, h.stackCounts), Canon.FoldedLine(Canon.Path(names, [0, 1, 2]), 2));
  }

  /** The tables after the sample block twice: ids 0, 1, 2 for `sym_a`, `sym_b`, `myproc`, and one key counted twice. */
  lemma SampleTables(h: Collapse.StackCollapsingHandler)
    requires h.Valid() && h.View() == FeedAll(Initial, SampleOutcomes + SampleOutcomes)
    requires h.symbolNames == Collapse.NamesAfter([], Initial, SampleOutcomes + SampleOutcomes)
    ensures h.symbolNames == ["sym_a", "sym_b", "myproc"] && h.stackCounts == map[[0, 1, 2] := 2]
  {
    BlockTwiceNames("myproc", "sym_a", "sym_b", 123, -1, SampleOutcomes);
    BlockTwice("myproc", 123, -1, ["sym_a", "sym_b"]);
    assert ["sym_a", "sym_b"] + ["myproc"] == ["sym_a", "sym_b", "myproc"];
    BlockTwiceCounts(h, "myproc", "sym_a", "sym_b");
  }

  /** A block of two different frames fed twice interns its frames, then its process. */
  lemma BlockTwiceNames(p: string, x: string, y: string, pid: int, tid: int, b: seq<Outcome>)
    requires x != p && y != p && x != y && b == Block(p, pid, tid, [x, y])
    ensures Collapse.NamesAfter([], Initial, b + b) == [x, y, p]
  {
    InternTwoFrames(p, x, y);
    Collapse.NamesAfterBlock([], Initial, p, pid, tid, [x, y]);
    Collapse.NamesAfterAppend([], Initial, b, b);
    Collapse.NamesAfterBlock([x, y, p], FeedAll(Initial, b), p, pid, tid, [x, y]);
  }

  /** A handler whose table is `[x, y, p]` and whose stacks are `[x, y, p]` twice counts key `[0, 1, 2]` twice. */
  lemma BlockTwiceCounts(h: Collapse.StackCollapsingHandler, p: string, x: string, y: string)
    requires h.Valid() && h.symbolNames == [x, y, p] && h.View().done == [[x, y, p], [x, y, p]]
    ensures h.stackCounts == map[[0, 1, 2] := 2]
  {
    var k: seq<int> := [0, 1, 2];
    DecodeInOrder([x, y, p]);
    assert Collapse.DecodeAll([x, y, p], [k, k]) == h.View().done;
    h.CountsFromKeys([k, k]);
    TallyOfTwo(k);
  }

  /** Interning two different frames and then the process, from nothing or once more. */
  lemma InternTwoFrames(p: string, x: string, y: string)
    requires x != p && y != p && x != y
    ensures Intern(InternAll([], [x, y]), p) == [x, y, p]
    ensures Intern(InternAll([x, y, p], [x, y]), p) == [x, y, p]
  {
    InternAllOne([], x);
    InternAllOne([x, y, p], x);
    assert [x, y][..1] == [x];
    assert InternAll([], [x, y]) == Intern([x], y) == [x, y];
    assert InternAll([x, y, p], [x, y]) == Intern([x, y, p], y) == [x, y, p];
  }

  /** The key of ids 0, 1, 2 spells a three-name table itself. */
  lemma DecodeInOrder(table: seq<string>)
    requires |table| == 3
    ensures IdsBelow([0, 1, 2], |table|) && Decode(table, [0, 1, 2]) == table
  {
  }

  /** A key completed twice is counted twice. */
  lemma TallyOfTwo(k: seq<int>)
    ensures Collapse.Tally([k, k]) == map[k := 2]
  {
    assert [k, k][..1] == [k] && |[k][..0]| == 0;
    assert Collapse.Tally([k]) == map[k := 1];
  }

  /** A text that is one line and its newline. */
  lemma LineWithNewline(t: string, line: string)
    requires t == line + "\n" && line == "myproc;sym_b;sym_a 2"
    ensures t == "myproc;sym_b;sym_a 2\n"
  {
  }
}
