/**
 * What `PerfScriptParser::process` does with one line, as a function from the
 * line's text to the event it delivers or the reason it drops the line.
 */
module Classifier {
  import opened Wrappers
  import opened CStr
  import opened Events

  /**
   * A line `process` can be given: a C string, and a frame line has a
   * character after its tab (for the line "\t" alone, `skip_ws(line + 1)`
   * reads past the terminator).
   */
  predicate Processable(line: string) {
    IsCString(line) && (|line| > 0 && line[0] == '\t' ==> |line| >= 2)
  }

  function Classify(line: string): (r: Outcome)
    requires Processable(line)
    ensures r == Emit(StackEnd) <==> line == []
    ensures r.Emit? && r.event.StackFrame? ==> line[0] == '\t'
    ensures r.Emit? && r.event.StackStart? ==> line[0] != '\t'
    ensures r.Invalid? ==> line != [] && (line[0] == '\t' <==> r.reason == BadFrame)
  {
    if |line| > 0 && line[0] == '\t' then ClassifyFrame(line)
    else if |line| == 0 then Emit(StackEnd)
    else ClassifyHeader(line)
  }

  // ---------------------------------------------------------------- frames

  /**
   * A frame line: step over the character after the tab, skip spaces, pass
   * the address token; the symbol is the next space-free token, and it must
   * be followed by a space.
   */
  function ClassifyFrame(line: string): (r: Outcome)
    requires Processable(line) && |line| >= 2
    ensures r.Invalid? ==> r.reason == BadFrame
    ensures r.Emit? ==> r.event.StackFrame? && r.event.sym != [] && ' ' !in r.event.sym
  {
    var a := SkipWsEnd(line, 1);
    match IndexOf(line, a, ' ')
    case None => Invalid(BadFrame)
    case Some(p) =>
      var b := SkipWsEnd(line, p);
      match IndexOf(line, b, ' ')
      case None => Invalid(BadFrame)
      case Some(e) => Emit(StackFrame(line[b..e]))
  }

  /** The end of the space-free word that starts at `i`. */
  function WordEnd(s: string, i: nat): (e: nat)
    requires i < |s| && s[i] != ' '
    ensures i < e <= |s| && ' ' !in s[i..e]
    ensures e == |s| || s[e] == ' '
  {
    match IndexOf(s, i, ' ')
    case None => |s|
    case Some(p) => p
  }

  /** The space-separated words of `s[i..]`, an independent reading of a frame line. */
  function WordsFrom(s: string, i: nat): seq<string>
    requires i <= |s|
    decreases |s| - i
  {
    if i == |s| then []
    else if s[i] == ' ' then WordsFrom(s, i + 1)
    else var e := WordEnd(s, i); [s[i..e]] + WordsFrom(s, e)
  }

  lemma {:induction false} WordsSkipSpaces(s: string, i: nat)
    requires i <= |s|
    ensures WordsFrom(s, i) == WordsFrom(s, SkipSpaces(s, i))
    decreases |s| - i
  {
    if i < |s| && s[i] == ' ' {
      WordsSkipSpaces(s, i + 1);
    }
  }

  lemma {:induction false} NoWordsOnlySpaces(s: string, i: nat)
    requires i <= |s| && WordsFrom(s, i) == []
    ensures forall k :: i <= k < |s| ==> s[k] == ' '
    decreases |s| - i
  {
    if i < |s| {
      NoWordsOnlySpaces(s, i + 1);
    }
  }

  /**
   * The frame rule in words: after the character that follows the tab, the
   * first word is the address and the second word is the symbol; the line is
   * accepted exactly when a space follows the symbol (a third word or
   * trailing spaces).
   */
  lemma FrameIsSecondWord(line: string)
    requires Processable(line) && |line| > 0 && line[0] == '\t'
    ensures var w := WordsFrom(line, 2);
      && (Classify(line).Emit? <==> |w| >= 2 && (|w| >= 3 || line[|line| - 1] == ' '))
      && (Classify(line).Emit? ==> Classify(line) == Emit(StackFrame(w[1])))
  {
    assert Classify(line) == ClassifyFrame(line);
    var a := SkipSpaces(line, 2);
    WordsSkipSpaces(line, 2);
    if a < |line| {
      FrameAfterAddress(line, a);
    }
  }

  /** The frame rule once the address word starts at `a`. */
  lemma FrameAfterAddress(line: string, a: nat)
    requires Processable(line) && |line| >= 2 && a == SkipSpaces(line, 2) && a < |line|
    ensures var w := WordsFrom(line, a);
      && (ClassifyFrame(line).Emit? <==> |w| >= 2 && (|w| >= 3 || line[|line| - 1] == ' '))
      && (ClassifyFrame(line).Emit? ==> ClassifyFrame(line) == Emit(StackFrame(w[1])))
  {
    var w := WordsFrom(line, a);
    match IndexOf(line, a, ' ')
    case None =>
      assert WordEnd(line, a) == |line|;
      assert WordsFrom(line, |line|) == [];
      assert line[a..|line|] == line[a..];
      assert w == [line[a..]];
    case Some(p) =>
      assert WordEnd(line, a) == p;
      var b := SkipSpaces(line, p + 1);
      assert WordsFrom(line, p) == WordsFrom(line, p + 1);
      WordsSkipSpaces(line, p + 1);
      assert w == [line[a..p]] + WordsFrom(line, b);
      if b < |line| {
        FrameSymbolWord(line, b);
      }
  }

  /** The frame rule once the symbol word starts at `b`. */
  lemma FrameSymbolWord(line: string, b: nat)
    requires b < |line| && line[b] != ' '
    ensures var w := WordsFrom(line, b);
      && (IndexOf(line, b, ' ').Some? <==> |w| >= 2 || line[|line| - 1] == ' ')
      && (IndexOf(line, b, ' ').Some? ==> w[0] == line[b..IndexOf(line, b, ' ').value])
      && |w| >= 1
  {
    var w := WordsFrom(line, b);
    match IndexOf(line, b, ' ')
    case None =>
      assert WordEnd(line, b) == |line|;
      assert WordsFrom(line, |line|) == [];
      assert line[b..|line|] == line[b..];
      assert w == [line[b..]];
      assert line[|line| - 1] in line[b..];
    case Some(e) =>
      assert WordEnd(line, b) == e;
      assert w == [line[b..e]] + WordsFrom(line, e);
      if WordsFrom(line, e) == [] {
        NoWordsOnlySpaces(line, e);
      }
  }

  // --------------------------------------------------------------- headers

  /** A word that starts with a digit at position `j` (not the line's first character). */
  predicate DigitWordAt(line: string, j: int) {
    0 < j < |line| && line[j - 1] == ' ' && IsDigit(line[j])
  }

  /**
   * The header's `while (true)` loop from `from`: hop from space run to space
   * run until the run is followed by a digit. Gives the first space of that
   * run and the digit's position.
   */
  function FindPidToken(line: string, from: nat): (r: Option<(nat, nat)>)
    requires from <= |line|
    ensures r.None? ==> forall j :: from < j < |line| ==> !DigitWordAt(line, j)
    ensures r.Some? ==>
      var (p1, p2) := r.value;
      && from <= p1 < p2 < |line|
      && (p1 == from || line[p1 - 1] != ' ')
      && (forall k :: p1 <= k < p2 ==> line[k] == ' ')
      && DigitWordAt(line, p2)
      && (forall j :: from < j < p2 ==> !DigitWordAt(line, j))
    decreases |line| - from
  {
    match IndexOf(line, from, ' ')
    case None =>
      NoDigitWordInWord(line, from, |line|);
      None
    case Some(p1) =>
      var p2 := SkipWsEnd(line, p1);
      NoDigitWordInWord(line, from, p1);
      NoDigitWordInSpaces(line, p1, p2);
      if p2 == |line| then None
      else if IsDigit(line[p2]) then Some((p1, p2))
      else FindPidToken(line, p2)
  }

  /** No word starts inside a run of non-spaces (nor right after it). */
  lemma NoDigitWordInWord(line: string, from: nat, p: nat)
    requires from <= p <= |line| && ' ' !in line[from..p]
    ensures forall j :: from < j <= p ==> !DigitWordAt(line, j)
  {
    forall j | from < j <= p ensures !DigitWordAt(line, j) {
      assert line[j - 1] == line[from..p][j - 1 - from];
    }
  }

  /** Inside a run of spaces there is no digit. */
  lemma NoDigitWordInSpaces(line: string, p1: nat, p2: nat)
    requires p1 < |line| && p2 == SkipWsEnd(line, p1)
    ensures forall j :: p1 < j < p2 ==> !DigitWordAt(line, j)
  {
  }

  /**
   * The PID or PID/TID field: split at the first '/', convert each side with
   * `std::stoi`; the TID is -1 when there is no slash.
   */
  function PidTid(ptid: string): (r: Option<(int, int)>)
    requires ptid != [] && IsDigit(ptid[0])
    ensures r.Some? ==> r.value.0 == DecimalValue(ptid[..DigitRunEnd(ptid, 0)])
    ensures '/' !in ptid ==> r.Some? && r.value.1 == -1
    ensures r.None? <==> IndexOf(ptid, 0, '/').Some? && ParseInt(ptid[IndexOf(ptid, 0, '/').value + 1..]).None?
    ensures r.Some? && '/' in ptid ==>
      IndexOf(ptid, 0, '/').Some? && Some(r.value.1) == ParseInt(ptid[IndexOf(ptid, 0, '/').value + 1..])
  {
    match IndexOf(ptid, 0, '/')
    case None =>
      assert ptid[0..] == ptid;
      ParseIntDigitLed(ptid);
      (match ParseInt(ptid)
       case None => None
       case Some(pid) => Some((pid, -1)))
    case Some(k) =>
      assert ptid[k] in ptid;
      PidBeforeSlash(ptid, k);
      match (ParseInt(ptid[..k]), ParseInt(ptid[k + 1..]))
      case (Some(pid), Some(tid)) => Some((pid, tid))
      case _ => None
  }

  /** The text before the slash converts to the value of the leading digit run. */
  lemma PidBeforeSlash(ptid: string, k: nat)
    requires ptid != [] && IsDigit(ptid[0]) && k < |ptid| && ptid[k] == '/'
    ensures ParseInt(ptid[..k]) == Some(DecimalValue(ptid[..DigitRunEnd(ptid, 0)]))
  {
    var head := ptid[..k];
    DigitRunOfPrefix(ptid, k, 0);
    assert head[..DigitRunEnd(head, 0)] == ptid[..DigitRunEnd(ptid, 0)];
    ParseIntDigitLed(head);
  }

  /** Cutting a string just before a non-digit does not change a digit run that starts before the cut. */
  lemma {:induction false} DigitRunOfPrefix(s: string, k: nat, i: nat)
    requires i <= k < |s| && !IsDigit(s[k])
    ensures DigitRunEnd(s[..k], i) == DigitRunEnd(s, i)
    decreases k - i
  {
    if i < k && IsDigit(s[i]) {
      DigitRunOfPrefix(s, k, i + 1);
    }
  }

  /**
   * A header line: the process name is everything before the space run that
   * precedes the first digit-led word; that word, up to the next space, is
   * the PID/TID field.
   */
  function ClassifyHeader(line: string): (r: Outcome)
    requires Processable(line) && line != [] && line[0] != '\t'
    ensures r.Invalid? ==> r.reason != BadFrame
    ensures r.Emit? ==> r.event.StackStart?
  {
    match FindPidToken(line, 0)
    case None => Invalid(HeaderEol)
    case Some((p1, p2)) =>
      match IndexOf(line, p2, ' ')
      case None => Invalid(MissingPid)
      case Some(e) =>
        var ptid := line[p2..e];
        match PidTid(ptid)
        case None => Invalid(BadPidTid(ptid))
        case Some((pid, tid)) => Emit(StackStart(line[..p1], pid, tid))
  }

  /**
   * The header rule, both ways: a header is dropped for want of a PID exactly
   * when no word after the first starts with a digit; when it is accepted, the
   * process name is the text before the space run that leads to the first
   * digit-led word.
   */
  lemma HeaderProcessName(line: string)
    requires Processable(line) && line != [] && line[0] != '\t'
    ensures Classify(line) == Invalid(HeaderEol) <==> forall j :: 0 < j < |line| ==> !DigitWordAt(line, j)
    ensures Classify(line).Emit? ==>
      var proc := Classify(line).event.proc;
      && |proc| < |line| && proc == line[..|proc|]
      && (|proc| == 0 || line[|proc| - 1] != ' ')
      && var q := SkipSpaces(line, |proc|);
      && q < |line| && DigitWordAt(line, q)
      && (forall j :: 0 < j < q ==> !DigitWordAt(line, j))
  {
    match FindPidToken(line, 0)
    case None =>
    case Some((p1, p2)) =>
      assert Classify(line) != Invalid(HeaderEol);
      if Classify(line).Emit? {
        assert SkipSpaces(line, p1) == p2 by {
          SkipSpacesRun(line, p1, p2);
        }
      }
  }

  lemma {:induction false} SkipSpacesRun(s: string, i: nat, j: nat)
    requires i <= j < |s| && s[j] != ' '
    requires forall k :: i <= k < j ==> s[k] == ' '
    ensures SkipSpaces(s, i) == j
    decreases j - i
  {
    if i < j {
      SkipSpacesRun(s, i + 1, j);
    }
  }

  /**
   * A header is dropped for want of a space after the PID exactly when its
   * first digit-led word runs to the end of the line.
   */
  lemma HeaderNeedsSpaceAfterPid(line: string, q: nat)
    requires Processable(line) && line != [] && line[0] != '\t'
    requires DigitWordAt(line, q) && forall j :: 0 < j < q ==> !DigitWordAt(line, j)
    ensures Classify(line) == Invalid(MissingPid) <==> ' ' !in line[q..]
  {
    match FindPidToken(line, 0)
    case None =>
    case Some((p1, p2)) =>
      assert p2 == q;
  }

  /** A header whose PID/TID field does not convert is dropped, naming the field. */
  lemma HeaderBadTid(line: string, q: nat, e: nat)
    requires Processable(line) && line != [] && line[0] != '\t'
    requires DigitWordAt(line, q) && forall j :: 0 < j < q ==> !DigitWordAt(line, j)
    requires q < e < |line| && line[e] == ' ' && ' ' !in line[q..e]
    ensures Classify(line).Invalid? <==> '/' in line[q..e] && ParseInt(line[q..e][IndexOf(line[q..e], 0, '/').value + 1..]).None?
    ensures Classify(line).Invalid? ==> Classify(line) == Invalid(BadPidTid(line[q..e]))
  {
    match FindPidToken(line, 0)
    case None =>
    case Some((p1, p2)) =>
      assert p2 == q;
      IndexOfFinds(line, q, ' ', e);
  }
}
