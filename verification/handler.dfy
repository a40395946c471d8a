/**
 * `StackCollapsingHandler`: interns symbols into dense ids and counts how
 * often each complete stack of ids occurs.
 */
module Collapse {
  import opened Events
  import opened Symbols
  import Order
  import Canon

  function DecodeAll(table: seq<string>, keys: seq<seq<int>>): (r: seq<seq<string>>)
    requires forall k :: k in keys ==> IdsBelow(k, |table|)
    ensures |r| == |keys|
  {
    seq(|keys|, i requires 0 <= i < |keys| => Decode(table, keys[i]))
  }

  /** Appending symbols does not change what existing ids stand for. */
  lemma DecodeExtend(table: seq<string>, more: seq<string>, k: seq<int>)
    requires IdsBelow(k, |table|)
    ensures IdsBelow(k, |table + more|) && Decode(table + more, k) == Decode(table, k)
  {
  }

  lemma DecodeAllExtend(table: seq<string>, more: seq<string>, keys: seq<seq<int>>)
    requires forall k :: k in keys ==> IdsBelow(k, |table|)
    ensures forall k :: k in keys ==> IdsBelow(k, |table + more|)
    ensures DecodeAll(table + more, keys) == DecodeAll(table, keys)
  {
    forall i | 0 <= i < |keys|
      ensures IdsBelow(keys[i], |table|) && Decode(table + more, keys[i]) == Decode(table, keys[i])
    {
      assert keys[i] in keys;
      DecodeExtend(table, more, keys[i]);
    }
  }

  lemma DecodeAllSnoc(table: seq<string>, keys: seq<seq<int>>, k: seq<int>)
    requires forall x :: x in keys ==> IdsBelow(x, |table|)
    requires IdsBelow(k, |table|)
    ensures forall x :: x in keys + [k] ==> IdsBelow(x, |table|)
    ensures DecodeAll(table, keys + [k]) == DecodeAll(table, keys) + [Decode(table, k)]
  {
  }

  /**
   * Closing a block after interning the process name (possibly appending it
   * to the names): the new key names the block's frames then the process,
   * and the earlier keys keep their names.
   */
  lemma EndStep(oldNames: seq<string>, names: seq<string>, stack: seq<int>, keys: seq<seq<int>>,
                proc: string, pid: int)
    requires |oldNames| <= |names| && oldNames == names[..|oldNames|]
    requires IdsBelow(stack, |oldNames|) && forall k :: k in keys ==> IdsBelow(k, |oldNames|)
    requires 0 <= pid < |names| && names[pid] == proc
    ensures forall k :: k in keys + [stack + [pid]] ==> IdsBelow(k, |names|)
    ensures DecodeAll(names, keys + [stack + [pid]])
         == DecodeAll(oldNames, keys) + [Decode(oldNames, stack) + [proc]]
  {
    var more := names[|oldNames|..];
    assert names == oldNames + more;
    DecodeAllExtend(oldNames, more, keys);
    DecodeExtend(oldNames, more, stack);
    var key := stack + [pid];
    assert Decode(names, key) == Decode(names, stack) + [proc];
    DecodeAllSnoc(names, keys, key);
  }

  /** With distinct names, two id sequences name the same stack only if they are equal. */
  lemma DecodeInjective(table: seq<string>, k1: seq<int>, k2: seq<int>)
    requires Order.Distinct(table) && IdsBelow(k1, |table|) && IdsBelow(k2, |table|)
    ensures Decode(table, k1) == Decode(table, k2) <==> k1 == k2
  {
    if Decode(table, k1) == Decode(table, k2) {
      forall i | 0 <= i < |k1| ensures k1[i] == k2[i] {
        assert Decode(table, k1)[i] == Decode(table, k2)[i];
      }
    }
  }

  /** Under distinct names, lists of keys that mean the same names are the same keys. */
  lemma DecodeAllInjective(table: seq<string>, keys1: seq<seq<int>>, keys2: seq<seq<int>>)
    requires Order.Distinct(table)
    requires forall k :: k in keys1 ==> IdsBelow(k, |table|)
    requires forall k :: k in keys2 ==> IdsBelow(k, |table|)
    requires DecodeAll(table, keys1) == DecodeAll(table, keys2)
    ensures keys1 == keys2
  {
    forall i | 0 <= i < |keys1| ensures keys1[i] == keys2[i] {
      assert DecodeAll(table, keys1)[i] == DecodeAll(table, keys2)[i];
      DecodeInjective(table, keys1[i], keys2[i]);
    }
  }

  /**
   * Counting on ids is counting on names: a key occurs among the completed id
   * sequences as often as its names occur among the completed name sequences.
   */
  lemma {:induction false} CountByName(table: seq<string>, keys: seq<seq<int>>, k: seq<int>)
    requires Order.Distinct(table) && IdsBelow(k, |table|)
    requires forall x :: x in keys ==> IdsBelow(x, |table|)
    ensures multiset(DecodeAll(table, keys))[Decode(table, k)] == multiset(keys)[k]
    decreases |keys|
  {
    if keys != [] {
      var last := keys[|keys| - 1];
      var init := keys[..|keys| - 1];
      assert keys == init + [last];
      assert DecodeAll(table, keys) == DecodeAll(table, init) + [Decode(table, last)];
      CountByName(table, init, k);
      DecodeInjective(table, last, k);
    }
  }

  /** The sum of all counts. */
  ghost function Total(m: map<seq<int>, int>): int
    decreases |m|
  {
    if m == map[] then 0
    else
      var k :| k in m;
      m[k] + Total(m - {k})
  }

  /** Any key can be taken out of the sum first. */
  lemma {:induction false} TotalRemove(m: map<seq<int>, int>, k: seq<int>)
    requires k in m
    ensures Total(m) == m[k] + Total(m - {k})
    decreases |m|
  {
    var j :| j in m && Total(m) == m[j] + Total(m - {j});
    if j != k {
      TotalRemove(m - {j}, k);
      TotalRemove(m - {k}, j);
      assert m - {j} - {k} == m - {k} - {j};
    }
  }

  /** One more occurrence of `k`: its count becomes 1 if absent, else grows by 1. */
  function Bump(m: map<seq<int>, int>, k: seq<int>): map<seq<int>, int> {
    m[k := if k in m then m[k] + 1 else 1]
  }

  /** The count map built from `keys` one `Bump` at a time, in order. */
  function Tally(keys: seq<seq<int>>): map<seq<int>, int> {
    if keys == [] then map[] else Bump(Tally(keys[..|keys| - 1]), keys[|keys| - 1])
  }

  /** Completing one more key bumps its count in the tally. */
  lemma TallySnoc(keys: seq<seq<int>>, k: seq<int>, m: map<seq<int>, int>)
    requires m == Tally(keys)
    ensures Tally(keys + [k]) == Bump(m, k)
  {
    assert (keys + [k])[..|keys|] == keys;
  }

  /** A key is counted exactly when it occurs, and its count is its number of occurrences. */
  lemma {:induction false} TallyCounts(keys: seq<seq<int>>)
    ensures forall k :: k in Tally(keys) <==> k in keys
    ensures forall k :: k in Tally(keys) ==> Tally(keys)[k] == multiset(keys)[k]
  {
    if keys != [] {
      var init, last := keys[..|keys| - 1], keys[|keys| - 1];
      assert keys == init + [last];
      TallyCounts(init);
      assert multiset(keys) == multiset(init) + multiset{last};
    }
  }

  /** The counts sum to the number of keys recorded. */
  lemma {:induction false} TallyTotal(keys: seq<seq<int>>)
    ensures Total(Tally(keys)) == |keys|
  {
    if keys != [] {
      TallyTotal(keys[..|keys| - 1]);
      TotalBump(Tally(keys[..|keys| - 1]), keys[|keys| - 1]);
    } else {
      assert Tally(keys) == map[];
    }
  }

  /** Adding one to a key's count (one for a new key) adds one to the sum. */
  lemma TotalBump(m: map<seq<int>, int>, k: seq<int>)
    ensures Total(Bump(m, k)) == Total(m) + 1
  {
    var m' := Bump(m, k);
    TotalRemove(m', k);
    if k in m {
      TotalRemove(m, k);
      assert m' - {k} == m - {k};
    } else {
      assert m' - {k} == m;
    }
  }

  /**
   * The counts are the tally of the completed keys (none empty, all of
   * interned ids), and there are `n` of those.
   */
  ghost predicate Counting(nNames: int, history: seq<seq<int>>, counts: map<seq<int>, int>, n: int) {
    && (forall k :: k in history ==> k != [] && IdsBelow(k, nNames))
    && counts == Tally(history)
    && n == |history|
  }

  /** Completing a key (non-empty, of interned ids) keeps the counting, perhaps after more names were interned. */
  lemma EndCounting(n0: int, n1: int, history: seq<seq<int>>, counts: map<seq<int>, int>, n: int, key: seq<int>)
    requires Counting(n0, history, counts, n) && n0 <= n1
    requires key != [] && IdsBelow(key, n1)
    ensures Counting(n1, history + [key], Bump(counts, key), n + 1)
  {
    TallySnoc(history, key, counts);
  }

  /**
   * What one classified line does to the names table: a frame interns its
   * symbol, a block end interns the current process, anything else interns
   * nothing.
   */
  function InternStep(names: seq<string>, process: string, o: Outcome): seq<string> {
    match o
    case Emit(StackFrame(sym)) => Intern(names, sym)
    case Emit(StackEnd) => Intern(names, process)
    case _ => names
  }

  /** The names table after the handler, at trace `t` with table `names`, is fed `os`. */
  function NamesAfter(names: seq<string>, t: Trace, os: seq<Outcome>): seq<string>
    decreases |os|
  {
    if os == [] then names
    else
      var init := os[..|os| - 1];
      InternStep(NamesAfter(names, t, init), FeedAll(t, init).process, os[|os| - 1])
  }

  lemma NamesAfterSnoc(names: seq<string>, t: Trace, os: seq<Outcome>, o: Outcome)
    ensures NamesAfter(names, t, os + [o]) == InternStep(NamesAfter(names, t, os), FeedAll(t, os).process, o)
  {
    assert (os + [o])[..|os|] == os;
  }

  /** Feeding two runs of lines one after the other: the table after the second run starts from the first's. */
  lemma {:induction false} NamesAfterAppend(names: seq<string>, t: Trace, a: seq<Outcome>, b: seq<Outcome>)
    ensures NamesAfter(names, t, a + b) == NamesAfter(NamesAfter(names, t, a), FeedAll(t, a), b)
    decreases |b|
  {
    if b == [] {
      assert a + b == a;
    } else {
      var init, o := b[..|b| - 1], b[|b| - 1];
      assert b == init + [o];
      assert a + b == (a + init) + [o];
      NamesAfterAppend(names, t, a, init);
      NamesAfterSnoc(names, t, a + init, o);
      NamesAfterSnoc(NamesAfter(names, t, a), FeedAll(t, a), init, o);
      FeedAllAppend(t, a, init);
    }
  }

  /** Frame lines intern their symbols in order. */
  lemma {:induction false} NamesAfterFrames(names: seq<string>, t: Trace, syms: seq<string>)
    ensures NamesAfter(names, t, Frames(syms)) == InternAll(names, syms)
    decreases |syms|
  {
    if syms != [] {
      var init, sym := syms[..|syms| - 1], syms[|syms| - 1];
      assert Frames(syms) == Frames(init) + [Emit(StackFrame(sym))];
      NamesAfterFrames(names, t, init);
      NamesAfterSnoc(names, t, Frames(init), Emit(StackFrame(sym)));
    }
  }

  /** A whole block interns its symbols in order, then its process name. */
  lemma NamesAfterBlock(names: seq<string>, t: Trace, proc: string, pid: int, tid: int, syms: seq<string>)
    ensures NamesAfter(names, t, Block(proc, pid, tid, syms)) == Intern(InternAll(names, syms), proc)
  {
    var head := [Emit(StackStart(proc, pid, tid))];
    var body := head + Frames(syms);
    assert Block(proc, pid, tid, syms) == body + [Emit(StackEnd)];
    NamesAfterSnoc(names, t, [], head[0]);
    assert NamesAfter(names, t, head) == names by {
      assert [] + [head[0]] == head;
    }
    NamesAfterAppend(names, t, head, Frames(syms));
    NamesAfterFrames(names, FeedAll(t, head), syms);
    NamesAfterSnoc(names, t, body, Emit(StackEnd));
    FeedAllAppend(t, head, Frames(syms));
    FeedFrames(FeedAll(t, head), syms);
  }

  /** A name the trace holds: in the open block or in a completed stack. */
  predicate Mentions(t: Trace, s: string) {
    s in t.block || exists i :: 0 <= i < |t.done| && s in t.done[i]
  }

  /**
   * The table only grows at its end, never holds a name twice, and every name
   * it gains is one the lines fed to the handler mention.
   */
  lemma {:induction false} NamesAfterGrows(names: seq<string>, t: Trace, os: seq<Outcome>)
    requires Order.Distinct(names)
    ensures names <= NamesAfter(names, t, os)
    ensures Order.Distinct(NamesAfter(names, t, os))
    ensures forall s :: s in NamesAfter(names, t, os) ==> s in names || Mentions(FeedAll(t, os), s)
    decreases |os|
  {
    if os != [] {
      var init, o := os[..|os| - 1], os[|os| - 1];
      assert os == init + [o];
      NamesAfterGrows(names, t, init);
      NamesAfterSnoc(names, t, init, o);
      FeedAllSnoc(t, init, o);
      var n, u := NamesAfter(names, t, init), FeedAll(t, init);
      forall s | Mentions(u, s) ensures Mentions(Feed(u, o), s) {
        MentionsKept(u, o, s);
      }
      match o
      case Emit(StackFrame(sym)) =>
        assert sym in Feed(u, o).block;
      case Emit(StackEnd) =>
        assert u.process in Feed(u, o).done[|u.done|];
      case _ =>
    }
  }

  /** Feeding a line never forgets a name the trace mentions. */
  lemma MentionsKept(u: Trace, o: Outcome, s: string)
    requires Mentions(u, s)
    ensures Mentions(Feed(u, o), s)
  {
    var v := Feed(u, o);
    if o == Emit(StackEnd) {
      if s in u.block {
        assert s in v.done[|u.done|];
      } else {
        var i :| 0 <= i < |u.done| && s in u.done[i];
        assert v.done[i] == u.done[i];
      }
    } else if o.Emit? && o.event.StackFrame? {
      assert v.done == u.done && u.block <= v.block;
    }
  }

  class StackCollapsingHandler {
    var nStacks: int
    var currentProcess: string
    var currentStack: seq<int>
    var symbolNames: seq<string>
    var symbolIds: map<string, int>
    var stackCounts: map<seq<int>, int>
    /** Every completed key, in completion order. */
    ghost var history: seq<seq<int>>

    /** The symbol table's two directions are inverse bijections of the same size. */
    ghost predicate Interned()
      reads this`symbolNames, this`symbolIds
    {
      Interning(symbolNames, symbolIds)
    }

    /** The counts are the tally of the completed keys, and there are `nStacks` of those. */
    ghost predicate Counted()
      reads this`symbolNames, this`stackCounts, this`history, this`nStacks
    {
      Counting(|symbolNames|, history, stackCounts, nStacks)
    }

    ghost predicate Valid()
      reads this
    {
      Interned() && IdsBelow(currentStack, |symbolNames|) && Counted()
    }

    /** The handler's state read as names (see `Events.Trace`). */
    ghost function View(): Trace
      reads this
      requires Valid()
    {
      Trace(currentProcess, Decode(symbolNames, currentStack), DecodeAll(symbolNames, history))
    }

    /** A handler value-initialised as in `main`: nothing interned, nothing counted. */
    constructor ()
      ensures Valid() && View() == Initial
      ensures symbolNames == [] && stackCounts == map[] && nStacks == 0
    {
      nStacks := 0;
      currentProcess := "";
      currentStack := [];
      symbolNames := [];
      symbolIds := map[];
      stackCounts := map[];
      history := [];
    }

    lemma NamesDistinct()
      requires Interned()
      ensures Order.Distinct(symbolNames)
    {
      forall i, j | 0 <= i < j < |symbolNames| ensures symbolNames[i] != symbolNames[j] {
        assert symbolIds[symbolNames[i]] == i && symbolIds[symbolNames[j]] == j;
      }
    }

    /**
     * The concrete state is fixed by what it means and by the names table:
     * two handlers that agree on both agree on every field.
     */
    lemma SameState(other: StackCollapsingHandler)
      requires Valid() && other.Valid()
      requires View() == other.View() && symbolNames == other.symbolNames
      ensures symbolIds == other.symbolIds && currentStack == other.currentStack
      ensures history == other.history && stackCounts == other.stackCounts && nStacks == other.nStacks
    {
      InterningUnique(symbolNames, symbolIds, other.symbolIds);
      NamesDistinct();
      DecodeInjective(symbolNames, currentStack, other.currentStack);
      DecodeAllInjective(symbolNames, history, other.history);
    }

    /** Keys that spell the completed stacks are the history, and the counts are their tally. */
    lemma CountsFromKeys(keys: seq<seq<int>>)
      requires Valid()
      requires forall k :: k in keys ==> IdsBelow(k, |symbolNames|)
      requires DecodeAll(symbolNames, keys) == View().done
      ensures history == keys && stackCounts == Tally(keys)
    {
      NamesDistinct();
      DecodeAllInjective(symbolNames, history, keys);
    }

    /**
     * `get_or_create_symbol_id`: a known symbol keeps its id; an unseen one
     * gets the next id and is appended to the names.
     */
    method GetOrCreateSymbolId(sym: string) returns (id: int)
      requires Interned()
      modifies this`symbolNames, this`symbolIds
      ensures Interned()
      ensures 0 <= id < |symbolNames| && symbolNames[id] == sym && symbolIds[sym] == id
      ensures sym in old(symbolIds) ==>
        id == old(symbolIds)[sym] && symbolNames == old(symbolNames) && symbolIds == old(symbolIds)
      ensures sym !in old(symbolIds) ==>
        id == |old(symbolNames)| && symbolNames == old(symbolNames) + [sym]
        && symbolIds == old(symbolIds)[sym := id]
      ensures symbolNames == Intern(old(symbolNames), sym)
    {
      InterningMembers(symbolNames, symbolIds);
      if sym !in symbolIds {
        id := |symbolNames|;
        symbolNames := symbolNames + [sym];
        symbolIds := symbolIds[sym := id];
      } else {
        id := symbolIds[sym];
      }
    }

    /** Interning only appends: what the handler means in names is unchanged. */
    lemma InternKeepsView(oldNames: seq<string>)
      requires |oldNames| <= |symbolNames| && oldNames == symbolNames[..|oldNames|]
      requires IdsBelow(currentStack, |oldNames|)
      requires forall k :: k in history ==> IdsBelow(k, |oldNames|)
      ensures Decode(oldNames, currentStack) == Decode(symbolNames, currentStack)
      ensures DecodeAll(oldNames, history) == DecodeAll(symbolNames, history)
    {
      var more := symbolNames[|oldNames|..];
      assert symbolNames == oldNames + more;
      DecodeExtend(oldNames, more, currentStack);
      DecodeAllExtend(oldNames, more, history);
    }

    /** `on_stack_start`: remember the process name; pid and tid are not used. */
    method OnStackStart(proc: string, pid: int, tid: int)
      requires Valid()
      modifies this`currentProcess
      ensures Valid() && currentProcess == proc
      ensures View() == Apply(old(View()), StackStart(proc, pid, tid))
    {
      currentProcess := proc;
    }

    /** `on_stack_frame`: intern the symbol and append its id to the open block. */
    method OnStackFrame(sym: string)
      requires Valid()
      modifies this`currentStack, this`symbolNames, this`symbolIds
      ensures Valid()
      ensures sym in symbolIds && symbolNames[symbolIds[sym]] == sym
      ensures currentStack == old(currentStack) + [symbolIds[sym]]
      ensures sym in old(symbolIds) ==> symbolNames == old(symbolNames) && symbolIds == old(symbolIds)
      ensures sym !in old(symbolIds) ==>
        symbolNames == old(symbolNames) + [sym] && symbolIds == old(symbolIds)[sym := |old(symbolNames)|]
      ensures symbolNames == Intern(old(symbolNames), sym)
      ensures View() == Apply(old(View()), StackFrame(sym))
    {
      ghost var before := View();
      ghost var oldNames := symbolNames;
      var id := GetOrCreateSymbolId(sym);
      InternKeepsView(oldNames);
      currentStack := currentStack + [id];
      assert Decode(symbolNames, currentStack) == Decode(symbolNames, old(currentStack)) + [sym];
    }

    /**
     * `on_stack_end`: one more sample; the key is the open block's ids followed
     * by the process name's id; its count becomes 1 or grows by 1; the block is
     * emptied.
     */
    method OnStackEnd()
      requires Valid()
      modifies this
      ensures Valid()
      ensures nStacks == old(nStacks) + 1 && currentStack == [] && currentProcess == old(currentProcess)
      ensures currentProcess in symbolIds && symbolNames[symbolIds[currentProcess]] == currentProcess
      ensures currentProcess in old(symbolIds) ==> symbolNames == old(symbolNames) && symbolIds == old(symbolIds)
      ensures currentProcess !in old(symbolIds) ==>
        && symbolNames == old(symbolNames) + [currentProcess]
        && symbolIds == old(symbolIds)[currentProcess := |old(symbolNames)|]
      ensures symbolNames == Intern(old(symbolNames), currentProcess)
      ensures history == old(history) + [old(currentStack) + [symbolIds[currentProcess]]]
      ensures stackCounts == Bump(old(stackCounts), old(currentStack) + [symbolIds[currentProcess]])
      ensures View() == Apply(old(View()), StackEnd)
    {
      ghost var oldNames := symbolNames;
      nStacks := nStacks + 1;
      var pid := GetOrCreateSymbolId(currentProcess);
      var key := currentStack + [pid];
      EndStep(oldNames, symbolNames, currentStack, history, currentProcess, pid);
      EndCounting(|oldNames|, |symbolNames|, history, stackCounts, nStacks - 1, key);
      CountKey(key);
      currentStack := [];
    }

    /** The `find`, then `emplace_hint` with count 1 or `++` of the count found. */
    method CountKey(key: seq<int>)
      modifies this`stackCounts, this`history
      ensures stackCounts == Bump(old(stackCounts), key) && history == old(history) + [key]
    {
      if key !in stackCounts {
        stackCounts := stackCounts[key := 1];
      } else {
        stackCounts := stackCounts[key := stackCounts[key] + 1];
      }
      history := history + [key];
    }

    /** `n_stacks`: the number of completed blocks, which is also the sum of the counts. */
    function NStacks(): (r: int)
      reads this
      requires Valid()
      ensures r == |View().done| && r == Total(stackCounts)
    {
      TallyTotal(history);
      nStacks
    }

    /** `n_unique_stacks`: the number of distinct completed keys. */
    function NUniqueStacks(): (r: int)
      reads this
      requires Valid()
      ensures r == |set k | k in history|
    {
      TallyCounts(history);
      assert stackCounts.Keys == set k | k in history;
      |stackCounts|
    }

    /**
     * Counting correctness: each key's count is the number of completed blocks
     * whose frames and process name are exactly the names the key stands for.
     */
    lemma CountsAreBlockCounts()
      requires Valid()
      ensures forall k :: k in stackCounts ==> stackCounts[k] == multiset(View().done)[Decode(symbolNames, k)]
    {
      NamesDistinct();
      TallyCounts(history);
      forall k | k in stackCounts
        ensures stackCounts[k] == multiset(View().done)[Decode(symbolNames, k)]
      {
        CountByName(symbolNames, history, k);
      }
    }
 
    /** Every counted key is made of interned ids and has been seen at least once. */
    lemma CountsWellFormed()
      requires Valid()
      ensures forall k :: k in stackCounts ==> k != [] && IdsBelow(k, |symbolNames|) && stackCounts[k] >= 1
    {
      TallyCounts(history);
    }

    /**
     * What `dump` prints, key by key: every counted key has a row, whose line
     * shows the key's names root first in display form, and whose count is the
     * number of completed blocks with exactly those frames and that process name.
     */
    lemma DumpCountsBlocks()
      requires Valid()
      ensures forall k :: k in stackCounts ==> IdsBelow(k, |symbolNames|) && stackCounts[k] >= 1
      ensures forall k :: k in stackCounts ==>
        && (Canon.Frame(Canon.SortedNames(symbolNames), k), stackCounts[k]) in Canon.SortedRows(symbolNames, stackCounts)
        && Canon.Path(symbolNames, k) == Canon.Printed(Decode(symbolNames, k))
        && stackCounts[k] == multiset(View().done)[Decode(symbolNames, k)]
    {
      CountsWellFormed();
      Canon.StacksEmittedOnce(symbolNames, stackCounts);
      CountsAreBlockCounts();
      forall k | k in stackCounts ensures Canon.Path(symbolNames, k) == Canon.Printed(Decode(symbolNames, k)) {
        Canon.PathIsPrinted(symbolNames, k);
      }
    }

    /**
     * `dump`: the folded-stack text, one line per counted key. `nameOrder` and
     * `keyOrder` are the orders in which the two hash maps hand out their
     * entries; the text does not depend on them.
     */
    method Dump(nameOrder: seq<string>, keyOrder: seq<seq<int>>) returns (out: string)
      requires Valid()
      requires Order.Distinct(nameOrder) && forall s :: s in nameOrder <==> s in symbolIds
      requires Order.Distinct(keyOrder) && forall k :: k in keyOrder <==> k in stackCounts
      ensures forall k :: k in stackCounts ==> IdsBelow(k, |symbolNames|) && stackCounts[k] >= 0
      ensures out == Canon.Folded(symbolNames, stackCounts)
    {
      CountsWellFormed();
      var sortedNames := Canon.SortNames(symbolNames, symbolIds, nameOrder);
      var newIds := Canon.NewIds(sortedNames, symbolNames);
      var sortedCounts := Canon.SortCounts(sortedNames, newIds, stackCounts, keyOrder, symbolNames);
      Canon.SortedRowsPrintable(symbolNames, stackCounts);
      out := Canon.Emit(sortedNames, sortedCounts);
    }
  }
}
