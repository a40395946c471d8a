/**
 * The symbol table `StackCollapsingHandler` interns names into: dense ids
 * `0..n-1` in first-seen order, kept in both directions.
 */
module Symbols {
  /** Every id in `k` names an interned symbol. */
  predicate IdsBelow(k: seq<int>, n: int) {
    forall i :: 0 <= i < |k| ==> 0 <= k[i] < n
  }

  /**
   * `names` (id to name) and `ids` (name to id) are inverse bijections of the
   * same size.
   */
  ghost predicate Interning(names: seq<string>, ids: map<string, int>) {
    && |ids| == |names|
    && (forall i :: 0 <= i < |names| ==> names[i] in ids && ids[names[i]] == i)
    && (forall s :: s in ids ==> 0 <= ids[s] < |names| && names[ids[s]] == s)
  }

  /** The names after `get_or_create_symbol_id(sym)`: a known name changes nothing, a new one is appended. */
  function Intern(names: seq<string>, sym: string): seq<string> {
    if sym in names then names else names + [sym]
  }

  /** The names after interning each of `syms` in turn. */
  function InternAll(names: seq<string>, syms: seq<string>): seq<string> {
    if syms == [] then names else Intern(InternAll(names, syms[..|syms| - 1]), syms[|syms| - 1])
  }

  /** Interning a single name. */
  lemma InternAllOne(names: seq<string>, sym: string)
    ensures InternAll(names, [sym]) == Intern(names, sym)
  {
    assert [sym][..0] == [];
  }

  /** The two directions of the table hold the same names. */
  lemma InterningMembers(names: seq<string>, ids: map<string, int>)
    requires Interning(names, ids)
    ensures forall s :: s in ids <==> s in names
  {
    forall s | s in names ensures s in ids {
      var i :| 0 <= i < |names| && names[i] == s;
    }
  }

  /** The names alone fix the reverse table. */
  lemma InterningUnique(names: seq<string>, ids1: map<string, int>, ids2: map<string, int>)
    requires Interning(names, ids1) && Interning(names, ids2)
    ensures ids1 == ids2
  {
    InterningMembers(names, ids1);
    InterningMembers(names, ids2);
    forall s | s in ids1 ensures ids1[s] == ids2[s] {
      assert names[ids1[s]] == s;
    }
  }

  /** The names an id sequence stands for. */
  function Decode(table: seq<string>, k: seq<int>): (r: seq<string>)
    requires IdsBelow(k, |table|)
    ensures |r| == |k|
  {
    seq(|k|, i requires 0 <= i < |k| => table[k[i]])
  }
}
