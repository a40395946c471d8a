/**
 * What `dump` computes: display forms of the symbols, canonical ids in sorted
 * display order, every stack reversed and renumbered, the stacks sorted, and
 * one folded line per stack.
 */
module Canon {
  import opened Wrappers
  import opened Order
  import opened Symbols
  import CStr

  /** `std::replace`: every `from` becomes `to`, every other character stays. */
  function Replace(s: string, from: char, to: char): (r: string)
    ensures |r| == |s|
    ensures forall i :: 0 <= i < |s| ==> r[i] == (if s[i] == from then to else s[i])
  {
    if s == [] then [] else [if s[0] == from then to else s[0]] + Replace(s[1..], from, to)
  }

  /** The display form `dump` prints for a symbol: `;` becomes `:` and a space becomes `_`. */
  function Display(sym: string): (d: string)
    ensures |d| == |sym| && ';' !in d && ' ' !in d
  {
    Replace(Replace(sym, ';', ':'), ' ', '_')
  }

  /** A symbol is printed as it is exactly when it holds neither `;` nor a space. */
  lemma DisplayKeepsClean(sym: string)
    ensures Display(sym) == sym <==> ';' !in sym && ' ' !in sym
  {
    if ';' !in sym && ' ' !in sym {
      forall i | 0 <= i < |sym| ensures Display(sym)[i] == sym[i] {
        assert sym[i] != ';' && sym[i] != ' ';
      }
    }
  }

  lemma DisplayIdempotent(sym: string)
    ensures Display(Display(sym)) == Display(sym)
  {
    DisplayKeepsClean(Display(sym));
  }

  /** Different symbols can share a display form. */
  lemma DisplayMerges()
    ensures "a;b" != "a:b" && Display("a;b") == Display("a:b") == "a:b"
  {
    assert Display("a;b")[1] == ':';
  }

  /** The parts with `;` between each two of them. */
  function Join(parts: seq<string>): string {
    if parts == [] then "" else if |parts| == 1 then parts[0] else parts[0] + ";" + Join(parts[1..])
  }

  lemma {:induction false} JoinSnoc(parts: seq<string>, x: string)
    ensures Join(parts + [x]) == if parts == [] then x else Join(parts) + ";" + x
    decreases |parts|
  {
    if |parts| > 1 {
      assert (parts + [x])[1..] == parts[1..] + [x];
      JoinSnoc(parts[1..], x);
    } else if |parts| == 1 {
      assert (parts + [x])[1..] == [x];
    }
  }

  /** Joining never introduces a character other than `;`. */
  lemma {:induction false} JoinAddsOnlySeparators(parts: seq<string>, c: char)
    requires c != ';' && forall p :: p in parts ==> c !in p
    ensures c !in Join(parts)
    decreases |parts|
  {
    if |parts| > 1 {
      JoinAddsOnlySeparators(parts[1..], c);
    }
  }

  /** A text cut at every `;` (the reading of a folded line's stack). */
  function Split(s: string): (parts: seq<string>)
    ensures |parts| >= 1
    decreases |s|
  {
    match CStr.IndexOf(s, 0, ';')
    case None => [s]
    case Some(i) => [s[..i]] + Split(s[i + 1..])
  }

  /** Cutting at `;` undoes joining parts that hold no `;`. */
  lemma {:induction false} SplitJoin(parts: seq<string>)
    requires parts != [] && forall p :: p in parts ==> ';' !in p
    ensures Split(Join(parts)) == parts
    decreases |parts|
  {
    var s := Join(parts);
    if |parts| == 1 {
      assert s == parts[0] && s[0..|s|] == s;
      CStr.IndexOfFinds(s, 0, ';', |s|);
    } else {
      var p := parts[0];
      assert s == p + ";" + Join(parts[1..]);
      assert p in parts;
      assert s[0..|p|] == p;
      CStr.IndexOfFinds(s, 0, ';', |p|);
      assert s[..|p|] == p && s[|p| + 1..] == Join(parts[1..]);
      SplitJoin(parts[1..]);
      assert parts == [p] + parts[1..];
    }
  }

  /**
   * Reads a folded line back: the `;`-separated names before the first space,
   * and the integer after it.
   */
  function ParseLine(line: string): Option<(seq<string>, Option<int>)> {
    match CStr.IndexOf(line, 0, ' ')
    case None => None
    case Some(i) => Some((Split(line[..i]), CStr.ParseInt(line[i + 1..])))
  }

  /** A folded line: the names joined by `;`, a space, the count in decimal. */
  function FoldedLine(names: seq<string>, count: nat): (line: string)
    ensures ' ' in line
  {
    assert (Join(names) + " " + CStr.Decimal(count))[|Join(names)|] == ' ';
    Join(names) + " " + CStr.Decimal(count)
  }

  /** A line made of tokens free of `;` and space reads back as those tokens and that count. */
  lemma FoldedLineRoundTrip(names: seq<string>, count: nat)
    requires names != [] && forall p :: p in names ==> ';' !in p && ' ' !in p
    ensures ParseLine(FoldedLine(names, count)) == Some((names, Some(count)))
  {
    var j := Join(names);
    var line := FoldedLine(names, count);
    JoinAddsOnlySeparators(names, ' ');
    assert line[0..|j|] == j;
    CStr.IndexOfFinds(line, 0, ' ', |j|);
    assert line[..|j|] == j && line[|j| + 1..] == CStr.Decimal(count);
    SplitJoin(names);
    CStr.ParseIntOfDecimal(count);
  }

  /** Each original id with its symbol's display form, in id order. */
  function Indexed(names: seq<string>): seq<(string, int)> {
    seq(|names|, a requires 0 <= a < |names| => (Display(names[a]), a))
  }

  /** `sorted_names` once sorted: the (display form, original id) pairs in increasing order. */
  function SortedNames(names: seq<string>): (s: seq<(string, int)>)
    ensures |s| == |names|
  {
    assert |Sort(Indexed(names), NameLess)| == |multiset(Sort(Indexed(names), NameLess))|;
    Sort(Indexed(names), NameLess)
  }

  /** Where original id `a` sits among the sorted names: its canonical id `new_ids[a]`. */
  function Rank(sorted: seq<(string, int)>, a: int): (r: nat)
    ensures r <= |sorted|
    ensures r < |sorted| ==> sorted[r].1 == a
    ensures forall i :: 0 <= i < r ==> sorted[i].1 != a
  {
    if sorted == [] then 0 else if sorted[0].1 == a then 0 else 1 + Rank(sorted[1..], a)
  }

  /** The sorted names are exactly the indexed names, in increasing order. */
  lemma SortedNamesElements(names: seq<string>)
    ensures |SortedNames(names)| == |names|
    ensures StrictlySorted(SortedNames(names), NameLess)
    ensures forall x :: x in SortedNames(names) <==> x in Indexed(names)
  {
    var e := Indexed(names);
    var s := SortedNames(names);
    NameLessIsStrictTotal();
    SortSorted(e, NameLess);
    assert s == Sort(e, NameLess);
    forall x ensures x in s <==> x in e {
      assert multiset(s) == multiset(e);
      assert x in s <==> x in multiset(s);
      assert x in e <==> x in multiset(e);
    }
  }

  lemma RankOfId(names: seq<string>, a: int)
    requires 0 <= a < |names|
    ensures Rank(SortedNames(names), a) < |names|
    ensures SortedNames(names)[Rank(SortedNames(names), a)] == (Display(names[a]), a)
  {
    var e := Indexed(names);
    var s := SortedNames(names);
    SortedNamesElements(names);
    assert e[a] in s;
    assert s[Rank(s, a)] in e;
  }

  lemma RankOfEntry(names: seq<string>, i: int)
    requires 0 <= i < |names|
    ensures 0 <= SortedNames(names)[i].1 < |names|
    ensures Rank(SortedNames(names), SortedNames(names)[i].1) == i
  {
    var e := Indexed(names);
    var s := SortedNames(names);
    SortedNamesElements(names);
    NameLessIsStrictTotal();
    assert s[i] in e;
    var a := s[i].1;
    RankOfId(names, a);
    SortedPositions(s, NameLess, Rank(s, a), i);
  }

  /**
   * The sorted names hold every symbol once, in increasing (display form,
   * original id) order; `Rank` sends each original id to the position of its
   * entry, and reading that entry's id undoes it (`sorted_names[new_ids[a]].second == a`).
   */
  lemma CanonicalIds(names: seq<string>)
    ensures |SortedNames(names)| == |names|
    ensures StrictlySorted(SortedNames(names), NameLess)
    ensures forall a :: 0 <= a < |names| ==>
      Rank(SortedNames(names), a) < |names| && SortedNames(names)[Rank(SortedNames(names), a)] == (Display(names[a]), a)
    ensures forall i :: 0 <= i < |names| ==>
      0 <= SortedNames(names)[i].1 < |names| && Rank(SortedNames(names), SortedNames(names)[i].1) == i
  {
    SortedNamesElements(names);
    forall a | 0 <= a < |names|
      ensures Rank(SortedNames(names), a) < |names|
      ensures SortedNames(names)[Rank(SortedNames(names), a)] == (Display(names[a]), a)
    {
      RankOfId(names, a);
    }
    forall i | 0 <= i < |names|
      ensures 0 <= SortedNames(names)[i].1 < |names| && Rank(SortedNames(names), SortedNames(names)[i].1) == i
    {
      RankOfEntry(names, i);
    }
  }

  /**
   * Canonical ids follow the (display form, original id) order: symbols with
   * different display forms are numbered in byte-wise display order, and
   * symbols sharing one are numbered in first-seen order.
   */
  lemma RankOrder(names: seq<string>, a: int, b: int)
    requires 0 <= a < |names| && 0 <= b < |names|
    ensures Rank(SortedNames(names), a) < Rank(SortedNames(names), b)
        <==> NameLess((Display(names[a]), a), (Display(names[b]), b))
  {
    var s := SortedNames(names);
    SortedNamesElements(names);
    RankOfId(names, a);
    RankOfId(names, b);
    NameLessIsStrictTotal();
    var ra, rb := Rank(s, a), Rank(s, b);
    if rb < ra {
      assert NameLess(s[rb], s[ra]);
    }
  }

  /** A stack key reversed (process name first, innermost frame last), each id replaced by its canonical id. */
  function Frame(sorted: seq<(string, int)>, k: seq<int>): (f: seq<int>)
    ensures |f| == |k|
  {
    seq(|k|, j requires 0 <= j < |k| => Rank(sorted, k[|k| - 1 - j]))
  }

  /** The (frame, count) pair of each key, in the order the keys are given. */
  function RowsOf(sorted: seq<(string, int)>, keys: seq<seq<int>>, counts: map<seq<int>, int>)
    : (rows: seq<(seq<int>, int)>)
    requires forall k :: k in keys ==> k in counts
    ensures |rows| == |keys|
  {
    if keys == [] then []
    else
      var k := keys[|keys| - 1];
      RowsOf(sorted, keys[..|keys| - 1], counts) + [(Frame(sorted, k), counts[k])]
  }

  /** The keys of a count map, each once, in some order. */
  ghost function KeysOf(m: map<seq<int>, int>): (ks: seq<seq<int>>)
    ensures Distinct(ks) && |ks| == |m| && forall k :: k in ks <==> k in m
    decreases |m|
  {
    if m == map[] then []
    else
      var k :| k in m;
      var ks := KeysOf(m - {k});
      assert forall i :: 0 <= i < |ks| ==> ks[i] in ks;
      ks + [k]
  }

  /** `sorted_counts` once sorted: one (frame, count) row per key, in increasing order. */
  ghost function SortedRows(names: seq<string>, counts: map<seq<int>, int>): seq<(seq<int>, int)> {
    Sort(RowsOf(SortedNames(names), KeysOf(counts), counts), RowLess)
  }

  /** Renumbering loses nothing: different keys (of interned ids) get different frames. */
  lemma FrameInjective(names: seq<string>, k1: seq<int>, k2: seq<int>)
    requires IdsBelow(k1, |names|) && IdsBelow(k2, |names|)
    ensures Frame(SortedNames(names), k1) == Frame(SortedNames(names), k2) <==> k1 == k2
  {
    var s := SortedNames(names);
    if Frame(s, k1) == Frame(s, k2) {
      forall i | 0 <= i < |k1| ensures k1[i] == k2[i] {
        var j := |k1| - 1 - i;
        assert Frame(s, k1)[j] == Frame(s, k2)[j];
        RankInjective(names, k1[i], k2[i]);
      }
    }
  }

  /** Different ids get different canonical ids. */
  lemma RankInjective(names: seq<string>, a: int, b: int)
    requires 0 <= a < |names| && 0 <= b < |names|
    ensures Rank(SortedNames(names), a) == Rank(SortedNames(names), b) <==> a == b
  {
    RankOfId(names, a);
    RankOfId(names, b);
  }

  lemma {:induction false} RowsOfMembers(sorted: seq<(string, int)>, keys: seq<seq<int>>, counts: map<seq<int>, int>)
    requires forall k :: k in keys ==> k in counts
    ensures forall r :: r in RowsOf(sorted, keys, counts) <==> exists k :: k in keys && r == (Frame(sorted, k), counts[k])
    decreases |keys|
  {
    if keys != [] {
      var init := keys[..|keys| - 1];
      RowsOfMembers(sorted, init, counts);
      assert keys == init + [keys[|keys| - 1]];
    }
  }

  /** Two rows built from interned keys with the same frame are the same row. */
  lemma RowsOfFrames(names: seq<string>, keys: seq<seq<int>>, counts: map<seq<int>, int>)
    requires forall k :: k in keys ==> k in counts && IdsBelow(k, |names|)
    ensures forall r1, r2 ::
      (r1 in RowsOf(SortedNames(names), keys, counts) && r2 in RowsOf(SortedNames(names), keys, counts) && r1.0 == r2.0)
      ==> r1 == r2
  {
    var s := SortedNames(names);
    RowsOfMembers(s, keys, counts);
    forall r1, r2 | r1 in RowsOf(s, keys, counts) && r2 in RowsOf(s, keys, counts) && r1.0 == r2.0
      ensures r1 == r2
    {
      var k1 :| k1 in keys && r1 == (Frame(s, k1), counts[k1]);
      var k2 :| k2 in keys && r2 == (Frame(s, k2), counts[k2]);
      FrameInjective(names, k1, k2);
    }
  }

  lemma {:induction false} RowsOfDistinct(names: seq<string>, keys: seq<seq<int>>, counts: map<seq<int>, int>)
    requires forall k :: k in keys ==> k in counts && IdsBelow(k, |names|)
    requires Distinct(keys)
    ensures Distinct(RowsOf(SortedNames(names), keys, counts))
    decreases |keys|
  {
    if keys != [] {
      var s := SortedNames(names);
      var init, last := keys[..|keys| - 1], keys[|keys| - 1];
      assert forall k :: k in init ==> k in keys;
      RowsOfDistinct(names, init, counts);
      RowsOfMembers(s, init, counts);
      var rows := RowsOf(s, init, counts);
      forall i | 0 <= i < |rows| ensures rows[i] != (Frame(s, last), counts[last]) {
        assert rows[i] in rows;
        var k :| k in init && rows[i] == (Frame(s, k), counts[k]);
        var t :| 0 <= t < |init| && init[t] == k;
        assert keys[t] == k && t < |keys| - 1;
        FrameInjective(names, k, last);
      }
    }
  }

  /** The sorted rows do not depend on the order the count map hands out its keys. */
  lemma RowsArrivalOrder(names: seq<string>, keys: seq<seq<int>>, counts: map<seq<int>, int>)
    requires forall k :: k in counts ==> IdsBelow(k, |names|)
    requires Distinct(keys) && forall k :: k in keys <==> k in counts
    ensures Sort(RowsOf(SortedNames(names), keys, counts), RowLess) == SortedRows(names, counts)
  {
    var s := SortedNames(names);
    var other := KeysOf(counts);
    RowsOfDistinct(names, keys, counts);
    RowsOfDistinct(names, other, counts);
    RowsOfMembers(s, keys, counts);
    RowsOfMembers(s, other, counts);
    RowLessIsStrictTotal();
    SortIgnoresArrivalOrder(RowsOf(s, keys, counts), RowsOf(s, other, counts), RowLess);
  }

  /** The sorted rows are the rows of all keys, once each, in increasing order. */
  lemma SortedRowsElements(names: seq<string>, counts: map<seq<int>, int>)
    requires forall k :: k in counts ==> IdsBelow(k, |names|)
    ensures |SortedRows(names, counts)| == |counts|
    ensures StrictlySorted(SortedRows(names, counts), RowLess)
    ensures forall x :: x in SortedRows(names, counts) <==> x in RowsOf(SortedNames(names), KeysOf(counts), counts)
  {
    var rows := RowsOf(SortedNames(names), KeysOf(counts), counts);
    var r := SortedRows(names, counts);
    assert r == Sort(rows, RowLess);
    assert |r| == |multiset(r)| == |multiset(rows)| == |rows|;
    forall x ensures x in r <==> x in rows {
      assert x in r <==> x in multiset(r);
      assert x in rows <==> x in multiset(rows);
    }
    RowsOfDistinct(names, KeysOf(counts), counts);
    RowLessIsStrictTotal();
    SortSorted(rows, RowLess);
  }

  /**
   * Every recorded key is printed exactly once, as its frame with its count,
   * and the rows increase strictly by frame alone (the count never breaks a tie).
   */
  lemma StacksEmittedOnce(names: seq<string>, counts: map<seq<int>, int>)
    requires forall k :: k in counts ==> IdsBelow(k, |names|)
    ensures |SortedRows(names, counts)| == |counts|
    ensures forall k :: k in counts ==> (Frame(SortedNames(names), k), counts[k]) in SortedRows(names, counts)
    ensures forall r :: r in SortedRows(names, counts) ==>
      exists k :: k in counts && r == (Frame(SortedNames(names), k), counts[k])
    ensures forall i, j :: 0 <= i < j < |SortedRows(names, counts)| ==>
      LexLess(SortedRows(names, counts)[i].0, SortedRows(names, counts)[j].0)
  {
    SortedRowsElements(names, counts);
    RowsOfMembers(SortedNames(names), KeysOf(counts), counts);
    RowsIncreaseByFrame(names, counts);
  }

  /** The printed rows increase strictly by frame: no two rows share a frame. */
  lemma RowsIncreaseByFrame(names: seq<string>, counts: map<seq<int>, int>)
    requires forall k :: k in counts ==> IdsBelow(k, |names|)
    ensures forall i, j :: 0 <= i < j < |SortedRows(names, counts)| ==>
      LexLess(SortedRows(names, counts)[i].0, SortedRows(names, counts)[j].0)
  {
    var keys := KeysOf(counts);
    var rows := RowsOf(SortedNames(names), keys, counts);
    var r := SortedRows(names, counts);
    SortedRowsElements(names, counts);
    RowsOfFrames(names, keys, counts);
    forall i, j | 0 <= i < j < |r| ensures LexLess(r[i].0, r[j].0) {
      assert RowLess(r[i], r[j]);
      assert r[i] in rows && r[j] in rows;
    }
  }

  /** Renumbered keys index the sorted names. */
  lemma FrameBelow(names: seq<string>, k: seq<int>)
    requires IdsBelow(k, |names|)
    ensures IdsBelow(Frame(SortedNames(names), k), |names|)
  {
    var f := Frame(SortedNames(names), k);
    forall j | 0 <= j < |f| ensures 0 <= f[j] < |names| {
      RankOfId(names, k[|k| - 1 - j]);
    }
  }

  /** The display names of a canonical-id sequence, read from the sorted names. */
  function NamesOf(sorted: seq<(string, int)>, ids: seq<int>): (ns: seq<string>)
    requires IdsBelow(ids, |sorted|)
    ensures |ns| == |ids|
  {
    seq(|ids|, j requires 0 <= j < |ids| => sorted[ids[j]].0)
  }

  /** Rows whose ids index the sorted names and whose counts can be printed. */
  predicate Printable(sorted: seq<(string, int)>, rows: seq<(seq<int>, int)>) {
    forall r :: r in rows ==> IdsBelow(r.0, |sorted|) && r.1 >= 0
  }

  /** All that `dump` writes for these rows: each row's folded line and a newline. */
  function Render(sorted: seq<(string, int)>, rows: seq<(seq<int>, int)>): string
    requires Printable(sorted, rows)
  {
    if rows == [] then ""
    else
      var r := rows[|rows| - 1];
      assert r in rows && forall x :: x in rows[..|rows| - 1] ==> x in rows;
      Render(sorted, rows[..|rows| - 1]) + FoldedLine(NamesOf(sorted, r.0), r.1) + "\n"
  }

  /** Every row of a well-formed count map can be printed. */
  lemma SortedRowsPrintable(names: seq<string>, counts: map<seq<int>, int>)
    requires forall k :: k in counts ==> IdsBelow(k, |names|) && counts[k] >= 0
    ensures Printable(SortedNames(names), SortedRows(names, counts))
  {
    StacksEmittedOnce(names, counts);
    forall r | r in SortedRows(names, counts) ensures IdsBelow(r.0, |names|) && r.1 >= 0 {
      var k :| k in counts && r == (Frame(SortedNames(names), k), counts[k]);
      FrameBelow(names, k);
    }
  }

  /** `dump`'s whole output for a symbol table and the counts of its keys. */
  ghost function Folded(names: seq<string>, counts: map<seq<int>, int>): string
    requires forall k :: k in counts ==> IdsBelow(k, |names|) && counts[k] >= 0
  {
    SortedRowsPrintable(names, counts);
    Render(SortedNames(names), SortedRows(names, counts))
  }

  /** A key's symbols as printed, root first: the process name, then the frames from the outermost. */
  function Path(names: seq<string>, k: seq<int>): (p: seq<string>)
    requires IdsBelow(k, |names|)
    ensures |p| == |k|
  {
    seq(|k|, j requires 0 <= j < |k| => Display(names[k[|k| - 1 - j]]))
  }

  /** A stack of names, innermost first, as a folded line shows it: root first, in display form. */
  function Printed(stack: seq<string>): (p: seq<string>)
    ensures |p| == |stack|
  {
    seq(|stack|, j requires 0 <= j < |stack| => Display(stack[|stack| - 1 - j]))
  }

  /** A key's printed names are the display forms of the names it stands for, reversed. */
  lemma PathIsPrinted(names: seq<string>, k: seq<int>)
    requires IdsBelow(k, |names|)
    ensures Path(names, k) == Printed(Decode(names, k))
  {
    forall j | 0 <= j < |k| ensures Path(names, k)[j] == Printed(Decode(names, k))[j] {
      assert Decode(names, k)[|k| - 1 - j] == names[k[|k| - 1 - j]];
    }
  }

  /**
   * A key's line names its symbols' display forms root first, and reads back
   * as those names and its count.
   */
  lemma LineOfStack(names: seq<string>, k: seq<int>, count: nat)
    requires IdsBelow(k, |names|) && k != []
    ensures IdsBelow(Frame(SortedNames(names), k), |SortedNames(names)|)
    ensures FoldedLine(NamesOf(SortedNames(names), Frame(SortedNames(names), k)), count) == FoldedLine(Path(names, k), count)
    ensures ParseLine(FoldedLine(Path(names, k), count)) == Some((Path(names, k), Some(count)))
  {
    var s := SortedNames(names);
    FrameBelow(names, k);
    forall j | 0 <= j < |k| ensures NamesOf(s, Frame(s, k))[j] == Path(names, k)[j] {
      RankOfId(names, k[|k| - 1 - j]);
    }
    assert NamesOf(s, Frame(s, k)) == Path(names, k);
    FoldedLineRoundTrip(Path(names, k), count);
  }

  /** Lexicographic order on name sequences, names compared byte-wise, a proper prefix first. */
  predicate PathLess(a: seq<string>, b: seq<string>)
    decreases |a|
  {
    |b| > 0 && (|a| == 0 || StrLess(a[0], b[0]) || (a[0] == b[0] && PathLess(a[1..], b[1..])))
  }

  /** Symbols sharing a display form are numbered in first-seen order. */
  lemma SharedDisplayFollowsFirstSeen(names: seq<string>, a: int, b: int)
    requires 0 <= a < b < |names| && Display(names[a]) == Display(names[b])
    ensures Rank(SortedNames(names), a) < Rank(SortedNames(names), b)
  {
    RankOrder(names, a, b);
  }

  /** With all display forms different, canonical ids follow byte-wise display order. */
  lemma RankFollowsDisplay(names: seq<string>, a: int, b: int)
    requires 0 <= a < |names| && 0 <= b < |names|
    requires forall x, y :: 0 <= x < y < |names| ==> Display(names[x]) != Display(names[y])
    ensures Rank(SortedNames(names), a) < Rank(SortedNames(names), b) <==> StrLess(Display(names[a]), Display(names[b]))
    ensures Rank(SortedNames(names), a) == Rank(SortedNames(names), b) <==> Display(names[a]) == Display(names[b])
  {
    RankOrder(names, a, b);
    RankOfId(names, a);
    RankOfId(names, b);
    if a < b {
      assert Display(names[a]) != Display(names[b]);
    } else if b < a {
      assert Display(names[b]) != Display(names[a]);
    }
  }

  /**
   * With all display forms different, ordering stacks by their canonical-id
   * frames is ordering them by their printed names, root first.
   */
  lemma {:induction false} FrameOrderIsPathOrder(names: seq<string>, k1: seq<int>, k2: seq<int>)
    requires IdsBelow(k1, |names|) && IdsBelow(k2, |names|)
    requires forall x, y :: 0 <= x < y < |names| ==> Display(names[x]) != Display(names[y])
    ensures LexLess(Frame(SortedNames(names), k1), Frame(SortedNames(names), k2))
        <==> PathLess(Path(names, k1), Path(names, k2))
    decreases |k1|
  {
    var s := SortedNames(names);
    if |k1| > 0 && |k2| > 0 {
      var a, b := k1[|k1| - 1], k2[|k2| - 1];
      var i1, i2 := k1[..|k1| - 1], k2[..|k2| - 1];
      FrameHead(s, k1);
      FrameHead(s, k2);
      PathHead(names, k1);
      PathHead(names, k2);
      RankFollowsDisplay(names, a, b);
      FrameOrderIsPathOrder(names, i1, i2);
    }
  }

  /** A frame starts with the key's last id (the process name) renumbered. */
  lemma FrameHead(sorted: seq<(string, int)>, k: seq<int>)
    requires |k| > 0
    ensures Frame(sorted, k) == [Rank(sorted, k[|k| - 1])] + Frame(sorted, k[..|k| - 1])
  {
    var f := Frame(sorted, k);
    assert f[1..] == Frame(sorted, k[..|k| - 1]);
    assert f == [f[0]] + f[1..];
  }

  /** A path starts with the display form of the key's last symbol. */
  lemma PathHead(names: seq<string>, k: seq<int>)
    requires |k| > 0 && IdsBelow(k, |names|)
    ensures Path(names, k) == [Display(names[k[|k| - 1]])] + Path(names, k[..|k| - 1])
  {
    var p := Path(names, k);
    assert p[1..] == Path(names, k[..|k| - 1]);
    assert p == [p[0]] + p[1..];
  }

  /**
   * With all display forms different, `dump` lists the stacks in the order of
   * their printed names, root first, whatever order they arrived in.
   */
  lemma RowsFollowPaths(names: seq<string>, counts: map<seq<int>, int>, i: int, j: int, k1: seq<int>, k2: seq<int>)
    requires forall k :: k in counts ==> IdsBelow(k, |names|)
    requires forall x, y :: 0 <= x < y < |names| ==> Display(names[x]) != Display(names[y])
    requires 0 <= i < j < |SortedRows(names, counts)|
    requires k1 in counts && SortedRows(names, counts)[i].0 == Frame(SortedNames(names), k1)
    requires k2 in counts && SortedRows(names, counts)[j].0 == Frame(SortedNames(names), k2)
    ensures PathLess(Path(names, k1), Path(names, k2))
  {
    StacksEmittedOnce(names, counts);
    FrameOrderIsPathOrder(names, k1, k2);
  }

  /** A single counted stack prints as exactly one line: its printed names and its count. */
  lemma FoldedOneStack(names: seq<string>, counts: map<seq<int>, int>, k: seq<int>, c: nat)
    requires counts == map[k := c] && IdsBelow(k, |names|) && k != []
    ensures forall x :: x in counts ==> IdsBelow(x, |names|) && counts[x] >= 0
    ensures Folded(names, counts) == FoldedLine(Path(names, k), c) + "\n"
  {
    var S := SortedNames(names);
    assert forall x :: x in counts ==> x == k;
    assert |counts| == |counts.Keys| == 1 by {
      assert counts.Keys == {k};
    }
    StacksEmittedOnce(names, counts);
    var rows := SortedRows(names, counts);
    assert rows == [(Frame(S, k), c)] by {
      assert (Frame(S, k), c) in rows;
    }
    LineOfStack(names, k, c);
    RenderOne(S, (Frame(S, k), c));
  }

  /** One row prints as its line. */
  lemma RenderOne(S: seq<(string, int)>, r: (seq<int>, int))
    requires Printable(S, [r])
    ensures IdsBelow(r.0, |S|) && r.1 >= 0
    ensures Render(S, [r]) == FoldedLine(NamesOf(S, r.0), r.1) + "\n"
  {
    assert r in [r];
    assert [r][..|[r]| - 1] == [];
    var line := FoldedLine(NamesOf(S, r.0), r.1);
    assert Render(S, [r]) == Render(S, []) + line + "\n";
    assert "" + line == line;
  }

  /** The printed names of `a;z` sort before those of `a-`, but the line `a- 1` is the smaller text. */
  lemma PathOrderIsNotTextOrder()
    ensures PathLess(["a", "z"], ["a-"])
    ensures StrLess(FoldedLine(["a-"], 1), FoldedLine(["a", "z"], 1))
  {
    assert Codes("a") == [97] && Codes("a-") == [97, 45];
    assert LexLess([], [45]);
    assert CStr.Decimal(1) == "1";
    assert FoldedLine(["a-"], 1) == "a- 1";
    assert Join(["a", "z"]) == "a;z";
    assert FoldedLine(["a", "z"], 1) == "a;z 1";
    assert Codes("a- 1") == [97, 45, 32, 49] && Codes("a;z 1") == [97, 59, 122, 32, 49];
    assert LexLess([45, 32, 49], [59, 122, 32, 49]);
  }

  /**
   * Stacks are not printed in the order of their lines' text: with symbols `a`,
   * `a-` and `z`, the row of the stack `a;z` precedes the row of `a-`, yet the
   * line `a- 1` is the smaller text (`-` is below `;`).
   */
  lemma LinesNotInTextOrder(names: seq<string>)
    requires names == ["a", "a-", "z"]
    ensures IdsBelow([2, 0], |names|) && IdsBelow([1], |names|)
    ensures LexLess(Frame(SortedNames(names), [2, 0]), Frame(SortedNames(names), [1]))
    ensures Path(names, [2, 0]) == ["a", "z"] && Path(names, [1]) == ["a-"]
    ensures StrLess(FoldedLine(Path(names, [1]), 1), FoldedLine(Path(names, [2, 0]), 1))
  {
    assert IdsBelow([2, 0], 3) && IdsBelow([1], 3);
    DisplayKeepsClean("a");
    DisplayKeepsClean("a-");
    DisplayKeepsClean("z");
    assert Display(names[0]) == "a" && Display(names[1]) == "a-" && Display(names[2]) == "z";
    assert forall x, y :: 0 <= x < y < |names| ==> Display(names[x]) != Display(names[y]);
    assert Path(names, [2, 0]) == ["a", "z"];
    assert Path(names, [1]) == ["a-"];
    PathOrderIsNotTextOrder();
    FrameOrderIsPathOrder(names, [2, 0], [1]);
  }

  /**
   * The names `a;b` and `a:b` (both displayed `a:b`) and `p`, interned with
   * either of the two symbols first: the first-seen one gets canonical id 0,
   * the other 1, and `p` 2.
   */
  lemma SharedDisplayRanks(names: seq<string>)
    requires names == ["a;b", "p", "a:b"] || names == ["a:b", "p", "a;b"]
    ensures Rank(SortedNames(names), 0) == 0 && Rank(SortedNames(names), 2) == 1
    ensures Rank(SortedNames(names), 1) == 2
    ensures SortedNames(names)[0].0 == "a:b" && SortedNames(names)[1].0 == "a:b"
    ensures SortedNames(names)[2].0 == "p"
  {
    assert Display("a;b") == "a:b" && Display("a:b") == "a:b" && Display("p") == "p";
    assert Display(names[0]) == "a:b" && Display(names[2]) == "a:b" && Display(names[1]) == "p";
    assert StrLess("a:b", "p") by {
      assert Codes("a:b")[0] == 97 && Codes("p")[0] == 112;
    }
    SharedDisplayFollowsFirstSeen(names, 0, 2);
    RankOrder(names, 2, 1);
    RankOrder(names, 0, 1);
    RankOfId(names, 0);
    RankOfId(names, 1);
    RankOfId(names, 2);
  }

  /**
   * With those names, the stacks `[a;b or a:b, p]` as keys `[0, 1]` and
   * `[2, 1]`: the key of the first-seen symbol is printed first, whatever the
   * counts, and both lines read `p;a:b`.
   */
  lemma SharedDisplayRows(names: seq<string>, counts: map<seq<int>, int>, c0: nat, c2: nat)
    requires names == ["a;b", "p", "a:b"] || names == ["a:b", "p", "a;b"]
    requires counts == map[[0, 1] := c0, [2, 1] := c2]
    ensures forall k :: k in counts ==> IdsBelow(k, |names|) && counts[k] >= 0
    ensures Folded(names, counts)
         == ("p;a:b " + CStr.Decimal(c0) + "\n") + ("p;a:b " + CStr.Decimal(c2) + "\n")
  {
    SharedDisplayRanks(names);
    SharedDisplayFolded(names, counts, c0, c2);
  }

  /** The same, from the ranks and the displayed names alone. */
  lemma SharedDisplayFolded(names: seq<string>, counts: map<seq<int>, int>, c0: nat, c2: nat)
    requires |names| == 3 && counts == map[[0, 1] := c0, [2, 1] := c2]
    requires Rank(SortedNames(names), 0) == 0 && Rank(SortedNames(names), 2) == 1
    requires Rank(SortedNames(names), 1) == 2
    requires SortedNames(names)[0].0 == "a:b" && SortedNames(names)[1].0 == "a:b"
    requires SortedNames(names)[2].0 == "p"
    ensures forall k :: k in counts ==> IdsBelow(k, |names|) && counts[k] >= 0
    ensures Folded(names, counts)
         == ("p;a:b " + CStr.Decimal(c0) + "\n") + ("p;a:b " + CStr.Decimal(c2) + "\n")
  {
    SharedDisplaySorted(names, counts, c0, c2);
    RenderTwoRows(SortedNames(names), c0, c2);
  }

  /** The two rows, in the order the first-seen symbol's canonical id gives. */
  lemma SharedDisplaySorted(names: seq<string>, counts: map<seq<int>, int>, c0: nat, c2: nat)
    requires |names| == 3
    requires counts == map[[0, 1] := c0, [2, 1] := c2]
    requires Rank(SortedNames(names), 0) == 0 && Rank(SortedNames(names), 2) == 1
    requires Rank(SortedNames(names), 1) == 2
    ensures forall k :: k in counts ==> IdsBelow(k, |names|) && counts[k] >= 0
    ensures SortedRows(names, counts) == [([2, 0], c0), ([2, 1], c2)]
  {
    SharedFrames(SortedNames(names), [0, 1], [2, 1]);
    PairMap(counts, [0, 1], [2, 1], c0, c2, |names|);
    TwoKeysSorted(names, counts, [0, 1], [2, 1]);
  }

  /** The keys `0;1` and `2;1` renumber to `2;0` and `2;1`, in that order. */
  lemma SharedFrames(S: seq<(string, int)>, k0: seq<int>, k1: seq<int>)
    requires |S| == 3 && k0 == [0, 1] && k1 == [2, 1]
    requires Rank(S, 0) == 0 && Rank(S, 2) == 1 && Rank(S, 1) == 2
    ensures IdsBelow(k0, |S|) && IdsBelow(k1, |S|)
    ensures Frame(S, k0) == [2, 0] && Frame(S, k1) == [2, 1]
    ensures LexLess(Frame(S, k0), Frame(S, k1))
  {
    FrameOfPair(S, k0);
    FrameOfPair(S, k1);
    assert LexLess([2, 0], [2, 1]) by {
      assert [2, 0][1..] == [0] && [2, 1][1..] == [1];
    }
  }

  /** A two-frame key renumbers to its two canonical ids, root first. */
  lemma FrameOfPair(S: seq<(string, int)>, k: seq<int>)
    requires |k| == 2
    ensures Frame(S, k) == [Rank(S, k[1]), Rank(S, k[0])]
  {
  }

  /** A two-frame key decodes to its two names, in key order. */
  lemma DecodePair(table: seq<string>, k: seq<int>)
    requires |k| == 2 && IdsBelow(k, |table|)
    ensures Decode(table, k) == [table[k[0]], table[k[1]]]
  {
  }

  /** A count map of two stacks of interned ids holds those two keys and no negative count. */
  lemma PairMap(counts: map<seq<int>, int>, k0: seq<int>, k1: seq<int>, c0: nat, c1: nat, n: nat)
    requires counts == map[k0 := c0, k1 := c1] && IdsBelow(k0, n) && IdsBelow(k1, n)
    ensures counts.Keys == {k0, k1}
    ensures forall k :: k in counts ==> IdsBelow(k, n) && counts[k] >= 0
  {
    forall k | k in counts ensures IdsBelow(k, n) && counts[k] >= 0 {
      assert k == k0 || k == k1;
    }
  }

  /** A count map of two stacks prints the stack whose renumbered frame is smaller first. */
  lemma TwoKeysSorted(names: seq<string>, counts: map<seq<int>, int>, k0: seq<int>, k1: seq<int>)
    requires counts.Keys == {k0, k1}
    requires IdsBelow(k0, |names|) && IdsBelow(k1, |names|)
    requires LexLess(Frame(SortedNames(names), k0), Frame(SortedNames(names), k1))
    ensures SortedRows(names, counts)
         == [(Frame(SortedNames(names), k0), counts[k0]), (Frame(SortedNames(names), k1), counts[k1])]
  {
    var S := SortedNames(names);
    var f0, f1 := Frame(S, k0), Frame(S, k1);
    LexIrreflexive(f0);
    assert k0 != k1;
    assert |counts| == |counts.Keys| == 2;
    StacksEmittedOnce(names, counts);
    TwoRowsInOrder(SortedRows(names, counts), (f0, counts[k0]), (f1, counts[k1]));
  }

  /** Two rows listed in increasing frame order, holding a lower and a higher row, are those two in order. */
  lemma TwoRowsInOrder(rows: seq<(seq<int>, int)>, r0: (seq<int>, int), r1: (seq<int>, int))
    requires |rows| == 2 && r0 in rows && r1 in rows && LexLess(r0.0, r1.0)
    requires forall i, j :: 0 <= i < j < |rows| ==> LexLess(rows[i].0, rows[j].0)
    ensures rows == [r0, r1]
  {
    LexIrreflexive(r0.0);
    if rows[0] != r0 {
      assert rows[1] == r0 && rows[0] == r1;
      LexTransitive(r0.0, r1.0, r0.0);
      assert false;
    }
  }

  /** Printing the rows `[2, 0]` and `[2, 1]` when entries 0 and 1 display as `a:b` and entry 2 as `p`. */
  lemma RenderTwoRows(S: seq<(string, int)>, c0: nat, c2: nat)
    requires |S| == 3 && S[0].0 == "a:b" && S[1].0 == "a:b" && S[2].0 == "p"
    ensures Printable(S, [([2, 0], c0), ([2, 1], c2)])
    ensures Render(S, [([2, 0], c0), ([2, 1], c2)])
         == ("p;a:b " + CStr.Decimal(c0) + "\n") + ("p;a:b " + CStr.Decimal(c2) + "\n")
  {
    assert IdsBelow([2, 0], 3) && IdsBelow([2, 1], 3);
    LineOfPA(S, [2, 0], c0);
    LineOfPA(S, [2, 1], c2);
    RenderTwo(S, ([2, 0], c0), ([2, 1], c2));
  }

  /** Two rows print as their two lines, in order. */
  lemma RenderTwo(S: seq<(string, int)>, r0: (seq<int>, int), r1: (seq<int>, int))
    requires Printable(S, [r0, r1])
    ensures IdsBelow(r0.0, |S|) && IdsBelow(r1.0, |S|) && r0.1 >= 0 && r1.1 >= 0
    ensures Render(S, [r0, r1])
         == (FoldedLine(NamesOf(S, r0.0), r0.1) + "\n") + (FoldedLine(NamesOf(S, r1.0), r1.1) + "\n")
  {
    assert r0 in [r0, r1] && r1 in [r0, r1];
    var a, b := FoldedLine(NamesOf(S, r0.0), r0.1), FoldedLine(NamesOf(S, r1.0), r1.1);
    assert Render(S, [r0]) == a + "\n" by {
      RenderOne(S, r0);
    }
    assert Render(S, [r0, r1]) == Render(S, [r0]) + b + "\n" by {
      assert [r0] + [r1] == [r0, r1];
      RenderSnoc(S, [r0], r1);
    }
    LinesJoin(a, b);
  }

  /** Two newline-ended lines, however the concatenation is grouped. */
  lemma LinesJoin(a: string, b: string)
    ensures (a + "\n") + b + "\n" == (a + "\n") + (b + "\n")
  {
  }

  /** One more row appends its line. */
  lemma RenderSnoc(S: seq<(string, int)>, rows: seq<(seq<int>, int)>, r: (seq<int>, int))
    requires Printable(S, rows + [r])
    ensures Printable(S, rows) && IdsBelow(r.0, |S|) && r.1 >= 0
    ensures Render(S, rows + [r]) == Render(S, rows) + FoldedLine(NamesOf(S, r.0), r.1) + "\n"
  {
    assert r in rows + [r];
    assert forall x :: x in rows ==> x in rows + [r];
    assert (rows + [r])[..|rows|] == rows;
  }

  /** A row whose names display as `p` then `a:b`. */
  lemma LineOfPA(S: seq<(string, int)>, ids: seq<int>, c: nat)
    requires |ids| == 2 && IdsBelow(ids, |S|) && S[ids[0]].0 == "p" && S[ids[1]].0 == "a:b"
    ensures FoldedLine(NamesOf(S, ids), c) == "p;a:b " + CStr.Decimal(c)
  {
    assert NamesOf(S, ids) == ["p", "a:b"];
    assert Join(["p", "a:b"]) == "p;a:b";
  }

  /**
   * Sorting the names in the order the interner's map hands them out gives the
   * same result as sorting them in id order.
   */
  lemma NamesArrivalOrder(names: seq<string>, ids: map<string, int>, order: seq<string>, entries: seq<(string, int)>)
    requires Interning(names, ids)
    requires Distinct(order) && forall s :: s in order <==> s in ids
    requires |entries| == |order| && forall j :: 0 <= j < |order| ==> entries[j] == (Display(order[j]), ids[order[j]])
    ensures Sort(entries, NameLess) == SortedNames(names)
  {
    var e := Indexed(names);
    forall i, j | 0 <= i < j < |entries| ensures entries[i] != entries[j] {
      assert names[ids[order[i]]] == order[i] && names[ids[order[j]]] == order[j];
    }
    EntriesAreIndexed(names, ids, order, entries);
    NameLessIsStrictTotal();
    SortIgnoresArrivalOrder(entries, e, NameLess);
  }

  /** The entries built in map order are exactly the entries built in id order. */
  lemma EntriesAreIndexed(names: seq<string>, ids: map<string, int>, order: seq<string>, entries: seq<(string, int)>)
    requires Interning(names, ids)
    requires forall s :: s in order <==> s in ids
    requires |entries| == |order| && forall j :: 0 <= j < |order| ==> entries[j] == (Display(order[j]), ids[order[j]])
    ensures forall x :: x in entries <==> x in Indexed(names)
  {
    var e := Indexed(names);
    forall x | x in entries ensures x in e {
      var j :| 0 <= j < |entries| && entries[j] == x;
      assert e[ids[order[j]]] == x;
    }
    forall x | x in e ensures x in entries {
      var a :| 0 <= a < |e| && e[a] == x;
      assert names[a] in order;
      var j :| 0 <= j < |order| && order[j] == names[a];
      assert entries[j] == x;
    }
  }

  /**
   * `dump`, first phase: each symbol's display form (two `std::replace`
   * passes) paired with its id, in the order `order` the interner's map hands
   * them out, then sorted.
   */
  method SortNames(ghost names: seq<string>, ids: map<string, int>, order: seq<string>)
      returns (sorted: seq<(string, int)>)
    requires Interning(names, ids)
    requires Distinct(order) && forall s :: s in order <==> s in ids
    ensures sorted == SortedNames(names)
  {
    var entries: seq<(string, int)> := [];
    for i := 0 to |order|
      invariant |entries| == i
      invariant forall j :: 0 <= j < i ==> entries[j] == (Display(order[j]), ids[order[j]])
    {
      var sym := order[i];
      sym := Replace(sym, ';', ':');
      sym := Replace(sym, ' ', '_');
      entries := entries + [(sym, ids[order[i]])];
    }
    NamesArrivalOrder(names, ids, order, entries);
    sorted := Sort(entries, NameLess);
  }

  /** `dump`, second phase: `new_ids[a]` is the position of original id `a` among the sorted names. */
  method NewIds(sorted: seq<(string, int)>, ghost names: seq<string>) returns (newIds: array<int>)
    requires sorted == SortedNames(names)
    ensures fresh(newIds) && newIds.Length == |sorted|
    ensures forall a :: 0 <= a < |sorted| ==> newIds[a] == Rank(sorted, a)
  {
    SortedIdsDistinct(names);
    newIds := new int[|sorted|];
    var seqNo := 0;
    for i := 0 to |sorted|
      invariant seqNo == i
      invariant forall j :: 0 <= j < i ==> newIds[sorted[j].1] == j
    {
      newIds[sorted[i].1] := seqNo;
      seqNo := seqNo + 1;
    }
    forall a | 0 <= a < |sorted| ensures newIds[a] == Rank(sorted, a) {
      RankOfId(names, a);
    }
  }

  /** The sorted names carry every original id once: their ids are in range and pairwise different. */
  lemma SortedIdsDistinct(names: seq<string>)
    ensures forall i :: 0 <= i < |names| ==> 0 <= SortedNames(names)[i].1 < |names|
    ensures forall i, j :: 0 <= i < j < |names| ==> SortedNames(names)[i].1 != SortedNames(names)[j].1
  {
    forall i | 0 <= i < |names| ensures 0 <= SortedNames(names)[i].1 < |names| {
      RankOfEntry(names, i);
    }
    forall i, j | 0 <= i < j < |names| ensures SortedNames(names)[i].1 != SortedNames(names)[j].1 {
      RankOfEntry(names, i);
      RankOfEntry(names, j);
    }
  }

  /** Reading one more id (from the back) appends its canonical id to the frame. */
  lemma FrameStep(sorted: seq<(string, int)>, key: seq<int>, j: nat)
    requires j < |key|
    ensures Frame(sorted, key[j..]) == Frame(sorted, key[j + 1..]) + [Rank(sorted, key[j])]
  {
  }

  /** One key read backwards through `new_ids`: its frame. */
  method NewFrame(sorted: seq<(string, int)>, newIds: array<int>, key: seq<int>, ghost names: seq<string>)
      returns (frame: seq<int>)
    requires sorted == SortedNames(names) && newIds.Length == |names|
    requires forall a :: 0 <= a < |names| ==> newIds[a] == Rank(sorted, a)
    requires IdsBelow(key, |names|)
    ensures frame == Frame(sorted, key)
  {
    frame := [];
    var j := |key|;
    while j > 0
      invariant 0 <= j <= |key|
      invariant frame == Frame(sorted, key[j..])
    {
      j := j - 1;
      FrameStep(sorted, key, j);
      frame := frame + [newIds[key[j]]];
    }
    assert key[0..] == key;
  }

  /**
   * `dump`, third phase: every key, in the order `keys` the count map hands
   * them out, read backwards through `new_ids` and paired with its count; then
   * the pairs are sorted.
   */
  method SortCounts(sorted: seq<(string, int)>, newIds: array<int>, counts: map<seq<int>, int>,
                    keys: seq<seq<int>>, ghost names: seq<string>)
      returns (rows: seq<(seq<int>, int)>)
    requires sorted == SortedNames(names) && newIds.Length == |names|
    requires forall a :: 0 <= a < |names| ==> newIds[a] == Rank(sorted, a)
    requires forall k :: k in counts ==> IdsBelow(k, |names|)
    requires Distinct(keys) && forall k :: k in keys <==> k in counts
    ensures rows == SortedRows(names, counts)
  {
    var unsorted: seq<(seq<int>, int)> := [];
    for t := 0 to |keys|
      invariant unsorted == RowsOf(sorted, keys[..t], counts)
    {
      var key := keys[t];
      RowsOfStep(sorted, keys, counts, t);
      var frame := NewFrame(sorted, newIds, key, names);
      unsorted := unsorted + [(frame, counts[key])];
    }
    assert keys[..|keys|] == keys;
    RowsArrivalOrder(names, keys, counts);
    rows := Sort(unsorted, RowLess);
  }

  /** Reading one more key appends its row. */
  lemma RowsOfStep(sorted: seq<(string, int)>, keys: seq<seq<int>>, counts: map<seq<int>, int>, t: nat)
    requires (forall k :: k in keys ==> k in counts) && t < |keys|
    ensures keys[t] in counts && (forall k :: k in keys[..t + 1] ==> k in counts) && (forall k :: k in keys[..t] ==> k in counts)
    ensures RowsOf(sorted, keys[..t + 1], counts) == RowsOf(sorted, keys[..t], counts) + [(Frame(sorted, keys[t]), counts[keys[t]])]
  {
    assert keys[..t + 1][..t] == keys[..t];
  }

  /** Printing one more row appends its folded line and a newline. */
  lemma RenderStep(sorted: seq<(string, int)>, rows: seq<(seq<int>, int)>, r: nat)
    requires Printable(sorted, rows) && r < |rows|
    ensures rows[r] in rows && Printable(sorted, rows[..r]) && Printable(sorted, rows[..r + 1])
    ensures Render(sorted, rows[..r + 1])
         == Render(sorted, rows[..r]) + FoldedLine(NamesOf(sorted, rows[r].0), rows[r].1) + "\n"
  {
    assert rows[..r + 1][..r] == rows[..r];
  }

  /** Printing one more name of a row appends a separator (except before the first) and the name. */
  lemma NamesStep(sorted: seq<(string, int)>, ids: seq<int>, j: nat)
    requires IdsBelow(ids, |sorted|) && j < |ids|
    ensures Join(NamesOf(sorted, ids[..j + 1]))
         == Join(NamesOf(sorted, ids[..j])) + (if j == 0 then "" else ";") + sorted[ids[j]].0
  {
    assert NamesOf(sorted, ids[..j + 1]) == NamesOf(sorted, ids[..j]) + [sorted[ids[j]].0];
    JoinSnoc(NamesOf(sorted, ids[..j]), sorted[ids[j]].0);
  }

  /** What `dump` writes for one row: its names separated by `;`, a space, its count and a newline. */
  method EmitRow(sorted: seq<(string, int)>, ids: seq<int>, count: nat) returns (line: string)
    requires IdsBelow(ids, |sorted|)
    ensures line == FoldedLine(NamesOf(sorted, ids), count) + "\n"
  {
    line := "";
    var sep := "";
    for j := 0 to |ids|
      invariant sep == if j == 0 then "" else ";"
      invariant line == Join(NamesOf(sorted, ids[..j]))
    {
      var sym := sorted[ids[j]].0;
      NamesStep(sorted, ids, j);
      line := line + sep;
      line := line + sym;
      sep := ";";
    }
    assert ids[..|ids|] == ids;
    line := line + " " + CStr.Decimal(count) + "\n";
  }

  /** `dump`, last phase: every row's line, in order. */
  method Emit(sorted: seq<(string, int)>, rows: seq<(seq<int>, int)>) returns (out: string)
    requires Printable(sorted, rows)
    ensures out == Render(sorted, rows)
  {
    out := "";
    for r := 0 to |rows|
      invariant out == Render(sorted, rows[..r])
    {
      RenderStep(sorted, rows, r);
      var line := EmitRow(sorted, rows[r].0, rows[r].1);
      out := out + line;
    }
    assert rows[..|rows|] == rows;
  }
}
