/**
 * The `f"{name1}-{name2}"` keys under which the reconciliation scripts file
 * the result for one pair of exchanges, and the pairs `i < j` they visit
 * (`itertools.combinations(..., 2)` or the nested `range` loops).
 */
module Pairing {
  import opened Text
  import opened Collections

  function PairKey(a: string, b: string): string {
    a + "-" + b
  }

  predicate DashFree(name: string) { '-' !in name }

  /** Exchange names as the scripts declare them: distinct dictionary keys without '-'. */
  predicate ValidNames(names: seq<string>) {
    && (forall i :: 0 <= i < |names| ==> DashFree(names[i]))
    && (forall i, j :: 0 <= i < j < |names| ==> names[i] != names[j])
  }

  /** `key.split("-")[0]`. */
  function KeyHead(key: string): string {
    BeforeFirst(key, '-')
  }

  /** `key.split("-")[1]`, which raises IndexError when the key has no '-'. */
  function KeySecond(key: string): Option<string> {
    if '-' in key then Some(BeforeFirst(AfterFirst(key, '-'), '-')) else None
  }

  /** Splitting a key at '-' gives back the two names it was built from. */
  lemma SplitPairKey(a: string, b: string)
    requires DashFree(a) && DashFree(b)
    ensures KeyHead(PairKey(a, b)) == a
    ensures KeySecond(PairKey(a, b)) == Some(b)
  {
    SplitAtFirst(a, '-', b);
    assert PairKey(a, b) == a + ['-'] + b;
  }

  /** Keys of dash-free names never collide. */
  lemma PairKeyInjective(a: string, b: string, c: string, d: string)
    requires DashFree(a) && DashFree(b) && DashFree(c) && DashFree(d)
    requires PairKey(a, b) == PairKey(c, d)
    ensures a == c && b == d
  {
    SplitPairKey(a, b);
    SplitPairKey(c, d);
  }

  /** Distinct index pairs of valid names give distinct keys. */
  lemma PairKeysDistinct(names: seq<string>, i: nat, j: nat, i': nat, j': nat)
    requires ValidNames(names)
    requires i < j < |names| && i' < j' < |names|
    requires (i, j) != (i', j')
    ensures PairKey(names[i], names[j]) != PairKey(names[i'], names[j'])
  {
    if PairKey(names[i], names[j]) == PairKey(names[i'], names[j']) {
      PairKeyInjective(names[i], names[j], names[i'], names[j']);
      assert false;
    }
  }

  /**
   * Pair `(a, b)` with `a < b` comes before `(i, j)` in the order the
   * scripts visit pairs (`combinations` or `for i: for j in range(i + 1, n)`).
   */
  predicate VisitedBefore(a: int, b: int, i: int, j: int) {
    a < i || (a == i && b < j)
  }

  /** A key of some visited pair. */
  ghost predicate VisitedKey(names: seq<string>, key: string, i: int, j: int) {
    exists a, b {:trigger VisitedBefore(a, b, i, j)} :: 0 <= a < b < |names| && VisitedBefore(a, b, i, j) && key == PairKey(names[a], names[b])
  }

  /** The key of pair `(i, j)` is not among the keys visited before it. */
  lemma VisitedKeyNew(names: seq<string>, i: int, j: int)
    requires ValidNames(names) && 0 <= i < j < |names|
    ensures !VisitedKey(names, PairKey(names[i], names[j]), i, j)
  {
    var key := PairKey(names[i], names[j]);
    if VisitedKey(names, key, i, j) {
      var a, b :| 0 <= a < b < |names| && VisitedBefore(a, b, i, j) && key == PairKey(names[a], names[b]);
      PairKeysDistinct(names, a, b, i, j);
      assert false;
    }
  }

  /** Visiting pair `(i, j)` adds its key, which is new. */
  lemma VisitedKeyStep(names: seq<string>, i: int, j: int)
    requires ValidNames(names) && 0 <= i < j < |names|
    ensures !VisitedKey(names, PairKey(names[i], names[j]), i, j)
    ensures forall k :: VisitedKey(names, k, i, j + 1) <==> VisitedKey(names, k, i, j) || k == PairKey(names[i], names[j])
  {
    VisitedKeyNew(names, i, j);
    var key := PairKey(names[i], names[j]);
    forall k ensures VisitedKey(names, k, i, j + 1) <==> VisitedKey(names, k, i, j) || k == key {
      VisitedKeyExtend(names, k, i, j);
    }
  }

  lemma VisitedKeyExtend(names: seq<string>, k: string, i: int, j: int)
    requires 0 <= i < j < |names|
    ensures VisitedKey(names, k, i, j + 1) <==> VisitedKey(names, k, i, j) || k == PairKey(names[i], names[j])
  {
    if VisitedKey(names, k, i, j) {
      var a, b :| 0 <= a < b < |names| && VisitedBefore(a, b, i, j) && k == PairKey(names[a], names[b]);
      assert VisitedBefore(a, b, i, j + 1);
    }
    if k == PairKey(names[i], names[j]) {
      assert VisitedBefore(i, j, i, j + 1);
    }
    if VisitedKey(names, k, i, j + 1) && k != PairKey(names[i], names[j]) {
      var a, b :| 0 <= a < b < |names| && VisitedBefore(a, b, i, j + 1) && k == PairKey(names[a], names[b]);
      assert VisitedBefore(a, b, i, j);
    }
  }

  /** The key of some pair `a < b` of the names. */
  ghost predicate IsPairKey(names: seq<string>, key: string) {
    exists a, b :: 0 <= a < b < |names| && key == PairKey(names[a], names[b])
  }

  /** After the last row every pair has been visited. */
  lemma VisitedAll(names: seq<string>)
    ensures forall k :: VisitedKey(names, k, |names|, |names| + 1) <==> IsPairKey(names, k)
  {
    forall k | IsPairKey(names, k) ensures VisitedKey(names, k, |names|, |names| + 1) {
      var a, b :| 0 <= a < b < |names| && k == PairKey(names[a], names[b]);
      assert VisitedBefore(a, b, |names|, |names| + 1);
    }
  }

  /** Finishing row `i` is starting row `i + 1`. */
  lemma VisitedKeyRow(names: seq<string>, i: int)
    requires 0 <= i < |names|
    ensures forall k :: VisitedKey(names, k, i, |names|) <==> VisitedKey(names, k, i + 1, i + 2)
  {
    forall k ensures VisitedKey(names, k, i, |names|) <==> VisitedKey(names, k, i + 1, i + 2) {
      if VisitedKey(names, k, i, |names|) {
        var a, b :| 0 <= a < b < |names| && VisitedBefore(a, b, i, |names|) && k == PairKey(names[a], names[b]);
        assert VisitedBefore(a, b, i + 1, i + 2);
      }
      if VisitedKey(names, k, i + 1, i + 2) {
        var a, b :| 0 <= a < b < |names| && VisitedBefore(a, b, i + 1, i + 2) && k == PairKey(names[a], names[b]);
        assert VisitedBefore(a, b, i, |names|);
      }
    }
  }

  /** The keys of `m` are exactly those of the pairs visited before `(i, j)`. */
  ghost predicate KeysVisited<V>(m: map<string, V>, names: seq<string>, i: int, j: int) {
    forall key :: key in m <==> VisitedKey(names, key, i, j)
  }

  /** Adding the key of pair `(i, j)` moves the visited keys one pair on. */
  lemma KeysVisitedStep<V>(before: map<string, V>, updated: map<string, V>, names: seq<string>, i: int, j: int)
    requires ValidNames(names) && 0 <= i < j < |names|
    requires KeysVisited(before, names, i, j)
    requires updated.Keys == before.Keys + {PairKey(names[i], names[j])}
    ensures KeysVisited(updated, names, i, j + 1)
  {
    forall key ensures key in updated <==> VisitedKey(names, key, i, j + 1) {
      VisitedKeyExtend(names, key, i, j);
    }
  }

  /** The visited keys at the end of row `i` are those at the start of row `i + 1`. */
  lemma KeysVisitedRow<V>(m: map<string, V>, names: seq<string>, i: int)
    requires 0 <= i < |names|
    requires KeysVisited(m, names, i, |names|)
    ensures KeysVisited(m, names, i + 1, i + 2)
  {
    VisitedKeyRow(names, i);
  }

  /** After the last row the keys are exactly the pair keys. */
  lemma KeysVisitedAll<V>(m: map<string, V>, names: seq<string>)
    requires KeysVisited(m, names, |names|, |names| + 1)
    ensures forall key :: key in m <==> IsPairKey(names, key)
  {
    VisitedAll(names);
  }
}
