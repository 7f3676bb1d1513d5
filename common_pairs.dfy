/**
 * common_pairs.py: `create_common_pairs`. For every unordered pair of
 * exchanges, in the order of `EXCHANGE_INSTANCES`, the symbols both list,
 * minus the exceptions recorded for that pair's key. What each exchange's
 * `get_trading_pairs` returned and the decoded `exceptions.json` (None when
 * the file does not exist) are parameters.
 */
module CommonPairs {
  import opened Collections
  import opened Pairing

  /** `load_exceptions().get(key, [])`. */
  function ExceptionsFor(exceptionsFile: Option<map<string, seq<string>>>, key: string): (r: seq<string>)
    ensures exceptionsFile.None? ==> r == []
    ensures exceptionsFile.Some? && key !in exceptionsFile.value ==> r == []
  {
    if exceptionsFile.Some? && key in exceptionsFile.value then exceptionsFile.value[key] else []
  }

  /** `list((set(pairs1) & set(pairs2)) - set(exceptions))`, in some order. */
  ghost predicate SharedPairs(list: seq<string>, pairs1: seq<string>, pairs2: seq<string>, exceptions: seq<string>) {
    NoDuplicates(list) && forall p :: p in list <==> p in pairs1 && p in pairs2 && p !in exceptions
  }

  /** `list((set(pairs1) & set(pairs2)) - set(exceptions))` (lines 55-59). */
  method SharedList(pairs1: seq<string>, pairs2: seq<string>, exceptions: seq<string>) returns (common: seq<string>)
    ensures SharedPairs(common, pairs1, pairs2, exceptions)
  {
    common := ToList((Elements(pairs1) * Elements(pairs2)) - Elements(exceptions));
  }

  /** The entry for pair `(a, b)` is present and right. */
  ghost predicate PairDone(commonPairs: map<string, seq<string>>, names: seq<string>, listings: seq<seq<string>>,
                           exceptionsFile: Option<map<string, seq<string>>>, a: int, b: int)
    requires 0 <= a < b < |names| == |listings|
  {
    var key := PairKey(names[a], names[b]);
    key in commonPairs && SharedPairs(commonPairs[key], listings[a], listings[b], ExceptionsFor(exceptionsFile, key))
  }

  /** Every pair visited before `(i, j)` has its entry. */
  ghost predicate EntriesDone(commonPairs: map<string, seq<string>>, names: seq<string>, listings: seq<seq<string>>,
                              exceptionsFile: Option<map<string, seq<string>>>, i: int, j: int)
    requires |listings| == |names|
  {
    forall a, b :: 0 <= a < b < |names| && VisitedBefore(a, b, i, j) ==>
      PairDone(commonPairs, names, listings, exceptionsFile, a, b)
  }

  /**
   * Every pair visited before `(i, j)` has its entry, and there is no other
   * key. The conjunction is bound to one name so that the verifier checks
   * each use as a single fact.
   */
  ghost predicate Recorded(commonPairs: map<string, seq<string>>, names: seq<string>, listings: seq<seq<string>>,
                           exceptionsFile: Option<map<string, seq<string>>>, i: int, j: int)
  {
    var recorded := && |listings| == |names|
                    && KeysVisited(commonPairs, names, i, j)
                    && EntriesDone(commonPairs, names, listings, exceptionsFile, i, j);
    recorded
  }

  /** Recording pair `(i, j)` keeps every earlier entry and completes `(i, j)`. */
  lemma EntriesStep(commonPairs: map<string, seq<string>>, updated: map<string, seq<string>>, names: seq<string>,
                    listings: seq<seq<string>>, exceptionsFile: Option<map<string, seq<string>>>, i: int, j: int)
    requires ValidNames(names) && 0 <= i < j < |names| == |listings|
    requires EntriesDone(commonPairs, names, listings, exceptionsFile, i, j)
    requires PairDone(updated, names, listings, exceptionsFile, i, j)
    requires forall k :: k in commonPairs && k != PairKey(names[i], names[j]) ==>
               k in updated && updated[k] == commonPairs[k]
    ensures EntriesDone(updated, names, listings, exceptionsFile, i, j + 1)
  {
    forall a, b | 0 <= a < b < |names| && VisitedBefore(a, b, i, j + 1)
      ensures PairDone(updated, names, listings, exceptionsFile, a, b)
    {
      if (a, b) != (i, j) {
        PairKeysDistinct(names, a, b, i, j);
        assert PairDone(commonPairs, names, listings, exceptionsFile, a, b);
      }
    }
  }

  /** Finishing row `i` is starting row `i + 1`. */
  lemma EntriesRow(commonPairs: map<string, seq<string>>, names: seq<string>, listings: seq<seq<string>>,
                   exceptionsFile: Option<map<string, seq<string>>>, i: int)
    requires 0 <= i < |names| == |listings|
    requires EntriesDone(commonPairs, names, listings, exceptionsFile, i, |names|)
    ensures EntriesDone(commonPairs, names, listings, exceptionsFile, i + 1, i + 2)
  {
    forall a, b | 0 <= a < b < |names| && VisitedBefore(a, b, i + 1, i + 2)
      ensures PairDone(commonPairs, names, listings, exceptionsFile, a, b)
    {
      assert VisitedBefore(a, b, i, |names|);
    }
  }

  /** After the last row every pair has its entry. */
  lemma EntriesAll(commonPairs: map<string, seq<string>>, names: seq<string>, listings: seq<seq<string>>,
                   exceptionsFile: Option<map<string, seq<string>>>)
    requires |names| == |listings|
    requires EntriesDone(commonPairs, names, listings, exceptionsFile, |names|, |names| + 1)
    ensures forall a, b :: 0 <= a < b < |names| ==> PairDone(commonPairs, names, listings, exceptionsFile, a, b)
  {
    forall a, b | 0 <= a < b < |names| ensures PairDone(commonPairs, names, listings, exceptionsFile, a, b) {
      assert VisitedBefore(a, b, |names|, |names| + 1);
    }
  }

  /** Recording the entry of pair `(i, j)` moves the recorded pairs one on. */
  lemma RecordStep(commonPairs: map<string, seq<string>>, updated: map<string, seq<string>>, names: seq<string>,
                   listings: seq<seq<string>>, exceptionsFile: Option<map<string, seq<string>>>, i: int, j: int)
    requires ValidNames(names) && 0 <= i < j < |names| == |listings|
    requires Recorded(commonPairs, names, listings, exceptionsFile, i, j)
    requires updated.Keys == commonPairs.Keys + {PairKey(names[i], names[j])}
    requires PairDone(updated, names, listings, exceptionsFile, i, j)
    requires forall k :: k in commonPairs && k != PairKey(names[i], names[j]) ==>
               k in updated && updated[k] == commonPairs[k]
    ensures Recorded(updated, names, listings, exceptionsFile, i, j + 1)
  {
    KeysVisitedStep(commonPairs, updated, names, i, j);
    EntriesStep(commonPairs, updated, names, listings, exceptionsFile, i, j);
  }

  /** Nothing is recorded before the first pair. */
  lemma RecordedStart(names: seq<string>, listings: seq<seq<string>>, exceptionsFile: Option<map<string, seq<string>>>)
    requires |listings| == |names|
    ensures Recorded(map[], names, listings, exceptionsFile, 0, 1)
  {
  }

  /** What is recorded at the end of row `i` is what row `i + 1` starts from. */
  lemma RecordedRow(commonPairs: map<string, seq<string>>, names: seq<string>, listings: seq<seq<string>>,
                    exceptionsFile: Option<map<string, seq<string>>>, i: int)
    requires 0 <= i < |names|
    requires Recorded(commonPairs, names, listings, exceptionsFile, i, |names|)
    ensures Recorded(commonPairs, names, listings, exceptionsFile, i + 1, i + 2)
  {
    KeysVisitedRow(commonPairs, names, i);
    EntriesRow(commonPairs, names, listings, exceptionsFile, i);
  }

  /** After the last row every pair, and nothing else, is recorded. */
  lemma RecordedAll(commonPairs: map<string, seq<string>>, names: seq<string>, listings: seq<seq<string>>,
                    exceptionsFile: Option<map<string, seq<string>>>)
    requires Recorded(commonPairs, names, listings, exceptionsFile, |names|, |names| + 1)
    ensures forall key :: key in commonPairs <==> IsPairKey(names, key)
    ensures forall a, b :: 0 <= a < b < |names| ==> PairDone(commonPairs, names, listings, exceptionsFile, a, b)
  {
    KeysVisitedAll(commonPairs, names);
    EntriesAll(commonPairs, names, listings, exceptionsFile);
  }

  /** The entry of pair `(i, j)`, recorded into `commonPairs`. */
  method RecordPair(names: seq<string>, listings: seq<seq<string>>, exceptionsFile: Option<map<string, seq<string>>>,
                    i: int, j: int, commonPairs: map<string, seq<string>>)
    returns (updated: map<string, seq<string>>)
    requires ValidNames(names) && 0 <= i < j < |names|
    requires Recorded(commonPairs, names, listings, exceptionsFile, i, j)
    ensures Recorded(updated, names, listings, exceptionsFile, i, j + 1)
  {
    var key := PairKey(names[i], names[j]);
    var exceptions := ExceptionsFor(exceptionsFile, key);
    var common := SharedList(listings[i], listings[j], exceptions);
    updated := commonPairs[key := common];
    RecordStep(commonPairs, updated, names, listings, exceptionsFile, i, j);
  }

  /** The pairs `(i, j)`, `j > i`, of one row of `itertools.combinations`, recorded into `commonPairs`. */
  method RecordRow(names: seq<string>, listings: seq<seq<string>>, exceptionsFile: Option<map<string, seq<string>>>,
                   i: int, commonPairs: map<string, seq<string>>)
    returns (updated: map<string, seq<string>>)
    requires ValidNames(names) && 0 <= i < |names|
    requires Recorded(commonPairs, names, listings, exceptionsFile, i, i + 1)
    ensures Recorded(updated, names, listings, exceptionsFile, i, |names|)
  {
    updated := commonPairs;
    var j := i + 1;
    while j < |names|
      invariant i + 1 <= j <= |names|
      invariant Recorded(updated, names, listings, exceptionsFile, i, j)
    {
      updated := RecordPair(names, listings, exceptionsFile, i, j, updated);
      j := j + 1;
    }
  }

  /**
   * `create_common_pairs`: one entry per pair of exchanges `i < j`, keyed
   * `name_i-name_j`, holding the symbols both list minus that key's
   * exceptions. `listings[k]` is what exchange `names[k]` listed.
   */
  method CreateCommonPairs(names: seq<string>, listings: seq<seq<string>>,
                           exceptionsFile: Option<map<string, seq<string>>>)
    returns (commonPairs: map<string, seq<string>>)
    requires ValidNames(names) && |listings| == |names|
    ensures forall key :: key in commonPairs <==> IsPairKey(names, key)
    ensures forall a, b :: 0 <= a < b < |names| ==> PairDone(commonPairs, names, listings, exceptionsFile, a, b)
  {
    commonPairs := map[];
    RecordedStart(names, listings, exceptionsFile);
    var i := 0;
    while i < |names|
      invariant 0 <= i <= |names|
      invariant Recorded(commonPairs, names, listings, exceptionsFile, i, i + 1)
    {
      commonPairs := RecordRow(names, listings, exceptionsFile, i, commonPairs);
      RecordedRow(commonPairs, names, listings, exceptionsFile, i);
      i := i + 1;
    }
    RecordedAll(commonPairs, names, listings, exceptionsFile);
  }
}
