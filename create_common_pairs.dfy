/**
 * create_common_pairs.py: `parse_pair` and the matching of
 * `create_all_common_pairs`. For every pair of exchanges each raw listing
 * entry is parsed and filed under its normalized symbol, the symbols both
 * exchanges have are matched, and a match is dropped when both sides carry a
 * base that disagrees in base or quote. `utils.normalize_symbol` is not
 * defined in the repository's utils.py, so it is the parameter `normalize`;
 * the cached `get_trading_pairs` results are the parameter `cache`.
 */
module CreateCommonPairs {
  import opened Collections
  import opened Text
  import opened Pairing

  /** A raw listing entry: a dict of string fields (as Binance gives) or a plain symbol. */
  datatype RawPair = DictPair(fields: map<string, string>) | TextPair(text: string)

  /** The dict `parse_pair` returns. */
  datatype PairInfo = PairInfo(symbol: Option<string>, base: Option<string>, quote: Option<string>)

  /** `raw.get(field)`. */
  function Get(fields: map<string, string>, field: string): Option<string> {
    if field in fields then Some(fields[field]) else None
  }

  /** `parse_pair`: a dict's `symbol`, `base` and `quote` (None when missing); for a plain symbol, no base or quote. */
  function ParsePair(raw: RawPair): (info: PairInfo)
    ensures raw.DictPair? ==> (info.symbol.Some? <==> "symbol" in raw.fields) && (info.base.Some? <==> "base" in raw.fields)
                              && (info.quote.Some? <==> "quote" in raw.fields)
    ensures raw.DictPair? && info.symbol.Some? ==> info.symbol.value == raw.fields["symbol"]
    ensures raw.DictPair? && info.base.Some? ==> info.base.value == raw.fields["base"]
    ensures raw.DictPair? && info.quote.Some? ==> info.quote.value == raw.fields["quote"]
    ensures raw.TextPair? ==> info == PairInfo(Some(raw.text), None, None)
  {
    match raw
    case DictPair(fields) => PairInfo(Get(fields, "symbol"), Get(fields, "base"), Get(fields, "quote"))
    case TextPair(text) => PairInfo(Some(text), None, None)
  }

  /** The key an entry is filed under: `normalize_symbol(parse_pair(sym, name)["symbol"], name)`. */
  function KeyOf(raw: RawPair, name: string, normalize: (Option<string>, string) -> string): string {
    normalize(ParsePair(raw).symbol, name)
  }

  /**
   * The dict comprehension of lines 70-71: each entry filed under its
   * normalized key, a later entry replacing an earlier one with the same key.
   */
  function Mapping(pairs: seq<RawPair>, name: string, normalize: (Option<string>, string) -> string): (m: map<string, PairInfo>)
    ensures pairs == [] ==> m == map[]
  {
    if pairs == [] then map[]
    else
      var n := |pairs| - 1;
      Mapping(pairs[..n], name, normalize)[KeyOf(pairs[n], name, normalize) := ParsePair(pairs[n])]
  }

  /** `pairs[i]` is the last entry filed under `k`. */
  ghost predicate LastWithKey(pairs: seq<RawPair>, name: string, normalize: (Option<string>, string) -> string,
                              k: string, i: int) {
    0 <= i < |pairs| && KeyOf(pairs[i], name, normalize) == k
    && forall j :: i < j < |pairs| ==> KeyOf(pairs[j], name, normalize) != k
  }

  /** Every entry's key is present. */
  lemma {:induction false} MappingKeys(pairs: seq<RawPair>, name: string, normalize: (Option<string>, string) -> string)
    ensures forall i :: 0 <= i < |pairs| ==> KeyOf(pairs[i], name, normalize) in Mapping(pairs, name, normalize)
  {
    if pairs != [] {
      var n := |pairs| - 1;
      MappingKeys(pairs[..n], name, normalize);
      assert forall i :: 0 <= i < n ==> pairs[..n][i] == pairs[i];
    }
  }

  /** Each key holds the last entry filed under it. */
  lemma {:induction false} MappingLastWins(pairs: seq<RawPair>, name: string, normalize: (Option<string>, string) -> string)
    ensures forall k :: k in Mapping(pairs, name, normalize) ==>
              exists i :: LastWithKey(pairs, name, normalize, k, i) && Mapping(pairs, name, normalize)[k] == ParsePair(pairs[i])
  {
    if pairs != [] {
      var n := |pairs| - 1;
      var front := pairs[..n];
      MappingLastWins(front, name, normalize);
      var m := Mapping(pairs, name, normalize);
      var last := KeyOf(pairs[n], name, normalize);
      assert m == Mapping(front, name, normalize)[last := ParsePair(pairs[n])];
      forall k | k in m
        ensures exists i :: LastWithKey(pairs, name, normalize, k, i) && m[k] == ParsePair(pairs[i])
      {
        if k != last {
          assert k in Mapping(front, name, normalize);
          var i :| LastWithKey(front, name, normalize, k, i) && Mapping(front, name, normalize)[k] == ParsePair(front[i]);
          assert front[i] == pairs[i];
          forall j | i < j < |pairs| ensures KeyOf(pairs[j], name, normalize) != k {
            if j < n { assert front[j] == pairs[j]; }
          }
          assert LastWithKey(pairs, name, normalize, k, i);
        } else {
          assert LastWithKey(pairs, name, normalize, k, n);
        }
      }
    }
  }

  /** Line 79-82: a match is kept unless both sides have a truthy base and base or quote differ. */
  predicate Compatible(info1: PairInfo, info2: PairInfo) {
    (info1.base.Some? && Truthy(info1.base.value) && info2.base.Some? && Truthy(info2.base.value)) ==>
      info1.base == info2.base && info1.quote == info2.quote
  }

  /** One element of `common_list`: `(info1["symbol"], info2["symbol"], norm)`. */
  datatype Match = Match(symbol1: Option<string>, symbol2: Option<string>, normalized: string)

  /** The matches of two mappings: keys in both, compatible, each carrying both sides' original symbols. */
  ghost predicate MatchesOf(list: seq<Match>, mapping1: map<string, PairInfo>, mapping2: map<string, PairInfo>) {
    && (forall a, b :: 0 <= a < b < |list| ==> list[a].normalized != list[b].normalized)
    && (forall t :: t in list ==>
          && t.normalized in mapping1 && t.normalized in mapping2
          && Compatible(mapping1[t.normalized], mapping2[t.normalized])
          && t.symbol1 == mapping1[t.normalized].symbol && t.symbol2 == mapping2[t.normalized].symbol)
    && (forall k :: k in mapping1 && k in mapping2 && Compatible(mapping1[k], mapping2[k]) ==>
          exists t :: t in list && t.normalized == k)
  }

  /** Lines 73-83: the loop over the common normalized keys, in set order. */
  method MatchPairs(mapping1: map<string, PairInfo>, mapping2: map<string, PairInfo>) returns (list: seq<Match>)
    ensures MatchesOf(list, mapping1, mapping2)
  {
    var commonNorm := mapping1.Keys * mapping2.Keys;
    list := [];
    var rest := commonNorm;
    while rest != {}
      invariant rest <= commonNorm
      invariant forall a, b :: 0 <= a < b < |list| ==> list[a].normalized != list[b].normalized
      invariant forall t :: t in list ==>
                  && t.normalized in commonNorm && t.normalized !in rest
                  && Compatible(mapping1[t.normalized], mapping2[t.normalized])
                  && t.symbol1 == mapping1[t.normalized].symbol && t.symbol2 == mapping2[t.normalized].symbol
      invariant forall k :: k in commonNorm && k !in rest && Compatible(mapping1[k], mapping2[k]) ==>
                  exists t :: t in list && t.normalized == k
      decreases |rest|
    {
      var norm :| norm in rest;
      var info1 := mapping1[norm];
      var info2 := mapping2[norm];
      var keep := true;
      if info1.base.Some? && Truthy(info1.base.value) && info2.base.Some? && Truthy(info2.base.value) {
        if info1.base != info2.base || info1.quote != info2.quote {
          keep := false;
        }
      }
      if keep {
        var t := Match(info1.symbol, info2.symbol, norm);
        assert t in list + [t];
        list := list + [t];
      }
      rest := rest - {norm};
    }
  }

  /** `trading_pairs_cache.get(name, [])`. */
  function Cached(cache: map<string, seq<RawPair>>, name: string): (pairs: seq<RawPair>)
    ensures name !in cache ==> pairs == []
  {
    if name in cache then cache[name] else []
  }

  /** The entry for exchanges `(a, b)` of `create_all_common_pairs` is present and right. */
  ghost predicate PairDone(all: map<string, seq<Match>>, names: seq<string>, cache: map<string, seq<RawPair>>,
                           normalize: (Option<string>, string) -> string, a: int, b: int)
    requires 0 <= a < b < |names|
  {
    var key := PairKey(names[a], names[b]);
    && key in all
    && MatchesOf(all[key], Mapping(Cached(cache, names[a]), names[a], normalize),
                 Mapping(Cached(cache, names[b]), names[b], normalize))
  }

  /** Every pair visited before `(i, j)` has its entry. */
  ghost predicate EntriesDone(all: map<string, seq<Match>>, names: seq<string>, cache: map<string, seq<RawPair>>, normalize: (Option<string>, string) -> string, i: int, j: int) {
    forall a, b :: 0 <= a < b < |names| && VisitedBefore(a, b, i, j) ==> PairDone(all, names, cache, normalize, a, b)
  }

  /**
   * Every pair visited before `(i, j)` has its entry, and there is no other
   * key. The conjunction is bound to one name so that the verifier checks
   * each use as a single fact.
   */
  ghost predicate Recorded(all: map<string, seq<Match>>, names: seq<string>, cache: map<string, seq<RawPair>>, normalize: (Option<string>, string) -> string, i: int, j: int) {
    var recorded := KeysVisited(all, names, i, j) && EntriesDone(all, names, cache, normalize, i, j);
    recorded
  }

  /** Nothing is recorded before the first pair. */
  lemma RecordedStart(names: seq<string>, cache: map<string, seq<RawPair>>, normalize: (Option<string>, string) -> string)
    ensures Recorded(map[], names, cache, normalize, 0, 1)
  {
  }

  /** Recording pair `(i, j)` keeps every earlier entry and completes `(i, j)`. */
  lemma EntriesStep(all: map<string, seq<Match>>, updated: map<string, seq<Match>>, names: seq<string>, cache: map<string, seq<RawPair>>, normalize: (Option<string>, string) -> string, i: int, j: int)
    requires ValidNames(names) && 0 <= i < j < |names|
    requires EntriesDone(all, names, cache, normalize, i, j)
    requires PairDone(updated, names, cache, normalize, i, j)
    requires forall k :: k in all && k != PairKey(names[i], names[j]) ==> k in updated && updated[k] == all[k]
    ensures EntriesDone(updated, names, cache, normalize, i, j + 1)
  {
    forall a, b | 0 <= a < b < |names| && VisitedBefore(a, b, i, j + 1)
      ensures PairDone(updated, names, cache, normalize, a, b)
    {
      if (a, b) != (i, j) {
        PairKeysDistinct(names, a, b, i, j);
        assert PairDone(all, names, cache, normalize, a, b);
      }
    }
  }

  /** Recording the entry of pair `(i, j)` moves the recorded pairs one on. */
  lemma RecordStep(all: map<string, seq<Match>>, updated: map<string, seq<Match>>, names: seq<string>, cache: map<string, seq<RawPair>>, normalize: (Option<string>, string) -> string, i: int, j: int)
    requires ValidNames(names) && 0 <= i < j < |names|
    requires Recorded(all, names, cache, normalize, i, j)
    requires updated.Keys == all.Keys + {PairKey(names[i], names[j])}
    requires PairDone(updated, names, cache, normalize, i, j)
    requires forall k :: k in all && k != PairKey(names[i], names[j]) ==> k in updated && updated[k] == all[k]
    ensures Recorded(updated, names, cache, normalize, i, j + 1)
  {
    KeysVisitedStep(all, updated, names, i, j);
    EntriesStep(all, updated, names, cache, normalize, i, j);
  }

  /** What is recorded at the end of row `i` is what row `i + 1` starts from. */
  lemma RecordedRow(all: map<string, seq<Match>>, names: seq<string>, cache: map<string, seq<RawPair>>, normalize: (Option<string>, string) -> string, i: int)
    requires 0 <= i < |names|
    requires Recorded(all, names, cache, normalize, i, |names|)
    ensures Recorded(all, names, cache, normalize, i + 1, i + 2)
  {
    KeysVisitedRow(all, names, i);
    forall a, b | 0 <= a < b < |names| && VisitedBefore(a, b, i + 1, i + 2)
      ensures PairDone(all, names, cache, normalize, a, b)
    {
      assert VisitedBefore(a, b, i, |names|);
    }
  }

  /** After the last row every pair, and nothing else, is recorded. */
  lemma RecordedAll(all: map<string, seq<Match>>, names: seq<string>, cache: map<string, seq<RawPair>>, normalize: (Option<string>, string) -> string)
    requires Recorded(all, names, cache, normalize, |names|, |names| + 1)
    ensures forall key :: key in all <==> IsPairKey(names, key)
    ensures forall a, b :: 0 <= a < b < |names| ==> PairDone(all, names, cache, normalize, a, b)
  {
    KeysVisitedAll(all, names);
    forall a, b | 0 <= a < b < |names| ensures PairDone(all, names, cache, normalize, a, b) {
      assert VisitedBefore(a, b, |names|, |names| + 1);
    }
  }

  /** The matches of exchanges `(i, j)`, recorded into `all`. */
  method MatchPair(names: seq<string>, cache: map<string, seq<RawPair>>, normalize: (Option<string>, string) -> string, i: int, j: int, all: map<string, seq<Match>>)
    returns (updated: map<string, seq<Match>>)
    requires ValidNames(names) && 0 <= i < j < |names|
    requires Recorded(all, names, cache, normalize, i, j)
    ensures Recorded(updated, names, cache, normalize, i, j + 1)
  {
    var name1, name2 := names[i], names[j];
    var mapping1 := Mapping(Cached(cache, name1), name1, normalize);
    var mapping2 := Mapping(Cached(cache, name2), name2, normalize);
    var commonList := MatchPairs(mapping1, mapping2);
    updated := all[PairKey(name1, name2) := commonList];
    RecordStep(all, updated, names, cache, normalize, i, j);
  }

  /** One row `i` of `itertools.combinations(EXCHANGE_OPTIONS.items(), 2)`. */
  method MatchRow(names: seq<string>, cache: map<string, seq<RawPair>>, normalize: (Option<string>, string) -> string, i: int, all: map<string, seq<Match>>)
    returns (updated: map<string, seq<Match>>)
    requires ValidNames(names) && 0 <= i < |names|
    requires Recorded(all, names, cache, normalize, i, i + 1)
    ensures Recorded(updated, names, cache, normalize, i, |names|)
  {
    updated := all;
    var j := i + 1;
    while j < |names|
      invariant i + 1 <= j <= |names|
      invariant Recorded(updated, names, cache, normalize, i, j)
    {
      updated := MatchPair(names, cache, normalize, i, j, updated);
      j := j + 1;
    }
  }

  /**
   * The matching of `create_all_common_pairs`: one list per pair of
   * exchanges `i < j` of `EXCHANGE_OPTIONS`, keyed `name_i-name_j`.
   */
  method CreateAllCommonPairs(names: seq<string>, cache: map<string, seq<RawPair>>, normalize: (Option<string>, string) -> string)
    returns (all: map<string, seq<Match>>)
    requires ValidNames(names)
    ensures forall key :: key in all <==> IsPairKey(names, key)
    ensures forall a, b :: 0 <= a < b < |names| ==> PairDone(all, names, cache, normalize, a, b)
  {
    all := map[];
    RecordedStart(names, cache, normalize);
    var i := 0;
    while i < |names|
      invariant 0 <= i <= |names|
      invariant Recorded(all, names, cache, normalize, i, i + 1)
    {
      all := MatchRow(names, cache, normalize, i, all);
      RecordedRow(all, names, cache, normalize, i);
      i := i + 1;
    }
    RecordedAll(all, names, cache, normalize);
  }
}
