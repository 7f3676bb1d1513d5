/**
 * historic_test.py: `normalize_symbol` and `get_common_assets`, the symbols
 * every exchange of the loaded assets file lists once normalized. The
 * decoded file is a parameter: the symbol lists of its exchanges, in order.
 */
module Historic {
  import opened Text

  /** `symbol.replace('-', '/').upper()`. */
  function NormalizeSymbol(symbol: string): (r: string)
    ensures |r| == |symbol|
    ensures '-' !in r
    ensures NoLowerAscii(r)
    ensures forall i :: 0 <= i < |symbol| ==> r[i] == UpperChar(if symbol[i] == '-' then '/' else symbol[i])
  {
    Upper(ReplaceChar(symbol, '-', '/'))
  }

  /** A normalized symbol is its own normalization. */
  lemma NormalizeIdempotent(symbol: string)
    ensures NormalizeSymbol(NormalizeSymbol(symbol)) == NormalizeSymbol(symbol)
  {
    var once := NormalizeSymbol(symbol);
    var twice := NormalizeSymbol(once);
    forall i | 0 <= i < |once| ensures twice[i] == once[i] {
      assert ReplaceChar(once, '-', '/')[i] == once[i];
    }
  }

  /** The normalized set of one exchange's symbols (line 43). */
  function NormalizedSet(symbols: seq<string>): (r: set<string>)
    ensures forall s :: s in symbols ==> NormalizeSymbol(s) in r
    ensures forall n :: n in r ==> exists s :: s in symbols && NormalizeSymbol(s) == n
  {
    set s | s in symbols :: NormalizeSymbol(s)
  }

  /**
   * `get_common_assets`: the normalized symbols every exchange lists; the
   * empty set when the file has no exchange.
   */
  method GetCommonAssets(assets: seq<seq<string>>) returns (common: set<string>)
    ensures |assets| == 0 ==> common == {}
    ensures |assets| > 0 ==> forall n :: n in common <==> forall k :: 0 <= k < |assets| ==> n in NormalizedSet(assets[k])
  {
    var allSets: seq<set<string>> := [];
    var k := 0;
    while k < |assets|
      invariant 0 <= k <= |assets|
      invariant |allSets| == k
      invariant forall m :: 0 <= m < k ==> allSets[m] == NormalizedSet(assets[m])
    {
      allSets := allSets + [NormalizedSet(assets[k])];
      k := k + 1;
    }
    if |allSets| == 0 {
      return {};
    }
    common := allSets[0];
    var m := 1;
    while m < |allSets|
      invariant 1 <= m <= |allSets|
      invariant forall n :: n in common <==> forall j :: 0 <= j < m ==> n in allSets[j]
    {
      common := common * allSets[m];
      m := m + 1;
    }
  }

  /** The common assets are a subset of every exchange's normalized symbols; one empty exchange empties them. */
  lemma CommonAssetsBounded(assets: seq<seq<string>>, common: set<string>)
    requires |assets| > 0
    requires forall n :: n in common <==> forall k :: 0 <= k < |assets| ==> n in NormalizedSet(assets[k])
    ensures forall k :: 0 <= k < |assets| ==> common <= NormalizedSet(assets[k])
    ensures (exists k :: 0 <= k < |assets| && assets[k] == []) ==> common == {}
  {
    if exists k :: 0 <= k < |assets| && assets[k] == [] {
      var k :| 0 <= k < |assets| && assets[k] == [];
      assert NormalizedSet(assets[k]) == {};
    }
  }
}
