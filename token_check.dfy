/**
 * token_check.py: `search_token` and the numbered choice of `main`. The coin
 * list CoinGecko returns, the query and the choice the user typed (both
 * already stripped of surrounding whitespace) are parameters; the ticker
 * listing printed afterwards is output only.
 */
module TokenCheck {
  import opened Collections
  import opened Text

  /** One entry of the decoded coin list. */
  datatype Coin = Coin(id: string, name: string, symbol: string)

  /**
   * `search_token`: the coins whose symbol equals the lower-cased query, in
   * list order. Only the query is lower-cased, so a coin whose own symbol has
   * an upper-case letter is never found.
   */
  function SearchToken(query: string, coins: seq<Coin>): (matches: seq<Coin>)
    ensures forall c :: c in matches <==> c in coins && c.symbol == Lower(query)
    ensures |matches| <= |coins|
    ensures forall c :: c in matches ==> NoUpperAscii(c.symbol)
  {
    if coins == [] then []
    else (if coins[0].symbol == Lower(query) then [coins[0]] else []) + SearchToken(query, coins[1..])
  }

  /** The search distributes over concatenation, so it keeps the order of the list. */
  lemma {:induction false} SearchTokenAppend(query: string, a: seq<Coin>, b: seq<Coin>)
    ensures SearchToken(query, a + b) == SearchToken(query, a) + SearchToken(query, b)
  {
    if a == [] {
      assert a + b == b;
    } else {
      assert (a + b)[1..] == a[1..] + b;
      SearchTokenAppend(query, a[1..], b);
    }
  }

  predicate IsDigit(c: char) { '0' <= c <= '9' }

  function DigitValue(c: char): nat
    requires IsDigit(c)
  {
    c as int - '0' as int
  }

  /** Digits with single underscores between them, as `int()` accepts after the sign. */
  predicate WellFormedDigits(s: string) {
    && |s| > 0 && IsDigit(s[0]) && IsDigit(s[|s| - 1])
    && (forall i :: 0 <= i < |s| ==> IsDigit(s[i]) || s[i] == '_')
    && (forall i :: 0 <= i < |s| - 1 ==> IsDigit(s[i]) || IsDigit(s[i + 1]))
  }

  /** The decimal value of the digits of `s`, underscores skipped. */
  function DigitsValue(s: string): nat {
    if s == [] then 0
    else
      var n := |s| - 1;
      if IsDigit(s[n]) then DigitsValue(s[..n]) * 10 + DigitValue(s[n]) else DigitsValue(s[..n])
  }

  /** Python's `int(s)` on a decimal string: `None` where it raises ValueError. */
  function ParseInt(s: string): (r: Option<int>)
    ensures r.Some? ==> |s| > 0 && (s[0] != '-' ==> r.value >= 0)
  {
    if |s| > 0 && (s[0] == '+' || s[0] == '-') then
      if WellFormedDigits(s[1..]) then
        var v: int := DigitsValue(s[1..]);
        Some(if s[0] == '-' then -v else v)
      else None
    else if WellFormedDigits(s) then Some(DigitsValue(s))
    else None
  }

  /** A character other than a digit, an underscore or a leading sign makes `int()` fail. */
  lemma ParseIntRejects(s: string, i: int)
    requires 0 <= i < |s| && !IsDigit(s[i]) && s[i] != '_'
    requires i > 0 || (s[i] != '+' && s[i] != '-')
    ensures ParseInt(s) == None
  {
    if |s| > 0 && (s[0] == '+' || s[0] == '-') {
      assert s[1..][i - 1] == s[i];
    }
  }

  /** The decimal digits of `n`, most significant first. */
  function NatDigits(n: nat): (r: string)
    ensures |r| > 0 && forall i :: 0 <= i < |r| ==> IsDigit(r[i])
  {
    var d := ['0' + (n % 10) as char];
    if n < 10 then d else NatDigits(n / 10) + d
  }

  /** The decimal text of `k`, as `str(k)` writes it. */
  function ShowInt(k: int): string {
    if k < 0 then "-" + NatDigits(-k) else NatDigits(k)
  }

  lemma {:induction false} NatDigitsValue(n: nat)
    ensures WellFormedDigits(NatDigits(n))
    ensures DigitsValue(NatDigits(n)) == n
  {
    var s := NatDigits(n);
    var d := ['0' + (n % 10) as char];
    if n >= 10 {
      NatDigitsValue(n / 10);
      assert s[..|s| - 1] == NatDigits(n / 10);
    } else {
      assert s[..0] == [];
    }
  }

  /** `int(str(k)) == k`: the choice the user types as a number is read back as that number. */
  lemma ParseShowRoundTrip(k: int)
    ensures ParseInt(ShowInt(k)) == Some(k)
  {
    if k < 0 {
      NatDigitsValue(-k);
      assert ShowInt(k)[1..] == NatDigits(-k);
    } else {
      NatDigitsValue(k);
    }
  }

  /** Python's `s[i]`: a negative index counts from the end, anything else out of range raises IndexError. */
  function PyIndex<T>(s: seq<T>, i: int): (r: Option<T>)
    ensures r.Some? <==> -|s| <= i < |s|
    ensures 0 <= i < |s| ==> r == Some(s[i])
    ensures -|s| <= i < 0 ==> r == Some(s[|s| + i])
  {
    if 0 <= i < |s| then Some(s[i])
    else if -|s| <= i < 0 then Some(s[|s| + i])
    else None
  }

  /** How `main` ends before fetching tickers, or the coin it goes on with. */
  datatype Choice = NoMatches | InvalidChoice | Selected(coin: Coin)

  /** `main` up to `selected = matches[int(choice) - 1]`. */
  function ChooseToken(query: string, coins: seq<Coin>, choice: string): (r: Choice)
    ensures r == NoMatches <==> SearchToken(query, coins) == []
    ensures r.Selected? ==> r.coin in coins && r.coin.symbol == Lower(query)
    ensures ParseInt(choice).None? && r != NoMatches ==> r == InvalidChoice
  {
    var matches := SearchToken(query, coins);
    if matches == [] then NoMatches
    else match ParseInt(choice)
      case None => InvalidChoice
      case Some(v) =>
        match PyIndex(matches, v - 1)
        case None => InvalidChoice
        case Some(c) => Selected(c)
  }

  /**
   * Typing `k`: 1..n picks the k-th match; 0 and the negatives down to
   * -n+1 pick from the end (0 the last match); above n or at most -n is
   * rejected.
   */
  lemma ChoiceSelection(query: string, coins: seq<Coin>, k: int)
    requires SearchToken(query, coins) != []
    ensures var matches := SearchToken(query, coins);
      && (1 <= k <= |matches| ==> ChooseToken(query, coins, ShowInt(k)) == Selected(matches[k - 1]))
      && (k == 0 ==> ChooseToken(query, coins, ShowInt(k)) == Selected(matches[|matches| - 1]))
      && (-|matches| < k <= 0 ==> ChooseToken(query, coins, ShowInt(k)) == Selected(matches[|matches| + k - 1]))
      && (k > |matches| || k <= -|matches| ==> ChooseToken(query, coins, ShowInt(k)) == InvalidChoice)
  {
    ParseShowRoundTrip(k);
  }
}
