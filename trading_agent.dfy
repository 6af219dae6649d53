/** The deterministic parts of the generic trading agent (trading_agent.py):
    reading a symbol and an exchange out of a free-text query with four
    prioritised rules, the `EXCHANGE:SYMBOL` instrument key, and the checks made
    on a quote response. Quotes themselves come from a language-model run and
    are an oracle here. */
module TradingAgent {
  import opened Common

  // ---------------------------------------------------------------------
  // Character classes and runs

  /** The class [A-Z0-9&\-] of a symbol. */
  predicate SymChar(c: char) {
    ('A' <= c <= 'Z') || ('0' <= c <= '9') || c == '&' || c == '-'
  }

  /** A non-empty string over [A-Z0-9&\-]. */
  predicate IsSymbolText(s: string) {
    |s| > 0 && forall i :: 0 <= i < |s| ==> SymChar(s[i])
  }

  const Exchanges: set<string> := {"NSE", "BSE", "NFO", "MCX"}

  /** The group (NSE|BSE|NFO|MCX) matches at i. */
  predicate ExchangeAt(u: string, i: nat) {
    i + 3 <= |u| && u[i..i + 3] in Exchanges
  }

  /** Length of the greedy run [A-Z0-9&\-]* starting at i. */
  function SymRun(u: string, i: nat): (n: nat)
    requires i <= |u|
    ensures i + n <= |u|
    ensures forall k :: i <= k < i + n ==> SymChar(u[k])
    ensures i + n == |u| || !SymChar(u[i + n])
    decreases |u| - i
  {
    if i < |u| && SymChar(u[i]) then 1 + SymRun(u, i + 1) else 0
  }

  /** Length of the greedy run \s* starting at i. */
  function SpaceRun(u: string, i: nat): (n: nat)
    requires i <= |u|
    ensures i + n <= |u|
    ensures forall k :: i <= k < i + n ==> PyIsSpace(u[k])
    ensures i + n == |u| || !PyIsSpace(u[i + n])
    decreases |u| - i
  {
    if i < |u| && PyIsSpace(u[i]) then 1 + SpaceRun(u, i + 1) else 0
  }

  // ---------------------------------------------------------------------
  // The three patterns, each tried at one position. No character of the
  // symbol class is whitespace and no keyword starts with whitespace, so every
  // greedy run below is the only one that can lead to a match: backtracking
  // into a shorter run never succeeds, and the match at a position is unique.

  datatype SymbolMatch = SymbolMatch(symbol: string, exchange: string)

  /** (NSE|BSE|NFO|MCX):([A-Z0-9&\-]+) at p. */
  function ColonRuleAt(u: string, p: nat): Option<SymbolMatch>
    requires p <= |u|
  {
    if ExchangeAt(u, p) && p + 3 < |u| && u[p + 3] == ':' && SymRun(u, p + 4) > 0 then
      Some(SymbolMatch(u[p + 4..p + 4 + SymRun(u, p + 4)], u[p..p + 3]))
    else None
  }

  /** Position just after ON, AT or TRADED\s+AT at k, if one of them is there. */
  function KeywordEnd(u: string, k: nat): (m: Option<nat>)
    requires k <= |u|
    ensures m.Some? ==> k + 2 <= m.value <= |u|
  {
    if OccursAt(u, "ON", k) || OccursAt(u, "AT", k) then Some(k + 2)
    else if OccursAt(u, "TRADED", k) then
      var w := SpaceRun(u, k + 6);
      if w > 0 && OccursAt(u, "AT", k + 6 + w) then Some(k + 6 + w + 2) else None
    else None
  }

  /** \s+(?:ON|AT|TRADED\s+AT)\s+(NSE|BSE|NFO|MCX) at q: the exchange, if it matches. */
  function KeywordExchangeAt(u: string, q: nat): Option<string>
    requires q <= |u|
  {
    var w := SpaceRun(u, q);
    if w == 0 then None
    else match KeywordEnd(u, q + w)
      case None => None
      case Some(m) =>
        var w2 := SpaceRun(u, m);
        if w2 > 0 && ExchangeAt(u, m + w2) then Some(u[m + w2..m + w2 + 3]) else None
  }

  /** ([A-Z0-9&\-]+)\s+(?:ON|AT|TRADED\s+AT)\s+(NSE|BSE|NFO|MCX) at p. */
  function OnAtRuleAt(u: string, p: nat): Option<SymbolMatch>
    requires p <= |u|
  {
    var n := SymRun(u, p);
    if n == 0 then None
    else match KeywordExchangeAt(u, p + n)
      case None => None
      case Some(e) => Some(SymbolMatch(u[p..p + n], e))
  }

  /** (NSE|BSE|NFO|MCX)\s+([A-Z0-9&\-]+) at p. */
  function ExchangeFirstRuleAt(u: string, p: nat): Option<SymbolMatch>
    requires p <= |u|
  {
    if !ExchangeAt(u, p) then None
    else
      var w := SpaceRun(u, p + 3);
      var n := SymRun(u, p + 3 + w);
      if w > 0 && n > 0 then Some(SymbolMatch(u[p + 3 + w..p + 3 + w + n], u[p..p + 3])) else None
  }

  datatype Rule = ColonRule | OnAtRule | ExchangeFirstRule

  function RuleAt(r: Rule, u: string, p: nat): (m: Option<SymbolMatch>)
    requires p <= |u|
    ensures m.Some? ==> m.value.exchange in Exchanges && IsSymbolText(m.value.symbol)
  {
    match r
    case ColonRule => ColonRuleAt(u, p)
    case OnAtRule => OnAtRuleAt(u, p)
    case ExchangeFirstRule => ExchangeFirstRuleAt(u, p)
  }

  /** `re.search` from position p: the match at the leftmost position that has one. */
  function Search(r: Rule, u: string, p: nat): (m: Option<SymbolMatch>)
    requires p <= |u|
    ensures m.Some? ==> m.value.exchange in Exchanges && IsSymbolText(m.value.symbol)
    decreases |u| - p
  {
    if RuleAt(r, u, p).Some? then RuleAt(r, u, p)
    else if p == |u| then None
    else Search(r, u, p + 1)
  }

  /** The rule matches at no position from p on. */
  ghost predicate NoMatchFrom(r: Rule, u: string, p: nat)
    requires p <= |u|
  {
    forall q :: p <= q <= |u| ==> RuleAt(r, u, q).None?
  }

  lemma NoMatchFromStep(r: Rule, u: string, p: nat)
    requires p < |u|
    ensures NoMatchFrom(r, u, p) <==> RuleAt(r, u, p).None? && NoMatchFrom(r, u, p + 1)
  {
  }

  /** Search finds nothing exactly when the rule matches at no position. */
  lemma {:induction false} SearchNoneIff(r: Rule, u: string, p: nat)
    requires p <= |u|
    ensures Search(r, u, p).None? <==> NoMatchFrom(r, u, p)
    decreases |u| - p
  {
    if p < |u| {
      NoMatchFromStep(r, u, p);
      if RuleAt(r, u, p).None? {
        SearchNoneIff(r, u, p + 1);
      }
    }
  }

  /** What Search finds is the match at the leftmost matching position. */
  lemma {:induction false} SearchLeftmost(r: Rule, u: string, p: nat)
    requires p <= |u| && Search(r, u, p).Some?
    ensures exists q :: Leftmost(r, u, p, q)
    decreases |u| - p
  {
    if RuleAt(r, u, p).Some? {
      assert Leftmost(r, u, p, p);
    } else {
      SearchLeftmost(r, u, p + 1);
      var q :| p + 1 <= q <= |u| && RuleAt(r, u, q) == Search(r, u, p + 1)
        && forall q' :: p + 1 <= q' < q ==> RuleAt(r, u, q').None?;
      assert Search(r, u, p) == Search(r, u, p + 1);
      assert Leftmost(r, u, p, q);
    }
  }

  /** q is the first position from p where the rule matches, with Search's result. */
  ghost predicate Leftmost(r: Rule, u: string, p: nat, q: nat)
    requires p <= |u|
  {
    && p <= q <= |u| && RuleAt(r, u, q) == Search(r, u, p)
    && forall q' :: p <= q' < q ==> RuleAt(r, u, q').None?
  }

  // ---------------------------------------------------------------------
  // The fallback table

  const KnownSymbols: seq<string> := [
    "RELIANCE", "TCS", "INFY", "HDFC", "ICICI", "SBI", "ITC",
    "HDFCBANK", "BHARTIARTL", "KOTAKBANK", "LT", "ASIANPAINT",
    "MARUTI", "TITAN", "NESTLEIND", "ULTRACEMCO", "BAJFINANCE",
    "SENSEX", "NIFTY"]

  lemma KnownSymbolsAreSymbolText()
    ensures forall i :: 0 <= i < |KnownSymbols| ==> IsSymbolText(KnownSymbols[i])
  {
  }

  /** The first entry of `syms` that occurs in u. */
  function FirstKnown(u: string, syms: seq<string>): (r: Option<string>)
    ensures r.None? <==> forall i :: 0 <= i < |syms| ==> !Contains(u, syms[i])
    ensures r.Some? ==>
      exists i :: 0 <= i < |syms| && syms[i] == r.value && Contains(u, syms[i])
        && forall j :: 0 <= j < i ==> !Contains(u, syms[j])
  {
    if |syms| == 0 then None
    else if Contains(u, syms[0]) then Some(syms[0])
    else
      var r := FirstKnown(u, syms[1..]);
      assert forall i :: 0 <= i < |syms| - 1 ==> syms[1..][i] == syms[i + 1];
      r
  }

  // ---------------------------------------------------------------------
  // parse_symbol_from_query and format_instrument_key

  /** Pattern 4: the first known symbol occurring in u, on NSE. */
  function KnownSymbolFallback(u: string): (m: Option<SymbolMatch>)
    ensures m.Some? ==> m.value.exchange == "NSE" && IsSymbolText(m.value.symbol)
    ensures m.None? <==> forall i :: 0 <= i < |KnownSymbols| ==> !Contains(u, KnownSymbols[i])
  {
    match FirstKnown(u, KnownSymbols)
    case None => None
    case Some(s) =>
      KnownSymbolsAreSymbolText();
      Some(SymbolMatch(s, "NSE"))
  }

  /** The four rules in priority order over the upper-cased query. The source
      returns the pair (None, None) when nothing matches; here that is None. */
  function ParseSymbolFromQuery(query: string): (m: Option<SymbolMatch>)
    ensures m.Some? ==> m.value.exchange in Exchanges && IsSymbolText(m.value.symbol)
    ensures m.Some? ==> IsUpperCase(m.value.symbol) && IsUpperCase(m.value.exchange)
  {
    var u := Upper(query);
    var m1 := Search(ColonRule, u, 0);
    var m2 := Search(OnAtRule, u, 0);
    var m3 := Search(ExchangeFirstRule, u, 0);
    var m := if m1.Some? then m1 else if m2.Some? then m2 else if m3.Some? then m3
             else KnownSymbolFallback(u);
    if m.Some? then
      SymbolTextIsUpperCase(m.value.symbol);
      ExchangeIsUpperCase(m.value.exchange);
      m
    else m
  }

  /** Nothing is found exactly when no rule matches anywhere in the upper-cased
      query and no known symbol occurs in it. */
  lemma ParseNoneIff(query: string)
    ensures var u := Upper(query);
      ParseSymbolFromQuery(query).None? <==>
        && (forall q :: 0 <= q <= |u| ==> ColonRuleAt(u, q).None?)
        && (forall q :: 0 <= q <= |u| ==> OnAtRuleAt(u, q).None?)
        && (forall q :: 0 <= q <= |u| ==> ExchangeFirstRuleAt(u, q).None?)
        && (forall i :: 0 <= i < |KnownSymbols| ==> !Contains(u, KnownSymbols[i]))
  {
    var u := Upper(query);
    SearchNoneIff(ColonRule, u, 0);
    SearchNoneIff(OnAtRule, u, 0);
    SearchNoneIff(ExchangeFirstRule, u, 0);
    assert forall q :: 0 <= q <= |u| ==> RuleAt(ColonRule, u, q) == ColonRuleAt(u, q);
    assert forall q :: 0 <= q <= |u| ==> RuleAt(OnAtRule, u, q) == OnAtRuleAt(u, q);
    assert forall q :: 0 <= q <= |u| ==> RuleAt(ExchangeFirstRule, u, q) == ExchangeFirstRuleAt(u, q);
  }

  function FormatInstrumentKey(symbol: string, exchange: string): (k: string)
    ensures |k| == |exchange| + 1 + |symbol|
    ensures k[..|exchange|] == exchange && k[|exchange|] == ':' && k[|exchange| + 1..] == symbol
  {
    exchange + ":" + symbol
  }

  lemma {:induction false} SymRunToEnd(u: string, i: nat)
    requires i <= |u|
    requires forall k :: i <= k < |u| ==> SymChar(u[k])
    ensures SymRun(u, i) == |u| - i
    decreases |u| - i
  {
    if i < |u| {
      SymRunToEnd(u, i + 1);
    }
  }

  lemma SymbolTextIsUpperCase(s: string)
    requires IsSymbolText(s)
    ensures IsUpperCase(s)
  {
  }

  lemma ExchangeIsUpperCase(e: string)
    requires e in Exchanges
    ensures IsUpperCase(e) && |e| == 3
  {
  }

  /** An instrument key parses back to its symbol and exchange. */
  lemma ParseFormatRoundTrip(symbol: string, exchange: string)
    requires exchange in Exchanges && IsSymbolText(symbol)
    ensures ParseSymbolFromQuery(FormatInstrumentKey(symbol, exchange)) == Some(SymbolMatch(symbol, exchange))
  {
    var k := FormatInstrumentKey(symbol, exchange);
    ExchangeIsUpperCase(exchange);
    assert IsUpperCase(k) by {
      forall i | 0 <= i < |k| ensures UpperChar(k[i]) == k[i] {
        if i < 3 { assert k[i] == exchange[i]; }
        else if i > 3 { assert k[i] == symbol[i - 4]; }
      }
    }
    UpperOfUpperCase(k);
    assert k[4..] == symbol;
    SymRunToEnd(k, 4);
    assert SymRun(k, 4) == |symbol|;
    assert k[4..4 + |symbol|] == symbol;
    assert k[0..3] == exchange;
    assert ExchangeAt(k, 0) && k[3] == ':';
    assert ColonRuleAt(k, 0) == Some(SymbolMatch(symbol, exchange));
  }

  // ---------------------------------------------------------------------
  // Case handling

  lemma UpperLower(s: string)
    ensures Upper(Lower(s)) == Upper(s)
  {
    assert forall i :: 0 <= i < |s| ==> UpperChar(LowerChar(s[i])) == UpperChar(s[i]);
  }

  /** The query is upper-cased first, so its case does not matter. */
  lemma ParseIgnoresCase(query: string)
    ensures ParseSymbolFromQuery(Lower(query)) == ParseSymbolFromQuery(query)
    ensures ParseSymbolFromQuery(Upper(query)) == ParseSymbolFromQuery(query)
  {
    UpperLower(query);
    UpperIsUpperCase(query);
  }

  // ---------------------------------------------------------------------
  // The sample query of the module's main(). Its "SYMBOL ON|AT|TRADED AT
  // EXCHANGE" rule takes the token right before the keyword, which there is
  // "STOCK", not "RELIANCE".

  lemma {:induction false} SymRunExact(u: string, i: nat, n: nat)
    requires i + n <= |u|
    requires forall k :: i <= k < i + n ==> SymChar(u[k])
    requires i + n == |u| || !SymChar(u[i + n])
    ensures SymRun(u, i) == n
    decreases n
  {
    if n > 0 {
      SymRunExact(u, i + 1, n - 1);
    }
  }

  lemma {:induction false} SpaceRunOne(u: string, i: nat)
    requires i + 1 <= |u| && PyIsSpace(u[i])
    requires i + 1 == |u| || !PyIsSpace(u[i + 1])
    ensures SpaceRun(u, i) == 1
  {
    assert SpaceRun(u, i + 1) == 0;
  }

  /** ON, AT and TRADED begin with "ON", "AT" and "TR". */
  predicate KeywordStart(u: string, k: nat) {
    k + 1 < |u| && ((u[k] == 'O' && u[k + 1] == 'N') || (u[k] == 'A' && u[k + 1] == 'T')
                    || (u[k] == 'T' && u[k + 1] == 'R'))
  }

  lemma KeywordEndNeedsStart(u: string, k: nat)
    requires k <= |u| && KeywordEnd(u, k).Some?
    ensures KeywordStart(u, k)
  {
    if OccursAt(u, "ON", k) {
      assert u[k..k + 2][0] == 'O' && u[k..k + 2][1] == 'N';
    } else if OccursAt(u, "AT", k) {
      assert u[k..k + 2][0] == 'A' && u[k..k + 2][1] == 'T';
    } else {
      assert u[k..k + 6][0] == 'T' && u[k..k + 6][1] == 'R';
    }
  }

  /** Inside a word that is followed by one space and a word that is not a
      keyword, the rule cannot match. */
  lemma OnAtSkipsWord(u: string, a: nat, b: nat, p: nat)
    requires a <= p < b && b + 1 < |u|
    requires forall k :: a <= k < b ==> SymChar(u[k])
    requires PyIsSpace(u[b]) && !PyIsSpace(u[b + 1]) && !KeywordStart(u, b + 1)
    ensures OnAtRuleAt(u, p).None?
  {
    SymRunExact(u, p, b - p);
    NoKeywordAfterWord(u, b);
  }

  /** One space followed by a word that is not a keyword ends the rule. */
  lemma NoKeywordAfterWord(u: string, b: nat)
    requires b + 1 < |u|
    requires PyIsSpace(u[b]) && !PyIsSpace(u[b + 1]) && !KeywordStart(u, b + 1)
    ensures KeywordExchangeAt(u, b).None?
  {
    SpaceRunOne(u, b);
    if KeywordEnd(u, b + 1).Some? {
      KeywordEndNeedsStart(u, b + 1);
    }
  }

  /** Search returns the match at q when nothing matched from p0 up to q. */
  lemma {:induction false} SearchFindsFirst(r: Rule, u: string, p0: nat, q: nat)
    requires p0 <= q <= |u|
    requires forall p :: p0 <= p < q ==> RuleAt(r, u, p).None?
    requires RuleAt(r, u, q).Some?
    ensures Search(r, u, p0) == RuleAt(r, u, q)
    decreases q - p0
  {
    if p0 < q {
      assert RuleAt(r, u, p0).None?;
      SearchFindsFirst(r, u, p0 + 1, q);
      assert Search(r, u, p0) == Search(r, u, p0 + 1);
    }
  }

  lemma SampleQueryUpper()
    ensures Upper("Do live analysis of " + "RELIANCE stock " + "traded at NSE")
         == "DO LIVE ANALYSIS OF " + "RELIANCE STOCK " + "TRADED AT NSE"
  {
    SampleUpperPieces();
    UpperAppend("Do live analysis of ", "RELIANCE stock ");
    UpperAppend("Do live analysis of " + "RELIANCE stock ", "traded at NSE");
  }

  lemma SampleUpperPieces()
    ensures Upper("Do live analysis of ") == "DO LIVE ANALYSIS OF "
    ensures Upper("RELIANCE stock ") == "RELIANCE STOCK "
    ensures Upper("traded at NSE") == "TRADED AT NSE"
  {
    var a, b, c := "Do live analysis of ", "RELIANCE stock ", "traded at NSE";
    assert forall k :: 0 <= k < |a| ==> Upper(a)[k] == "DO LIVE ANALYSIS OF "[k];
    assert forall k :: 0 <= k < |b| ==> Upper(b)[k] == "RELIANCE STOCK "[k];
    assert forall k :: 0 <= k < |c| ==> Upper(c)[k] == "TRADED AT NSE"[k];
  }

  lemma SampleNoColonRule(u: string)
    requires u == "DO LIVE ANALYSIS OF " + "RELIANCE STOCK " + "TRADED AT NSE"
    ensures Search(ColonRule, u, 0).None?
  {
    var a, b, c := "DO LIVE ANALYSIS OF ", "RELIANCE STOCK ", "TRADED AT NSE";
    assert forall k :: 0 <= k < |a| ==> a[k] != ':';
    assert forall k :: 0 <= k < |b| ==> b[k] != ':';
    assert forall k :: 0 <= k < |c| ==> c[k] != ':';
    assert forall k :: 0 <= k < |u| ==> u[k] != ':';
    SearchNoneIff(ColonRule, u, 0);
  }

  /** In the sample, the rule fails inside each word before "STOCK" and on each
      space: every such word is followed by one space and a non-keyword. */
  lemma SampleWordSkipped(u: string, a: nat, b: nat)
    requires u == "DO LIVE ANALYSIS OF " + "RELIANCE STOCK " + "TRADED AT NSE"
    requires (a, b) in [(0, 2), (3, 7), (8, 16), (17, 19), (20, 28)]
    ensures forall p :: a <= p <= b ==> OnAtRuleAt(u, p).None?
  {
    SampleWordFacts(u, a, b);
    forall p | a <= p <= b ensures OnAtRuleAt(u, p).None? {
      if p < b { OnAtSkipsWord(u, a, b, p); }
    }
  }

  lemma SampleWordFacts(u: string, a: nat, b: nat)
    requires u == "DO LIVE ANALYSIS OF " + "RELIANCE STOCK " + "TRADED AT NSE"
    requires (a, b) in [(0, 2), (3, 7), (8, 16), (17, 19), (20, 28)]
    ensures b + 1 < |u| && forall k :: a <= k < b ==> SymChar(u[k])
    ensures PyIsSpace(u[b]) && !PyIsSpace(u[b + 1]) && !KeywordStart(u, b + 1)
  {
    assert u[b] == ' ';
  }

  lemma SampleNoEarlierOnAt(u: string)
    requires u == "DO LIVE ANALYSIS OF " + "RELIANCE STOCK " + "TRADED AT NSE"
    ensures forall p :: 0 <= p < 29 ==> RuleAt(OnAtRule, u, p).None?
  {
    SampleWordSkipped(u, 0, 2);
    SampleWordSkipped(u, 3, 7);
    SampleWordSkipped(u, 8, 16);
    SampleWordSkipped(u, 17, 19);
    SampleWordSkipped(u, 20, 28);
  }

  lemma SampleKeyword(u: string)
    requires u == "DO LIVE ANALYSIS OF " + "RELIANCE STOCK " + "TRADED AT NSE"
    ensures KeywordEnd(u, 35) == Some(44)
  {
    assert u[35] == 'T';
    assert !OccursAt(u, "ON", 35) && !OccursAt(u, "AT", 35);
    assert u[35..41] == "TRADED";
    assert u[41] == ' ' && u[42] == 'A';
    SpaceRunOne(u, 41);
    assert u[42..44] == "AT";
  }

  lemma SampleKeywordExchange(u: string)
    requires u == "DO LIVE ANALYSIS OF " + "RELIANCE STOCK " + "TRADED AT NSE"
    ensures KeywordExchangeAt(u, 34) == Some("NSE")
  {
    assert u[34] == ' ' && u[35] == 'T';
    SpaceRunOne(u, 34);
    SampleKeyword(u);
    assert u[44] == ' ' && u[45] == 'N';
    SpaceRunOne(u, 44);
    assert u[45..48] == "NSE";
  }

  lemma SampleOnAtAtStock(u: string)
    requires u == "DO LIVE ANALYSIS OF " + "RELIANCE STOCK " + "TRADED AT NSE"
    ensures OnAtRuleAt(u, 29) == Some(SymbolMatch("STOCK", "NSE"))
  {
    SampleStockFacts(u);
    SymRunExact(u, 29, 5);
    SampleKeywordExchange(u);
  }

  lemma SampleStockFacts(u: string)
    requires u == "DO LIVE ANALYSIS OF " + "RELIANCE STOCK " + "TRADED AT NSE"
    ensures 34 < |u| && (forall k :: 29 <= k < 34 ==> SymChar(u[k])) && !SymChar(u[34])
    ensures u[29..34] == "STOCK"
  {
    assert forall k :: 29 <= k < 34 ==> SymChar(u[k]);
  }

  /** The sample query "Do live analysis of RELIANCE stock traded at NSE" of
      trading_agent.py:363 parses to ("STOCK", "NSE"). */
  lemma SampleQueryYieldsStock()
    ensures ParseSymbolFromQuery("Do live analysis of " + "RELIANCE stock " + "traded at NSE")
         == Some(SymbolMatch("STOCK", "NSE"))
  {
    var u := "DO LIVE ANALYSIS OF " + "RELIANCE STOCK " + "TRADED AT NSE";
    SampleQueryUpper();
    SampleNoColonRule(u);
    SampleNoEarlierOnAt(u);
    SampleOnAtAtStock(u);
    SearchFindsFirst(OnAtRule, u, 0, 29);
  }

  // ---------------------------------------------------------------------
  // Queries without separators

  /** Every rule needs a ':' or a whitespace character in the query. */
  lemma RulesNeedSeparator(u: string, p: nat)
    requires p <= |u|
    requires forall k :: 0 <= k < |u| ==> u[k] != ':' && !PyIsSpace(u[k])
    ensures ColonRuleAt(u, p).None? && OnAtRuleAt(u, p).None? && ExchangeFirstRuleAt(u, p).None?
  {
    if p + 3 <= |u| {
      assert SpaceRun(u, p + 3) == 0;
    }
    var n := SymRun(u, p);
    assert SpaceRun(u, p + n) == 0;
  }

  /** A query with no ':' and no whitespace only goes through the symbol table. */
  lemma NoSeparatorUsesTable(query: string)
    requires IsSymbolText(query)
    ensures ParseSymbolFromQuery(query) == KnownSymbolFallback(query)
  {
    SymbolTextIsUpperCase(query);
    UpperOfUpperCase(query);
    var u := Upper(query);
    forall r, p | 0 <= p <= |u| ensures RuleAt(r, u, p).None? {
      RulesNeedSeparator(u, p);
    }
    SearchNoneIff(ColonRule, u, 0);
    SearchNoneIff(OnAtRule, u, 0);
    SearchNoneIff(ExchangeFirstRule, u, 0);
  }

  /** The first entry that occurs is the one found. */
  lemma FirstKnownAt(u: string, syms: seq<string>, n: nat)
    requires n < |syms| && Contains(u, syms[n])
    requires forall i :: 0 <= i < n ==> !Contains(u, syms[i])
    ensures FirstKnown(u, syms) == Some(syms[n])
  {
    FirstKnownSkips(u, syms, n);
    assert syms[n..][0] == syms[n];
  }

  /** Entries that do not occur are passed over. */
  lemma {:induction false} FirstKnownSkips(u: string, syms: seq<string>, n: nat)
    requires n <= |syms|
    requires forall i :: 0 <= i < n ==> !Contains(u, syms[i])
    ensures FirstKnown(u, syms) == FirstKnown(u, syms[n..])
    decreases n
  {
    if n > 0 {
      assert forall i :: 0 <= i < n - 1 ==> syms[1..][i] == syms[i + 1];
      FirstKnownSkips(u, syms[1..], n - 1);
      assert syms[1..][n - 1..] == syms[n..];
    }
  }

  lemma HdfcBankTableFacts(q: string)
    requires q == "HDFCBANK"
    ensures !Contains(q, "RELIANCE") && !Contains(q, "TCS") && !Contains(q, "INFY")
    ensures Contains(q, "HDFC")
  {
    assert forall k :: 0 <= k < |q| ==> q[k] != 'R' && q[k] != 'T' && q[k] != 'I';
    MissingFirstCharNotContained(q, "RELIANCE");
    MissingFirstCharNotContained(q, "TCS");
    MissingFirstCharNotContained(q, "INFY");
    assert q[..4] == "HDFC";
  }

  /** The table is scanned in order, so "HDFCBANK" yields "HDFC". */
  lemma TableOrderHdfcBank(q: string)
    requires q == "HDFCBANK"
    ensures ParseSymbolFromQuery(q) == Some(SymbolMatch("HDFC", "NSE"))
  {
    HdfcBankIsSymbolText(q);
    NoSeparatorUsesTable(q);
    HdfcBankFallback(q);
  }

  lemma HdfcBankIsSymbolText(q: string)
    requires q == "HDFCBANK"
    ensures IsSymbolText(q)
  {
    assert forall k :: 0 <= k < |q| ==> SymChar(q[k]);
  }

  /** RELIANCE, TCS and INFY do not occur in "HDFCBANK"; HDFC, fourth, does. */
  lemma HdfcBankFallback(q: string)
    requires q == "HDFCBANK"
    ensures KnownSymbolFallback(q) == Some(SymbolMatch("HDFC", "NSE"))
  {
    HdfcBankTableFacts(q);
    HdfcFirstKnown(q);
  }

  /** A query without the first three table entries but with HDFC finds HDFC. */
  lemma HdfcFirstKnown(q: string)
    requires !Contains(q, "RELIANCE") && !Contains(q, "TCS") && !Contains(q, "INFY")
    requires Contains(q, "HDFC")
    ensures FirstKnown(q, KnownSymbols) == Some("HDFC")
  {
    HdfcFirstKnownIn(q, KnownSymbols);
  }

  /** The same over any table that starts like the known-symbol table. */
  lemma HdfcFirstKnownIn(q: string, syms: seq<string>)
    requires |syms| >= 4 && syms[0] == "RELIANCE" && syms[1] == "TCS" && syms[2] == "INFY" && syms[3] == "HDFC"
    requires !Contains(q, "RELIANCE") && !Contains(q, "TCS") && !Contains(q, "INFY")
    requires Contains(q, "HDFC")
    ensures FirstKnown(q, syms) == Some("HDFC")
  {
    FirstKnownAt(q, syms, 3);
  }

  // ---------------------------------------------------------------------
  // Quote responses. `json.loads` is outside the model: its outcome is passed
  // in as `parsed`, None standing for a JSONDecodeError. An object is a
  // dictionary, listed in insertion order; DistinctKeys states that its keys
  // are distinct, as they are in anything `json.loads` returns.

  datatype Json =
    | JNull
    | JBool(b: bool)
    | JNumber(n: real)
    | JString(s: string)
    | JArray(items: seq<Json>)
    | JObject(members: seq<(string, Json)>)

  /** Position i holds the first occurrence of key. */
  predicate FirstKeyAt(members: seq<(string, Json)>, key: string, i: int) {
    0 <= i < |members| && members[i].0 == key && forall j :: 0 <= j < i ==> members[j].0 != key
  }

  /** `d.get(key, default)`: the value at the first occurrence of key. */
  function Get(members: seq<(string, Json)>, key: string, default: Json): (v: Json)
    ensures (forall i :: 0 <= i < |members| ==> members[i].0 != key) ==> v == default
    ensures forall i :: FirstKeyAt(members, key, i) ==> v == members[i].1
  {
    if |members| == 0 then default
    else if members[0].0 == key then members[0].1
    else
      var v := Get(members[1..], key, default);
      FirstKeyAtTail(members, key);
      v
  }

  /** Past a first member with another key, the first occurrence moves one left. */
  lemma FirstKeyAtTail(members: seq<(string, Json)>, key: string)
    requires |members| > 0 && members[0].0 != key
    ensures forall i :: FirstKeyAt(members, key, i) ==> FirstKeyAt(members[1..], key, i - 1)
    ensures (forall i :: 0 <= i < |members| - 1 ==> members[1..][i].0 != key)
      ==> forall i :: 0 <= i < |members| ==> members[i].0 != key
  {
    forall i | FirstKeyAt(members, key, i) ensures FirstKeyAt(members[1..], key, i - 1) {
      assert forall j :: 0 <= j < i - 1 ==> members[1..][j] == members[j + 1];
    }
    if forall i :: 0 <= i < |members| - 1 ==> members[1..][i].0 != key {
      forall i | 0 <= i < |members| ensures members[i].0 != key {
        if i > 0 { assert members[1..][i - 1] == members[i]; }
      }
    }
  }

  /** What `json.loads` produces: every object, at any depth, has distinct
      keys (a repeated key in the text keeps only its last value). */
  predicate DistinctKeys(j: Json) {
    match j
    case JObject(ms) =>
      && (forall i, k :: 0 <= i < k < |ms| ==> ms[i].0 != ms[k].0)
      && (forall i :: 0 <= i < |ms| ==> DistinctKeys(ms[i].1))
    case JArray(items) => forall i :: 0 <= i < |items| ==> DistinctKeys(items[i])
    case _ => true
  }

  /** With distinct keys the binding of a key is unique, so `Get` finds the
      value at whichever position holds it. */
  lemma GetDistinct(members: seq<(string, Json)>, key: string, default: Json, i: int)
    requires forall a, b :: 0 <= a < b < |members| ==> members[a].0 != members[b].0
    requires 0 <= i < |members| && members[i].0 == key
    ensures Get(members, key, default) == members[i].1
  {
    assert FirstKeyAt(members, key, i);
  }

  /** `symbol.upper() in key.upper()`. */
  predicate KeyMentions(key: string, symbol: string) {
    Contains(Upper(key), Upper(symbol))
  }

  /** The fallback on unparsable text: `symbol.upper() in text.upper()`. */
  predicate TextMentions(text: string, symbol: string) {
    Contains(Upper(text), Upper(symbol))
  }

  predicate SomeKeyMentions(members: seq<(string, Json)>, symbol: string) {
    exists i :: 0 <= i < |members| && KeyMentions(members[i].0, symbol)
  }

  /** filter_symbol_data: a parsed object must say status "success" and have a key
      under "data" that mentions the symbol. Text that does not parse, a
      top-level value that is not an object (no `.get`) and a "data" value that
      is not an object (no `.keys`) fall back to the substring test on the text. */
  function FilterSymbolData(text: string, parsed: Option<Json>, symbol: string): (b: bool)
    requires parsed.Some? ==> DistinctKeys(parsed.value)
    ensures parsed.None? ==> (b <==> TextMentions(text, symbol))
    ensures parsed.Some? && parsed.value.JObject?
      && Get(parsed.value.members, "status", JNull) != JString("success")
      ==> !b
    ensures parsed.Some? && !parsed.value.JObject? ==> (b <==> TextMentions(text, symbol))
    ensures parsed.Some? && parsed.value.JObject?
      && Get(parsed.value.members, "status", JNull) == JString("success")
      && Get(parsed.value.members, "data", JObject([])).JObject?
      ==> (b <==> SomeKeyMentions(Get(parsed.value.members, "data", JObject([])).members, symbol))
    ensures parsed.Some? && parsed.value.JObject?
      && Get(parsed.value.members, "status", JNull) == JString("success")
      && !Get(parsed.value.members, "data", JObject([])).JObject?
      ==> (b <==> TextMentions(text, symbol))
  {
    match parsed
    case None => TextMentions(text, symbol)
    case Some(JObject(ms)) =>
      if Get(ms, "status", JNull) != JString("success") then false
      else
        (match Get(ms, "data", JObject([]))
         case JObject(d) => SomeKeyMentions(d, symbol)
         case _ => TextMentions(text, symbol))
    case Some(_) => TextMentions(text, symbol)
  }

  datatype QuoteData = QuoteData(
    symbol: string, lastPrice: Json, volume: Json, ohlc: Json, netChange: Json,
    instrumentToken: Json)

  /** The fields of one quote, with the defaults 0 and {}. */
  function QuoteFields(key: string, info: seq<(string, Json)>): QuoteData {
    QuoteData(key,
      Get(info, "last_price", JNumber(0.0)),
      Get(info, "volume", JNumber(0.0)),
      Get(info, "ohlc", JObject([])),
      Get(info, "net_change", JNumber(0.0)),
      Get(info, "instrument_token", JNumber(0.0)))
  }

  /** Index i holds the first key that mentions the symbol. */
  predicate IsFirstMention(d: seq<(string, Json)>, symbol: string, i: int) {
    && 0 <= i < |d| && KeyMentions(d[i].0, symbol)
    && forall j :: 0 <= j < i ==> !KeyMentions(d[j].0, symbol)
  }

  /** The loop over `quote_data.items()`: the first key that mentions the
      symbol; its value must be an object, otherwise `.get` raises
      AttributeError and the result is None. */
  function FirstQuote(d: seq<(string, Json)>, symbol: string): (r: Option<QuoteData>)
    ensures r.Some? ==> exists i ::
      IsFirstMention(d, symbol, i) && d[i].1.JObject?
      && r.value == QuoteFields(d[i].0, d[i].1.members)
    ensures r.None? <==> forall i :: IsFirstMention(d, symbol, i) ==> !d[i].1.JObject?
  {
    if |d| == 0 then None
    else if KeyMentions(d[0].0, symbol) then
      match d[0].1
      case JObject(info) => Some(QuoteFields(d[0].0, info))
      case _ => None
    else
      var r := FirstQuote(d[1..], symbol);
      assert forall i :: 1 <= i < |d| ==> d[1..][i - 1] == d[i];
      r
  }

  /** extract_quote_data. It does not look at "status". */
  function ExtractQuoteData(parsed: Option<Json>, symbol: string): (r: Option<QuoteData>)
    requires parsed.Some? ==> DistinctKeys(parsed.value)
    ensures parsed.None? || !parsed.value.JObject? ==> r.None?
    ensures r.Some? ==>
      && parsed.Some? && parsed.value.JObject?
      && Get(parsed.value.members, "data", JObject([])).JObject?
      && SomeKeyMentions(Get(parsed.value.members, "data", JObject([])).members, symbol)
    ensures parsed.Some? && parsed.value.JObject? && Get(parsed.value.members, "data", JObject([])).JObject?
      ==> r == FirstQuote(Get(parsed.value.members, "data", JObject([])).members, symbol)
    ensures parsed.Some? && parsed.value.JObject? && !Get(parsed.value.members, "data", JObject([])).JObject?
      ==> r.None?
  {
    match parsed
    case Some(JObject(ms)) =>
      (match Get(ms, "data", JObject([]))
       case JObject(d) => FirstQuote(d, symbol)
       case _ => None)
    case _ => None
  }

  /** On a successful response whose "data" is an object, a quote can only be
      extracted for a symbol the filter accepts, and the filter accepts exactly
      when some key mentions the symbol. */
  lemma ExtractImpliesFilter(text: string, parsed: Option<Json>, symbol: string)
    requires parsed.Some? && parsed.value.JObject? && DistinctKeys(parsed.value)
    requires Get(parsed.value.members, "status", JNull) == JString("success")
    requires Get(parsed.value.members, "data", JObject([])).JObject?
    ensures var d := Get(parsed.value.members, "data", JObject([])).members;
      FilterSymbolData(text, parsed, symbol) <==> SomeKeyMentions(d, symbol)
    ensures ExtractQuoteData(parsed, symbol).Some? ==> FilterSymbolData(text, parsed, symbol)
  {
  }

  /** When every quote under "data" is an object, the filter accepting a
      successful response means a quote can be extracted. */
  lemma FilterImpliesExtract(text: string, parsed: Option<Json>, symbol: string)
    requires parsed.Some? && parsed.value.JObject? && DistinctKeys(parsed.value)
    requires Get(parsed.value.members, "status", JNull) == JString("success")
    requires Get(parsed.value.members, "data", JObject([])).JObject?
    requires var d := Get(parsed.value.members, "data", JObject([])).members;
      forall i :: 0 <= i < |d| ==> d[i].1.JObject?
    ensures FilterSymbolData(text, parsed, symbol) ==> ExtractQuoteData(parsed, symbol).Some?
  {
    var d := Get(parsed.value.members, "data", JObject([])).members;
    if FilterSymbolData(text, parsed, symbol) {
      var i :| 0 <= i < |d| && KeyMentions(d[i].0, symbol);
      FirstMentionExists(d, symbol, i);
    }
  }

  lemma {:induction false} FirstMentionExists(d: seq<(string, Json)>, symbol: string, i: nat)
    requires i < |d| && KeyMentions(d[i].0, symbol)
    ensures exists k :: k <= i && IsFirstMention(d, symbol, k)
    decreases i
  {
    if exists j :: 0 <= j < i && KeyMentions(d[j].0, symbol) {
      var j :| 0 <= j < i && KeyMentions(d[j].0, symbol);
      FirstMentionExists(d, symbol, j);
    } else {
      assert IsFirstMention(d, symbol, i);
    }
  }

  // ---------------------------------------------------------------------
  // analyze_stock_from_query

  const NoSymbolMessage: string :=
    "Could not extract stock symbol from query. Please specify a symbol like 'RELIANCE', 'NSE:TCS', or 'HDFC on BSE'."

  datatype Analysis =
    | AnalysisError(error: string)
    | StockAnalysis(symbol: string, exchange: string, quoteResult: string, timestamp: string)

  /** `get_stock_quote` runs the language model; `quote` is its outcome, None
      for a failed run. `timestamp` is `datetime.now().isoformat()`. */
  function AnalyzeStockFromQuery(query: string, quote: (string, string) -> Option<string>, timestamp: string)
    : (r: Analysis)
    ensures ParseSymbolFromQuery(query).None? ==> r == AnalysisError(NoSymbolMessage)
    ensures ParseSymbolFromQuery(query).Some? ==>
      var m := ParseSymbolFromQuery(query).value;
      && (quote(m.symbol, m.exchange).None? ==>
            r == AnalysisError("Failed to get quote data for " + m.symbol + " on " + m.exchange))
      && (quote(m.symbol, m.exchange).Some? ==>
            r == StockAnalysis(m.symbol, m.exchange, quote(m.symbol, m.exchange).value, timestamp))
  {
    match ParseSymbolFromQuery(query)
    case None => AnalysisError(NoSymbolMessage)
    case Some(m) =>
      // `exchange or "NSE"`: a parsed exchange is never empty
      var exchange := if m.exchange == "" then "NSE" else m.exchange;
      match quote(m.symbol, exchange)
      case None => AnalysisError("Failed to get quote data for " + m.symbol + " on " + exchange)
      case Some(q) => StockAnalysis(m.symbol, exchange, q, timestamp)
  }

  /** Without a symbol no quote is requested: the result does not depend on the
      quote source. */
  lemma NoSymbolNoQuote(query: string, q1: (string, string) -> Option<string>,
                        q2: (string, string) -> Option<string>, t: string)
    requires ParseSymbolFromQuery(query).None?
    ensures AnalyzeStockFromQuery(query, q1, t) == AnalyzeStockFromQuery(query, q2, t)
  {
  }
}
