/**
 Asset ids: the symbol map of src/rest/SymbolMap.cpp, the mapping loops of
 src/messages/ExchangeRequestBuilder.cpp and the outcome ids of RequestTypes.h.
 */
module AssetIds {
  import opened Wrappers

  // ---- the symbol map

  /** One call on the map. */
  datatype Call = Set(symbol: string, id: int) | Add(symbol: string, id: int)

  /** The id of the last `set` for a symbol. */
  function LastSet(calls: seq<Call>, symbol: string): Option<int> {
    if calls == [] then None
    else
      var c := calls[|calls| - 1];
      if c.Set? && c.symbol == symbol then Some(c.id) else LastSet(calls[..|calls| - 1], symbol)
  }

  /** The id of the first `add` for a symbol. */
  function FirstAdd(calls: seq<Call>, symbol: string): Option<int> {
    if calls == [] then None
    else if calls[0].Add? && calls[0].symbol == symbol then Some(calls[0].id)
    else FirstAdd(calls[1..], symbol)
  }

  /** The rule: a `set` always wins, and among `add`s the first one does. */
  function Rule(calls: seq<Call>, symbol: string): Option<int> {
    if LastSet(calls, symbol).Some? then LastSet(calls, symbol) else FirstAdd(calls, symbol)
  }

  lemma {:induction false} FirstAddGrows(calls: seq<Call>, c: Call, symbol: string)
    ensures FirstAdd(calls + [c], symbol) ==
      if FirstAdd(calls, symbol).Some? then FirstAdd(calls, symbol)
      else if c.Add? && c.symbol == symbol then Some(c.id) else None
  {
    if calls == [] {
      assert calls + [c] == [c] && [c][1..] == [];
    } else {
      assert (calls + [c])[1..] == calls[1..] + [c];
      FirstAddGrows(calls[1..], c, symbol);
    }
  }

  lemma RuleGrows(calls: seq<Call>, c: Call, symbol: string)
    ensures Rule([], symbol) == None
    ensures Rule(calls + [c], symbol) ==
      if c.symbol == symbol && (c.Set? || Rule(calls, symbol).None?) then Some(c.id) else Rule(calls, symbol)
  {
    assert (calls + [c])[..|calls|] == calls;
    FirstAddGrows(calls, c, symbol);
  }

  /** So a real name always wins over an alias: where there is a `set`, the id is that of one of the `set`s. */
  lemma {:induction false} SetWins(calls: seq<Call>, symbol: string, id: int)
    requires Call.Set(symbol, id) in calls
    ensures Rule(calls, symbol).Some? && Call.Set(symbol, Rule(calls, symbol).value) in calls
    ensures Rule(calls, symbol) == LastSet(calls, symbol)
  {
    var n := |calls| - 1;
    if !(calls[n].Set? && calls[n].symbol == symbol) {
      assert Call.Set(symbol, id) in calls[..n];
      SetWins(calls[..n], symbol, id);
    }
  }

  class SymbolMap {
    var symbolToId: map<string, int>

    /** All calls so far. */
    ghost var calls: seq<Call>

    ghost predicate Valid()
      reads this
    {
      forall s: string :: Rule(calls, s) == if s in symbolToId then Some(symbolToId[s]) else None
    }

    constructor ()
      ensures Valid() && calls == []
    {
      symbolToId := map[];
      calls := [];
    }

    method Add(symbol: string, securityId: int)
      requires Valid()
      modifies this
      ensures Valid() && calls == old(calls) + [Call.Add(symbol, securityId)]
    {
      hide Rule;
      forall s: string {
        RuleGrows(calls, Call.Add(symbol, securityId), s);
      }
      if symbol !in symbolToId {
        symbolToId := symbolToId[symbol := securityId];
      }
      calls := calls + [Call.Add(symbol, securityId)];
    }

    method Set(symbol: string, securityId: int)
      requires Valid()
      modifies this
      ensures Valid() && calls == old(calls) + [Call.Set(symbol, securityId)]
    {
      hide Rule;
      forall s: string {
        RuleGrows(calls, Call.Set(symbol, securityId), s);
      }
      symbolToId := symbolToId[symbol := securityId];
      calls := calls + [Call.Set(symbol, securityId)];
    }

    /** Fails, as the original throws, exactly for a symbol the rule gives no id. */
    method Resolve(symbol: string) returns (r: Result<int>)
      requires Valid()
      ensures r == if Rule(calls, symbol).Some? then Success(Rule(calls, symbol).value) else Failure
    {
      hide Rule;
      if symbol !in symbolToId {
        return Failure;
      }
      return Success(symbolToId[symbol]);
    }
  }

  // ---- filling it

  datatype SpotPair = SpotPair(name: string, index: int, tokens: seq<int>)
  datatype Token = Token(name: string, index: int)
  datatype Dex = Dex(name: string, universe: seq<string>)

  const SPOT_BASE: int := 10000
  const DEX_BASE: int := 100000
  const DEX_STEP: int := 10000

  /** Perpetuals of the default dex: the id is the position. */
  function PerpCalls(universe: seq<string>): (r: seq<Call>)
    ensures |r| == |universe|
  {
    seq(|universe|, i requires 0 <= i < |universe| => Call.Set(universe[i], i))
  }

  /** The name of the last token listed under an index. */
  function TokenName(tokens: seq<Token>, index: int): Option<string> {
    if tokens == [] then None
    else
      var t := tokens[|tokens| - 1];
      if t.index == index then Some(t.name) else TokenName(tokens[..|tokens| - 1], index)
  }

  /** A pair of two tokens gets an alias, which needs both tokens to be listed. */
  predicate Listed(tokens: seq<Token>, p: SpotPair) {
    |p.tokens| == 2 ==> TokenName(tokens, p.tokens[0]).Some? && TokenName(tokens, p.tokens[1]).Some?
  }

  /** One spot pair: its own name, and the BASE/QUOTE alias where there can be one. */
  function PairCalls(tokens: seq<Token>, p: SpotPair): seq<Call> {
    var id := p.index + SPOT_BASE;
    [Call.Set(p.name, id)] +
    if |p.tokens| != 2 || !Listed(tokens, p) then []
    else [Call.Add(TokenName(tokens, p.tokens[0]).value + "/" + TokenName(tokens, p.tokens[1]).value, id)]
  }

  predicate AllListed(tokens: seq<Token>, pairs: seq<SpotPair>) {
    forall k :: 0 <= k < |pairs| ==> Listed(tokens, pairs[k])
  }

  /** The pairs up to the first one whose tokens are not listed. */
  function SpotCalls(tokens: seq<Token>, pairs: seq<SpotPair>): seq<Call> {
    if pairs == [] then []
    else
      var front := pairs[..|pairs| - 1];
      SpotCalls(tokens, front) + if AllListed(tokens, front) then PairCalls(tokens, pairs[|pairs| - 1]) else []
  }

  /** The id of asset `i` of the dex at list position `p`. */
  function DexAssetId(p: nat, i: nat): int {
    DEX_BASE + (p + 1) * DEX_STEP + i
  }

  function DexUniverseCalls(p: nat, universe: seq<string>): (r: seq<Call>)
    ensures |r| == |universe|
  {
    seq(|universe|, i requires 0 <= i < |universe| => Call.Set(universe[i], DexAssetId(p, i)))
  }

  /** Selected dexes, each numbered by its position in the whole list. */
  function DexCalls(dexes: seq<Dex>, selected: set<string>): seq<Call> {
    if dexes == [] then []
    else
      var p := |dexes| - 1;
      DexCalls(dexes[..p], selected) +
      if dexes[p].name in selected then DexUniverseCalls(p, dexes[p].universe) else []
  }

  method MapPerps(symbolMap: SymbolMap, universe: seq<string>)
    requires symbolMap.Valid()
    modifies symbolMap
    ensures symbolMap.Valid() && symbolMap.calls == old(symbolMap.calls) + PerpCalls(universe)
  {
    var index := 0;
    while index < |universe|
      invariant 0 <= index <= |universe|
      invariant symbolMap.Valid() && symbolMap.calls == old(symbolMap.calls) + PerpCalls(universe)[..index]
    {
      symbolMap.Set(universe[index], index);
      index := index + 1;
    }
  }

  method TokensByIndex(tokens: seq<Token>) returns (tokenByIndex: map<int, string>)
    ensures forall i: int :: TokenName(tokens, i) == if i in tokenByIndex then Some(tokenByIndex[i]) else None
  {
    tokenByIndex := map[];
    for k := 0 to |tokens|
      invariant forall i: int :: TokenName(tokens[..k], i) == if i in tokenByIndex then Some(tokenByIndex[i]) else None
    {
      assert tokens[..k + 1][..k] == tokens[..k];
      tokenByIndex := tokenByIndex[tokens[k].index := tokens[k].name];
    }
    assert tokens[..|tokens|] == tokens;
  }

  /** One turn of the loop; false where the original throws. */
  method MapPair(symbolMap: SymbolMap, tokenByIndex: map<int, string>, pair: SpotPair, ghost tokens: seq<Token>)
      returns (ok: bool)
    requires forall i: int :: TokenName(tokens, i) == if i in tokenByIndex then Some(tokenByIndex[i]) else None
    requires symbolMap.Valid()
    modifies symbolMap
    ensures symbolMap.Valid() && ok == Listed(tokens, pair)
    ensures symbolMap.calls == old(symbolMap.calls) + PairCalls(tokens, pair)
  {
    hide SymbolMap.Valid, TokenName;
    var assetId := pair.index + 10000;
    symbolMap.Set(pair.name, assetId);
    if |pair.tokens| == 2 {
      if pair.tokens[0] !in tokenByIndex || pair.tokens[1] !in tokenByIndex {
        return false;
      }
      symbolMap.Add(tokenByIndex[pair.tokens[0]] + "/" + tokenByIndex[pair.tokens[1]], assetId);
    }
    return true;
  }

  /** Stops, as the original throws, at the first pair whose tokens are not listed. */
  method MapSpots(symbolMap: SymbolMap, tokens: seq<Token>, pairs: seq<SpotPair>) returns (ok: bool)
    requires symbolMap.Valid()
    modifies symbolMap
    ensures symbolMap.Valid() && ok == AllListed(tokens, pairs)
    ensures symbolMap.calls == old(symbolMap.calls) + SpotCalls(tokens, pairs)
  {
    hide SymbolMap.Valid, TokenName, Listed, PairCalls;
    var tokenByIndex := TokensByIndex(tokens);
    ghost var before := symbolMap.calls;
    for k := 0 to |pairs|
      invariant symbolMap.Valid() && AllListed(tokens, pairs[..k])
      invariant symbolMap.calls == before + SpotCalls(tokens, pairs[..k])
    {
      assert pairs[..k + 1][..k] == pairs[..k];
      ok := MapPair(symbolMap, tokenByIndex, pairs[k], tokens);
      if !ok {
        SpotsStop(tokens, pairs, k);
        return;
      }
    }
    assert pairs[..|pairs|] == pairs;
    return true;
  }

  lemma {:induction false} SpotsStop(tokens: seq<Token>, pairs: seq<SpotPair>, k: nat)
    requires k < |pairs| && !Listed(tokens, pairs[k])
    ensures SpotCalls(tokens, pairs) == SpotCalls(tokens, pairs[..k + 1])
  {
    var n := |pairs| - 1;
    if k < n {
      assert pairs[..n][..k + 1] == pairs[..k + 1];
      assert !AllListed(tokens, pairs[..n]) by {
        assert !Listed(tokens, pairs[..n][k]);
      }
      SpotsStop(tokens, pairs[..n], k);
    } else {
      assert pairs[..k + 1] == pairs;
    }
  }

  method MapDexes(symbolMap: SymbolMap, dexes: seq<Dex>, selected: set<string>)
    requires symbolMap.Valid()
    modifies symbolMap
    ensures symbolMap.Valid() && symbolMap.calls == old(symbolMap.calls) + DexCalls(dexes, selected)
  {
    var perpIdx := 1;
    for p := 0 to |dexes|
      invariant perpIdx == p + 1
      invariant symbolMap.Valid() && symbolMap.calls == old(symbolMap.calls) + DexCalls(dexes[..p], selected)
    {
      assert dexes[..p + 1][..p] == dexes[..p];
      var dex := dexes[p];
      if dex.name in selected {
        ghost var before := symbolMap.calls;
        var index := 0;
        while index < |dex.universe|
          invariant 0 <= index <= |dex.universe|
          invariant symbolMap.Valid()
          invariant symbolMap.calls == before + DexUniverseCalls(p, dex.universe)[..index]
        {
          symbolMap.Set(dex.universe[index], 100000 + (perpIdx * 10000) + index);
          index := index + 1;
        }
      }
      perpIdx := perpIdx + 1;
    }
    assert dexes[..|dexes|] == dexes;
  }

  /** Everything `initializeMapping` does to the map when all tokens are listed. */
  function MappingCalls(universe: seq<string>, tokens: seq<Token>, pairs: seq<SpotPair>, dexes: seq<Dex>,
      selected: set<string>): seq<Call>
  {
    PerpCalls(universe) + SpotCalls(tokens, pairs) + DexCalls(dexes, selected)
  }

  /** initializeMapping, given what the server answered. */
  method InitializeMapping(hasWallet: bool, universe: seq<string>, tokens: seq<Token>, pairs: seq<SpotPair>,
      dexes: seq<Dex>, selected: set<string>) returns (symbolMap: SymbolMap, ok: bool)
    ensures fresh(symbolMap) && symbolMap.Valid()
    ensures ok <==> !hasWallet || AllListed(tokens, pairs)
    ensures hasWallet && ok ==> symbolMap.calls == MappingCalls(universe, tokens, pairs, dexes, selected)
    ensures hasWallet && !ok ==> symbolMap.calls == PerpCalls(universe) + SpotCalls(tokens, pairs)
    ensures !hasWallet ==> symbolMap.calls == []
  {
    hide SymbolMap.Valid, SpotCalls, AllListed, DexCalls, PerpCalls;
    symbolMap := new SymbolMap();
    ok := true;
    if !hasWallet {
      return;
    }
    MapPerps(symbolMap, universe);
    ok := MapSpots(symbolMap, tokens, pairs);
    if !ok {
      return;
    }
    if selected == {} {
      NoDexCalls(dexes);
      return;
    }
    MapDexes(symbolMap, dexes, selected);
  }

  lemma {:induction false} NoDexCalls(dexes: seq<Dex>)
    ensures DexCalls(dexes, {}) == []
  {
    if dexes != [] {
      NoDexCalls(dexes[..|dexes| - 1]);
    }
  }

  /**
   A name that all its `set`s give one id resolves to that id, wherever among the calls they
   are and whatever alias happens to spell the same.
   */
  lemma NameResolves(calls: seq<Call>, symbol: string, id: int)
    requires Call.Set(symbol, id) in calls
    requires forall other :: Call.Set(symbol, other) in calls ==> other == id
    ensures Rule(calls, symbol) == Some(id)
  {
    SetWins(calls, symbol, id);
  }

  /** Whichever other dexes are selected, asset `i` of the dex at position `p` is set to its own id. */
  lemma {:induction false} DexIdsIndependent(dexes: seq<Dex>, selected: set<string>, p: nat, i: nat)
    requires p < |dexes| && dexes[p].name in selected && i < |dexes[p].universe|
    ensures Call.Set(dexes[p].universe[i], DexAssetId(p, i)) in DexCalls(dexes, selected)
  {
    var n := |dexes| - 1;
    if p < n {
      DexIdsIndependent(dexes[..n], selected, p, i);
    } else {
      assert DexUniverseCalls(n, dexes[n].universe)[i] == Call.Set(dexes[p].universe[i], DexAssetId(p, i));
    }
  }

  /** And nothing else is set: every call is for a selected dex at its own position. */
  lemma {:induction false} DexCallsSound(dexes: seq<Dex>, selected: set<string>, c: Call)
    requires c in DexCalls(dexes, selected)
    ensures exists p: nat, i: nat ::
      && p < |dexes| && dexes[p].name in selected && i < |dexes[p].universe|
      && c == Call.Set(dexes[p].universe[i], DexAssetId(p, i))
  {
    var n := |dexes| - 1;
    if c in DexCalls(dexes[..n], selected) {
      DexCallsSound(dexes[..n], selected, c);
      var p: nat, i: nat :|
        && p < n && dexes[..n][p].name in selected && i < |dexes[..n][p].universe|
        && c == Call.Set(dexes[..n][p].universe[i], DexAssetId(p, i));
      assert dexes[p] == dexes[..n][p];
    } else {
      var i :| 0 <= i < |dexes[n].universe| && c == DexUniverseCalls(n, dexes[n].universe)[i];
    }
  }

  // ---- what names resolve to

  lemma {:induction false} LastSetConcat(a: seq<Call>, b: seq<Call>, symbol: string)
    ensures LastSet(a + b, symbol) == if LastSet(b, symbol).Some? then LastSet(b, symbol) else LastSet(a, symbol)
  {
    if b == [] {
      assert a + b == a;
    } else {
      assert (a + b)[..|a + b| - 1] == a + b[..|b| - 1];
      LastSetConcat(a, b[..|b| - 1], symbol);
    }
  }

  /** Asset `j` of the dex at `q` is mapped, bears `symbol`, and comes after asset `i` of the dex at `p`. */
  predicate Later(dexes: seq<Dex>, selected: set<string>, symbol: string, p: nat, i: nat, q: nat, j: nat) {
    && q < |dexes| && dexes[q].name in selected && j < |dexes[q].universe| && dexes[q].universe[j] == symbol
    && (q > p || (q == p && j > i))
  }

  lemma {:induction false} LastInUniverse(p: nat, universe: seq<string>, n: nat, i: nat)
    requires i < n <= |universe| && forall j :: i < j < n ==> universe[j] != universe[i]
    ensures LastSet(DexUniverseCalls(p, universe)[..n], universe[i]) == Some(DexAssetId(p, i))
  {
    var calls := DexUniverseCalls(p, universe);
    assert calls[..n][..n - 1] == calls[..n - 1];
    if i < n - 1 {
      LastInUniverse(p, universe, n - 1, i);
    }
  }

  lemma {:induction false} NotInUniverse(p: nat, universe: seq<string>, n: nat, symbol: string)
    requires n <= |universe| && forall j :: 0 <= j < n ==> universe[j] != symbol
    ensures LastSet(DexUniverseCalls(p, universe)[..n], symbol) == None
  {
    if n > 0 {
      var calls := DexUniverseCalls(p, universe);
      assert calls[..n][..n - 1] == calls[..n - 1];
      NotInUniverse(p, universe, n - 1, symbol);
    }
  }

  lemma {:induction false} LastInDexes(dexes: seq<Dex>, selected: set<string>, p: nat, i: nat)
    requires p < |dexes| && dexes[p].name in selected && i < |dexes[p].universe|
    requires forall q, j :: !Later(dexes, selected, dexes[p].universe[i], p, i, q, j)
    ensures LastSet(DexCalls(dexes, selected), dexes[p].universe[i]) == Some(DexAssetId(p, i))
  {
    var symbol := dexes[p].universe[i];
    var n := |dexes| - 1;
    var u := dexes[n].universe;
    var last := if dexes[n].name in selected then DexUniverseCalls(n, u) else [];
    LastSetConcat(DexCalls(dexes[..n], selected), last, symbol);
    assert last != [] ==> last[..|u|] == last;
    forall j: nat | j < |u| && dexes[n].name in selected && (n > p || j > i)
      ensures u[j] != symbol
    {
      assert !Later(dexes, selected, symbol, p, i, n, j);
    }
    if p == n {
      LastInUniverse(n, u, |u|, i);
    } else {
      if dexes[n].name in selected {
        NotInUniverse(n, u, |u|, symbol);
      }
      forall q, j
        ensures !Later(dexes[..n], selected, symbol, p, i, q, j)
      {
        assert !Later(dexes, selected, symbol, p, i, q, j);
      }
      LastInDexes(dexes[..n], selected, p, i);
    }
  }

  /**
   After the whole mapping an asset of a selected dex resolves to its own id, unless a later
   mapped asset bears the same name. What perpetuals, pairs and aliases are called does not matter.
   */
  lemma DexAssetResolves(universe: seq<string>, tokens: seq<Token>, pairs: seq<SpotPair>, dexes: seq<Dex>,
      selected: set<string>, p: nat, i: nat)
    requires p < |dexes| && dexes[p].name in selected && i < |dexes[p].universe|
    requires forall q, j :: !Later(dexes, selected, dexes[p].universe[i], p, i, q, j)
    ensures Rule(MappingCalls(universe, tokens, pairs, dexes, selected), dexes[p].universe[i]) ==
            Some(100000 + (p + 1) * 10000 + i) == Some(IdOf(DexPerp(p, i)))
  {
    LastInDexes(dexes, selected, p, i);
    LastSetConcat(PerpCalls(universe) + SpotCalls(tokens, pairs), DexCalls(dexes, selected), dexes[p].universe[i]);
  }

  /** A selected dex has an asset of this name. */
  predicate InDexes(dexes: seq<Dex>, selected: set<string>, symbol: string) {
    exists q, j ::
      0 <= q < |dexes| && dexes[q].name in selected && 0 <= j < |dexes[q].universe| && dexes[q].universe[j] == symbol
  }

  /** The pair claims this text as its alias: the names of its two tokens, base first. */
  predicate Claims(tokens: seq<Token>, p: SpotPair, symbol: string) {
    && |p.tokens| == 2
    && var base, quote := TokenName(tokens, p.tokens[0]), TokenName(tokens, p.tokens[1]);
       base.Some? && quote.Some? && symbol == base.value + "/" + quote.value
  }

  /** The token listed last under an index gives its name. */
  lemma {:induction false} LastTokenNamed(tokens: seq<Token>, k: nat)
    requires k < |tokens| && forall j :: k < j < |tokens| ==> tokens[j].index != tokens[k].index
    ensures TokenName(tokens, tokens[k].index) == Some(tokens[k].name)
  {
    if k < |tokens| - 1 {
      LastTokenNamed(tokens[..|tokens| - 1], k);
    }
  }

  lemma {:induction false} FirstAddConcat(a: seq<Call>, b: seq<Call>, symbol: string)
    ensures FirstAdd(a + b, symbol) == if FirstAdd(a, symbol).Some? then FirstAdd(a, symbol) else FirstAdd(b, symbol)
  {
    if a == [] {
      assert a + b == b;
    } else {
      assert (a + b)[1..] == a[1..] + b;
      FirstAddConcat(a[1..], b, symbol);
    }
  }

  lemma {:induction false} NoAdds(calls: seq<Call>, symbol: string)
    requires forall c :: c in calls ==> c.Set?
    ensures FirstAdd(calls, symbol) == None
  {
    if calls != [] {
      assert calls[0] in calls;
      NoAdds(calls[1..], symbol);
    }
  }

  lemma {:induction false} NoSets(calls: seq<Call>, symbol: string)
    requires forall c :: c in calls && c.Set? ==> c.symbol != symbol
    ensures LastSet(calls, symbol) == None
  {
    if calls != [] {
      NoSets(calls[..|calls| - 1], symbol);
    }
  }

  lemma {:induction false} SetStands(calls: seq<Call>, k: nat)
    requires k < |calls| && calls[k].Set?
    requires forall j :: k < j < |calls| && calls[j].Set? ==> calls[j].symbol != calls[k].symbol
    ensures LastSet(calls, calls[k].symbol) == Some(calls[k].id)
  {
    if k < |calls| - 1 {
      SetStands(calls[..|calls| - 1], k);
    }
  }

  lemma NotInDexes(dexes: seq<Dex>, selected: set<string>, symbol: string)
    requires !InDexes(dexes, selected, symbol)
    ensures LastSet(DexCalls(dexes, selected), symbol) == None
  {
    forall c | c in DexCalls(dexes, selected)
      ensures c.symbol != symbol
    {
      DexCallsSound(dexes, selected, c);
    }
    NoSets(DexCalls(dexes, selected), symbol);
  }

  /** Every call the spot loop makes for a name of its own is the `set` of a pair. */
  lemma {:induction false} SpotCallsSound(tokens: seq<Token>, pairs: seq<SpotPair>, c: Call)
    requires c in SpotCalls(tokens, pairs) && c.Set?
    ensures exists k :: 0 <= k < |pairs| && pairs[k].name == c.symbol
  {
    var n := |pairs| - 1;
    if c in SpotCalls(tokens, pairs[..n]) {
      SpotCallsSound(tokens, pairs[..n], c);
      var k :| 0 <= k < n && pairs[..n][k].name == c.symbol;
      assert pairs[k].name == c.symbol;
    } else {
      assert c == Call.Set(pairs[n].name, pairs[n].index + SPOT_BASE);
    }
  }

  lemma NotAmongPairs(tokens: seq<Token>, pairs: seq<SpotPair>, symbol: string)
    requires forall k :: 0 <= k < |pairs| ==> pairs[k].name != symbol
    ensures LastSet(SpotCalls(tokens, pairs), symbol) == None
  {
    forall c | c in SpotCalls(tokens, pairs) && c.Set?
      ensures c.symbol != symbol
    {
      SpotCallsSound(tokens, pairs, c);
    }
    NoSets(SpotCalls(tokens, pairs), symbol);
  }

  lemma {:induction false} PairStands(tokens: seq<Token>, pairs: seq<SpotPair>, k: nat)
    requires k < |pairs| && AllListed(tokens, pairs)
    requires forall j :: k < j < |pairs| ==> pairs[j].name != pairs[k].name
    ensures LastSet(SpotCalls(tokens, pairs), pairs[k].name) == Some(pairs[k].index + 10000)
  {
    hide Listed, PairCalls, LastSet;
    var n := |pairs| - 1;
    var front, last := SpotCalls(tokens, pairs[..n]), PairCalls(tokens, pairs[n]);
    LastSetConcat(front, last, pairs[k].name);
    PairSets(tokens, pairs[n], pairs[k].name);
    if k < n {
      PairStands(tokens, pairs[..n], k);
    }
  }

  lemma PairSets(tokens: seq<Token>, p: SpotPair, symbol: string)
    ensures LastSet(PairCalls(tokens, p), symbol) == if p.name == symbol then Some(p.index + 10000) else None
  {
    var calls := PairCalls(tokens, p);
    if p.name == symbol {
      SetStands(calls, 0);
    } else {
      NoSets(calls, symbol);
    }
  }

  lemma {:induction false} FirstClaimStands(tokens: seq<Token>, pairs: seq<SpotPair>, k: nat, symbol: string)
    requires k < |pairs| && AllListed(tokens, pairs) && Claims(tokens, pairs[k], symbol)
    requires forall j :: 0 <= j < k ==> !Claims(tokens, pairs[j], symbol)
    ensures FirstAdd(SpotCalls(tokens, pairs), symbol) == Some(pairs[k].index + 10000)
  {
    hide Listed, PairCalls, FirstAdd, Claims;
    var n := |pairs| - 1;
    var front, last := SpotCalls(tokens, pairs[..n]), PairCalls(tokens, pairs[n]);
    FirstAddConcat(front, last, symbol);
    if k < n {
      FirstClaimStands(tokens, pairs[..n], k, symbol);
    } else {
      NoClaims(tokens, pairs[..n], symbol);
      PairClaims(tokens, pairs[n], symbol);
    }
  }

  lemma PairClaims(tokens: seq<Token>, p: SpotPair, symbol: string)
    requires Listed(tokens, p)
    ensures FirstAdd(PairCalls(tokens, p), symbol) == if Claims(tokens, p, symbol) then Some(p.index + 10000) else None
  {
    var calls := PairCalls(tokens, p);
    assert FirstAdd(calls, symbol) == FirstAdd(calls[1..], symbol);
    if |p.tokens| == 2 {
      var c := calls[1];
      assert calls[1..] == [c] && [c][1..] == [];
      assert FirstAdd([c], symbol) == if c.symbol == symbol then Some(c.id) else FirstAdd([], symbol);
    } else {
      assert calls[1..] == [];
    }
  }

  lemma {:induction false} NoClaims(tokens: seq<Token>, pairs: seq<SpotPair>, symbol: string)
    requires AllListed(tokens, pairs) && forall j :: 0 <= j < |pairs| ==> !Claims(tokens, pairs[j], symbol)
    ensures FirstAdd(SpotCalls(tokens, pairs), symbol) == None
  {
    hide Listed, PairCalls, Claims;
    if pairs != [] {
      var n := |pairs| - 1;
      NoClaims(tokens, pairs[..n], symbol);
      FirstAddConcat(SpotCalls(tokens, pairs[..n]), PairCalls(tokens, pairs[n]), symbol);
      PairClaims(tokens, pairs[n], symbol);
    }
  }

  /** After the whole mapping a perpetual resolves to its position, unless a later `set` bears its name. */
  lemma PerpResolves(universe: seq<string>, tokens: seq<Token>, pairs: seq<SpotPair>, dexes: seq<Dex>,
      selected: set<string>, i: nat)
    requires i < |universe| && forall j :: i < j < |universe| ==> universe[j] != universe[i]
    requires forall k :: 0 <= k < |pairs| ==> pairs[k].name != universe[i]
    requires !InDexes(dexes, selected, universe[i])
    ensures Rule(MappingCalls(universe, tokens, pairs, dexes, selected), universe[i]) == Some(i) == Some(IdOf(Perp(i)))
  {
    hide LastSet, FirstAdd, SpotCalls, DexCalls, InDexes;
    NotInDexes(dexes, selected, universe[i]);
    NotAmongPairs(tokens, pairs, universe[i]);
    SetStands(PerpCalls(universe), i);
    LastSetConcat(PerpCalls(universe), SpotCalls(tokens, pairs), universe[i]);
    LastSetConcat(PerpCalls(universe) + SpotCalls(tokens, pairs), DexCalls(dexes, selected), universe[i]);
  }

  /** A pair resolves to 10000 plus its own index, whatever perpetuals are called, unless a later `set` has its name. */
  lemma PairResolves(universe: seq<string>, tokens: seq<Token>, pairs: seq<SpotPair>, dexes: seq<Dex>,
      selected: set<string>, k: nat)
    requires k < |pairs| && AllListed(tokens, pairs)
    requires forall j :: k < j < |pairs| ==> pairs[j].name != pairs[k].name
    requires !InDexes(dexes, selected, pairs[k].name)
    ensures var id := Rule(MappingCalls(universe, tokens, pairs, dexes, selected), pairs[k].name);
      id == Some(pairs[k].index + 10000) && (pairs[k].index >= 0 ==> id == Some(IdOf(Spot(pairs[k].index))))
  {
    hide LastSet, FirstAdd, PerpCalls, SpotCalls, DexCalls, InDexes, Listed;
    NotInDexes(dexes, selected, pairs[k].name);
    PairStands(tokens, pairs, k);
    LastSetConcat(PerpCalls(universe), SpotCalls(tokens, pairs), pairs[k].name);
    LastSetConcat(PerpCalls(universe) + SpotCalls(tokens, pairs), DexCalls(dexes, selected), pairs[k].name);
  }

  /** A BASE/QUOTE text that is nobody's own name resolves to the first pair that claims it. */
  lemma AliasResolves(universe: seq<string>, tokens: seq<Token>, pairs: seq<SpotPair>, dexes: seq<Dex>,
      selected: set<string>, k: nat, symbol: string)
    requires k < |pairs| && AllListed(tokens, pairs) && Claims(tokens, pairs[k], symbol)
    requires forall j :: 0 <= j < k ==> !Claims(tokens, pairs[j], symbol)
    requires symbol !in universe && (forall j :: 0 <= j < |pairs| ==> pairs[j].name != symbol)
    requires !InDexes(dexes, selected, symbol)
    ensures Rule(MappingCalls(universe, tokens, pairs, dexes, selected), symbol) == Some(pairs[k].index + 10000)
  {
    hide LastSet, FirstAdd, SpotCalls, DexCalls, InDexes, Listed, Claims;
    var perps, spots, dexCalls := PerpCalls(universe), SpotCalls(tokens, pairs), DexCalls(dexes, selected);
    NotInDexes(dexes, selected, symbol);
    NotAmongPairs(tokens, pairs, symbol);
    NoSets(perps, symbol);
    LastSetConcat(perps, spots, symbol);
    LastSetConcat(perps + spots, dexCalls, symbol);
    NoAdds(perps, symbol);
    FirstClaimStands(tokens, pairs, k, symbol);
    FirstAddConcat(perps, spots, symbol);
    FirstAddConcat(perps + spots, dexCalls, symbol);
  }

  // ---- decoding ids

  function OutcomeAssetId(outcomeIndex: int, side: int): int {
    100000000 + (10 * outcomeIndex + side)
  }

  /** What an id stands for. */
  datatype Asset =
    | Perp(index: nat)
    | Spot(index: nat)
    | DexPerp(position: nat, index: nat)
    | Outcome(index: nat, side: nat)

  /** The sizes for which ids of different kinds cannot meet. */
  predicate InRange(a: Asset) {
    match a
    case Perp(i) => i < 10000
    case Spot(i) => i < 100000
    case DexPerp(p, i) => p < 9989 && i < 10000
    case Outcome(_, side) => side < 10
  }

  function IdOf(a: Asset): int {
    match a
    case Perp(i) => i
    case Spot(i) => i + SPOT_BASE
    case DexPerp(p, i) => DexAssetId(p, i)
    case Outcome(o, side) => OutcomeAssetId(o, side)
  }

  function AssetOf(id: nat): Asset {
    if id < 10000 then Perp(id)
    else if id < 110000 then Spot(id - 10000)
    else if id < 100000000 then DexPerp((id - 110000) / 10000, (id - 110000) % 10000)
    else Outcome((id - 100000000) / 10, (id - 100000000) % 10)
  }

  /** Every id in range can be read back, so assets in range never share an id. */
  lemma IdsDecodable(a: Asset)
    requires InRange(a)
    ensures IdOf(a) >= 0 && AssetOf(IdOf(a)) == a
  {
  }

  lemma IdsDisjoint(a: Asset, b: Asset)
    requires InRange(a) && InRange(b) && IdOf(a) == IdOf(b)
    ensures a == b
  {
    IdsDecodable(a);
    IdsDecodable(b);
  }

  /** The bounds are tight: one step beyond each of them meets a neighbour. */
  lemma BoundsTight()
    ensures IdOf(Perp(10000)) == IdOf(Spot(0))
    ensures IdOf(Spot(100000)) == IdOf(DexPerp(0, 0))
    ensures IdOf(DexPerp(0, 10000)) == IdOf(DexPerp(1, 0))
    ensures IdOf(DexPerp(9989, 0)) == IdOf(Outcome(0, 0))
    ensures IdOf(Outcome(0, 10)) == IdOf(Outcome(1, 0))
  {
  }

  /** Counts of perpetuals, spot pairs, dexes, assets per dex and outcome sides; outcomes are without number. */
  datatype Sizes = Sizes(perps: nat, spots: nat, dexes: nat, perDex: nat, sides: nat)

  predicate Exists(a: Asset, z: Sizes) {
    match a
    case Perp(i) => i < z.perps
    case Spot(i) => i < z.spots
    case DexPerp(p, i) => p < z.dexes && i < z.perDex
    case Outcome(_, side) => side < z.sides
  }

  ghost predicate NoSharedId(z: Sizes) {
    forall a, b | Exists(a, z) && Exists(b, z) :: IdOf(a) == IdOf(b) ==> a == b
  }

  predicate WithinBounds(z: Sizes) {
    z.perps <= 10000 && z.spots <= 100000 && z.dexes <= 9989 && z.perDex <= 10000 && z.sides <= 10
  }

  predicate AllKinds(z: Sizes) {
    z.spots >= 1 && z.dexes >= 2 && z.perDex >= 1 && z.sides >= 1
  }

  lemma Clash(z: Sizes) returns (a: Asset, b: Asset)
    requires AllKinds(z) && !WithinBounds(z)
    ensures Exists(a, z) && Exists(b, z) && IdOf(a) == IdOf(b) && a != b
  {
    BoundsTight();
    if z.perps > 10000 {
      a, b := Perp(10000), Spot(0);
    } else if z.spots > 100000 {
      a, b := Spot(100000), DexPerp(0, 0);
    } else if z.perDex > 10000 {
      a, b := DexPerp(0, 10000), DexPerp(1, 0);
    } else if z.dexes > 9989 {
      a, b := DexPerp(9989, 0), Outcome(0, 0);
    } else {
      a, b := Outcome(0, 10), Outcome(1, 0);
    }
  }

  /** Where every kind of asset occurs, ids are distinct exactly within the bounds. */
  lemma SizesExact(z: Sizes)
    requires AllKinds(z)
    ensures NoSharedId(z) <==> WithinBounds(z)
  {
    if WithinBounds(z) {
      forall a, b | Exists(a, z) && Exists(b, z) && IdOf(a) == IdOf(b)
        ensures a == b
      {
        IdsDisjoint(a, b);
      }
    } else {
      var a, b := Clash(z);
    }
  }
}
