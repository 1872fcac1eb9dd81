/**
 The instrument identity table of src/marketdata/InstrumentRegistry.cpp: three hash indexes beside an
 insertion-order vector. The specification is the vector alone, searched linearly; the class keeps the indexes in
 agreement with it.
 */
module Registry {
  import opened Wrappers
  import opened Symbol
  import opened Text

  // ---------- Channels ----------

  const TICKER_PREFIX: string := "ticker."
  const INDEX_PREFIX: string := "deribit_price_index."

  function ChannelFor(k: InstrumentKey, interval: string): string {
    match k.kind
    case OptionKind => TICKER_PREFIX + k.symbol + "." + interval
    case FutureKind => TICKER_PREFIX + k.symbol + "." + interval
    case IndexKind => INDEX_PREFIX + k.symbol
    case _ => ""
  }

  /** Options, futures and the index are streamed; a perpetual or an unknown has no channel. */
  predicate Streamed(k: InstrumentKey) {
    k.kind in {OptionKind, FutureKind, IndexKind}
  }

  lemma SuffixInjective(a: string, b: string, suffix: string)
    requires a + suffix == b + suffix
    ensures a == b
  {
    assert |a| == |b|;
    assert (a + suffix)[..|a|] == a && (b + suffix)[..|b|] == b;
  }

  lemma PrefixInjective(prefix: string, a: string, b: string)
    requires prefix + a == prefix + b
    ensures a == b
  {
    assert (prefix + a)[|prefix|..] == a && (prefix + b)[|prefix|..] == b;
  }

  lemma TickerInjective(a: string, b: string, interval: string)
    requires TICKER_PREFIX + a + "." + interval == TICKER_PREFIX + b + "." + interval
    ensures a == b
  {
    SuffixInjective(TICKER_PREFIX + a + ".", TICKER_PREFIX + b + ".", interval);
    SuffixInjective(TICKER_PREFIX + a, TICKER_PREFIX + b, ".");
    PrefixInjective(TICKER_PREFIX, a, b);
  }

  lemma PrefixesDiffer(a: string, b: string)
    ensures TICKER_PREFIX + a != INDEX_PREFIX + b
  {
    assert (TICKER_PREFIX + a)[0] == 't' && (INDEX_PREFIX + b)[0] == 'd';
  }

  /**
   When two keys share a channel at one interval: never for two streamed keys with different symbols, always for
   two keys that are not streamed.
   */
  lemma SharedChannel(a: InstrumentKey, b: InstrumentKey, interval: string)
    ensures ChannelFor(a, interval) == ChannelFor(b, interval) <==>
            || (!Streamed(a) && !Streamed(b))
            || (Streamed(a) && Streamed(b) && a.symbol == b.symbol && (a.kind == IndexKind <==> b.kind == IndexKind))
    ensures Streamed(a) <==> ChannelFor(a, interval) != ""
  {
    var x, y := ChannelFor(a, interval), ChannelFor(b, interval);
    if Streamed(a) && Streamed(b) && x == y {
      if a.kind == IndexKind && b.kind == IndexKind {
        PrefixInjective(INDEX_PREFIX, a.symbol, b.symbol);
      } else if a.kind == IndexKind {
        assert y == TICKER_PREFIX + (b.symbol + "." + interval);
        PrefixesDiffer(b.symbol + "." + interval, a.symbol);
      } else if b.kind == IndexKind {
        assert x == TICKER_PREFIX + (a.symbol + "." + interval);
        PrefixesDiffer(a.symbol + "." + interval, b.symbol);
      } else {
        TickerInjective(a.symbol, b.symbol, interval);
      }
    }
  }

  /** The interval is part of a ticker channel and no part of the index channel. */
  lemma IntervalMatters(k: InstrumentKey, a: string, b: string)
    requires Streamed(k) && a != b
    ensures ChannelFor(k, a) == ChannelFor(k, b) <==> k.kind == IndexKind
    ensures ChannelFor(k, a)[0] == if k.kind == IndexKind then 'd' else 't'
  {
    if k.kind != IndexKind && ChannelFor(k, a) == ChannelFor(k, b) {
      PrefixInjective(TICKER_PREFIX + k.symbol + ".", a, b);
    }
  }

  /** What a channel spells, part by part, for a symbol and interval without a dot. */
  lemma ChannelParts(k: InstrumentKey, interval: string)
    requires '.' !in k.symbol && '.' !in interval
    ensures k.kind == OptionKind || k.kind == FutureKind ==>
              Split(ChannelFor(k, interval), '.') == ["ticker", k.symbol, interval]
    ensures k.kind == IndexKind ==> Split(ChannelFor(k, interval), '.') == ["deribit_price_index", k.symbol]
  {
    if k.kind == OptionKind || k.kind == FutureKind {
      var parts := ["ticker", k.symbol, interval];
      assert parts[1..] == [k.symbol, interval] && parts[1..][1..] == [interval];
      assert Join(parts[1..], '.') == k.symbol + "." + interval;
      assert Join(parts, '.') == "ticker" + "." + (k.symbol + "." + interval);
      assert TICKER_PREFIX == "ticker" + ".";
      SplitExact(ChannelFor(k, interval), '.', parts);
    } else if k.kind == IndexKind {
      var parts := ["deribit_price_index", k.symbol];
      assert parts[1..] == [k.symbol];
      assert INDEX_PREFIX == "deribit_price_index" + ".";
      SplitExact(ChannelFor(k, interval), '.', parts);
    }
  }

  // ---------- The list ----------

  /** The first key from slot i on with the symbol. */
  function ScanSymbol(keys: seq<InstrumentKey>, symbol: string): Option<int> {
    if keys == [] then None
    else if keys[0].symbol == symbol then Some(keys[0].id)
    else ScanSymbol(keys[1..], symbol)
  }

  /** The first key with the id. */
  function ScanId(keys: seq<InstrumentKey>, id: int): Option<InstrumentKey> {
    if keys == [] then None
    else if keys[0].id == id then Some(keys[0])
    else ScanId(keys[1..], id)
  }

  /** What `add` does to the list. */
  function AddKey(keys: seq<InstrumentKey>, key: InstrumentKey): seq<InstrumentKey> {
    if key.id == 0 || ScanSymbol(keys, key.symbol).Some? then keys else keys + [key]
  }

  /** What `add` returns. */
  function AddResult(keys: seq<InstrumentKey>, key: InstrumentKey): Option<int> {
    if key.id == 0 then None
    else if ScanSymbol(keys, key.symbol).Some? then ScanSymbol(keys, key.symbol)
    else Some(key.id)
  }

  /** Whatever `add` returns is what the symbol then resolves to. */
  lemma AddFinds(keys: seq<InstrumentKey>, key: InstrumentKey)
    ensures key.id != 0 ==> ScanSymbol(AddKey(keys, key), key.symbol) == AddResult(keys, key) != None
  {
    ScanAppend(keys, key, key.id, key.symbol);
  }

  /** A registry after a sequence of `add` calls. */
  function AddAll(added: seq<InstrumentKey>): seq<InstrumentKey> {
    if added == [] then [] else AddKey(AddAll(added[..|added| - 1]), added[|added| - 1])
  }

  ghost predicate DistinctSymbols(keys: seq<InstrumentKey>) {
    forall i, j :: 0 <= i < j < |keys| ==> keys[i].symbol != keys[j].symbol
  }

  ghost predicate DistinctIds(keys: seq<InstrumentKey>) {
    forall i, j :: 0 <= i < j < |keys| ==> keys[i].id != keys[j].id
  }

  ghost predicate Sound(keys: seq<InstrumentKey>) {
    DistinctSymbols(keys) && forall i :: 0 <= i < |keys| ==> keys[i].id != 0
  }

  lemma {:induction false} ScanSymbolFinds(keys: seq<InstrumentKey>, symbol: string)
    ensures ScanSymbol(keys, symbol).None? <==> forall i :: 0 <= i < |keys| ==> keys[i].symbol != symbol
    ensures forall i :: 0 <= i < |keys| && keys[i].symbol == symbol
                        && (forall j :: 0 <= j < i ==> keys[j].symbol != symbol)
                        ==> ScanSymbol(keys, symbol) == Some(keys[i].id)
  {
    if keys != [] {
      ScanSymbolFinds(keys[1..], symbol);
      assert forall i :: 1 <= i < |keys| ==> keys[1..][i - 1] == keys[i];
    }
  }

  lemma {:induction false} ScanIdFinds(keys: seq<InstrumentKey>, id: int)
    ensures ScanId(keys, id).None? <==> forall i :: 0 <= i < |keys| ==> keys[i].id != id
    ensures forall i :: 0 <= i < |keys| && keys[i].id == id && (forall j :: 0 <= j < i ==> keys[j].id != id)
                        ==> ScanId(keys, id) == Some(keys[i])
  {
    if keys != [] {
      ScanIdFinds(keys[1..], id);
      assert forall i :: 1 <= i < |keys| ==> keys[1..][i - 1] == keys[i];
    }
  }

  lemma {:induction false} ScanAppend(keys: seq<InstrumentKey>, key: InstrumentKey, id: int, symbol: string)
    ensures ScanId(keys + [key], id) ==
            if ScanId(keys, id).Some? then ScanId(keys, id) else if key.id == id then Some(key) else None
    ensures ScanSymbol(keys + [key], symbol) ==
            if ScanSymbol(keys, symbol).Some? then ScanSymbol(keys, symbol)
            else if key.symbol == symbol then Some(key.id) else None
  {
    if keys == [] {
      assert keys + [key] == [key] && [key][1..] == [];
    } else {
      assert (keys + [key])[1..] == keys[1..] + [key];
      ScanAppend(keys[1..], key, id, symbol);
    }
  }

  /** Every sequence of `add` calls leaves distinct symbols and no id 0, and keeps only keys it was given. */
  lemma {:induction false} AddAllSound(added: seq<InstrumentKey>)
    ensures Sound(AddAll(added))
    ensures forall i :: 0 <= i < |AddAll(added)| ==> AddAll(added)[i] in added
    ensures forall k :: k in added && k.id != 0 ==> ScanSymbol(AddAll(added), k.symbol).Some?
  {
    if added != [] {
      var before, key := added[..|added| - 1], added[|added| - 1];
      AddAllSound(before);
      var keys := AddAll(before);
      ScanSymbolFinds(keys, key.symbol);
      forall k | k in added && k.id != 0 ensures ScanSymbol(AddAll(added), k.symbol).Some? {
        assert k == key || k in before;
        ScanSymbolFinds(keys, k.symbol);
        ScanSymbolFinds(AddAll(added), k.symbol);
        if k in before {
          var i :| 0 <= i < |keys| && keys[i].symbol == k.symbol;
          assert AddAll(added)[i] == keys[i];
        } else if AddAll(added) != keys {
          assert AddAll(added)[|keys|] == key;
        }
      }
    }
  }

  /** Argument i is the first to carry its symbol, among those with an id. */
  ghost predicate First(added: seq<InstrumentKey>, i: int) {
    && 0 <= i < |added| && added[i].id != 0
    && forall j :: 0 <= j < i && added[j].id != 0 ==> added[j].symbol != added[i].symbol
  }

  lemma NewestIsFirst(before: seq<InstrumentKey>, key: InstrumentKey)
    ensures First(before + [key], |before|) <==> key.id != 0 && ScanSymbol(AddAll(before), key.symbol).None?
    ensures forall i :: 0 <= i < |before| ==> (First(before + [key], i) <==> First(before, i))
  {
    var keys, added := AddAll(before), before + [key];
    AddAllSound(before);
    ScanSymbolFinds(keys, key.symbol);
    assert forall j :: 0 <= j < |before| ==> added[j] == before[j] && before[j] in before;
    forall i | 0 <= i < |keys| && keys[i].symbol == key.symbol
      ensures exists j :: 0 <= j < |before| && before[j].id != 0 && before[j].symbol == key.symbol
    {
      assert keys[i] in before;
    }
  }

  /** The stored keys are the first arguments, and all of them. */
  lemma {:induction false} StoredAreFirst(added: seq<InstrumentKey>)
    ensures forall i :: First(added, i) ==> added[i] in AddAll(added)
    ensures forall k :: k in AddAll(added) ==> exists i :: First(added, i) && added[i] == k
  {
    if added != [] {
      var last := |added| - 1;
      var before, key := added[..last], added[last];
      assert added == before + [key];
      StoredAreFirst(before);
      NewestIsFirst(before, key);
      forall i | First(added, i) ensures added[i] in AddAll(added) {
        assert i < last ==> First(before, i) && before[i] in AddAll(before);
      }
      forall k | k in AddAll(added) ensures exists i :: First(added, i) && added[i] == k {
        if k in AddAll(before) {
          var i :| First(before, i) && before[i] == k;
          assert First(added, i) && added[i] == k;
        } else {
          assert First(added, last);
        }
      }
    }
  }

  /** The slot a first argument is stored in. */
  lemma SlotOf(added: seq<InstrumentKey>, i: int) returns (slot: nat)
    requires First(added, i)
    ensures slot < |AddAll(added)| && AddAll(added)[slot] == added[i]
  {
    StoredAreFirst(added);
    slot :| slot < |AddAll(added)| && AddAll(added)[slot] == added[i];
  }

  /** The first argument a slot holds. */
  lemma ArgumentOf(added: seq<InstrumentKey>, slot: nat) returns (i: int)
    requires slot < |AddAll(added)|
    ensures First(added, i) && added[i] == AddAll(added)[slot]
  {
    StoredAreFirst(added);
    assert AddAll(added)[slot] in AddAll(added);
    i :| First(added, i) && added[i] == AddAll(added)[slot];
  }

  lemma FirstHasOwnSymbol(added: seq<InstrumentKey>, i: int, j: int)
    requires First(added, i) && First(added, j) && i != j
    ensures added[i].symbol != added[j].symbol
  {
    assert i < j || j < i;
  }

  /** No two symbols were first added under one id. */
  ghost predicate FirstIdsDistinct(added: seq<InstrumentKey>) {
    forall i, j :: First(added, i) && First(added, j) && added[i].id == added[j].id ==> i == j
  }

  lemma DistinctIffFirstIds(added: seq<InstrumentKey>)
    ensures DistinctIds(AddAll(added)) <==> FirstIdsDistinct(added)
  {
    var keys := AddAll(added);
    AddAllSound(added);
    forall i, j | DistinctIds(keys) && First(added, i) && First(added, j) && added[i].id == added[j].id
      ensures i == j
    {
      var m := SlotOf(added, i);
      var n := SlotOf(added, j);
      assert m == n;
    }
    forall m, n | FirstIdsDistinct(added) && 0 <= m < n < |keys| ensures keys[m].id != keys[n].id {
      var i := ArgumentOf(added, m);
      var j := ArgumentOf(added, n);
      assert keys[m].symbol != keys[n].symbol;
    }
  }

  /** Looking a symbol up and then its id leads back to the key that carries the symbol. */
  ghost predicate ResolvesBothWays(keys: seq<InstrumentKey>) {
    forall i :: 0 <= i < |keys| ==>
      && ScanSymbol(keys, keys[i].symbol) == Some(keys[i].id)
      && ScanId(keys, keys[i].id) == Some(keys[i])
  }

  /**
   `add` does not look at the id of a key it takes. So `find` and `by_symbol` invert each other exactly when the
   caller never adds a new symbol under an id it has added another symbol under.
   */
  lemma BijectionIffDistinctIds(added: seq<InstrumentKey>)
    ensures ResolvesBothWays(AddAll(added)) <==> FirstIdsDistinct(added)
    ensures ResolvesBothWays(AddAll(added)) <==> DistinctIds(AddAll(added))
  {
    var keys := AddAll(added);
    DistinctIffFirstIds(added);
    AddAllSound(added);
    forall i | 0 <= i < |keys| ensures ScanSymbol(keys, keys[i].symbol) == Some(keys[i].id) {
      ScanSymbolFinds(keys, keys[i].symbol);
    }
    forall i | 0 <= i < |keys| && DistinctIds(keys) ensures ScanId(keys, keys[i].id) == Some(keys[i]) {
      ScanIdFinds(keys, keys[i].id);
    }
    if ResolvesBothWays(keys) {
      forall i, j | 0 <= i < j < |keys| ensures keys[i].id != keys[j].id {
        assert ScanId(keys, keys[i].id) == Some(keys[i]);
        assert ScanId(keys, keys[j].id) == Some(keys[j]);
        assert keys[i].symbol != keys[j].symbol;
      }
    }
  }

  /** Two symbols under one id: `add` takes both, and the second symbol resolves to the first key. */
  lemma SharedIdMisroutes(a: InstrumentKey, b: InstrumentKey)
    requires a.id == b.id != 0 && a.symbol != b.symbol
    ensures AddAll([a, b]) == [a, b]
    ensures ScanSymbol([a, b], b.symbol) == Some(b.id) && ScanId([a, b], b.id) == Some(a)
  {
    assert [a, b][..1] == [a] && [a][..0] == [] && [a, b][1..] == [b];
    assert AddAll([a]) == AddKey([], a) == [a];
    ScanAppend([a], b, b.id, b.symbol);
    ScanAppend([], a, b.id, b.symbol);
    assert [] + [a] == [a] && [a] + [b] == [a, b];
    assert AddAll([a, b]) == AddKey([a], b);
  }

  // ---------- Subscription order ----------

  function OfKind(keys: seq<InstrumentKey>, kind: InstrumentKind): seq<InstrumentKey> {
    if keys == [] then []
    else OfKind(keys[..|keys| - 1], kind) + if keys[|keys| - 1].kind == kind then [keys[|keys| - 1]] else []
  }

  function Channels(keys: seq<InstrumentKey>, interval: string): seq<string> {
    seq(|keys|, i requires 0 <= i < |keys| => ChannelFor(keys[i], interval))
  }

  function Ids(keys: seq<InstrumentKey>): seq<int> {
    seq(|keys|, i requires 0 <= i < |keys| => keys[i].id)
  }

  /** The stable three-way partition: spot index, then futures, then options. */
  function SubscriptionOrder(keys: seq<InstrumentKey>): seq<InstrumentKey> {
    OfKind(keys, IndexKind) + OfKind(keys, FutureKind) + OfKind(keys, OptionKind)
  }

  /** The slots of the keys of a kind, in increasing order. */
  function SlotsOfKind(keys: seq<InstrumentKey>, kind: InstrumentKind): seq<nat> {
    if keys == [] then []
    else SlotsOfKind(keys[..|keys| - 1], kind) + if keys[|keys| - 1].kind == kind then [|keys| - 1] else []
  }

  /** `picked` reads off exactly the slots of the kind, left to right. */
  ghost predicate ReadsOff(keys: seq<InstrumentKey>, kind: InstrumentKind, slots: seq<nat>,
                           picked: seq<InstrumentKey>) {
    && |picked| == |slots|
    && (forall i :: 0 <= i < |slots| ==>
          slots[i] < |keys| && picked[i] == keys[slots[i]] && keys[slots[i]].kind == kind)
    && (forall i, j :: 0 <= i < j < |slots| ==> slots[i] < slots[j])
    && (forall n: nat :: n < |keys| && keys[n].kind == kind ==> n in slots)
  }

  lemma ReadsOffSnoc(keys: seq<InstrumentKey>, k: InstrumentKey, kind: InstrumentKind, slots: seq<nat>,
                     picked: seq<InstrumentKey>)
    requires ReadsOff(keys, kind, slots, picked)
    ensures k.kind == kind ==> ReadsOff(keys + [k], kind, slots + [|keys|], picked + [k])
    ensures k.kind != kind ==> ReadsOff(keys + [k], kind, slots, picked)
  {
    assert forall n :: n in slots + [|keys|] <==> n in slots || n == |keys|;
  }

  /** `OfKind` is stable and complete. */
  lemma {:induction false} OfKindStable(keys: seq<InstrumentKey>, kind: InstrumentKind)
    ensures ReadsOff(keys, kind, SlotsOfKind(keys, kind), OfKind(keys, kind))
  {
    if keys != [] {
      var before, k := keys[..|keys| - 1], keys[|keys| - 1];
      OfKindStable(before, kind);
      ReadsOffSnoc(before, k, kind, SlotsOfKind(before, kind), OfKind(before, kind));
      assert keys == before + [k];
      assert OfKind(before, kind) + [] == OfKind(before, kind);
      assert SlotsOfKind(before, kind) + [] == SlotsOfKind(before, kind);
    }
  }

  /** Spot before futures before options. */
  function Priority(kind: InstrumentKind): nat {
    match kind
    case IndexKind => 0
    case FutureKind => 1
    case OptionKind => 2
    case _ => 3
  }

  lemma GroupOf(keys: seq<InstrumentKey>, n: nat)
    requires n < |SubscriptionOrder(keys)|
    ensures var a, b, kind := |OfKind(keys, IndexKind)|, |OfKind(keys, FutureKind)|, SubscriptionOrder(keys)[n].kind;
            kind == if n < a then IndexKind else if n < a + b then FutureKind else OptionKind
  {
    OfKindStable(keys, IndexKind);
    OfKindStable(keys, FutureKind);
    OfKindStable(keys, OptionKind);
  }

  lemma OfKindHolds(keys: seq<InstrumentKey>, k: InstrumentKey)
    requires k in keys
    ensures k in OfKind(keys, k.kind)
  {
    OfKindStable(keys, k.kind);
    var slot: nat :| slot < |keys| && keys[slot] == k;
    var slots := SlotsOfKind(keys, k.kind);
    assert slot in slots;
    var i :| 0 <= i < |slots| && slots[i] == slot;
    assert OfKind(keys, k.kind)[i] == k;
  }

  /**
   Whatever prefix a channel cap leaves, a key is cut off only after every key of lower priority: if the prefix
   reaches an option it holds all futures and the index, if it reaches a future it holds the index.
   */
  lemma TruncationSparesSpot(keys: seq<InstrumentKey>, n: nat, k: InstrumentKey)
    requires n < |SubscriptionOrder(keys)| && k in keys
    requires Priority(k.kind) < Priority(SubscriptionOrder(keys)[n].kind)
    ensures k in SubscriptionOrder(keys)[..n]
  {
    var order, index, future := SubscriptionOrder(keys), OfKind(keys, IndexKind), OfKind(keys, FutureKind);
    GroupOf(keys, n);
    OfKindHolds(keys, k);
    if k.kind == IndexKind {
      var i :| 0 <= i < |index| && index[i] == k;
      assert order[..n][i] == k;
    } else {
      var i :| 0 <= i < |future| && future[i] == k;
      assert order[..n][|index| + i] == k;
    }
  }

  lemma {:induction false} OfKindCount(keys: seq<InstrumentKey>)
    ensures |SubscriptionOrder(keys)| <= |keys|
    ensures |SubscriptionOrder(keys)| == |keys| <==> forall i :: 0 <= i < |keys| ==> Streamed(keys[i])
  {
    if keys != [] {
      OfKindCount(keys[..|keys| - 1]);
    }
  }

  ghost predicate AllDistinct<T>(s: seq<T>) {
    forall i, j :: 0 <= i < j < |s| ==> s[i] != s[j]
  }

  lemma SubscribedKeys(keys: seq<InstrumentKey>, i: nat) returns (slot: nat)
    requires i < |SubscriptionOrder(keys)|
    ensures slot < |keys| && SubscriptionOrder(keys)[i] == keys[slot] && Streamed(keys[slot])
  {
    OfKindStable(keys, IndexKind);
    OfKindStable(keys, FutureKind);
    OfKindStable(keys, OptionKind);
    var a, b := |OfKind(keys, IndexKind)|, |OfKind(keys, FutureKind)|;
    slot := if i < a then SlotsOfKind(keys, IndexKind)[i]
            else if i < a + b then SlotsOfKind(keys, FutureKind)[i - a]
            else SlotsOfKind(keys, OptionKind)[i - a - b];
  }

  /** Nothing is subscribed twice. */
  lemma SubscribedOnce(keys: seq<InstrumentKey>, interval: string)
    requires DistinctSymbols(keys)
    ensures AllDistinct(Channels(SubscriptionOrder(keys), interval))
  {
    var order := SubscriptionOrder(keys);
    OfKindStable(keys, IndexKind);
    OfKindStable(keys, FutureKind);
    OfKindStable(keys, OptionKind);
    forall i, j | 0 <= i < j < |order|
      ensures Channels(order, interval)[i] != Channels(order, interval)[j]
    {
      var m := SubscribedKeys(keys, i);
      var n := SubscribedKeys(keys, j);
      SharedChannel(order[i], order[j], interval);
      assert order[i].symbol == order[j].symbol ==> m == n;
    }
  }

  // ---------- Routing ----------

  /** `bind_channel` for each key in turn. */
  function BindAll(table: map<string, int>, order: seq<InstrumentKey>, interval: string): map<string, int> {
    if order == [] then table
    else
      var k := order[|order| - 1];
      BindAll(table, order[..|order| - 1], interval)[ChannelFor(k, interval) := k.id]
  }

  lemma {:induction false} LastBindingWins(table: map<string, int>, order: seq<InstrumentKey>, interval: string,
                                           k: InstrumentKey)
    requires k in order
    requires forall o :: o in order && ChannelFor(o, interval) == ChannelFor(k, interval) ==> o.id == k.id
    ensures ChannelFor(k, interval) in BindAll(table, order, interval)
    ensures BindAll(table, order, interval)[ChannelFor(k, interval)] == k.id
  {
    var rest, last := order[..|order| - 1], order[|order| - 1];
    if ChannelFor(last, interval) != ChannelFor(k, interval) {
      assert k in rest;
      LastBindingWins(table, rest, interval, k);
    }
  }

  /** A channel leads to the last key bound under it: the empty channel to the last perpetual or unknown. */
  lemma {:induction false} BoundToLast(table: map<string, int>, order: seq<InstrumentKey>, interval: string, n: nat)
    requires n < |order|
    requires forall m :: n < m < |order| ==> ChannelFor(order[m], interval) != ChannelFor(order[n], interval)
    ensures ChannelFor(order[n], interval) in BindAll(table, order, interval)
    ensures BindAll(table, order, interval)[ChannelFor(order[n], interval)] == order[n].id
  {
    if n < |order| - 1 {
      BoundToLast(table, order[..|order| - 1], interval, n);
    }
  }

  /**
   Routing round trip: whatever the order in which the registered keys are bound, and whatever was bound before,
   each streamed key's channel resolves to its id, and with distinct ids from there to the key itself.
   */
  lemma RoutingRoundTrip(added: seq<InstrumentKey>, table: map<string, int>, order: seq<InstrumentKey>,
                         interval: string, k: InstrumentKey)
    requires forall o :: o in order ==> o in AddAll(added)
    requires k in order && Streamed(k)
    ensures ChannelFor(k, interval) in BindAll(table, order, interval)
    ensures BindAll(table, order, interval)[ChannelFor(k, interval)] == k.id
    ensures DistinctIds(AddAll(added)) ==> ScanId(AddAll(added), k.id) == Some(k)
  {
    var keys := AddAll(added);
    AddAllSound(added);
    forall o | o in order && ChannelFor(o, interval) == ChannelFor(k, interval) ensures o.id == k.id {
      SharedChannel(o, k, interval);
      SharedChannel(k, o, interval);
      assert o.symbol == k.symbol;
    }
    LastBindingWins(table, order, interval, k);
    if DistinctIds(keys) {
      BijectionIffDistinctIds(added);
      var i :| 0 <= i < |keys| && keys[i] == k;
    }
  }

  /** Of the symbols added, at most one is neither streamed nor a repeat. */
  ghost predicate AtMostOneUnstreamed(added: seq<InstrumentKey>) {
    forall i, j :: First(added, i) && First(added, j) && i != j ==> Streamed(added[i]) || Streamed(added[j])
  }

  /** Of the keys of a registry, at most one is not streamed. */
  ghost predicate StreamedButOne(keys: seq<InstrumentKey>) {
    forall m, n :: 0 <= m < n < |keys| ==> Streamed(keys[m]) || Streamed(keys[n])
  }

  lemma SlotsStreamed(added: seq<InstrumentKey>, m: nat, n: nat)
    requires AtMostOneUnstreamed(added) && m < n < |AddAll(added)|
    ensures Streamed(AddAll(added)[m]) || Streamed(AddAll(added)[n])
  {
    AddAllSound(added);
    var i := ArgumentOf(added, m);
    var j := ArgumentOf(added, n);
    assert added[i].symbol != added[j].symbol;
  }

  lemma ArgumentsStreamed(added: seq<InstrumentKey>, i: int, j: int)
    requires StreamedButOne(AddAll(added)) && First(added, i) && First(added, j) && i != j
    ensures Streamed(added[i]) || Streamed(added[j])
  {
    var m := SlotOf(added, i);
    var n := SlotOf(added, j);
    FirstHasOwnSymbol(added, i, j);
    assert m < n || n < m;
  }

  lemma UnstreamedSlots(added: seq<InstrumentKey>)
    ensures AtMostOneUnstreamed(added) <==> StreamedButOne(AddAll(added))
  {
    if AtMostOneUnstreamed(added) {
      forall m, n | 0 <= m < n < |AddAll(added)| ensures Streamed(AddAll(added)[m]) || Streamed(AddAll(added)[n]) {
        SlotsStreamed(added, m, n);
      }
    }
    if StreamedButOne(AddAll(added)) {
      forall i, j | First(added, i) && First(added, j) && i != j ensures Streamed(added[i]) || Streamed(added[j]) {
        ArgumentsStreamed(added, i, j);
      }
    }
  }

  /** The channels of a registry are distinct exactly when at most one of the symbols added has none. */
  lemma ChannelsDistinctIff(added: seq<InstrumentKey>, interval: string)
    ensures AllDistinct(Channels(AddAll(added), interval)) <==> AtMostOneUnstreamed(added)
    ensures AllDistinct(Channels(AddAll(added), interval)) <==> StreamedButOne(AddAll(added))
  {
    var keys := AddAll(added);
    AddAllSound(added);
    UnstreamedSlots(added);
    forall m, n | 0 <= m < n < |keys|
      ensures Channels(keys, interval)[m] != Channels(keys, interval)[n] <==> Streamed(keys[m]) || Streamed(keys[n])
    {
      SharedChannel(keys[m], keys[n], interval);
    }
  }

  /** Every key's channel leads to the key. */
  ghost predicate RoutesToKeys(keys: seq<InstrumentKey>, table: map<string, int>, interval: string) {
    forall k :: k in keys ==>
      ChannelFor(k, interval) in table && ScanId(keys, table[ChannelFor(k, interval)]) == Some(k)
  }

  lemma FoundHasId(keys: seq<InstrumentKey>, id: int)
    ensures ScanId(keys, id).Some? ==> ScanId(keys, id).value.id == id && ScanId(keys, id).value in keys
  {
    ScanIdFinds(keys, id);
  }

  /**
   A registry bound in full routes every channel to its key exactly when no two symbols were added under one id
   and at most one of them has no channel.
   */
  lemma RoutingIff(added: seq<InstrumentKey>, table: map<string, int>, order: seq<InstrumentKey>, interval: string)
    requires forall o :: o in order <==> o in AddAll(added)
    ensures RoutesToKeys(AddAll(added), BindAll(table, order, interval), interval) <==>
            FirstIdsDistinct(added) && AtMostOneUnstreamed(added)
  {
    var keys, bound := AddAll(added), BindAll(table, order, interval);
    DistinctIffFirstIds(added);
    UnstreamedSlots(added);
    AddAllSound(added);
    if DistinctIds(keys) && AtMostOneUnstreamed(added) {
      forall k | k in keys
        ensures ChannelFor(k, interval) in bound && ScanId(keys, bound[ChannelFor(k, interval)]) == Some(k)
      {
        KeyRoutes(added, table, order, interval, k);
      }
    }
    if RoutesToKeys(keys, bound, interval) {
      forall m, n | 0 <= m < n < |keys|
        ensures keys[m].id != keys[n].id && (Streamed(keys[m]) || Streamed(keys[n]))
      {
        RoutedApart(keys, bound, interval, keys[m], keys[n]);
      }
    }
  }

  lemma KeyRoutes(added: seq<InstrumentKey>, table: map<string, int>, order: seq<InstrumentKey>, interval: string,
                  k: InstrumentKey)
    requires forall o :: o in order ==> o in AddAll(added)
    requires DistinctIds(AddAll(added)) && AtMostOneUnstreamed(added) && k in order
    ensures ChannelFor(k, interval) in BindAll(table, order, interval)
    ensures ScanId(AddAll(added), BindAll(table, order, interval)[ChannelFor(k, interval)]) == Some(k)
  {
    var keys := AddAll(added);
    ChannelsDistinctIff(added, interval);
    BijectionIffDistinctIds(added);
    var n :| 0 <= n < |keys| && keys[n] == k;
    forall o | o in order && ChannelFor(o, interval) == ChannelFor(k, interval) ensures o.id == k.id {
      var m :| 0 <= m < |keys| && keys[m] == o;
      assert Channels(keys, interval)[m] == Channels(keys, interval)[n];
      assert m == n;
    }
    LastBindingWins(table, order, interval, k);
  }

  /** Two keys that are both routed to have their own ids and their own channels. */
  lemma RoutedApart(keys: seq<InstrumentKey>, table: map<string, int>, interval: string,
                    a: InstrumentKey, b: InstrumentKey)
    requires RoutesToKeys(keys, table, interval) && a in keys && b in keys && a.symbol != b.symbol
    ensures a.id != b.id && (Streamed(a) || Streamed(b))
  {
    FoundHasId(keys, table[ChannelFor(a, interval)]);
    FoundHasId(keys, table[ChannelFor(b, interval)]);
    SharedChannel(a, b, interval);
  }

  /** Two perpetuals: both are taken, their channels are one, and the first one's leads to the second. */
  lemma PerpetualsMisroute(a: InstrumentKey, b: InstrumentKey, interval: string)
    requires a.kind == PerpetualKind && b.kind == PerpetualKind && a.symbol != b.symbol
    requires a.id != 0 && b.id != 0 && a.id != b.id
    ensures AddAll([a, b]) == [a, b]
    ensures ChannelFor(a, interval) in BindAll(map[], [a, b], interval)
    ensures BindAll(map[], [a, b], interval)[ChannelFor(a, interval)] == b.id
    ensures ScanId([a, b], b.id) == Some(b)
  {
    assert [a, b][..1] == [a] && [a][..0] == [] && [a, b][1..] == [b];
    assert AddAll([a]) == AddKey([], a) == [a];
    assert ScanSymbol([a], b.symbol).None? by {
      assert [a][1..] == [];
    }
    assert AddAll([a, b]) == AddKey([a], b);
  }

  // ---------- The channel table ----------

  datatype Binding = Binding(channel: string, id: int)

  /** The id of the last binding of the channel, if any. */
  function LastBinding(bindings: seq<Binding>, channel: string): Option<int> {
    if bindings == [] then None
    else if bindings[|bindings| - 1].channel == channel then Some(bindings[|bindings| - 1].id)
    else LastBinding(bindings[..|bindings| - 1], channel)
  }

  /** Nothing for a channel nobody bound; otherwise what the latest binding of it said. */
  lemma {:induction false} LastBindingFinds(bindings: seq<Binding>, channel: string)
    ensures LastBinding(bindings, channel).None? <==> forall b :: b in bindings ==> b.channel != channel
    ensures forall n :: 0 <= n < |bindings| && bindings[n].channel == channel
                        && (forall m :: n < m < |bindings| ==> bindings[m].channel != channel)
                        ==> LastBinding(bindings, channel) == Some(bindings[n].id)
  {
    if bindings != [] {
      var before, last := bindings[..|bindings| - 1], bindings[|bindings| - 1];
      LastBindingFinds(before, channel);
      assert bindings == before + [last];
      assert forall n :: 0 <= n < |before| ==> before[n] == bindings[n];
    }
  }

  lemma BindingSnoc(bindings: seq<Binding>, b: Binding, channel: string)
    ensures LastBinding(bindings + [b], channel) ==
            if b.channel == channel then Some(b.id) else LastBinding(bindings, channel)
  {
    assert (bindings + [b])[..|bindings + [b]| - 1] == bindings;
  }

  ghost predicate ChannelsAgree(byChannel: map<string, int>, bindings: seq<Binding>) {
    && (forall c :: c in byChannel <==> LastBinding(bindings, c).Some?)
    && (forall c :: c in byChannel ==> LastBinding(bindings, c) == Some(byChannel[c]))
  }

  /** Binding keys one after the other adds exactly their channels. */
  lemma {:induction false} BoundExactly(table: map<string, int>, order: seq<InstrumentKey>, interval: string,
                                        channel: string)
    ensures channel in BindAll(table, order, interval) <==>
            channel in table || exists k :: k in order && ChannelFor(k, interval) == channel
    ensures (forall k :: k in order ==> ChannelFor(k, interval) != channel) && channel in table ==>
              BindAll(table, order, interval)[channel] == table[channel]
  {
    if order != [] {
      var before, last := order[..|order| - 1], order[|order| - 1];
      BoundExactly(table, before, interval, channel);
      assert order == before + [last];
      assert forall k :: k in order <==> k in before || k == last;
    }
  }

  lemma AllBound(added: seq<InstrumentKey>, table: map<string, int>, order: seq<InstrumentKey>, interval: string)
    requires forall o :: o in order ==> o in AddAll(added)
    ensures forall k :: k in order && Streamed(k) ==>
              && ChannelFor(k, interval) in BindAll(table, order, interval)
              && BindAll(table, order, interval)[ChannelFor(k, interval)] == k.id
    ensures forall c :: c in BindAll(table, order, interval) <==>
              c in table || exists k :: k in order && ChannelFor(k, interval) == c
  {
    forall k | k in order && Streamed(k)
      ensures ChannelFor(k, interval) in BindAll(table, order, interval)
      ensures BindAll(table, order, interval)[ChannelFor(k, interval)] == k.id
    {
      RoutingRoundTrip(added, table, order, interval, k);
    }
    forall c {
      BoundExactly(table, order, interval, c);
    }
  }

  // ---------- The class ----------

  ghost predicate IndexesAgree(keys: seq<InstrumentKey>, slotById: map<int, nat>, bySymbol: map<string, int>) {
    && (forall id :: id in slotById <==> ScanId(keys, id).Some?)
    && (forall id :: id in slotById ==> slotById[id] < |keys| && ScanId(keys, id) == Some(keys[slotById[id]]))
    && (forall s :: s in bySymbol <==> ScanSymbol(keys, s).Some?)
    && (forall s :: s in bySymbol ==> ScanSymbol(keys, s) == Some(bySymbol[s]))
  }

  /** Appending a key keeps the indexes in agreement; an id already taken keeps its slot. */
  lemma AppendAgrees(keys: seq<InstrumentKey>, slotById: map<int, nat>, bySymbol: map<string, int>,
                     key: InstrumentKey)
    requires IndexesAgree(keys, slotById, bySymbol) && key.symbol !in bySymbol
    ensures IndexesAgree(keys + [key],
                         if key.id in slotById then slotById else slotById[key.id := |keys|],
                         bySymbol[key.symbol := key.id])
  {
    forall id, s {
      ScanAppend(keys, key, id, s);
    }
  }

  lemma AddSnoc(added: seq<InstrumentKey>, key: InstrumentKey)
    ensures AddAll(added + [key]) == AddKey(AddAll(added), key)
  {
    assert (added + [key])[..|added + [key]| - 1] == added;
  }

  class InstrumentRegistry {
    var keys: seq<InstrumentKey>
    var slotById: map<int, nat>
    var bySymbol: map<string, int>
    var byChannel: map<string, int>
    /** The arguments of the `add` calls so far. */
    ghost var added: seq<InstrumentKey>
    /** The `bind_channel` calls so far. */
    ghost var bindings: seq<Binding>

    ghost predicate Valid()
      reads this
    {
      && keys == AddAll(added) && IndexesAgree(keys, slotById, bySymbol)
      && ChannelsAgree(byChannel, bindings)
    }

    constructor ()
      ensures Valid() && keys == [] && added == [] && byChannel == map[] && bindings == []
      ensures forall c :: ByChannel(c) == None
    {
      keys, slotById, bySymbol, byChannel, added, bindings := [], map[], map[], map[], [], [];
    }

    method Add(key: InstrumentKey) returns (id: Option<int>)
      requires Valid()
      modifies this
      ensures Valid() && added == old(added) + [key]
      ensures keys == AddKey(old(keys), key) && id == AddResult(old(keys), key)
      ensures id.None? <==> key.id == 0
      ensures id.Some? ==> BySymbol(key.symbol) == id
      ensures byChannel == old(byChannel) && bindings == old(bindings)
    {
      AddSnoc(added, key);
      AddFinds(keys, key);
      var existing := BySymbol(key.symbol);
      added := added + [key];
      if key.id == 0 {
        return None;
      }
      if existing.Some? {
        return existing;
      }
      AppendAgrees(keys, slotById, bySymbol, key);
      slotById := if key.id in slotById then slotById else slotById[key.id := |keys|];
      bySymbol := bySymbol[key.symbol := key.id];
      keys := keys + [key];
      return Some(key.id);
    }

    function Find(id: int): (k: Option<InstrumentKey>)
      requires Valid()
      reads this
      ensures k == ScanId(keys, id)
    {
      if id in slotById then Some(keys[slotById[id]]) else None
    }

    function BySymbol(symbol: string): (id: Option<int>)
      requires Valid()
      reads this
      ensures id == ScanSymbol(keys, symbol)
    {
      if symbol in bySymbol then Some(bySymbol[symbol]) else None
    }

    function ByChannel(channel: string): (id: Option<int>)
      requires Valid()
      reads this
      ensures id == LastBinding(bindings, channel)
    {
      if channel in byChannel then Some(byChannel[channel]) else None
    }

    method BindChannel(channel: string, id: int)
      requires Valid()
      modifies this`byChannel, this`bindings
      ensures Valid() && bindings == old(bindings) + [Binding(channel, id)]
      ensures byChannel == old(byChannel)[channel := id]
      ensures ByChannel(channel) == Some(id)
      ensures forall c :: c != channel ==> ByChannel(c) == old(ByChannel(c))
    {
      forall c {
        BindingSnoc(bindings, Binding(channel, id), c);
      }
      bindings := bindings + [Binding(channel, id)];
      byChannel := byChannel[channel := id];
    }

    /** Bind every listed key's channel in turn. */
    method BindEach(order: seq<InstrumentKey>, interval: string)
      requires Valid()
      requires forall o :: o in order ==> o in keys
      modifies this`byChannel, this`bindings
      ensures Valid()
      ensures byChannel == BindAll(old(byChannel), order, interval)
      ensures forall c :: ByChannel(c).Some? <==>
                old(ByChannel(c)).Some? || exists k :: k in order && ChannelFor(k, interval) == c
      ensures forall k :: k in order && Streamed(k) ==> ByChannel(ChannelFor(k, interval)) == Some(k.id)
    {
      for i := 0 to |order|
        invariant Valid() && byChannel == BindAll(old(byChannel), order[..i], interval)
      {
        BindChannel(ChannelFor(order[i], interval), order[i].id);
        assert order[..i + 1][..i] == order[..i];
      }
      assert order[..|order|] == order;
      AllBound(added, old(byChannel), order, interval);
    }

    method IdsOfKind(kind: InstrumentKind) returns (ids: seq<int>)
      requires Valid()
      ensures ids == Ids(OfKind(keys, kind))
      ensures var slots := SlotsOfKind(keys, kind);
              |ids| == |slots| && forall i :: 0 <= i < |ids| ==> slots[i] < |keys| && ids[i] == keys[slots[i]].id
    {
      OfKindStable(keys, kind);
      ids := [];
      for i := 0 to |keys|
        invariant ids == Ids(OfKind(keys[..i], kind))
      {
        assert keys[..i + 1][..|keys[..i + 1]| - 1] == keys[..i];
        if keys[i].kind == kind {
          ids := ids + [keys[i].id];
        }
      }
      assert keys[..|keys|] == keys;
    }

    /** The nested loops, kind by kind, with the empty-channel test the source makes. */
    method SubscriptionChannels(interval: string) returns (channels: seq<string>)
      requires Valid()
      ensures channels == Channels(SubscriptionOrder(keys), interval)
      ensures AllDistinct(channels)
      ensures |channels| == |keys| <==> forall i :: 0 <= i < |keys| ==> Streamed(keys[i])
    {
      AddAllSound(added);
      SubscribedOnce(keys, interval);
      OfKindCount(keys);
      var kinds := [IndexKind, FutureKind, OptionKind];
      channels := [];
      for n := 0 to 3
        invariant channels == Channels(FirstKinds(keys, n), interval)
      {
        channels := AppendKind(channels, kinds[n], interval);
        ChannelsConcat(FirstKinds(keys, n), OfKind(keys, kinds[n]), interval);
      }
    }

    /** The inner loop: append the channels of one kind in insertion order. */
    method AppendKind(before: seq<string>, kind: InstrumentKind, interval: string) returns (channels: seq<string>)
      requires Valid() && kind in {IndexKind, FutureKind, OptionKind}
      ensures channels == before + Channels(OfKind(keys, kind), interval)
    {
      channels := before;
      for i := 0 to |keys|
        invariant channels == before + Channels(OfKind(keys[..i], kind), interval)
      {
        OfKindSnoc(keys, i, kind, interval);
        if keys[i].kind != kind {
          continue;
        }
        var channel := ChannelFor(keys[i], interval);
        if channel != "" {
          channels := channels + [channel];
        }
      }
      assert keys[..|keys|] == keys;
    }
  }

  /** The first n groups of the subscription order. */
  function FirstKinds(keys: seq<InstrumentKey>, n: nat): seq<InstrumentKey>
    requires n <= 3
  {
    if n == 0 then []
    else if n == 1 then OfKind(keys, IndexKind)
    else if n == 2 then OfKind(keys, IndexKind) + OfKind(keys, FutureKind)
    else SubscriptionOrder(keys)
  }

  lemma ChannelsConcat(a: seq<InstrumentKey>, b: seq<InstrumentKey>, interval: string)
    ensures Channels(a + b, interval) == Channels(a, interval) + Channels(b, interval)
  {
  }

  lemma OfKindSnoc(keys: seq<InstrumentKey>, i: nat, kind: InstrumentKind, interval: string)
    requires i < |keys| && kind in {IndexKind, FutureKind, OptionKind}
    ensures Channels(OfKind(keys[..i + 1], kind), interval) ==
            Channels(OfKind(keys[..i], kind), interval)
            + if keys[i].kind == kind then [ChannelFor(keys[i], interval)] else []
    ensures keys[i].kind == kind ==> ChannelFor(keys[i], interval) != ""
  {
    assert keys[..i + 1][..|keys[..i + 1]| - 1] == keys[..i];
    SharedChannel(keys[i], keys[i], interval);
  }
}
