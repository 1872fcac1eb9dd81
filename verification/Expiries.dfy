/**
 Which expiry a registered contract carries. The query takes the option row's before the future row's, and a symbol
 once listed as another kind keeps that kind's row, so an old option can speak for a future. The laws here say exactly
 what is carried, on histories and payloads.
 */
module Expiries {
  import opened Wrappers
  import opened Symbol
  import opened Registry
  import opened Repository
  import opened EndToEnd
  import R = ReferenceData
  import L = IngestLaws

  // ---------- From rows to the registry ----------

  /** The first of the stored expirations, in nanoseconds, or what the symbol says. */
  function ExpiryFrom(first: Option<int>, second: Option<int>, parsed: int): int {
    if first.Some? then first.value * 1000 else if second.Some? then second.value * 1000 else parsed
  }

  function OptionExpiry(t: R.Tables, id: int): Option<int> {
    if id in t.option then t.option[id].expiration else None
  }

  function FutureExpiry(t: R.Tables, id: int): Option<int> {
    if id in t.future then t.future[id].expiration else None
  }

  /** A registered contract carries the option row's expiration, or else the future row's, or else its symbol's. */
  lemma RegisteredExpiry(ps: seq<R.Payload>, id: int, symbol: string)
    requires Selected(R.RunAll(ps).tables, R.DERIBIT, id) && R.RunAll(ps).tables.instrument[id].symbol == symbol
    requires ScanId(AddAll(Loaded(ps)), id).Some?
    ensures ParseSymbol(symbol).Some?
    ensures var k, t := ScanId(AddAll(Loaded(ps)), id).value, R.RunAll(ps).tables;
            && k.id == id && k.symbol == symbol && k.kind == ParseSymbol(symbol).value.kind
            && (k.kind != IndexKind ==>
                  k.expiry == ExpiryFrom(OptionExpiry(t, id), FutureExpiry(t, id), ParseSymbol(symbol).value.expiry))
            && (k.kind != OptionKind ==> k.strike.None?)
  {
    var k := ScanId(AddAll(Loaded(ps)), id).value;
    FindLoaded(ps, id, k);
    LoadedKey(ps, k);
    MappedFields(RowOf(R.RunAll(ps).tables, id));
    MappedExactly(RowOf(R.RunAll(ps).tables, id));
  }

  // ---------- The last future listed ----------

  /** Future i of the payload is dated, and no later dated one has its symbol. */
  ghost predicate LastFutureListed(p: R.Payload, i: nat) {
    && p.futures.Some? && i < |p.futures.value| && !R.IsPerpetual(p.futures.value[i])
    && forall j :: i < j < |p.futures.value| && !R.IsPerpetual(p.futures.value[j]) ==>
                     p.futures.value[j].venueSymbol != p.futures.value[i].venueSymbol
  }

  /** The place of the last listed future among the dated ones, where it is still the last. */
  lemma {:induction false} DatedPlace(cs: seq<R.FutureContract>, i: nat) returns (k: nat)
    requires i < |cs| && !R.IsPerpetual(cs[i])
    requires forall j :: i < j < |cs| && !R.IsPerpetual(cs[j]) ==> cs[j].venueSymbol != cs[i].venueSymbol
    ensures k < |R.Dated(cs)| && R.Dated(cs)[k] == cs[i]
    ensures forall j :: k < j < |R.Dated(cs)| ==> R.Dated(cs)[j].venueSymbol != cs[i].venueSymbol
  {
    var before, last := cs[..|cs| - 1], cs[|cs| - 1];
    if i == |cs| - 1 {
      k := |R.Dated(before)|;
    } else {
      k := DatedPlace(before, i);
    }
  }

  lemma {:induction false} LastFutureIs(us: seq<R.Upsert>, n: nat)
    requires L.AllAcceptable(us) && n < |us| && us[n].FutureUpsert?
    requires forall j :: n < j < |us| && us[j].FutureUpsert? ==> us[j].Name() != us[n].Name()
    ensures L.LastFuture(us, us[n].Name()) == Some(L.NewFutureRow(us[n].future))
  {
    if n < |us| - 1 {
      LastFutureIs(us[..|us| - 1], n);
    }
  }

  lemma {:induction false} NoOptionWritten(us: seq<R.Upsert>, symbol: string)
    requires L.AllAcceptable(us) && forall j :: 0 <= j < |us| && us[j].OptionUpsert? ==> us[j].Name() != symbol
    ensures L.LastOption(us, symbol).None?
  {
    if us != [] {
      NoOptionWritten(us[..|us| - 1], symbol);
    }
  }

  lemma {:induction false} NoFutureWritten(us: seq<R.Upsert>, symbol: string)
    requires L.AllAcceptable(us) && forall j :: 0 <= j < |us| && us[j].FutureUpsert? ==> us[j].Name() != symbol
    ensures L.LastFuture(us, symbol).None?
  {
    if us != [] {
      NoFutureWritten(us[..|us| - 1], symbol);
    }
  }

  /** The upsert of the last listed future, with nothing of its symbol behind it among the futures. */
  lemma FutureAttempted(p: R.Payload, i: nat) returns (n: nat)
    requires p.options.Some? && LastFutureListed(p, i)
    ensures n < |R.Attempted(p)| && R.Attempted(p)[n] == R.FutureUpsert(p.futures.value[i])
    ensures forall j :: n < j < |R.Attempted(p)| && R.Attempted(p)[j].FutureUpsert? ==>
                          R.Attempted(p)[j].Name() != p.futures.value[i].venueSymbol
  {
    var os, fs := R.OptionUpserts(p.options.value), R.FutureUpserts(R.Dated(p.futures.value));
    var k := DatedPlace(p.futures.value, i);
    n := |os| + k;
    forall j | n < j < |R.Attempted(p)| && R.Attempted(p)[j].FutureUpsert?
      ensures R.Attempted(p)[j].Name() != p.futures.value[i].venueSymbol
    {
      assert R.Attempted(p)[j] == fs[j - |os|];
    }
  }

  lemma OptionAttempted(p: R.Payload, i: nat)
    requires p.futures.Some? && LastListed(p, i)
    ensures i < |R.Attempted(p)| && R.Attempted(p)[i] == R.OptionUpsert(p.options.value[i])
    ensures forall j :: i < j < |R.Attempted(p)| && R.Attempted(p)[j].OptionUpsert? ==>
                          R.Attempted(p)[j].Name() != p.options.value[i].venueSymbol
  {
    var os := R.OptionUpserts(p.options.value);
    forall j | i < j < |R.Attempted(p)| && R.Attempted(p)[j].OptionUpsert?
      ensures R.Attempted(p)[j].Name() != p.options.value[i].venueSymbol
    {
      assert R.Attempted(p)[j] == os[j];
    }
  }

  // ---------- What a run leaves for its symbols ----------

  /** The venue's row of the symbol before the run, if there is one. */
  function EarlierId(db: R.Db, symbol: string): Option<int> {
    var key := (R.VenueId(db), symbol);
    if key in db.tables.bySymbol then Some(db.tables.bySymbol[key]) else None
  }

  /** The expiration an option row holds for the symbol before the run. */
  function EarlierOptionExpiry(db: R.Db, symbol: string): Option<int> {
    if EarlierId(db, symbol).Some? then OptionExpiry(db.tables, EarlierId(db, symbol).value) else None
  }

  function EarlierFutureExpiry(db: R.Db, symbol: string): Option<int> {
    if EarlierId(db, symbol).Some? then FutureExpiry(db.tables, EarlierId(db, symbol).value) else None
  }

  /** The venue's row of a symbol after a run is the one it had before, if it had one. */
  lemma SameRow(db: R.Db, p: R.Payload, symbol: string, id: int)
    requires R.Consistent(db) && R.Commits(db, p)
    requires var t := R.Run(db, p).tables;
             && R.Consistent(R.Run(db, p)) && id in t.instrument
             && t.instrument[id].venueId == R.VenueId(db) && t.instrument[id].symbol == symbol
    ensures EarlierId(db, symbol) == if id in db.tables.instrument then Some(id) else None
    ensures R.EnsureSchema(db).tables == db.tables.(venue := R.EnsureSchema(db).tables.venue)
  {
    R.RunKeeps(db, p);
    var t, t' := db.tables, R.Run(db, p).tables;
    assert t'.bySymbol[(R.VenueId(db), symbol)] == id;
    if id in t.instrument {
      assert t.instrument[id].venueId == R.VenueId(db) && t.instrument[id].symbol == symbol;
    }
  }

  /** The venue's row of the symbol after the run. */
  ghost predicate VenueRowOf(db: R.Db, p: R.Payload, symbol: string, id: int) {
    var t := R.Run(db, p).tables;
    id in t.instrument && t.instrument[id].venueId == R.VenueId(db) && t.instrument[id].symbol == symbol
  }

  /** The expirations of a cell are the last ones written for its symbol, or those it had. */
  lemma CellExpiries(t: R.Tables, t': R.Tables, v: int, us: seq<R.Upsert>, id: int)
    requires L.AllAcceptable(us) && id in t'.instrument && t'.instrument[id].venueId == v && L.Cell(t, t', v, us, id)
    ensures var option := L.LastOption(us, t'.instrument[id].symbol);
            OptionExpiry(t', id) == if option.Some? then option.value.expiration else OptionExpiry(t, id)
    ensures var future := L.LastFuture(us, t'.instrument[id].symbol);
            FutureExpiry(t', id) == if future.Some? then future.value.expiration else FutureExpiry(t, id)
  {
  }

  lemma EarlierExpiries(db: R.Db, p: R.Payload, symbol: string, id: int)
    requires R.Consistent(db) && R.Commits(db, p) && VenueRowOf(db, p, symbol, id)
    ensures EarlierOptionExpiry(db, symbol) == OptionExpiry(R.EnsureSchema(db).tables, id)
    ensures EarlierFutureExpiry(db, symbol) == FutureExpiry(R.EnsureSchema(db).tables, id)
  {
    R.RunKeeps(db, p);
    SameRow(db, p, symbol, id);
  }

  /** A subtype table has the run's last expiration for the symbol, or if it wrote none the one it had. */
  lemma ExpiriesAfterRun(db: R.Db, p: R.Payload, symbol: string, id: int)
    requires R.Consistent(db) && R.Commits(db, p) && L.AllAcceptable(R.Attempted(p))
    requires VenueRowOf(db, p, symbol, id)
    ensures var option := L.LastOption(R.Attempted(p), symbol);
            OptionExpiry(R.Run(db, p).tables, id) ==
            if option.Some? then option.value.expiration else EarlierOptionExpiry(db, symbol)
    ensures var future := L.LastFuture(R.Attempted(p), symbol);
            FutureExpiry(R.Run(db, p).tables, id) ==
            if future.Some? then future.value.expiration else EarlierFutureExpiry(db, symbol)
  {
    L.RunCell(db, p, id);
    CellExpiries(R.EnsureSchema(db).tables, R.Run(db, p).tables, R.VenueId(db), R.Attempted(p), id);
    EarlierExpiries(db, p, symbol, id);
  }

  /** A committed run with no symbol of two kinds writes a symbol to one subtype table only. */
  lemma OneKindWritten(db: R.Db, p: R.Payload, n: nat)
    requires R.Consistent(db) && R.Commits(db, p) && NoSymbolChangesKind(db, p) && n < |R.Attempted(p)|
    ensures L.AllAcceptable(R.Attempted(p))
    ensures !R.Attempted(p)[n].OptionUpsert? ==> L.LastOption(R.Attempted(p), R.Attempted(p)[n].Name()).None?
    ensures !R.Attempted(p)[n].FutureUpsert? ==> L.LastFuture(R.Attempted(p), R.Attempted(p)[n].Name()).None?
  {
    var us := R.Attempted(p);
    R.RunIsAtomic(db, p);
    assert forall j :: 0 <= j < |us| ==> us[j] in us;
    assert forall j :: 0 <= j < |us| && us[j].Name() == us[n].Name() ==> us[j].Kind() == us[n].Kind();
    if !us[n].OptionUpsert? {
      NoOptionWritten(us, us[n].Name());
    }
    if !us[n].FutureUpsert? {
      NoFutureWritten(us, us[n].Name());
    }
  }

  // ---------- The expiry a run gives ----------

  /** What is registered for upsert n of a committed run: found by symbol, with its kind and this expiry. */
  lemma WrittenExpiry(before: seq<R.Payload>, p: R.Payload, n: nat) returns (id: int)
    requires R.Commits(R.RunAll(before), p) && NoSymbolChangesKind(R.RunAll(before), p) && n < |R.Attempted(p)|
    requires var u := R.Attempted(p)[n];
             ParseSymbol(u.Name()).Some? && KindOfType(u.Kind()) == Some(ParseSymbol(u.Name()).value.kind)
    ensures VenueRowOf(R.RunAll(before), p, R.Attempted(p)[n].Name(), id)
    ensures var keys, u, t := AddAll(Loaded(before + [p])), R.Attempted(p)[n], R.Run(R.RunAll(before), p).tables;
            && ScanSymbol(keys, u.Name()) == Some(id) && ScanId(keys, id).Some?
            && var k := ScanId(keys, id).value;
               && k.symbol == u.Name() && Some(k.kind) == KindOfType(u.Kind())
               && (k.kind != OptionKind ==> k.strike.None?)
               && (k.kind != IndexKind ==>
                     k.expiry == ExpiryFrom(OptionExpiry(t, id), FutureExpiry(t, id),
                                            ParseSymbol(u.Name()).value.expiry))
  {
    var ps, u, db := before + [p], R.Attempted(p)[n], R.RunAll(before);
    R.EveryHistory(before);
    RunAllSnoc(before, p);
    id := WrittenHasRow(db, p, n);
    VenueIdStays(db, p);
    RegisteredExactly(ps, id);
    FindLoaded(ps, id, ScanId(AddAll(Loaded(ps)), id).value);
    RegisteredExpiry(ps, id, u.Name());
  }

  lemma VenueIdStays(db: R.Db, p: R.Payload)
    requires R.Consistent(db)
    ensures R.DERIBIT in R.Run(db, p).tables.venue && R.Run(db, p).tables.venue[R.DERIBIT] == R.VenueId(db)
  {
    R.SequenceOnlyGrows(R.EnsureSchema(db), R.VenueId(db), R.Attempted(p));
  }

  /**
   From payload to gateway, for futures: take any history, and a payload that commits and uses no symbol for two
   kinds. Then every dated future it lists under a symbol that parses as one is found by that symbol, without a
   strike. Its expiry is that of the last contract listed under the symbol, or the symbol's own when that has none -
   unless the database still has an option's expiration for the symbol, from a time it was listed as one.
   */
  lemma FutureReachesGateway(before: seq<R.Payload>, p: R.Payload, i: nat)
    requires R.Commits(R.RunAll(before), p) && NoSymbolChangesKind(R.RunAll(before), p) && LastFutureListed(p, i)
    requires var parsed := ParseSymbol(p.futures.value[i].venueSymbol); parsed.Some? && parsed.value.kind == FutureKind
    ensures var keys, c := AddAll(Loaded(before + [p])), p.futures.value[i];
            && ScanSymbol(keys, c.venueSymbol).Some?
            && ScanId(keys, ScanSymbol(keys, c.venueSymbol).value).Some?
            && var k := ScanId(keys, ScanSymbol(keys, c.venueSymbol).value).value;
               && k.symbol == c.venueSymbol && k.kind == FutureKind && k.strike.None?
               && k.expiry == ExpiryFrom(EarlierOptionExpiry(R.RunAll(before), c.venueSymbol), c.expiration,
                                         ParseSymbol(c.venueSymbol).value.expiry)
  {
    var db, c, us := R.RunAll(before), p.futures.value[i], R.Attempted(p);
    R.EveryHistory(before);
    R.RunIsAtomic(db, p);
    var n := FutureAttempted(p, i);
    OneKindWritten(db, p, n);
    LastFutureIs(us, n);
    var id := WrittenExpiry(before, p, n);
    ExpiriesAfterRun(db, p, c.venueSymbol, id);
  }

  /** The same for options, whose own expiration always comes first; without one, an old future's may show. */
  lemma OptionExpiryExact(before: seq<R.Payload>, p: R.Payload, i: nat)
    requires R.Commits(R.RunAll(before), p) && NoSymbolChangesKind(R.RunAll(before), p) && LastListed(p, i)
    requires var parsed := ParseSymbol(p.options.value[i].venueSymbol); parsed.Some? && parsed.value.kind == OptionKind
    ensures var keys, c := AddAll(Loaded(before + [p])), p.options.value[i];
            && ScanSymbol(keys, c.venueSymbol).Some?
            && ScanId(keys, ScanSymbol(keys, c.venueSymbol).value).Some?
            && var k := ScanId(keys, ScanSymbol(keys, c.venueSymbol).value).value;
               && k.symbol == c.venueSymbol && k.kind == OptionKind
               && k.expiry == ExpiryFrom(c.expiration, EarlierFutureExpiry(R.RunAll(before), c.venueSymbol),
                                         ParseSymbol(c.venueSymbol).value.expiry)
  {
    var db, c, us := R.RunAll(before), p.options.value[i], R.Attempted(p);
    R.EveryHistory(before);
    R.RunIsAtomic(db, p);
    OptionAttempted(p, i);
    OneKindWritten(db, p, i);
    LastOptionIs(us, i);
    var id := WrittenExpiry(before, p, i);
    ExpiriesAfterRun(db, p, c.venueSymbol, id);
  }

  // ---------- Histories without reuse ----------

  /** No committed run of the history uses a symbol for another kind than it had. */
  ghost predicate NeverReused(ps: seq<R.Payload>) {
    ps != [] ==> NeverReused(ps[..|ps| - 1]) && KeepsKinds(ps[..|ps| - 1], ps[|ps| - 1])
  }

  ghost predicate KeepsKinds(before: seq<R.Payload>, p: R.Payload) {
    R.Commits(R.RunAll(before), p) ==> NoSymbolChangesKind(R.RunAll(before), p)
  }

  lemma ExclusiveLast(ps: seq<R.Payload>)
    requires ps != []
    ensures L.Exclusive(R.RunAll(ps).tables) <==>
            L.Exclusive(R.RunAll(ps[..|ps| - 1]).tables) && KeepsKinds(ps[..|ps| - 1], ps[|ps| - 1])
  {
    R.EveryHistory(ps[..|ps| - 1]);
    L.RunExclusive(R.RunAll(ps[..|ps| - 1]), ps[|ps| - 1]);
  }

  /** Every instrument has the one subtype row of its type exactly when no symbol was ever reused. */
  lemma {:induction false} ExclusiveIffNeverReused(ps: seq<R.Payload>)
    ensures L.Exclusive(R.RunAll(ps).tables) <==> NeverReused(ps)
  {
    if ps != [] {
      ExclusiveIffNeverReused(ps[..|ps| - 1]);
      ExclusiveLast(ps);
    }
  }

  lemma ExclusiveHasNoStaleOption(db: R.Db, p: R.Payload, n: nat)
    requires R.Consistent(db) && R.Commits(db, p) && L.Exclusive(db.tables) && NoSymbolChangesKind(db, p)
    requires n < |R.Attempted(p)| && R.Attempted(p)[n].FutureUpsert?
    ensures EarlierOptionExpiry(db, R.Attempted(p)[n].Name()).None?
  {
    var u := R.Attempted(p)[n];
    if EarlierId(db, u.Name()).Some? {
      assert L.Fits(R.EnsureSchema(db).tables, R.VenueId(db), u);
    }
  }

  /** Where no symbol is ever reused the future's own expiration arrives, or its symbol's when it has none. */
  lemma FutureExpiryArrives(before: seq<R.Payload>, p: R.Payload, i: nat)
    requires NeverReused(before + [p]) && R.Commits(R.RunAll(before), p) && LastFutureListed(p, i)
    requires var parsed := ParseSymbol(p.futures.value[i].venueSymbol); parsed.Some? && parsed.value.kind == FutureKind
    ensures var keys, c := AddAll(Loaded(before + [p])), p.futures.value[i];
            && ScanSymbol(keys, c.venueSymbol).Some?
            && ScanId(keys, ScanSymbol(keys, c.venueSymbol).value).Some?
            && ScanId(keys, ScanSymbol(keys, c.venueSymbol).value).value.expiry ==
               if c.expiration.Some? then c.expiration.value * 1000 else ParseSymbol(c.venueSymbol).value.expiry
  {
    R.EveryHistory(before);
    R.RunIsAtomic(R.RunAll(before), p);
    assert (before + [p])[..|before + [p]| - 1] == before;
    ExclusiveIffNeverReused(before);
    var n := FutureAttempted(p, i);
    ExclusiveHasNoStaleOption(R.RunAll(before), p, n);
    FutureReachesGateway(before, p, i);
  }

  // ---------- The input that loses a future's expiry ----------

  function OnlyOption(o: R.OptionContract): R.Payload {
    R.Payload(Some([o]), Some([]))
  }

  function OnlyFuture(f: R.FutureContract): R.Payload {
    R.Payload(Some([]), Some([f]))
  }

  lemma OptionAlone(o: R.OptionContract)
    ensures R.Attempted(OnlyOption(o)) == [R.OptionUpsert(o), R.CurrencyUpsert(R.BTC_USD, R.PLACEHOLDER_TICK)]
  {
    assert R.OptionUpserts([o]) == [R.OptionUpsert(o)];
  }

  lemma FutureAlone(f: R.FutureContract)
    requires !R.IsPerpetual(f)
    ensures R.Attempted(OnlyFuture(f)) == [R.FutureUpsert(f), R.CurrencyUpsert(R.BTC_USD, R.PLACEHOLDER_TICK)]
  {
    L.OnlyDated(f);
    assert R.FutureUpserts([f]) == [R.FutureUpsert(f)];
  }

  lemma OptionCommits(db: R.Db, o: R.OptionContract)
    requires R.Consistent(db) && R.Acceptable(R.OptionUpsert(o))
    ensures R.Commits(db, OnlyOption(o))
  {
    L.OptionTaken(o);
    L.CommitsExactly(db, OnlyOption(o));
  }

  lemma FutureCommits(db: R.Db, f: R.FutureContract)
    requires R.Consistent(db) && R.Acceptable(R.FutureUpsert(f))
    ensures R.Commits(db, OnlyFuture(f))
  {
    L.FutureTaken(f);
    L.CommitsExactly(db, OnlyFuture(f));
  }

  lemma RowIsIndexed(db: R.Db, symbol: string, id: int, kind: string)
    requires R.Consistent(db) && VenueRow(db.tables, symbol, id, kind)
    ensures EarlierId(db, symbol) == Some(id) && R.EnsureSchema(db).tables == db.tables
  {
    assert db.tables.bySymbol[(db.tables.instrument[id].venueId, db.tables.instrument[id].symbol)] == id;
  }

  lemma NewKeepsKind(f: R.FutureContract)
    requires !R.IsPerpetual(f) && f.venueSymbol != R.BTC_USD
    ensures NoSymbolChangesKind(R.EmptyDb(), OnlyFuture(f))
  {
    FutureAlone(f);
  }

  /** A future may come again once it and the index have their rows. */
  lemma FutureKeepsKind(db: R.Db, f: R.FutureContract, id: int, index: int)
    requires R.Consistent(db) && !R.IsPerpetual(f) && f.venueSymbol != R.BTC_USD
    requires VenueRow(db.tables, f.venueSymbol, id, "future") && VenueRow(db.tables, R.BTC_USD, index, "currency")
    ensures NoSymbolChangesKind(db, OnlyFuture(f))
  {
    FutureAlone(f);
    RowFits(db, R.FutureUpsert(f), id);
    RowFits(db, R.CurrencyUpsert(R.BTC_USD, R.PLACEHOLDER_TICK), index);
    TwoAgree(R.EnsureSchema(db).tables, R.VenueId(db), R.FutureUpsert(f),
             R.CurrencyUpsert(R.BTC_USD, R.PLACEHOLDER_TICK));
  }

  lemma RowFits(db: R.Db, u: R.Upsert, id: int)
    requires R.Consistent(db) && VenueRow(db.tables, u.Name(), id, u.Kind())
    ensures L.Fits(R.EnsureSchema(db).tables, R.VenueId(db), u)
  {
    RowIsIndexed(db, u.Name(), id, u.Kind());
  }

  lemma TwoAgree(t: R.Tables, v: int, a: R.Upsert, b: R.Upsert)
    requires a.Name() != b.Name() && L.Fits(t, v, a) && L.Fits(t, v, b)
    ensures L.KindsAgree(t, v, [a, b])
  {
  }

  /** The rows of the future and of the index after the future's first run. */
  lemma FirstRows(f: R.FutureContract) returns (id: int, index: int)
    requires R.Acceptable(R.FutureUpsert(f)) && f.venueSymbol != R.BTC_USD
    ensures var t := R.Run(R.EmptyDb(), OnlyFuture(f)).tables;
            VenueRow(t, f.venueSymbol, id, "future") && VenueRow(t, R.BTC_USD, index, "currency")
  {
    FirstRun(R.EmptyDb(), f);
    FutureAlone(f);
    id := WrittenHasRow(R.EmptyDb(), OnlyFuture(f), 0);
    index := WrittenHasRow(R.EmptyDb(), OnlyFuture(f), 1);
  }

  lemma FirstRun(db: R.Db, f: R.FutureContract)
    requires R.Acceptable(R.FutureUpsert(f)) && f.venueSymbol != R.BTC_USD && db == R.EmptyDb()
    ensures R.Consistent(db) && R.Commits(db, OnlyFuture(f)) && NoSymbolChangesKind(db, OnlyFuture(f))
  {
    R.EveryHistory([]);
    FutureCommits(db, f);
    NewKeepsKind(f);
  }

  lemma RowRemains(a: R.Tables, b: R.Tables, symbol: string, id: int, kind: string)
    requires R.Extends(a, b) && VenueRow(a, symbol, id, kind)
    ensures VenueRow(b, symbol, id, kind)
  {
  }

  /**
   The history that shows it: a future, then an option under its name, then the future again, alone. The last run
   commits and uses no symbol for two kinds, and yet the registered future carries the option's expiration.
   */
  lemma OldOptionSpeaksForFuture(o: R.OptionContract, f: R.FutureContract)
    requires R.Acceptable(R.OptionUpsert(o)) && R.Acceptable(R.FutureUpsert(f)) && o.venueSymbol == f.venueSymbol
    requires ParseSymbol(f.venueSymbol).Some? && ParseSymbol(f.venueSymbol).value.kind == FutureKind
    requires o.expiration.Some?
    ensures var before, p := [OnlyFuture(f), OnlyOption(o)], OnlyFuture(f);
            && R.Commits(R.RunAll(before), p) && NoSymbolChangesKind(R.RunAll(before), p)
            && var keys := AddAll(Loaded(before + [p]));
               && ScanSymbol(keys, f.venueSymbol).Some?
               && ScanId(keys, ScanSymbol(keys, f.venueSymbol).value).Some?
               && ScanId(keys, ScanSymbol(keys, f.venueSymbol).value).value.expiry == o.expiration.value * 1000
  {
    var before := [OnlyFuture(f), OnlyOption(o)];
    SpotIndexParses();
    OldOptionRow(o, f);
    assert LastFutureListed(OnlyFuture(f), 0);
    FutureReachesGateway(before, OnlyFuture(f), 0);
  }

  lemma TwoRuns(a: R.Payload, b: R.Payload)
    ensures R.RunAll([a, b]) == R.Run(R.Run(R.EmptyDb(), a), b)
  {
    assert [a, b][..1] == [a] && [a][..0] == [];
    assert R.RunAll([a]) == R.Run(R.RunAll([]), a);
  }

  lemma OldOptionRow(o: R.OptionContract, f: R.FutureContract)
    requires R.Acceptable(R.OptionUpsert(o)) && R.Acceptable(R.FutureUpsert(f)) && o.venueSymbol == f.venueSymbol
    requires f.venueSymbol != R.BTC_USD
    ensures var db := R.RunAll([OnlyFuture(f), OnlyOption(o)]);
            && R.Commits(db, OnlyFuture(f)) && NoSymbolChangesKind(db, OnlyFuture(f))
            && EarlierOptionExpiry(db, f.venueSymbol) == o.expiration
  {
    TwoRuns(OnlyFuture(f), OnlyOption(o));
    R.EveryHistory([]);
    R.EveryHistory([OnlyFuture(f), OnlyOption(o)]);
    var first := R.Run(R.EmptyDb(), OnlyFuture(f));
    var second := R.Run(first, OnlyOption(o));
    R.RunKeeps(R.EmptyDb(), OnlyFuture(f));
    FutureCommits(R.EmptyDb(), f);
    OptionCommits(first, o);
    FutureCommits(second, f);
    var id, index := FirstRows(f);
    R.RunKeeps(first, OnlyOption(o));
    RowRemains(first.tables, second.tables, f.venueSymbol, id, "future");
    RowRemains(first.tables, second.tables, R.BTC_USD, index, "currency");
    FutureKeepsKind(second, f, id, index);
    RowIsIndexed(second, f.venueSymbol, id, "future");
    assert LastListed(OnlyOption(o), 0);
    LastContractStored(first, OnlyOption(o), 0, id);
  }
}
