/**
 The identity pipeline from ingest to subscription: what a gateway started on any database the ingest can leave
 holds in its registry, subscribes to, and still finds after later ingests.
 */
module EndToEnd {
  import opened Wrappers
  import opened Symbol
  import opened Registry
  import opened Repository
  import R = ReferenceData
  import L = IngestLaws

  /** The keys a gateway started after this history of ingest runs offers to its registry. */
  function Loaded(ps: seq<R.Payload>): seq<InstrumentKey> {
    Mapped(Select(R.RunAll(ps), R.DERIBIT))
  }

  /** The rows of the query are what the ingest's constraints make them. */
  lemma RowsAreSound(ps: seq<R.Payload>)
    ensures var db := R.RunAll(ps); var rows := Select(db, R.DERIBIT);
            && R.Consistent(db) && AnswersQuery(db.tables, R.DERIBIT, rows) && IdsAscend(rows)
            && forall i :: 0 <= i < |rows| ==> rows[i].instrumentId != 0
  {
    R.EveryHistory(ps);
    SelectAnswers(R.RunAll(ps), R.DERIBIT);
    assert forall i :: 0 <= i < |Select(R.RunAll(ps), R.DERIBIT)| ==>
                         Select(R.RunAll(ps), R.DERIBIT)[i] in Select(R.RunAll(ps), R.DERIBIT);
  }

  /** No instrument is hidden from the startup query: each has the gateway's venue and one of its three types. */
  lemma EveryInstrumentSelected(ps: seq<R.Payload>, id: int)
    ensures var t := R.RunAll(ps).tables; id in t.instrument <==> Selected(t, R.DERIBIT, id)
  {
    R.EveryHistory(ps);
    R.OneVenue(ps);
  }

  lemma EveryInstrumentLoaded(ps: seq<R.Payload>)
    ensures |Select(R.RunAll(ps), R.DERIBIT)| == |R.RunAll(ps).tables.instrument|
  {
    var t := R.RunAll(ps).tables;
    RowsAreSound(ps);
    forall id ensures id in t.instrument.Keys <==> Selected(t, R.DERIBIT, id) {
      EveryInstrumentSelected(ps, id);
    }
    AnswerCount(t, R.DERIBIT, Select(R.RunAll(ps), R.DERIBIT), t.instrument.Keys);
  }

  /** A loaded key stands for one selected instrument row. */
  lemma LoadedKey(ps: seq<R.Payload>, k: InstrumentKey)
    ensures var t := R.RunAll(ps).tables;
            k in Loaded(ps) <==> Selected(t, R.DERIBIT, k.id) && ToInstrumentKey(RowOf(t, k.id)) == Some(k)
    ensures k in Loaded(ps) ==> k.id != 0 && k.symbol == R.RunAll(ps).tables.instrument[k.id].symbol && Streamed(k)
  {
    var t, rows := R.RunAll(ps).tables, Select(R.RunAll(ps), R.DERIBIT);
    RowsAreSound(ps);
    MappedOrigin(rows, k);
    if k in Loaded(ps) {
      var r :| r in rows && ToInstrumentKey(r) == Some(k);
      MappedFields(r);
    }
    if Selected(t, R.DERIBIT, k.id) && ToInstrumentKey(RowOf(t, k.id)) == Some(k) {
      var i :| 0 <= i < |rows| && rows[i].instrumentId == k.id;
      assert rows[i] in rows;
    }
  }

  /** The unique index: the venue has one row per symbol. */
  lemma OneRowPerSymbol(ps: seq<R.Payload>, a: int, b: int)
    requires var t := R.RunAll(ps).tables;
             && Selected(t, R.DERIBIT, a) && Selected(t, R.DERIBIT, b)
             && t.instrument[a].symbol == t.instrument[b].symbol
    ensures a == b
  {
    var t := R.RunAll(ps).tables;
    R.EveryHistory(ps);
    assert t.bySymbol[(t.instrument[a].venueId, t.instrument[a].symbol)] == a;
    assert t.bySymbol[(t.instrument[b].venueId, t.instrument[b].symbol)] == b;
  }

  /** Two loaded keys with one symbol are one key. */
  lemma LoadedSymbols(ps: seq<R.Payload>, a: InstrumentKey, b: InstrumentKey)
    requires a in Loaded(ps) && b in Loaded(ps) && a.symbol == b.symbol
    ensures a == b
  {
    LoadedKey(ps, a);
    LoadedKey(ps, b);
    OneRowPerSymbol(ps, a.id, b.id);
  }

  /** What the keys of a load have, before any of them reaches the registry: nothing for `add` to refuse. */
  lemma LoadedKeys(ps: seq<R.Payload>)
    ensures Sound(Loaded(ps)) && DistinctIds(Loaded(ps)) && AddAll(Loaded(ps)) == Loaded(ps)
  {
    var keys := Loaded(ps);
    RowsAreSound(ps);
    MappedAscends(Select(R.RunAll(ps), R.DERIBIT));
    forall i, j | 0 <= i < j < |keys| ensures keys[i].symbol != keys[j].symbol {
      assert keys[i] in keys && keys[j] in keys && keys[i].id < keys[j].id;
      if keys[i].symbol == keys[j].symbol {
        LoadedSymbols(ps, keys[i], keys[j]);
      }
    }
    forall i | 0 <= i < |keys| ensures keys[i].id != 0 {
      LoadedKey(ps, keys[i]);
    }
    AddTakesAll(keys);
  }

  /** Looking an id up in the registry finds the loaded key with that id. */
  lemma FindLoaded(ps: seq<R.Payload>, id: int, k: InstrumentKey)
    ensures ScanId(AddAll(Loaded(ps)), id) == Some(k) <==> k in Loaded(ps) && k.id == id
    ensures ScanSymbol(AddAll(Loaded(ps)), k.symbol) == Some(id) <== k in Loaded(ps) && k.id == id
  {
    var keys := Loaded(ps);
    LoadedKeys(ps);
    BijectionIffDistinctIds(keys);
    ScanIdFinds(keys, id);
    if ScanId(keys, id).Some? {
      var i :| 0 <= i < |keys| && keys[i].id == id;
      assert ScanId(keys, keys[i].id) == Some(keys[i]);
    }
    if k in keys && k.id == id {
      var i :| 0 <= i < |keys| && keys[i] == k;
    }
  }

  /**
   End to end: after any history of ingest runs, committed and aborted, the registry built at startup holds every
   mapped key (`add` refuses nothing), accounts for every instrument as registered or skipped, resolves ids and symbols
   both ways, holds no perpetual, and subscribes exactly one channel per key, none twice.
   */
  lemma StartupRegistry(ps: seq<R.Payload>, interval: string)
    ensures var rows, keys := Select(R.RunAll(ps), R.DERIBIT), Loaded(ps);
            && AddAll(keys) == keys
            && |R.RunAll(ps).tables.instrument| == |rows| == |keys| + Skipped(rows)
            && ResolvesBothWays(keys)
            && (forall k :: k in keys ==> Streamed(k))
            && |Channels(SubscriptionOrder(keys), interval)| == |keys|
            && AllDistinct(Channels(SubscriptionOrder(keys), interval))
  {
    var rows, keys := Select(R.RunAll(ps), R.DERIBIT), Loaded(ps);
    RowsAreSound(ps);
    EveryInstrumentLoaded(ps);
    MappedOrSkipped(rows);
    LoadedKeys(ps);
    BijectionIffDistinctIds(keys);
    forall k | k in keys ensures Streamed(k) {
      LoadedKey(ps, k);
    }
    OfKindCount(keys);
    SubscribedOnce(keys, interval);
  }

  /**
   Which instruments the gateway knows: exactly those whose symbol parses to the kind their type names.
   The CHECK on option_type is what keeps the mapping from rejecting an option for its right.
   */
  lemma RegisteredExactly(ps: seq<R.Payload>, id: int)
    requires id in R.RunAll(ps).tables.instrument
    ensures var row := R.RunAll(ps).tables.instrument[id];
            ScanId(AddAll(Loaded(ps)), id).Some? <==>
              && ParseSymbol(row.symbol).Some?
              && KindOfType(row.kind) == Some(ParseSymbol(row.symbol).value.kind)
  {
    var row := RowOf(R.RunAll(ps).tables, id);
    R.EveryHistory(ps);
    EveryInstrumentSelected(ps, id);
    MappedExactly(row);
    if ToInstrumentKey(row).Some? {
      MappedFields(row);
      LoadedKey(ps, ToInstrumentKey(row).value);
      FindLoaded(ps, id, ToInstrumentKey(row).value);
    }
    if ScanId(AddAll(Loaded(ps)), id).Some? {
      var k := ScanId(AddAll(Loaded(ps)), id).value;
      FindLoaded(ps, id, k);
      LoadedKey(ps, k);
    }
  }

  /** An inbound notification on a subscribed channel finds the key it was subscribed for. */
  lemma NotificationsRoute(ps: seq<R.Payload>, order: seq<InstrumentKey>, interval: string, k: InstrumentKey)
    requires forall o :: o in order ==> o in AddAll(Loaded(ps))
    requires k in order
    ensures var channel := ChannelFor(k, interval);
            && channel in BindAll(map[], order, interval)
            && ScanId(AddAll(Loaded(ps)), BindAll(map[], order, interval)[channel]) == Some(k)
  {
    LoadedKeys(ps);
    LoadedKey(ps, k);
    RoutingRoundTrip(Loaded(ps), map[], order, interval, k);
  }

  /**
   Identity survives restarts: an instrument registered after n runs is registered after every longer history
   under the same id, symbol and kind.
   */
  lemma RestartKeepsIdentity(ps: seq<R.Payload>, n: nat, k: InstrumentKey)
    requires n <= |ps| && k in AddAll(Loaded(ps[..n]))
    ensures exists k' :: k' in AddAll(Loaded(ps)) && k'.id == k.id && k'.symbol == k.symbol && k'.kind == k.kind
  {
    var a, b := R.RunAll(ps[..n]).tables, R.RunAll(ps).tables;
    R.IdsAreForever(ps, n);
    LoadedKeys(ps[..n]);
    LoadedKey(ps[..n], k);
    MappedFields(RowOf(a, k.id));
    MappedExactly(RowOf(a, k.id));
    RegisteredExactly(ps, k.id);
    var k' := ScanId(AddAll(Loaded(ps)), k.id).value;
    FindLoaded(ps, k.id, k');
    LoadedKeys(ps);
    LoadedKey(ps, k');
    MappedFields(RowOf(b, k.id));
    assert k' in AddAll(Loaded(ps));
  }

  lemma SpotIndexParses()
    ensures ParseSymbol(R.BTC_USD).Some? && ParseSymbol(R.BTC_USD).value.kind == IndexKind
  {
    assert IndexForm("btc_usd", "btc", "usd");
    IndexReads("btc_usd", "btc", "usd");
  }

  /** Contract i is the last one the payload lists under its symbol. */
  ghost predicate LastListed(p: R.Payload, i: nat) {
    && p.options.Some? && i < |p.options.value|
    && forall j :: i < j < |p.options.value| ==> p.options.value[j].venueSymbol != p.options.value[i].venueSymbol
  }

  lemma {:induction false} LastOptionIs(us: seq<R.Upsert>, i: nat)
    requires L.AllAcceptable(us) && i < |us| && us[i].OptionUpsert?
    requires forall j :: i < j < |us| && us[j].OptionUpsert? ==> us[j].Name() != us[i].Name()
    ensures L.LastOption(us, us[i].Name()) == Some(L.NewOptionRow(us[i].option))
  {
    if i < |us| - 1 {
      LastOptionIs(us[..|us| - 1], i);
    }
  }

  lemma RunAllSnoc(ps: seq<R.Payload>, p: R.Payload)
    ensures R.RunAll(ps + [p]) == R.Run(R.RunAll(ps), p)
  {
    assert (ps + [p])[..|ps + [p]| - 1] == ps;
  }

  /** The row a committed run leaves for the last contract it lists under a symbol is that contract's. */
  lemma LastContractStored(db: R.Db, p: R.Payload, i: nat, id: int)
    requires R.Consistent(db) && R.Commits(db, p) && LastListed(p, i)
    requires Selected(R.Run(db, p).tables, R.DERIBIT, id)
    requires R.Run(db, p).tables.instrument[id].symbol == p.options.value[i].venueSymbol
    ensures R.Acceptable(R.OptionUpsert(p.options.value[i]))
    ensures var t := R.Run(db, p).tables; id in t.option && t.option[id] == L.NewOptionRow(p.options.value[i])
  {
    var us, start, v := R.Attempted(p), R.EnsureSchema(db), R.VenueId(db);
    R.RunIsAtomic(db, p);
    assert forall j :: 0 <= j < |us| ==> us[j] in us;
    assert us[i] == R.OptionUpsert(p.options.value[i]);
    LastOptionIs(us, i);
    R.SchemaKeeps(db);
    R.SequenceOnlyGrows(start, v, us);
    L.RunCell(db, p, id);
  }

  /** The instrument is the venue's, typed option, under a symbol that parses as one. */
  ghost predicate ListedOption(t: R.Tables, id: int, symbol: string) {
    && Selected(t, R.DERIBIT, id)
    && t.instrument[id].symbol == symbol && t.instrument[id].kind == "option"
    && ParseSymbol(symbol).Some? && ParseSymbol(symbol).value.kind == OptionKind
  }

  /** The key carries what the option row says. */
  predicate Carries(k: InstrumentKey, id: int, symbol: string, row: R.OptionRow) {
    && k.id == id && k.symbol == symbol && k.kind == OptionKind
    && k.strike == Some(R.Column(row.strike))
    && k.right == (if row.optionType == "call" then Call else Put)
    && (row.expiration.Some? ==> k.expiry == row.expiration.value * 1000)
  }

  /** A listed option with its row is registered with that row's strike, right and expiry. */
  lemma OptionRowReaches(ps: seq<R.Payload>, id: int, symbol: string, row: R.OptionRow)
    requires ListedOption(R.RunAll(ps).tables, id, symbol)
    requires id in R.RunAll(ps).tables.option && R.RunAll(ps).tables.option[id] == row
    ensures var found := ScanId(AddAll(Loaded(ps)), id); found.Some? && Carries(found.value, id, symbol, row)
  {
    RegisteredExactly(ps, id);
    R.EveryHistory(ps);
    var k := ScanId(AddAll(Loaded(ps)), id).value;
    FindLoaded(ps, id, k);
    LoadedKey(ps, k);
    MappedFields(RowOf(R.RunAll(ps).tables, id));
  }

  /** The contract behind a listed option's row is the last one a committed run's payload lists for its symbol. */
  lemma LastContractListed(before: seq<R.Payload>, p: R.Payload, i: nat, id: int)
    requires R.Commits(R.RunAll(before), p) && LastListed(p, i)
    requires ListedOption(R.RunAll(before + [p]).tables, id, p.options.value[i].venueSymbol)
    ensures R.Acceptable(R.OptionUpsert(p.options.value[i]))
    ensures var t := R.RunAll(before + [p]).tables; id in t.option && t.option[id] == L.NewOptionRow(p.options.value[i])
  {
    R.EveryHistory(before);
    RunAllSnoc(before, p);
    LastContractStored(R.RunAll(before), p, i, id);
  }

  /** The key carries what the contract says; the strike itself when it has at most eight decimals. */
  predicate CarriesContract(k: InstrumentKey, c: R.OptionContract) {
    && k.symbol == c.venueSymbol && k.kind == OptionKind
    && R.Numeric(c.strike).Some? && k.strike == Some(R.Column(R.Numeric(c.strike).value))
    && (R.IsIntegral(c.strike * 100000000.0) ==> k.strike == Some(c.strike))
    && k.right == (if c.optionType == "call" then Call else Put)
    && (c.expiration.Some? ==> k.expiry == c.expiration.value * 1000)
  }

  lemma RowCarriesContract(k: InstrumentKey, id: int, c: R.OptionContract)
    requires R.Acceptable(R.OptionUpsert(c)) && Carries(k, id, c.venueSymbol, L.NewOptionRow(c))
    ensures CarriesContract(k, c)
  {
    R.NumericRounds(c.strike, R.Numeric(c.strike).value);
  }

  /** The row of a listed option carries the last contract for it to the gateway. */
  lemma ListedContractReaches(before: seq<R.Payload>, p: R.Payload, i: nat, id: int)
    requires R.Commits(R.RunAll(before), p) && LastListed(p, i)
    requires ListedOption(R.RunAll(before + [p]).tables, id, p.options.value[i].venueSymbol)
    ensures var found := ScanId(AddAll(Loaded(before + [p])), id);
            found.Some? && found.value.id == id && CarriesContract(found.value, p.options.value[i])
  {
    var c := p.options.value[i];
    LastContractListed(before, p, i, id);
    OptionRowReaches(before + [p], id, c.venueSymbol, L.NewOptionRow(c));
    RowCarriesContract(ScanId(AddAll(Loaded(before + [p])), id).value, id, c);
  }

  /** The run uses no symbol for two kinds, nor for another kind than the database has it as. */
  ghost predicate NoSymbolChangesKind(db: R.Db, p: R.Payload) {
    L.KindsAgree(R.EnsureSchema(db).tables, R.VenueId(db), R.Attempted(p))
  }

  /** The venue's own row of a symbol. */
  ghost predicate VenueRow(t: R.Tables, symbol: string, id: int, kind: string) {
    && Selected(t, R.DERIBIT, id) && t.instrument[id].symbol == symbol && t.instrument[id].kind == kind
  }

  lemma FittingRow(db: R.Db, v: int, u: R.Upsert)
    requires R.Consistent(db) && R.DERIBIT in db.tables.venue && db.tables.venue[R.DERIBIT] == v
    requires L.Fits(db.tables, v, u)
    ensures VenueRow(db.tables, u.Name(), db.tables.bySymbol[(v, u.Name())], u.Kind())
  {
  }

  /** After a committed run without reuse everything it wrote has a row of the venue, typed as it was written. */
  lemma WrittenHasRow(db: R.Db, p: R.Payload, n: nat) returns (id: int)
    requires R.Consistent(db) && R.Commits(db, p) && NoSymbolChangesKind(db, p) && n < |R.Attempted(p)|
    ensures VenueRow(R.Run(db, p).tables, R.Attempted(p)[n].Name(), id, R.Attempted(p)[n].Kind())
  {
    var us, start, v := R.Attempted(p), R.EnsureSchema(db), R.VenueId(db);
    R.RunIsAtomic(db, p);
    assert forall j :: 0 <= j < |us| ==> us[j] in us;
    R.SchemaKeeps(db);
    L.FitsIffKindsAgree(start, v, us);
    R.SequenceOnlyGrows(start, v, us);
    R.RunKeeps(db, p);
    FittingRow(R.Run(db, p), v, us[n]);
    id := R.Run(db, p).tables.bySymbol[(v, us[n].Name())];
  }

  /**
   Take any history, and a payload that commits and uses no symbol for two kinds. Then each option, dated future
   and currency it writes is found in the registry by its symbol if and only if the symbol parses to its kind.
   */
  lemma WrittenReachesGateway(before: seq<R.Payload>, p: R.Payload, n: nat)
    requires R.Commits(R.RunAll(before), p) && NoSymbolChangesKind(R.RunAll(before), p) && n < |R.Attempted(p)|
    ensures var keys, u := AddAll(Loaded(before + [p])), R.Attempted(p)[n];
            ScanSymbol(keys, u.Name()).Some? <==>
              ParseSymbol(u.Name()).Some? && KindOfType(u.Kind()) == Some(ParseSymbol(u.Name()).value.kind)
  {
    var ps, u := before + [p], R.Attempted(p)[n];
    R.EveryHistory(before);
    RunAllSnoc(before, p);
    var id := WrittenHasRow(R.RunAll(before), p, n);
    RegisteredExactly(ps, id);
    KnownBySymbol(ps, id, u.Name());
  }

  /** A row of the venue is found by its id exactly when it is found by its symbol. */
  lemma KnownBySymbol(ps: seq<R.Payload>, id: int, symbol: string)
    requires Selected(R.RunAll(ps).tables, R.DERIBIT, id)
    requires R.RunAll(ps).tables.instrument[id].symbol == symbol
    ensures ScanId(AddAll(Loaded(ps)), id).Some? <==> ScanSymbol(AddAll(Loaded(ps)), symbol).Some?
  {
    var keys := AddAll(Loaded(ps));
    LoadedKeys(ps);
    ScanSymbolFinds(keys, symbol);
    if ScanId(keys, id).Some? {
      var k := ScanId(keys, id).value;
      FindLoaded(ps, id, k);
      LoadedKey(ps, k);
    }
    if ScanSymbol(keys, symbol).Some? {
      var i :| 0 <= i < |keys| && keys[i].symbol == symbol;
      LoadedKey(ps, keys[i]);
      OneRowPerSymbol(ps, id, keys[i].id);
      FindLoaded(ps, id, keys[i]);
    }
  }

  /**
   From payload to gateway: take any history, and a payload that commits and uses no symbol for two kinds. Then
   every option it lists under a symbol that parses as one is found in the registry by that symbol, with the
   strike, right and expiry of the last contract listed under it.
   */
  lemma PayloadReachesGateway(before: seq<R.Payload>, p: R.Payload, i: nat)
    requires R.Commits(R.RunAll(before), p) && NoSymbolChangesKind(R.RunAll(before), p)
    requires LastListed(p, i)
    requires var parsed := ParseSymbol(p.options.value[i].venueSymbol);
             parsed.Some? && parsed.value.kind == OptionKind
    ensures var keys, c := AddAll(Loaded(before + [p])), p.options.value[i];
            && ScanSymbol(keys, c.venueSymbol).Some?
            && ScanId(keys, ScanSymbol(keys, c.venueSymbol).value).Some?
            && CarriesContract(ScanId(keys, ScanSymbol(keys, c.venueSymbol).value).value, c)
  {
    R.EveryHistory(before);
    RunAllSnoc(before, p);
    assert R.Attempted(p)[i] == R.OptionUpsert(p.options.value[i]);
    var id := WrittenHasRow(R.RunAll(before), p, i);
    ListedContractReaches(before, p, i, id);
    FindLoaded(before + [p], id, ScanId(AddAll(Loaded(before + [p])), id).value);
  }

  /** Such payloads exist: any acceptable contract, alone, on a new database. */
  lemma OneContractReaches(c: R.OptionContract)
    requires R.Acceptable(R.OptionUpsert(c)) && c.venueSymbol != R.BTC_USD
    ensures var p := R.Payload(Some([c]), Some([]));
            R.Commits(R.EmptyDb(), p) && NoSymbolChangesKind(R.EmptyDb(), p) && LastListed(p, 0)
  {
    var p := R.Payload(Some([c]), Some([]));
    var us := R.Attempted(p);
    R.EveryHistory([]);
    assert us == [R.OptionUpsert(c), R.CurrencyUpsert(R.BTC_USD, R.PLACEHOLDER_TICK)];
    L.PlaceholderFits();
    R.RunIsAtomic(R.EmptyDb(), p);
  }

  // ---------- The spot index ----------

  /** A run with this payload commits, whatever is in the database. */
  ghost predicate Committable(p: R.Payload) {
    R.Fetched(p) && forall u :: u in R.Attempted(p) ==> R.Acceptable(u)
  }

  ghost predicate FirstCommit(ps: seq<R.Payload>, n: nat) {
    n < |ps| && Committable(ps[n]) && forall m :: 0 <= m < n ==> !Committable(ps[m])
  }

  /** An option or a dated future of the payload goes by the symbol. */
  ghost predicate Lists(p: R.Payload, symbol: string) {
    || (p.options.Some? && exists c :: c in p.options.value && c.venueSymbol == symbol)
    || (p.futures.Some? && exists c :: c in p.futures.value && !R.IsPerpetual(c) && c.venueSymbol == symbol)
  }

  lemma {:induction false} NothingCommitted(ps: seq<R.Payload>)
    requires forall m :: 0 <= m < |ps| ==> !Committable(ps[m])
    ensures R.RunAll(ps).tables.instrument == map[]
  {
    if ps != [] {
      var before, p := ps[..|ps| - 1], ps[|ps| - 1];
      NothingCommitted(before);
      R.EveryHistory(before);
      R.RunIsAtomic(R.RunAll(before), p);
    }
  }

  lemma FirstOrNone(ps: seq<R.Payload>) returns (n: nat)
    ensures FirstCommit(ps, n) || (n == |ps| && forall m :: 0 <= m < |ps| ==> !Committable(ps[m]))
  {
    n := 0;
    while n < |ps| && !Committable(ps[n])
      invariant n <= |ps| && forall m :: 0 <= m < n ==> !Committable(ps[m])
    {
      n := n + 1;
    }
  }

  /** Some contract of the sequences goes by the symbol. */
  ghost predicate Named(options: seq<R.OptionContract>, futures: seq<R.FutureContract>, symbol: string) {
    || (exists j :: 0 <= j < |options| && options[j].venueSymbol == symbol)
    || (exists j :: 0 <= j < |futures| && futures[j].venueSymbol == symbol)
  }

  lemma ListsIsNamed(p: R.Payload, symbol: string)
    requires R.Fetched(p)
    ensures Lists(p, symbol) <==> Named(p.options.value, R.Dated(p.futures.value), symbol)
  {
    var options, all, futures := p.options.value, p.futures.value, R.Dated(p.futures.value);
    R.DatedIsFilter(all);
    if Lists(p, symbol) {
      if exists c :: c in options && c.venueSymbol == symbol {
        var j :| 0 <= j < |options| && options[j].venueSymbol == symbol;
      } else {
        var c :| c in all && !R.IsPerpetual(c) && c.venueSymbol == symbol;
        assert c in futures;
        var j :| 0 <= j < |futures| && futures[j] == c;
      }
    }
    if Named(options, futures, symbol) {
      if j :| 0 <= j < |options| && options[j].venueSymbol == symbol {
        assert options[j] in options;
      } else {
        var j :| 0 <= j < |futures| && futures[j].venueSymbol == symbol;
        assert futures[j] in futures;
      }
    }
  }

  /** The upserts are these options, these futures, and a currency. */
  ghost predicate Laid(us: seq<R.Upsert>, options: seq<R.OptionContract>, futures: seq<R.FutureContract>) {
    && |us| == |options| + |futures| + 1
    && (forall j :: 0 <= j < |options| ==> us[j] == R.OptionUpsert(options[j]))
    && (forall j :: 0 <= j < |futures| ==> us[|options| + j] == R.FutureUpsert(futures[j]))
    && us[|us| - 1].CurrencyUpsert?
  }

  /** Whatever is listed comes before the currency row. */
  lemma FirstOfLaid(us: seq<R.Upsert>, options: seq<R.OptionContract>, futures: seq<R.FutureContract>, i: int,
                    symbol: string)
    requires Laid(us, options, futures) && L.IsFirstNamer(us, i, symbol)
    ensures us[i].CurrencyUpsert? <==> !Named(options, futures, symbol)
  {
    if i < |options| {
      assert options[i].venueSymbol == symbol;
    } else if i < |us| - 1 {
      var j := i - |options|;
      assert us[|options| + j] == R.FutureUpsert(futures[j]);
      assert futures[j].venueSymbol == symbol;
    } else {
      forall j | 0 <= j < |options| ensures options[j].venueSymbol != symbol {
        assert us[j].Name() != symbol;
      }
      forall j | 0 <= j < |futures| ensures futures[j].venueSymbol != symbol {
        assert us[|options| + j].Name() != symbol;
      }
    }
  }

  lemma FirstNamerOfIndex(p: R.Payload, i: int)
    requires R.Fetched(p) && L.IsFirstNamer(R.Attempted(p), i, R.BTC_USD)
    ensures R.Attempted(p)[i].CurrencyUpsert? <==> !Lists(p, R.BTC_USD)
  {
    assert Laid(R.Attempted(p), p.options.value, R.Dated(p.futures.value));
    FirstOfLaid(R.Attempted(p), p.options.value, R.Dated(p.futures.value), i, R.BTC_USD);
    ListsIsNamed(p, R.BTC_USD);
  }

  /** The first committed run settles the type of the index row. */
  lemma FirstRunTypesIndex(db: R.Db, p: R.Payload) returns (id: int, kind: string)
    requires R.Consistent(db) && db.tables.instrument == map[] && Committable(p)
    ensures VenueRow(R.Run(db, p).tables, R.BTC_USD, id, kind)
    ensures kind == "currency" <==> !Lists(p, R.BTC_USD)
  {
    var us, start, v := R.Attempted(p), R.EnsureSchema(db), R.VenueId(db);
    R.RunIsAtomic(db, p);
    R.SchemaKeeps(db);
    R.SequenceOnlyGrows(start, v, us);
    R.RunKeeps(db, p);
    assert forall j :: 0 <= j < |us| ==> us[j] in us;
    L.WrittenIsKnown(start, v, us);
    assert us[|us| - 1].Name() == R.BTC_USD;
    L.FirstNamerSetsKind(start, v, us, R.BTC_USD);
    var i :| L.IsFirstNamer(us, i, R.BTC_USD) && L.Fits(R.Run(db, p).tables, v, us[i]);
    FirstNamerOfIndex(p, i);
    FittingRow(R.Run(db, p), v, us[i]);
    id, kind := R.Run(db, p).tables.bySymbol[(v, R.BTC_USD)], us[i].Kind();
  }

  /** With its row there, the index is registered exactly when the row is typed currency. */
  lemma IndexByType(ps: seq<R.Payload>, id: int)
    requires id in R.RunAll(ps).tables.instrument && R.RunAll(ps).tables.instrument[id].symbol == R.BTC_USD
    ensures ScanSymbol(AddAll(Loaded(ps)), R.BTC_USD).Some? <==> R.RunAll(ps).tables.instrument[id].kind == "currency"
  {
    SpotIndexParses();
    RegisteredExactly(ps, id);
    EveryInstrumentSelected(ps, id);
    KnownBySymbol(ps, id, R.BTC_USD);
  }

  lemma RowAfterFirstCommit(before: seq<R.Payload>, p: R.Payload) returns (id: int, kind: string)
    requires R.RunAll(before).tables.instrument == map[] && Committable(p)
    ensures VenueRow(R.RunAll(before + [p]).tables, R.BTC_USD, id, kind)
    ensures kind == "currency" <==> !Lists(p, R.BTC_USD)
  {
    R.EveryHistory(before);
    RunAllSnoc(before, p);
    id, kind := FirstRunTypesIndex(R.RunAll(before), p);
  }

  lemma PrefixSnoc(ps: seq<R.Payload>, n: nat)
    requires n < |ps|
    ensures ps[..n + 1] == ps[..n] + [ps[n]]
  {
  }

  lemma RowStays(a: R.Tables, b: R.Tables, symbol: string, id: int, kind: string)
    requires R.Extends(a, b) && VenueRow(a, symbol, id, kind)
    ensures id in b.instrument && b.instrument[id].symbol == symbol && b.instrument[id].kind == kind
  {
  }

  lemma IndexAfterFirstCommit(ps: seq<R.Payload>, n: nat)
    requires FirstCommit(ps, n)
    ensures ScanSymbol(AddAll(Loaded(ps)), R.BTC_USD).Some? <==> !Lists(ps[n], R.BTC_USD)
  {
    NothingCommitted(ps[..n]);
    PrefixSnoc(ps, n);
    var id, kind := RowAfterFirstCommit(ps[..n], ps[n]);
    IndexKeepsType(ps, n + 1, id, kind);
  }

  /** The type the index row has after n runs decides for good. */
  lemma IndexKeepsType(ps: seq<R.Payload>, n: nat, id: int, kind: string)
    requires n <= |ps| && VenueRow(R.RunAll(ps[..n]).tables, R.BTC_USD, id, kind)
    ensures ScanSymbol(AddAll(Loaded(ps)), R.BTC_USD).Some? <==> kind == "currency"
  {
    R.IdsAreForever(ps, n);
    RowStays(R.RunAll(ps[..n]).tables, R.RunAll(ps).tables, R.BTC_USD, id, kind);
    IndexByType(ps, id);
  }

  lemma NoInstrumentNoKey(ps: seq<R.Payload>, symbol: string)
    requires R.RunAll(ps).tables.instrument == map[]
    ensures ScanSymbol(AddAll(Loaded(ps)), symbol).None?
  {
    EveryInstrumentLoaded(ps);
    assert Loaded(ps) == [];
  }

  /**
   After any history of runs the spot index is registered exactly when some run committed and the first to commit
   listed no option and no dated future under the index's name. Nothing later repairs or breaks it.
   */
  lemma SpotIndexRegistered(ps: seq<R.Payload>)
    ensures ScanSymbol(AddAll(Loaded(ps)), R.BTC_USD).Some? <==>
            exists n: nat :: FirstCommit(ps, n) && !Lists(ps[n], R.BTC_USD)
  {
    var n := FirstOrNone(ps);
    if FirstCommit(ps, n) {
      IndexAfterFirstCommit(ps, n);
      assert forall m: nat :: FirstCommit(ps, m) ==> m == n;
    } else {
      NothingCommitted(ps);
      NoInstrumentNoKey(ps, R.BTC_USD);
    }
  }

  /** The input that loses it: an option under the index's name, in the first run. No later run brings it back. */
  lemma SpotIndexLost(c: R.OptionContract, rest: seq<R.Payload>)
    requires R.Acceptable(R.OptionUpsert(c)) && c.venueSymbol == R.BTC_USD
    ensures ScanSymbol(AddAll(Loaded([R.Payload(Some([c]), Some([]))] + rest)), R.BTC_USD).None?
  {
    var p := R.Payload(Some([c]), Some([]));
    L.PlaceholderFits();
    assert R.Attempted(p) == [R.OptionUpsert(c), R.CurrencyUpsert(R.BTC_USD, R.PLACEHOLDER_TICK)];
    assert c in p.options.value;
    IndexAfterFirstCommit([p] + rest, 0);
  }
}
