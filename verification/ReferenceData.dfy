/**
 The ingest of py/src/shawlynot/quant/deribit/reference_ingest.py over the upserts of
 py/src/shawlynot/quant/db/reference_data.py and the tables of py/src/shawlynot/quant/db/schema.sql.

 A table is a map from its primary key. `bySymbol` is the index behind UNIQUE (venue_id, symbol). A sequence hands
 out its next value on every attempted insert, conflicting or later rolled back alike, so it lies outside the
 transaction. The functions say what each statement does to the database; class Database runs them on fields.
 */
module ReferenceData {
  import opened Wrappers

  // ---------- Rows ----------

  /** numeric(20, 8) columns are counted in units of 10^-8. */
  datatype Instrument = Instrument(venueId: int, symbol: string, tickSize: int, kind: string)

  /** Timestamps are microseconds since the epoch. */
  datatype OptionRow = OptionRow(optionType: string, strike: int, expiration: Option<int>,
                                 contractSize: Option<int>, creation: Option<int>)

  datatype FutureRow = FutureRow(settlementPeriod: string, expiration: Option<int>,
                                 contractSize: Option<int>, creation: Option<int>)

  datatype Tables = Tables(
    venue: map<string, int>,
    instrument: map<int, Instrument>,
    bySymbol: map<(int, string), int>,
    option: map<int, OptionRow>,
    future: map<int, FutureRow>,
    currencies: set<int>)

  datatype Db = Db(tables: Tables, nextInstrument: int, nextVenue: int)

  datatype Error = NonIntegralContractSize | PerpetualNotIngested | ConstraintViolation

  /** The database after a statement, and the instrument id or the exception it ended with. */
  datatype Step = Step(db: Db, result: Result<int, Error>)

  const DERIBIT: string := "DERIBIT"
  const BTC_USD: string := "btc_usd"
  const PERPETUAL: string := "perpetual"
  const PLACEHOLDER_TICK: real := 0.01

  // ---------- Payloads ----------

  datatype OptionContract = OptionContract(venueSymbol: string, tickSize: real, contractSize: Option<real>,
                                           expiration: Option<int>, creation: Option<int>,
                                           optionType: string, strike: real)

  datatype FutureContract = FutureContract(venueSymbol: string, tickSize: real, contractSize: Option<real>,
                                           settlementPeriod: string,
                                           expiration: Option<int>, creation: Option<int>)

  predicate IsPerpetual(c: FutureContract) {
    c.settlementPeriod == PERPETUAL
  }

  // ---------- Column types ----------

  function RoundHalfAway(x: real): int {
    if x >= 0.0 then (x + 0.5).Floor else -(0.5 - x).Floor
  }

  /** Assignment to numeric(20, 8): rounds half away from zero, refuses more than twelve integer digits. */
  function Numeric(v: real): Option<int> {
    var units := RoundHalfAway(v * 100000000.0);
    if -100_000_000_000_000_000_000 < units < 100_000_000_000_000_000_000 then Some(units) else None
  }

  /** The column value of a stored count of units. */
  function Column(units: int): real {
    units as real / 100000000.0
  }

  /**
   A stored numeric is the nearest unit to what was assigned, of two the one further from zero. A value with eight
   decimals is kept exactly.
   */
  lemma NumericRounds(v: real, n: int)
    requires Numeric(v) == Some(n)
    ensures v >= 0.0 ==> -0.5 < n as real - v * 100000000.0 <= 0.5
    ensures v < 0.0 ==> -0.5 <= n as real - v * 100000000.0 < 0.5
    ensures IsIntegral(v * 100000000.0) ==> Column(n) == v
  {
    RoundsNearest(v * 100000000.0);
  }

  /** The column takes what rounds to at most twelve digits before the point and eight after. */
  lemma NumericTakes(v: real)
    ensures Numeric(v).Some? <==> InNumericRange(v)
  {
    RoundsNearest(v * 100000000.0);
  }

  predicate InNumericRange(v: real) {
    -999999999999.999999995 < v < 999999999999.999999995
  }

  lemma RoundsNearest(x: real)
    ensures x >= 0.0 ==> -0.5 < RoundHalfAway(x) as real - x <= 0.5
    ensures x < 0.0 ==> -0.5 <= RoundHalfAway(x) as real - x < 0.5
    ensures IsIntegral(x) ==> RoundHalfAway(x) as real == x
  {
    var y := if x >= 0.0 then x + 0.5 else 0.5 - x;
    var n := y.Floor;
    assert n as real <= y < n as real + 1.0;
    if IsIntegral(x) {
      var m := if x >= 0.0 then x.Floor else -x.Floor;
      assert y == m as real + 0.5;
      FloorIs(y, m);
    }
  }

  lemma FloorIs(y: real, m: int)
    requires m as real <= y < (m + 1) as real
    ensures y.Floor == m
  {
  }

  /** Python's `int(value)`: towards zero. */
  function Truncate(v: real): int {
    if v >= 0.0 then v.Floor else -((-v).Floor)
  }

  predicate IsIntegral(v: real) {
    v == v.Floor as real
  }

  /** `_as_int`: an absent size stays absent, a fractional one raises. */
  function AsInt(v: Option<real>): (r: Result<Option<int>, Error>)
    ensures r.Failure? <==> v.Some? && !IsIntegral(v.value)
    ensures r.Success? ==> (r.value.Some? <==> v.Some?)
    ensures r.Success? && v.Some? ==> r.value.value as real == v.value
  {
    match v
    case None => Success(None)
    case Some(x) =>
      if x != Truncate(x) as real then Failure(NonIntegralContractSize) else Success(Some(Truncate(x)))
  }

  /** The `int` columns are 32 bits wide. */
  predicate FitsInt(v: Option<int>) {
    v.Some? ==> -0x8000_0000 <= v.value <= 0x7FFF_FFFF
  }

  // ---------- Statements ----------

  /** The foreign key from instrument.venue_id. */
  predicate IsVenue(t: Tables, venueId: int) {
    venueId in t.venue.Values
  }

  /** INSERT INTO instrument ... ON CONFLICT (venue_id, symbol) DO UPDATE SET tick_size RETURNING instrument_id. */
  function UpsertInstrument(db: Db, venueId: int, symbol: string, tickSize: real, kind: string): Step {
    if Numeric(tickSize).None? then Step(db, Failure(ConstraintViolation)) else
    var t, tick, newId := db.tables, Numeric(tickSize).value, db.nextInstrument;
    var next := newId + 1;
    if (venueId, symbol) in t.bySymbol then
      var id := t.bySymbol[(venueId, symbol)];
      if id !in t.instrument then Step(db, Failure(ConstraintViolation)) else
      Step(db.(tables := t.(instrument := t.instrument[id := t.instrument[id].(tickSize := tick)]),
               nextInstrument := next), Success(id))
    else if !IsVenue(t, venueId) then
      Step(db.(nextInstrument := next), Failure(ConstraintViolation))
    else
      Step(db.(tables := t.(instrument := t.instrument[newId := Instrument(venueId, symbol, tick, kind)],
                            bySymbol := t.bySymbol[(venueId, symbol) := newId]),
               nextInstrument := next), Success(newId))
  }

  /** INSERT INTO option ... ON CONFLICT (instrument_id) DO UPDATE, with its CHECK and column types. */
  function WriteOption(db: Db, id: int, c: OptionContract, size: Option<int>): Step {
    if c.optionType !in {"call", "put"} || Numeric(c.strike).None? || !FitsInt(size) then
      Step(db, Failure(ConstraintViolation))
    else
      var row := OptionRow(c.optionType, Numeric(c.strike).value, c.expiration, size, c.creation);
      Step(db.(tables := db.tables.(option := db.tables.option[id := row])), Success(id))
  }

  function WriteFuture(db: Db, id: int, c: FutureContract, size: Option<int>): Step {
    if c.settlementPeriod == PERPETUAL || !FitsInt(size) then
      Step(db, Failure(ConstraintViolation))
    else
      var row := FutureRow(c.settlementPeriod, c.expiration, size, c.creation);
      Step(db.(tables := db.tables.(future := db.tables.future[id := row])), Success(id))
  }

  function WriteCurrency(db: Db, id: int): Step {
    Step(db.(tables := db.tables.(currencies := db.tables.currencies + {id})), Success(id))
  }

  // ---------- Upserts ----------

  datatype Upsert =
    | OptionUpsert(option: OptionContract)
    | FutureUpsert(future: FutureContract)
    | CurrencyUpsert(symbol: string, tickSize: real)
  {
    function Name(): string {
      match this
      case OptionUpsert(c) => c.venueSymbol
      case FutureUpsert(c) => c.venueSymbol
      case CurrencyUpsert(s, _) => s
    }

    function Tick(): real {
      match this
      case OptionUpsert(c) => c.tickSize
      case FutureUpsert(c) => c.tickSize
      case CurrencyUpsert(_, tick) => tick
    }

    /** The instrument_type a new row gets. */
    function Kind(): string {
      match this
      case OptionUpsert(_) => "option"
      case FutureUpsert(_) => "future"
      case CurrencyUpsert(_, _) => "currency"
    }
  }

  /** The subtype statement that follows the instrument statement. */
  function WriteSubtype(db: Db, id: int, u: Upsert): Step {
    match u
    case OptionUpsert(c) =>
      (match AsInt(c.contractSize)
       case Failure(e) => Step(db, Failure(e))
       case Success(size) => WriteOption(db, id, c, size))
    case FutureUpsert(c) =>
      (match AsInt(c.contractSize)
       case Failure(e) => Step(db, Failure(e))
       case Success(size) => WriteFuture(db, id, c, size))
    case CurrencyUpsert(_, _) =>
      WriteCurrency(db, id)
  }

  /** `upsert_option_contract`, `upsert_future_contract`, `ensure_currency_instrument`. */
  function Apply(db: Db, venueId: int, u: Upsert): Step {
    if u.FutureUpsert? && IsPerpetual(u.future) then Step(db, Failure(PerpetualNotIngested)) else
    var s := UpsertInstrument(db, venueId, u.Name(), u.Tick(), u.Kind());
    if s.result.Failure? then s else WriteSubtype(s.db, s.result.value, u)
  }

  /** The upserts in turn, up to the first exception. */
  function ApplyAll(db: Db, venueId: int, us: seq<Upsert>): Step {
    if us == [] then Step(db, Success(0)) else
    var before := ApplyAll(db, venueId, us[..|us| - 1]);
    if before.result.Failure? then before else Apply(before.db, venueId, us[|us| - 1])
  }

  // ---------- A run ----------

  /** What the two REST calls gave; None when a call or the decoding of its rows raised. */
  datatype Payload = Payload(options: Option<seq<OptionContract>>, futures: Option<seq<FutureContract>>)

  function OptionUpserts(cs: seq<OptionContract>): (us: seq<Upsert>)
    ensures |us| == |cs| && forall i :: 0 <= i < |cs| ==> us[i] == OptionUpsert(cs[i])
  {
    if cs == [] then [] else OptionUpserts(cs[..|cs| - 1]) + [OptionUpsert(cs[|cs| - 1])]
  }

  /** The comprehension that drops the perpetual before any future is written. */
  function Dated(cs: seq<FutureContract>): seq<FutureContract> {
    if cs == [] then []
    else Dated(cs[..|cs| - 1]) + if IsPerpetual(cs[|cs| - 1]) then [] else [cs[|cs| - 1]]
  }

  function FutureUpserts(cs: seq<FutureContract>): (us: seq<Upsert>)
    ensures |us| == |cs| && forall i :: 0 <= i < |cs| ==> us[i] == FutureUpsert(cs[i])
  {
    if cs == [] then [] else FutureUpserts(cs[..|cs| - 1]) + [FutureUpsert(cs[|cs| - 1])]
  }

  function Attempted(p: Payload): seq<Upsert> {
    if p.options.None? then []
    else if p.futures.None? then OptionUpserts(p.options.value)
    else OptionUpserts(p.options.value) + FutureUpserts(Dated(p.futures.value))
         + [CurrencyUpsert(BTC_USD, PLACEHOLDER_TICK)]
  }

  predicate Fetched(p: Payload) {
    p.options.Some? && p.futures.Some?
  }

  /** `ensure_schema`, in its own transaction: the venue row is there afterwards. */
  function EnsureSchema(db: Db): Db {
    var t := db.tables;
    if DERIBIT in t.venue then db.(nextVenue := db.nextVenue + 1)
    else Db(t.(venue := t.venue[DERIBIT := db.nextVenue]), db.nextInstrument, db.nextVenue + 1)
  }

  function VenueId(db: Db): int {
    EnsureSchema(db).tables.venue[DERIBIT]
  }

  predicate Commits(db: Db, p: Payload) {
    Fetched(p) && ApplyAll(EnsureSchema(db), VenueId(db), Attempted(p)).result.Success?
  }

  /** One transaction: everything or nothing, the sequence aside. */
  function Run(db: Db, p: Payload): Db {
    var start := EnsureSchema(db);
    var step := ApplyAll(start, VenueId(db), Attempted(p));
    if Commits(db, p) then step.db else start.(nextInstrument := step.db.nextInstrument)
  }

  function EmptyDb(): Db {
    Db(Tables(map[], map[], map[], map[], map[], {}), 1, 1)
  }

  /** The database after a history of runs, committed and aborted. */
  function RunAll(ps: seq<Payload>): Db {
    if ps == [] then EmptyDb() else Run(RunAll(ps[..|ps| - 1]), ps[|ps| - 1])
  }

  // ---------- What every committed state has ----------

  /** Primary keys, the unique index, the venue's foreign key and the sequences agree. */
  ghost predicate Indexed(db: Db) {
    var t := db.tables;
    && 1 <= db.nextInstrument && 1 <= db.nextVenue
    && (forall k :: k in t.bySymbol ==>
          t.bySymbol[k] in t.instrument && t.instrument[t.bySymbol[k]].venueId == k.0
          && t.instrument[t.bySymbol[k]].symbol == k.1)
    && (forall id :: id in t.instrument ==>
          && 1 <= id < db.nextInstrument
          && IsVenue(t, t.instrument[id].venueId)
          && (t.instrument[id].venueId, t.instrument[id].symbol) in t.bySymbol
          && t.bySymbol[(t.instrument[id].venueId, t.instrument[id].symbol)] == id)
    && (forall c :: c in t.venue ==> 1 <= t.venue[c] < db.nextVenue)
    && (forall c, c' :: c in t.venue && c' in t.venue && t.venue[c] == t.venue[c'] ==> c == c')
  }

  /** Every subtype row has its parent instrument, and satisfies its CHECK. */
  ghost predicate Referential(t: Tables) {
    && t.option.Keys <= t.instrument.Keys && t.future.Keys <= t.instrument.Keys && t.currencies <= t.instrument.Keys
    && (forall id :: id in t.option ==> t.option[id].optionType in {"call", "put"})
    && (forall id :: id in t.future ==> t.future[id].settlementPeriod != PERPETUAL)
  }

  /** Every instrument has its row in the table its type names, and no other type occurs. */
  ghost predicate Complete(t: Tables) {
    forall id :: id in t.instrument ==>
      && t.instrument[id].kind in {"option", "future", "currency"}
      && (t.instrument[id].kind == "option" ==> id in t.option)
      && (t.instrument[id].kind == "future" ==> id in t.future)
      && (t.instrument[id].kind == "currency" ==> id in t.currencies)
  }

  ghost predicate Consistent(db: Db) {
    Indexed(db) && Referential(db.tables) && Complete(db.tables)
  }

  /** Nothing disappears, and no row changes its identity: id, venue, symbol, type. */
  ghost predicate Extends(a: Tables, b: Tables) {
    && (forall c :: c in a.venue ==> c in b.venue && b.venue[c] == a.venue[c])
    && (forall k :: k in a.bySymbol ==> k in b.bySymbol && b.bySymbol[k] == a.bySymbol[k])
    && (forall id :: id in a.instrument ==>
          id in b.instrument && b.instrument[id] == a.instrument[id].(tickSize := b.instrument[id].tickSize))
    && a.option.Keys <= b.option.Keys && a.future.Keys <= b.future.Keys && a.currencies <= b.currencies
  }

  lemma ConflictKeeps(db: Db, id: int, tick: int)
    requires Consistent(db) && id in db.tables.instrument
    ensures var t := db.tables; var row := t.instrument[id].(tickSize := tick);
            var db' := Db(t.(instrument := t.instrument[id := row]), db.nextInstrument + 1, db.nextVenue);
            && Indexed(db') && Referential(db'.tables) && Complete(db'.tables) && Extends(t, db'.tables)
  {
  }

  lemma InsertKeeps(db: Db, row: Instrument)
    requires Indexed(db) && Referential(db.tables) && (row.venueId, row.symbol) !in db.tables.bySymbol
    requires IsVenue(db.tables, row.venueId)
    ensures var t, id := db.tables, db.nextInstrument;
            var db' := Db(t.(instrument := t.instrument[id := row],
                             bySymbol := t.bySymbol[(row.venueId, row.symbol) := id]), id + 1, db.nextVenue);
            && Indexed(db') && Referential(db'.tables) && Extends(t, db'.tables)
            && id !in t.instrument
  {
  }

  lemma InstrumentKeeps(db: Db, venueId: int, symbol: string, tickSize: real, kind: string)
    requires Consistent(db) && UpsertInstrument(db, venueId, symbol, tickSize, kind).result.Success?
    ensures var s := UpsertInstrument(db, venueId, symbol, tickSize, kind);
            && Indexed(s.db) && Referential(s.db.tables) && Extends(db.tables, s.db.tables)
            && s.result.value in s.db.tables.instrument
            && (forall id :: id in s.db.tables.instrument ==>
                  id in db.tables.instrument || (id == s.result.value && s.db.tables.instrument[id].kind == kind))
  {
    var tick := Numeric(tickSize).value;
    if (venueId, symbol) in db.tables.bySymbol {
      ConflictKeeps(db, db.tables.bySymbol[(venueId, symbol)], tick);
    } else {
      InsertKeeps(db, Instrument(venueId, symbol, tick, kind));
    }
  }

  /** The indexes do not look at subtype rows. */
  lemma SameIndexes(a: Db, b: Db)
    requires Indexed(a) && a.nextInstrument == b.nextInstrument && a.nextVenue == b.nextVenue
    requires a.tables.venue == b.tables.venue
    requires a.tables.instrument == b.tables.instrument && a.tables.bySymbol == b.tables.bySymbol
    ensures Indexed(b)
  {
    assert forall v :: IsVenue(a.tables, v) <==> IsVenue(b.tables, v);
  }

  lemma SubtypeKeeps(db: Db, id: int, u: Upsert)
    requires Indexed(db) && Referential(db.tables) && id in db.tables.instrument
    requires WriteSubtype(db, id, u).result.Success?
    ensures var s := WriteSubtype(db, id, u);
            && Indexed(s.db) && Referential(s.db.tables) && Extends(db.tables, s.db.tables)
            && s.db.tables.instrument == db.tables.instrument
            && (u.OptionUpsert? ==> id in s.db.tables.option)
            && (u.FutureUpsert? ==> id in s.db.tables.future)
            && (u.CurrencyUpsert? ==> id in s.db.tables.currencies)
  {
    SameIndexes(db, WriteSubtype(db, id, u).db);
  }

  lemma CompleteAfter(a: Tables, b: Tables, id: int, kind: string)
    requires Complete(a) && Extends(a, b)
    requires forall i :: i in b.instrument ==> i in a.instrument || (i == id && b.instrument[i].kind == kind)
    requires kind in {"option", "future", "currency"}
    requires kind == "option" ==> id in b.option
    requires kind == "future" ==> id in b.future
    requires kind == "currency" ==> id in b.currencies
    ensures Complete(b)
  {
  }

  lemma ExtendsTransitive(a: Tables, b: Tables, c: Tables)
    requires Extends(a, b) && Extends(b, c)
    ensures Extends(a, c)
  {
  }

  /** What one upsert leaves behind. */
  lemma ApplyKeeps(db: Db, venueId: int, u: Upsert)
    requires Consistent(db) && Apply(db, venueId, u).result.Success?
    ensures Consistent(Apply(db, venueId, u).db)
    ensures Extends(db.tables, Apply(db, venueId, u).db.tables)
  {
    var s := UpsertInstrument(db, venueId, u.Name(), u.Tick(), u.Kind());
    var s' := Apply(db, venueId, u);
    InstrumentKeeps(db, venueId, u.Name(), u.Tick(), u.Kind());
    SubtypeKeeps(s.db, s.result.value, u);
    ExtendsTransitive(db.tables, s.db.tables, s'.db.tables);
    CompleteAfter(db.tables, s'.db.tables, s.result.value, u.Kind());
  }

  lemma {:induction false} ApplyAllKeeps(db: Db, venueId: int, us: seq<Upsert>)
    requires Consistent(db) && ApplyAll(db, venueId, us).result.Success?
    ensures Consistent(ApplyAll(db, venueId, us).db)
    ensures Extends(db.tables, ApplyAll(db, venueId, us).db.tables)
  {
    if us != [] {
      var before := us[..|us| - 1];
      ApplyAllKeeps(db, venueId, before);
      var m := ApplyAll(db, venueId, before).db;
      ApplyKeeps(m, venueId, us[|us| - 1]);
      ExtendsTransitive(db.tables, m.tables, ApplyAll(db, venueId, us).db.tables);
    }
  }

  lemma ApplySequence(db: Db, venueId: int, u: Upsert)
    ensures var db' := Apply(db, venueId, u).db;
            && db.nextInstrument <= db'.nextInstrument <= db.nextInstrument + 1
            && db'.nextVenue == db.nextVenue && db'.tables.venue == db.tables.venue
  {
  }

  /** Each upsert that succeeds takes an id off the sequence, used or not. */
  lemma {:induction false} IdsTaken(db: Db, venueId: int, us: seq<Upsert>)
    requires ApplyAll(db, venueId, us).result.Success?
    ensures ApplyAll(db, venueId, us).db.nextInstrument == db.nextInstrument + |us|
  {
    if us != [] {
      IdsTaken(db, venueId, us[..|us| - 1]);
      OneIdTaken(ApplyAll(db, venueId, us[..|us| - 1]).db, venueId, us[|us| - 1]);
    }
  }

  lemma OneIdTaken(db: Db, venueId: int, u: Upsert)
    requires Apply(db, venueId, u).result.Success?
    ensures Apply(db, venueId, u).db.nextInstrument == db.nextInstrument + 1
  {
  }

  lemma {:induction false} SequenceOnlyGrows(db: Db, venueId: int, us: seq<Upsert>)
    ensures db.nextInstrument <= ApplyAll(db, venueId, us).db.nextInstrument
    ensures ApplyAll(db, venueId, us).db.nextVenue == db.nextVenue
    ensures ApplyAll(db, venueId, us).db.tables.venue == db.tables.venue
  {
    if us != [] {
      SequenceOnlyGrows(db, venueId, us[..|us| - 1]);
      ApplySequence(ApplyAll(db, venueId, us[..|us| - 1]).db, venueId, us[|us| - 1]);
    }
  }

  lemma VenuesStay(a: Tables, b: Tables, v: int)
    requires Extends(a, b) && IsVenue(a, v)
    ensures IsVenue(b, v)
  {
    var c :| c in a.venue && a.venue[c] == v;
    assert c in b.venue;
  }

  /** The batches of a run start from a database like this. */
  ghost predicate Ready(db: Db, venueId: int) {
    Consistent(db) && IsVenue(db.tables, venueId)
  }

  lemma SchemaKeeps(db: Db)
    requires Consistent(db)
    ensures Consistent(EnsureSchema(db)) && Extends(db.tables, EnsureSchema(db).tables)
    ensures Ready(EnsureSchema(db), VenueId(db))
  {
    forall id | id in db.tables.instrument ensures IsVenue(EnsureSchema(db).tables, db.tables.instrument[id].venueId) {
      VenuesStay(db.tables, EnsureSchema(db).tables, db.tables.instrument[id].venueId);
    }
  }

  /** One run, committed or aborted, keeps the database consistent and loses nothing. */
  lemma RunKeeps(db: Db, p: Payload)
    requires Consistent(db)
    ensures Consistent(Run(db, p)) && Extends(db.tables, Run(db, p).tables)
    ensures DERIBIT in Run(db, p).tables.venue
  {
    SchemaKeeps(db);
    var start, v := EnsureSchema(db), VenueId(db);
    SequenceOnlyGrows(start, v, Attempted(p));
    if Commits(db, p) {
      ApplyAllKeeps(start, v, Attempted(p));
      ExtendsTransitive(db.tables, start.tables, Run(db, p).tables);
    }
  }

  /** Subtype completeness, referential integrity and no perpetual, over every history of runs. */
  lemma {:induction false} EveryHistory(ps: seq<Payload>)
    ensures Consistent(RunAll(ps))
  {
    if ps != [] {
      EveryHistory(ps[..|ps| - 1]);
      RunKeeps(RunAll(ps[..|ps| - 1]), ps[|ps| - 1]);
    }
  }

  lemma ExtendsReflexive(t: Tables)
    ensures Extends(t, t)
  {
  }

  /** Id stability: a (venue, symbol) pair keeps its first id, and no row disappears, however long the history. */
  lemma {:induction false} IdsAreForever(ps: seq<Payload>, n: nat)
    requires n <= |ps|
    ensures Extends(RunAll(ps[..n]).tables, RunAll(ps).tables)
  {
    if n == |ps| {
      assert ps[..n] == ps;
      ExtendsReflexive(RunAll(ps).tables);
    } else {
      var before := ps[..|ps| - 1];
      assert before[..n] == ps[..n];
      IdsAreForever(before, n);
      EveryHistory(before);
      RunKeeps(RunAll(before), ps[|ps| - 1]);
      ExtendsTransitive(RunAll(ps[..n]).tables, RunAll(before).tables, RunAll(ps).tables);
    }
  }

  // ---------- Atomicity ----------

  /** What an upsert asks of its payload alone. */
  predicate Acceptable(u: Upsert) {
    && Numeric(u.Tick()).Some?
    && match u
       case OptionUpsert(c) =>
         && AsInt(c.contractSize).Success? && FitsInt(AsInt(c.contractSize).value)
         && c.optionType in {"call", "put"} && Numeric(c.strike).Some?
       case FutureUpsert(c) =>
         !IsPerpetual(c) && AsInt(c.contractSize).Success? && FitsInt(AsInt(c.contractSize).value)
       case CurrencyUpsert(_, _) => true
  }

  lemma ApplySucceeds(db: Db, venueId: int, u: Upsert)
    requires Consistent(db)
    ensures Apply(db, venueId, u).result.Success? <==> Acceptable(u) && IsVenue(db.tables, venueId)
  {
  }

  lemma {:induction false} ApplyAllSucceeds(db: Db, venueId: int, us: seq<Upsert>)
    requires Consistent(db)
    ensures ApplyAll(db, venueId, us).result.Success? <==>
            us == [] || (IsVenue(db.tables, venueId) && forall u :: u in us ==> Acceptable(u))
  {
    if us != [] {
      var before, u := us[..|us| - 1], us[|us| - 1];
      ApplyAllSucceeds(db, venueId, before);
      assert forall x :: x in us <==> x in before || x == u;
      if ApplyAll(db, venueId, before).result.Success? {
        ApplyAllKeeps(db, venueId, before);
        SequenceOnlyGrows(db, venueId, before);
        ApplySucceeds(ApplyAll(db, venueId, before).db, venueId, u);
      }
    }
  }

  /** The filter keeps exactly the dated futures, so no run ever tries to write a perpetual. */
  lemma {:induction false} DatedIsFilter(cs: seq<FutureContract>)
    ensures forall c :: c in Dated(cs) <==> c in cs && !IsPerpetual(c)
    ensures forall c :: multiset(Dated(cs))[c] == if IsPerpetual(c) then 0 else multiset(cs)[c]
  {
    if cs != [] {
      DatedIsFilter(cs[..|cs| - 1]);
      assert cs == cs[..|cs| - 1] + [cs[|cs| - 1]];
    }
  }

  /**
   A run commits exactly when both calls answered and every upsert they ask for is acceptable by itself, whatever
   is in the database. Otherwise the four instrument tables are exactly what they were.
   */
  lemma RunIsAtomic(db: Db, p: Payload)
    requires Consistent(db)
    ensures Commits(db, p) <==> Fetched(p) && forall u :: u in Attempted(p) ==> Acceptable(u)
    ensures !Commits(db, p) ==>
              && Run(db, p).tables == db.tables.(venue := Run(db, p).tables.venue)
              && Run(db, p).tables.venue == EnsureSchema(db).tables.venue
  {
    SchemaKeeps(db);
    ApplyAllSucceeds(EnsureSchema(db), VenueId(db), Attempted(p));
  }

  /** Some option, or some future the filter keeps, has a size that is not a whole number. */
  ghost predicate HasFractionalSize(p: Payload) {
    || (p.options.Some? && exists c :: c in p.options.value && Fractional(c.contractSize))
    || (p.futures.Some? && exists c :: c in p.futures.value && !IsPerpetual(c) && Fractional(c.contractSize))
  }

  predicate Fractional(size: Option<real>) {
    size.Some? && !IsIntegral(size.value)
  }

  /** One fractional size, on any option or dated future, aborts the run and changes no instrument table. */
  lemma FractionalSizeAborts(db: Db, p: Payload)
    requires Consistent(db) && HasFractionalSize(p)
    ensures !Commits(db, p)
    ensures Run(db, p).tables == db.tables.(venue := Run(db, p).tables.venue)
  {
    RunIsAtomic(db, p);
    if Fetched(p) {
      if exists c :: c in p.options.value && Fractional(c.contractSize) {
        var i :| 0 <= i < |p.options.value| && Fractional(p.options.value[i].contractSize);
        assert OptionUpserts(p.options.value)[i] in Attempted(p);
      } else {
        var c :| c in p.futures.value && !IsPerpetual(c) && Fractional(c.contractSize);
        DatedIsFilter(p.futures.value);
        var i :| 0 <= i < |Dated(p.futures.value)| && Dated(p.futures.value)[i] == c;
        assert FutureUpserts(Dated(p.futures.value))[i] in Attempted(p);
      }
    }
  }

  // ---------- One venue ----------

  /** The ingest never names a venue but its own, so every instrument there ever is belongs to it. */
  lemma {:induction false} OneVenue(ps: seq<Payload>)
    ensures RunAll(ps).tables.venue.Keys <= {"DERIBIT"}
    ensures var t := RunAll(ps).tables;
            forall id :: id in t.instrument ==> DERIBIT in t.venue && t.instrument[id].venueId == t.venue[DERIBIT]
  {
    EveryHistory(ps);
    if ps != [] {
      var before := RunAll(ps[..|ps| - 1]);
      OneVenue(ps[..|ps| - 1]);
      SequenceOnlyGrows(EnsureSchema(before), VenueId(before), Attempted(ps[|ps| - 1]));
    }
    OnlyVenueOfAll(RunAll(ps));
  }

  lemma OnlyVenueOfAll(db: Db)
    requires Indexed(db) && db.tables.venue.Keys <= {DERIBIT}
    ensures var t := db.tables;
            forall id :: id in t.instrument ==> DERIBIT in t.venue && t.instrument[id].venueId == t.venue[DERIBIT]
  {
    var t := db.tables;
    forall id | id in t.instrument ensures DERIBIT in t.venue && t.instrument[id].venueId == t.venue[DERIBIT] {
      assert IsVenue(t, t.instrument[id].venueId);
      var c :| c in t.venue && t.venue[c] == t.instrument[id].venueId;
      assert c in t.venue.Keys;
    }
  }

  // ---------- Sequences ----------

  /** The run's first n upserts all succeed. */
  predicate Reached(db: Db, p: Payload, n: int)
    requires 0 <= n <= |Attempted(p)|
  {
    ApplyAll(EnsureSchema(db), VenueId(db), Attempted(p)[..n]).result.Success?
  }

  /**
   What a run takes off the sequences: one venue id always, and an instrument id for each upsert of a committed
   run. An aborted run gives nothing back of what its statements took.
   */
  lemma SequencesAfterRun(db: Db, p: Payload)
    ensures Run(db, p).nextVenue == db.nextVenue + 1
    ensures Commits(db, p) ==> Run(db, p).nextInstrument == db.nextInstrument + |Attempted(p)|
    ensures db.nextInstrument <= Run(db, p).nextInstrument <= db.nextInstrument + |Attempted(p)|
    ensures forall n :: 0 <= n <= |Attempted(p)| && Reached(db, p, n) ==>
              db.nextInstrument + n <= Run(db, p).nextInstrument
  {
    var start, v, us := EnsureSchema(db), VenueId(db), Attempted(p);
    SequenceOnlyGrows(start, v, us);
    IdsBounded(start, v, us);
    if Commits(db, p) {
      IdsTaken(start, v, us);
    }
    forall n | 0 <= n <= |us| && Reached(db, p, n)
      ensures db.nextInstrument + n <= Run(db, p).nextInstrument
    {
      IdsTaken(start, v, us[..n]);
      PrefixTakesNoMore(start, v, us, n);
    }
  }

  lemma {:induction false} IdsBounded(db: Db, venueId: int, us: seq<Upsert>)
    ensures ApplyAll(db, venueId, us).db.nextInstrument <= db.nextInstrument + |us|
  {
    if us != [] {
      IdsBounded(db, venueId, us[..|us| - 1]);
      ApplySequence(ApplyAll(db, venueId, us[..|us| - 1]).db, venueId, us[|us| - 1]);
    }
  }

  lemma {:induction false} PrefixTakesNoMore(db: Db, venueId: int, us: seq<Upsert>, n: nat)
    requires n <= |us|
    ensures ApplyAll(db, venueId, us[..n]).db.nextInstrument <= ApplyAll(db, venueId, us).db.nextInstrument
  {
    if n == |us| {
      assert us[..n] == us;
    } else {
      var before := us[..|us| - 1];
      assert us[..n] == before[..n];
      PrefixTakesNoMore(db, venueId, before, n);
      ApplySequence(ApplyAll(db, venueId, before).db, venueId, us[|us| - 1]);
    }
  }
}
