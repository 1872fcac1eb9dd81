/**
 Laws of whole ingest runs: what a run leaves in every cell, that running the same payload again changes nothing,
 and when an instrument can end up with rows in two subtype tables.
 */
module IngestLaws {
  import opened Wrappers
  import opened ReferenceData

  // ---------- Last write wins ----------

  function NewOptionRow(c: OptionContract): OptionRow
    requires Acceptable(OptionUpsert(c))
  {
    OptionRow(c.optionType, Numeric(c.strike).value, c.expiration, AsInt(c.contractSize).value, c.creation)
  }

  function NewFutureRow(c: FutureContract): FutureRow
    requires Acceptable(FutureUpsert(c))
  {
    FutureRow(c.settlementPeriod, c.expiration, AsInt(c.contractSize).value, c.creation)
  }

  ghost predicate AllAcceptable(us: seq<Upsert>) {
    forall i :: 0 <= i < |us| ==> Acceptable(us[i])
  }

  /** The last tick size written for a symbol. */
  function LastTick(us: seq<Upsert>, symbol: string): Option<int>
    requires AllAcceptable(us)
  {
    if us == [] then None
    else if us[|us| - 1].Name() == symbol then Some(Numeric(us[|us| - 1].Tick()).value)
    else LastTick(us[..|us| - 1], symbol)
  }

  function LastOption(us: seq<Upsert>, symbol: string): Option<OptionRow>
    requires AllAcceptable(us)
  {
    if us == [] then None
    else if us[|us| - 1].OptionUpsert? && us[|us| - 1].Name() == symbol then Some(NewOptionRow(us[|us| - 1].option))
    else LastOption(us[..|us| - 1], symbol)
  }

  function LastFuture(us: seq<Upsert>, symbol: string): Option<FutureRow>
    requires AllAcceptable(us)
  {
    if us == [] then None
    else if us[|us| - 1].FutureUpsert? && us[|us| - 1].Name() == symbol then Some(NewFutureRow(us[|us| - 1].future))
    else LastFuture(us[..|us| - 1], symbol)
  }

  predicate WritesCurrency(us: seq<Upsert>, symbol: string) {
    us != [] &&
    ((us[|us| - 1].CurrencyUpsert? && us[|us| - 1].Name() == symbol) || WritesCurrency(us[..|us| - 1], symbol))
  }

  /** What one upsert does, cell by cell. */
  ghost predicate OneUpsert(t: Tables, t': Tables, v: int, u: Upsert, id: int)
    requires Acceptable(u)
  {
    && (v, u.Name()) in t'.bySymbol && t'.bySymbol[(v, u.Name())] == id && id in t'.instrument
    && t'.instrument.Keys == t.instrument.Keys + {id}
    && t'.instrument[id].tickSize == Numeric(u.Tick()).value
    && (forall i :: i in t.instrument && i != id ==> t'.instrument[i] == t.instrument[i])
    && t'.option == (if u.OptionUpsert? then t.option[id := NewOptionRow(u.option)] else t.option)
    && t'.future == (if u.FutureUpsert? then t.future[id := NewFutureRow(u.future)] else t.future)
    && t'.currencies == (if u.CurrencyUpsert? then t.currencies + {id} else t.currencies)
  }

  /** What the instrument statement does, cell by cell. */
  ghost predicate OneInstrument(t: Tables, t': Tables, v: int, symbol: string, tick: int, id: int) {
    && (v, symbol) in t'.bySymbol && t'.bySymbol[(v, symbol)] == id && id in t'.instrument
    && t'.instrument.Keys == t.instrument.Keys + {id}
    && t'.instrument[id].tickSize == tick
    && (forall i :: i in t.instrument && i != id ==> t'.instrument[i] == t.instrument[i])
    && t'.option == t.option && t'.future == t.future && t'.currencies == t.currencies
  }

  lemma ConflictCells(t: Tables, v: int, symbol: string, tick: int)
    requires (v, symbol) in t.bySymbol && t.bySymbol[(v, symbol)] in t.instrument
    ensures var id := t.bySymbol[(v, symbol)];
            OneInstrument(t, t.(instrument := t.instrument[id := t.instrument[id].(tickSize := tick)]),
                          v, symbol, tick, id)
  {
  }

  lemma InsertCells(t: Tables, row: Instrument, id: int)
    ensures OneInstrument(t, t.(instrument := t.instrument[id := row],
                                bySymbol := t.bySymbol[(row.venueId, row.symbol) := id]),
                          row.venueId, row.symbol, row.tickSize, id)
  {
  }

  lemma InstrumentCells(db: Db, v: int, u: Upsert)
    requires Ready(db, v) && Acceptable(u)
    ensures var s := UpsertInstrument(db, v, u.Name(), u.Tick(), u.Kind());
            && s.result.Success?
            && OneInstrument(db.tables, s.db.tables, v, u.Name(), Numeric(u.Tick()).value, s.result.value)
  {
    var tick := Numeric(u.Tick()).value;
    if (v, u.Name()) in db.tables.bySymbol {
      ConflictCells(db.tables, v, u.Name(), tick);
    } else {
      InsertCells(db.tables, Instrument(v, u.Name(), tick, u.Kind()), db.nextInstrument);
    }
  }

  lemma SubtypeCells(db: Db, id: int, u: Upsert)
    requires Acceptable(u)
    ensures var s := WriteSubtype(db, id, u); var t, t' := db.tables, s.db.tables;
            && s.result == Success(id)
            && t' == t.(option := if u.OptionUpsert? then t.option[id := NewOptionRow(u.option)] else t.option,
                        future := if u.FutureUpsert? then t.future[id := NewFutureRow(u.future)] else t.future,
                        currencies := if u.CurrencyUpsert? then t.currencies + {id} else t.currencies)
  {
  }

  lemma ApplyIsOneUpsert(db: Db, v: int, u: Upsert) returns (id: int)
    requires Ready(db, v) && Acceptable(u)
    ensures OneUpsert(db.tables, Apply(db, v, u).db.tables, v, u, id)
    ensures Apply(db, v, u).result == Success(id)
  {
    InstrumentCells(db, v, u);
    var s := UpsertInstrument(db, v, u.Name(), u.Tick(), u.Kind());
    id := s.result.value;
    SubtypeCells(s.db, id, u);
  }

  lemma AllSucceed(db: Db, v: int, us: seq<Upsert>)
    requires Ready(db, v) && AllAcceptable(us)
    ensures ApplyAll(db, v, us).result.Success?
    ensures Ready(ApplyAll(db, v, us).db, v) && Extends(db.tables, ApplyAll(db, v, us).db.tables)
  {
    ApplyAllSucceeds(db, v, us);
    ApplyAllKeeps(db, v, us);
    VenuesStay(db.tables, ApplyAll(db, v, us).db.tables, v);
  }

  /** The last upsert of a batch, with the states around it. */
  lemma LastUpsert(db: Db, v: int, us: seq<Upsert>) returns (m: Db, m': Db, at: int)
    requires Ready(db, v) && AllAcceptable(us) && us != []
    ensures AllAcceptable(us[..|us| - 1])
    ensures m == ApplyAll(db, v, us[..|us| - 1]).db && m' == ApplyAll(db, v, us).db
    ensures m' == Apply(m, v, us[|us| - 1]).db
    ensures Consistent(m) && Consistent(m') && Extends(db.tables, m.tables) && Extends(m.tables, m'.tables)
    ensures OneUpsert(m.tables, m'.tables, v, us[|us| - 1], at)
  {
    var before, u := us[..|us| - 1], us[|us| - 1];
    AllSucceed(db, v, before);
    m := ApplyAll(db, v, before).db;
    ApplySucceeds(m, v, u);
    ApplyKeeps(m, v, u);
    at := ApplyIsOneUpsert(m, v, u);
    m' := Apply(m, v, u).db;
  }

  /** Row id of t' is what the upserts made of t: the last write for its symbol, or else untouched. */
  ghost predicate Cell(t: Tables, t': Tables, v: int, us: seq<Upsert>, id: int)
    requires AllAcceptable(us) && id in t'.instrument
  {
    var row := t'.instrument[id];
    var tick, option, future := LastTick(us, row.symbol), LastOption(us, row.symbol), LastFuture(us, row.symbol);
    && (if row.venueId == v && tick.Some? then row.tickSize == tick.value
        else id in t.instrument && row == t.instrument[id])
    && (if row.venueId == v && option.Some? then id in t'.option && t'.option[id] == option.value
        else (id in t'.option <==> id in t.option) && (id in t.option ==> t'.option[id] == t.option[id]))
    && (if row.venueId == v && future.Some? then id in t'.future && t'.future[id] == future.value
        else (id in t'.future <==> id in t.future) && (id in t.future ==> t'.future[id] == t.future[id]))
    && (id in t'.currencies <==> id in t.currencies || (row.venueId == v && WritesCurrency(us, row.symbol)))
  }

  lemma CellStep(t: Tables, m: Db, m': Db, v: int, us: seq<Upsert>, id: int, at: int)
    requires us != [] && AllAcceptable(us)
    requires Consistent(m) && Consistent(m') && Extends(m.tables, m'.tables) && t.option.Keys <= t.instrument.Keys
    requires OneUpsert(m.tables, m'.tables, v, us[|us| - 1], at)
    requires id in m'.tables.instrument
    requires id in m.tables.instrument ==> Cell(t, m.tables, v, us[..|us| - 1], id)
    requires id !in m.tables.instrument ==>
               id !in t.instrument && id !in t.option && id !in t.future && id !in t.currencies
    requires id !in m.tables.instrument ==> LastOption(us[..|us| - 1], us[|us| - 1].Name()).None?
                                            && LastFuture(us[..|us| - 1], us[|us| - 1].Name()).None?
                                            && !WritesCurrency(us[..|us| - 1], us[|us| - 1].Name())
    ensures Cell(t, m'.tables, v, us, id)
  {
    if id != at {
      CellElsewhere(t, m, m', v, us, id, at);
    }
  }

  /** A row the last upsert does not name keeps its cells. */
  lemma CellElsewhere(t: Tables, m: Db, m': Db, v: int, us: seq<Upsert>, id: int, at: int)
    requires us != [] && AllAcceptable(us)
    requires Consistent(m) && Consistent(m')
    requires OneUpsert(m.tables, m'.tables, v, us[|us| - 1], at)
    requires id in m'.tables.instrument && id != at
    requires id in m.tables.instrument && Cell(t, m.tables, v, us[..|us| - 1], id)
    ensures Cell(t, m'.tables, v, us, id)
  {
    var row, u := m'.tables.instrument[id], us[|us| - 1];
    assert row.venueId != v || row.symbol != u.Name();
  }

  ghost predicate AllKnown(t: Tables, v: int, us: seq<Upsert>) {
    forall i :: 0 <= i < |us| ==> (v, us[i].Name()) in t.bySymbol
  }

  lemma KnownStep(t: Tables, t': Tables, v: int, us: seq<Upsert>, at: int)
    requires us != [] && Acceptable(us[|us| - 1])
    requires AllKnown(t, v, us[..|us| - 1]) && Extends(t, t') && OneUpsert(t, t', v, us[|us| - 1], at)
    ensures AllKnown(t', v, us)
  {
    forall i | 0 <= i < |us| ensures (v, us[i].Name()) in t'.bySymbol {
      if i < |us| - 1 {
        assert us[..|us| - 1][i] == us[i];
      }
    }
  }

  /** Every symbol written is known afterwards. */
  lemma {:induction false} WrittenIsKnown(db: Db, v: int, us: seq<Upsert>)
    requires Ready(db, v) && AllAcceptable(us)
    ensures AllKnown(ApplyAll(db, v, us).db.tables, v, us)
  {
    if us != [] {
      var m, m', at := LastUpsert(db, v, us);
      WrittenIsKnown(db, v, us[..|us| - 1]);
      KnownStep(m.tables, m'.tables, v, us, at);
    }
  }

  /** A symbol nobody wrote has no last write. */
  lemma {:induction false} NotWritten(us: seq<Upsert>, symbol: string)
    requires AllAcceptable(us) && forall i :: 0 <= i < |us| ==> us[i].Name() != symbol
    ensures LastTick(us, symbol).None? && LastOption(us, symbol).None? && LastFuture(us, symbol).None?
    ensures !WritesCurrency(us, symbol)
  {
    if us != [] {
      NotWritten(us[..|us| - 1], symbol);
    }
  }

  lemma {:induction false} SomethingWritten(us: seq<Upsert>, symbol: string)
    requires AllAcceptable(us)
    ensures LastOption(us, symbol).Some? || LastFuture(us, symbol).Some? || WritesCurrency(us, symbol)
            ==> LastTick(us, symbol).Some?
    ensures LastTick(us, symbol).Some? ==> exists i :: 0 <= i < |us| && us[i].Name() == symbol
  {
    if us != [] {
      SomethingWritten(us[..|us| - 1], symbol);
      assert forall i :: 0 <= i < |us| - 1 ==> us[..|us| - 1][i] == us[i];
    }
  }

  /** Last write wins, over a whole transaction and every row of every table. */
  lemma {:induction false} LastWriteWins(db: Db, v: int, us: seq<Upsert>)
    requires Ready(db, v) && AllAcceptable(us)
    ensures var t' := ApplyAll(db, v, us).db.tables;
            forall id :: id in t'.instrument ==> Cell(db.tables, t', v, us, id)
  {
    if us != [] {
      var before, u := us[..|us| - 1], us[|us| - 1];
      var m, m', at := LastUpsert(db, v, us);
      LastWriteWins(db, v, before);
      WrittenIsKnown(db, v, before);
      forall id | id in m'.tables.instrument ensures Cell(db.tables, m'.tables, v, us, id) {
        if id !in m.tables.instrument {
          assert (v, u.Name()) !in m.tables.bySymbol;
          NotWritten(before, u.Name());
        }
        CellStep(db.tables, m, m', v, us, id, at);
      }
    }
  }

  lemma BatchCell(db: Db, v: int, us: seq<Upsert>, t': Tables, id: int)
    requires Ready(db, v) && AllAcceptable(us)
    requires t' == ApplyAll(db, v, us).db.tables && id in t'.instrument
    ensures Cell(db.tables, t', v, us, id)
  {
    LastWriteWins(db, v, us);
  }

  /** The same for a committed run. */
  lemma RunCell(db: Db, p: Payload, id: int)
    requires Consistent(db) && Commits(db, p) && AllAcceptable(Attempted(p)) && id in Run(db, p).tables.instrument
    ensures Cell(EnsureSchema(db).tables, Run(db, p).tables, VenueId(db), Attempted(p), id)
  {
    SchemaKeeps(db);
    BatchCell(EnsureSchema(db), VenueId(db), Attempted(p), Run(db, p).tables, id);
  }

  // ---------- Idempotence ----------

  lemma SameKeys<V>(a: map<int, V>, b: map<int, V>)
    requires forall id :: id in a <==> id in b
    ensures a.Keys == b.Keys
  {
    forall id ensures id in a.Keys <==> id in b.Keys {
      assert id in a <==> id in b;
    }
  }

  lemma SameRows<V>(ids: set<int>, a: map<int, V>, b: map<int, V>)
    requires a.Keys <= ids && b.Keys <= ids
    requires forall id :: id in ids ==> (id in a <==> id in b) && (id in a ==> a[id] == b[id])
    ensures a == b
  {
    forall id | id in a ensures id in b && a[id] == b[id] {
      assert id in ids;
    }
    forall id | id in b ensures id in a {
      assert id in ids;
    }
  }

  lemma SameTables(a: Tables, b: Tables)
    requires a.venue == b.venue && a.bySymbol == b.bySymbol
    requires a.instrument.Keys == b.instrument.Keys
    requires a.option.Keys <= a.instrument.Keys && a.future.Keys <= a.instrument.Keys
    requires a.currencies <= a.instrument.Keys
    requires b.option.Keys <= a.instrument.Keys && b.future.Keys <= a.instrument.Keys
    requires b.currencies <= a.instrument.Keys
    requires forall id :: id in a.instrument ==>
               && a.instrument[id] == b.instrument[id]
               && (id in a.option <==> id in b.option) && (id in a.option ==> a.option[id] == b.option[id])
               && (id in a.future <==> id in b.future) && (id in a.future ==> a.future[id] == b.future[id])
               && (id in a.currencies <==> id in b.currencies)
    ensures a == b
  {
    SameRows(a.instrument.Keys, a.instrument, b.instrument);
    SameRows(a.instrument.Keys, a.option, b.option);
    SameRows(a.instrument.Keys, a.future, b.future);
    forall id | id in a.currencies ensures id in b.currencies {
      assert id in a.instrument;
    }
    forall id | id in b.currencies ensures id in a.currencies {
      assert id in a.instrument;
    }
    assert a.currencies == b.currencies;
    assert a.instrument == b.instrument;
    assert a.option == b.option;
    assert a.future == b.future;
  }

  /** A second pass inserts no instrument: every symbol it writes has its row already. */
  lemma SecondPassInsertsNothing(t1: Db, t2: Db, v: int, us: seq<Upsert>)
    requires Consistent(t1) && Consistent(t2) && Extends(t1.tables, t2.tables) && AllAcceptable(us)
    requires AllKnown(t1.tables, v, us)
    requires forall id :: id in t2.tables.instrument ==> Cell(t1.tables, t2.tables, v, us, id)
    ensures t1.tables.instrument.Keys == t2.tables.instrument.Keys
    ensures t1.tables.bySymbol == t2.tables.bySymbol
  {
    forall id | id in t2.tables.instrument ensures id in t1.tables.instrument {
      var row := t2.tables.instrument[id];
      SomethingWritten(us, row.symbol);
    }
    forall k | k in t2.tables.bySymbol ensures k in t1.tables.bySymbol {
      var id := t2.tables.bySymbol[k];
      assert id in t2.tables.instrument && id in t1.tables.instrument;
      var row := t1.tables.instrument[id];
      assert (row.venueId, row.symbol) in t1.tables.bySymbol;
      assert k == (k.0, k.1) == (row.venueId, row.symbol);
    }
    SameKeys(t1.tables.instrument, t2.tables.instrument);
    assert t1.tables.bySymbol == t2.tables.bySymbol;
  }

  /** Running the same upserts again leaves every table as it was. */
  lemma UpsertsIdempotent(db: Db, v: int, us: seq<Upsert>)
    requires Ready(db, v) && AllAcceptable(us)
    ensures var once := ApplyAll(db, v, us).db;
            ApplyAll(once, v, us).result.Success? && ApplyAll(once, v, us).db.tables == once.tables
  {
    AllSucceed(db, v, us);
    WrittenIsKnown(db, v, us);
    LastWriteWins(db, v, us);
    var once := ApplyAll(db, v, us).db;
    AllSucceed(once, v, us);
    LastWriteWins(once, v, us);
    var twice := ApplyAll(once, v, us).db;
    SecondPassInsertsNothing(once, twice, v, us);
    SequenceOnlyGrows(once, v, us);
    CellsCoincide(db.tables, once, twice, v, us);
  }

  lemma CellsCoincide(t: Tables, once: Db, twice: Db, v: int, us: seq<Upsert>)
    requires Consistent(once) && Consistent(twice) && Extends(once.tables, twice.tables) && AllAcceptable(us)
    requires once.tables.instrument.Keys == twice.tables.instrument.Keys
    requires once.tables.bySymbol == twice.tables.bySymbol && once.tables.venue == twice.tables.venue
    requires forall id :: id in once.tables.instrument ==> Cell(t, once.tables, v, us, id)
    requires forall id :: id in twice.tables.instrument ==> Cell(once.tables, twice.tables, v, us, id)
    ensures once.tables == twice.tables
  {
    forall id | id in once.tables.instrument
      ensures once.tables.instrument[id] == twice.tables.instrument[id]
      ensures id in once.tables.option <==> id in twice.tables.option
      ensures id in once.tables.option ==> once.tables.option[id] == twice.tables.option[id]
      ensures id in once.tables.future <==> id in twice.tables.future
      ensures id in once.tables.future ==> once.tables.future[id] == twice.tables.future[id]
      ensures id in once.tables.currencies <==> id in twice.tables.currencies
    {
      assert Cell(t, once.tables, v, us, id) && Cell(once.tables, twice.tables, v, us, id);
    }
    SameTables(once.tables, twice.tables);
  }

  /**
   Ingest idempotence: the same payload meets the same fate again, and leaves every table as the first run did,
   the sequence counters aside.
   */
  lemma RunIdempotent(db: Db, p: Payload)
    requires Consistent(db)
    ensures Commits(Run(db, p), p) <==> Commits(db, p)
    ensures Run(Run(db, p), p).tables == Run(db, p).tables
  {
    if Commits(db, p) {
      CommittedRunIdempotent(db, p);
    } else {
      RunKeeps(db, p);
      RunIsAtomic(db, p);
      RunIsAtomic(Run(db, p), p);
    }
  }

  lemma CommittedRunIdempotent(db: Db, p: Payload)
    requires Consistent(db) && Commits(db, p)
    ensures Commits(Run(db, p), p)
    ensures Run(Run(db, p), p).tables == Run(db, p).tables
  {
    var us, start, v := Attempted(p), EnsureSchema(db), VenueId(db);
    RunIsAtomic(db, p);
    RunKeeps(db, p);
    RunIsAtomic(Run(db, p), p);
    SchemaKeeps(db);
    SequenceOnlyGrows(start, v, us);
    UpsertsIdempotent(start, v, us);
    var once := Run(db, p);
    assert EnsureSchema(once) == once.(nextVenue := once.nextVenue + 1);
    assert VenueId(once) == v;
    CounterIsAside(once, EnsureSchema(once), v, us);
  }

  /** The venue sequence plays no part in the upserts. */
  lemma {:induction false} CounterIsAside(a: Db, b: Db, v: int, us: seq<Upsert>)
    requires a == b.(nextVenue := a.nextVenue)
    ensures ApplyAll(a, v, us).result == ApplyAll(b, v, us).result
    ensures ApplyAll(a, v, us).db == ApplyAll(b, v, us).db.(nextVenue := a.nextVenue)
  {
    if us != [] {
      CounterIsAside(a, b, v, us[..|us| - 1]);
      var m, n := ApplyAll(a, v, us[..|us| - 1]).db, ApplyAll(b, v, us[..|us| - 1]).db;
      CounterIsAsideOnce(m, n, v, us[|us| - 1]);
    }
  }

  lemma CounterIsAsideOnce(a: Db, b: Db, v: int, u: Upsert)
    requires a == b.(nextVenue := a.nextVenue)
    ensures Apply(a, v, u).result == Apply(b, v, u).result
    ensures Apply(a, v, u).db == Apply(b, v, u).db.(nextVenue := a.nextVenue)
  {
  }

  // ---------- One subtype row per instrument ----------

  /** Every subtype row belongs to an instrument of that type. */
  ghost predicate Exclusive(t: Tables) {
    && (forall id :: id in t.option ==> id in t.instrument && t.instrument[id].kind == "option")
    && (forall id :: id in t.future ==> id in t.instrument && t.instrument[id].kind == "future")
    && (forall id :: id in t.currencies ==> id in t.instrument && t.instrument[id].kind == "currency")
  }

  /** The row the upsert's symbol has is of the upsert's kind. */
  ghost predicate Fits(t: Tables, v: int, u: Upsert) {
    && (v, u.Name()) in t.bySymbol
    && t.bySymbol[(v, u.Name())] in t.instrument
    && t.instrument[t.bySymbol[(v, u.Name())]].kind == u.Kind()
  }

  /**
   No symbol is used for two kinds: not by two upserts of the batch, and not by an upsert and a row already there.
   A caller can check this before the run.
   */
  ghost predicate KindsAgree(t: Tables, v: int, us: seq<Upsert>) {
    && (forall i :: 0 <= i < |us| && (v, us[i].Name()) in t.bySymbol ==> Fits(t, v, us[i]))
    && (forall i, j :: 0 <= i < |us| && 0 <= j < |us| && us[i].Name() == us[j].Name() ==> us[i].Kind() == us[j].Kind())
  }

  lemma FitsForever(a: Db, b: Db, v: int, u: Upsert)
    requires Consistent(a) && Consistent(b) && Extends(a.tables, b.tables) && (v, u.Name()) in a.tables.bySymbol
    ensures Fits(b.tables, v, u) <==> Fits(a.tables, v, u)
  {
  }

  lemma ExclusiveStep(t: Tables, t': Tables, v: int, u: Upsert, id: int)
    requires Acceptable(u) && OneUpsert(t, t', v, u, id) && Extends(t, t') && Referential(t)
    ensures Exclusive(t') <==> Exclusive(t) && Fits(t', v, u)
  {
    match u
    case OptionUpsert(_) => assert id in t'.option;
    case FutureUpsert(_) => assert id in t'.future;
    case CurrencyUpsert(_, _) => assert id in t'.currencies;
  }

  ghost predicate AllFit(t: Tables, v: int, us: seq<Upsert>) {
    forall i :: 0 <= i < |us| ==> Fits(t, v, us[i])
  }

  lemma FitStep(m: Db, m': Db, v: int, us: seq<Upsert>)
    requires us != [] && Consistent(m) && Consistent(m') && Extends(m.tables, m'.tables)
    requires AllKnown(m.tables, v, us[..|us| - 1])
    ensures AllFit(m'.tables, v, us) <==>
            AllFit(m.tables, v, us[..|us| - 1]) && Fits(m'.tables, v, us[|us| - 1])
  {
    var before := us[..|us| - 1];
    forall i | 0 <= i < |before| ensures Fits(m.tables, v, before[i]) <==> Fits(m'.tables, v, us[i]) {
      FitsForever(m, m', v, before[i]);
    }
  }

  lemma {:induction false} ExclusiveIffFits(db: Db, v: int, us: seq<Upsert>)
    requires Ready(db, v) && AllAcceptable(us)
    ensures var t' := ApplyAll(db, v, us).db.tables;
            Exclusive(t') <==> Exclusive(db.tables) && AllFit(t', v, us)
  {
    if us != [] {
      var before := us[..|us| - 1];
      var m, m', at := LastUpsert(db, v, us);
      ExclusiveIffFits(db, v, before);
      WrittenIsKnown(db, v, before);
      ExclusiveStep(m.tables, m'.tables, v, us[|us| - 1], at);
      FitStep(m, m', v, us);
    }
  }

  /** The first upsert of the batch that names the symbol. */
  ghost predicate IsFirstNamer(us: seq<Upsert>, i: int, symbol: string) {
    0 <= i < |us| && us[i].Name() == symbol && forall j :: 0 <= j < i ==> us[j].Name() != symbol
  }

  /** A symbol new to the database takes the kind of the first upsert that names it. */
  lemma {:induction false} FirstNamerSetsKind(db: Db, v: int, us: seq<Upsert>, symbol: string)
    requires Ready(db, v) && AllAcceptable(us)
    requires (v, symbol) !in db.tables.bySymbol
    ensures var t' := ApplyAll(db, v, us).db.tables;
            (v, symbol) in t'.bySymbol ==>
              exists i :: IsFirstNamer(us, i, symbol) && Fits(t', v, us[i])
  {
    if us != [] {
      var before, u := us[..|us| - 1], us[|us| - 1];
      var m, m', at := LastUpsert(db, v, us);
      FirstNamerSetsKind(db, v, before, symbol);
      if (v, symbol) in m.tables.bySymbol {
        var i :| IsFirstNamer(before, i, symbol) && Fits(m.tables, v, before[i]);
        EarlierNamer(us, i, symbol);
        FitsForever(m, m', v, us[i]);
      } else if (v, symbol) in m'.tables.bySymbol {
        WrittenIsKnown(db, v, before);
        NewRowFits(m, v, u, symbol);
        LastIsFirstNamer(m.tables, v, us, symbol);
      }
    }
  }

  lemma EarlierNamer(us: seq<Upsert>, i: int, symbol: string)
    requires us != [] && IsFirstNamer(us[..|us| - 1], i, symbol)
    ensures us[i] == us[..|us| - 1][i] && IsFirstNamer(us, i, symbol)
  {
    assert forall j :: 0 <= j < |us| - 1 ==> us[j] == us[..|us| - 1][j];
  }

  lemma LastIsFirstNamer(t: Tables, v: int, us: seq<Upsert>, symbol: string)
    requires us != [] && us[|us| - 1].Name() == symbol
    requires AllKnown(t, v, us[..|us| - 1]) && (v, symbol) !in t.bySymbol
    ensures IsFirstNamer(us, |us| - 1, symbol)
  {
    forall j | 0 <= j < |us| - 1 ensures us[j].Name() != symbol {
      assert (v, us[..|us| - 1][j].Name()) in t.bySymbol;
    }
  }

  lemma NewRowFits(db: Db, v: int, u: Upsert, symbol: string)
    requires Consistent(db) && Acceptable(u) && (v, symbol) !in db.tables.bySymbol
    requires (v, symbol) in Apply(db, v, u).db.tables.bySymbol
    ensures u.Name() == symbol && Fits(Apply(db, v, u).db.tables, v, u)
  {
  }

  lemma FitsIffKindsAgree(db: Db, v: int, us: seq<Upsert>)
    requires Ready(db, v) && AllAcceptable(us)
    ensures var t' := ApplyAll(db, v, us).db.tables;
            AllFit(t', v, us) <==> KindsAgree(db.tables, v, us)
  {
    var db' := ApplyAll(db, v, us).db;
    AllSucceed(db, v, us);
    WrittenIsKnown(db, v, us);
    forall i | 0 <= i < |us| && (v, us[i].Name()) in db.tables.bySymbol
      ensures Fits(db'.tables, v, us[i]) <==> Fits(db.tables, v, us[i])
    {
      FitsForever(db, db', v, us[i]);
    }
    if KindsAgree(db.tables, v, us) {
      forall i | 0 <= i < |us| ensures Fits(db'.tables, v, us[i]) {
        if (v, us[i].Name()) !in db.tables.bySymbol {
          FirstNamerSetsKind(db, v, us, us[i].Name());
          assert (v, us[i].Name()) in db'.tables.bySymbol;
        }
      }
    }
  }

  /**
   ON CONFLICT leaves instrument_type alone, so a symbol reused for another kind gets a second subtype row under
   the old type. A committed batch keeps one subtype row per instrument exactly when no symbol changes kind.
   */
  lemma ExclusiveIffKindsAgree(db: Db, v: int, us: seq<Upsert>)
    requires Ready(db, v) && AllAcceptable(us)
    ensures Exclusive(ApplyAll(db, v, us).db.tables) <==> Exclusive(db.tables) && KindsAgree(db.tables, v, us)
  {
    ExclusiveIffFits(db, v, us);
    FitsIffKindsAgree(db, v, us);
  }

  /** The same for a whole committed run; an aborted run changes nothing here. */
  lemma RunExclusive(db: Db, p: Payload)
    requires Consistent(db)
    ensures Exclusive(Run(db, p).tables) <==>
            Exclusive(db.tables) && (Commits(db, p) ==> KindsAgree(EnsureSchema(db).tables, VenueId(db), Attempted(p)))
  {
    SchemaKeeps(db);
    RunIsAtomic(db, p);
    if Commits(db, p) {
      ExclusiveIffKindsAgree(EnsureSchema(db), VenueId(db), Attempted(p));
    }
  }

  /** A payload that shows it: an option and a future under one name, on a new database. */
  lemma ReusedSymbolHasTwoSubtypes(o: OptionContract, f: FutureContract)
    requires Acceptable(OptionUpsert(o)) && Acceptable(FutureUpsert(f)) && o.venueSymbol == f.venueSymbol
    ensures var p := Payload(Some([o]), Some([f]));
            Commits(EmptyDb(), p) && !Exclusive(Run(EmptyDb(), p).tables)
  {
    var p := Payload(Some([o]), Some([f]));
    EveryHistory([]);
    ReuseCommits(o, f);
    ReuseDisagrees(o, f, EnsureSchema(EmptyDb()).tables, VenueId(EmptyDb()));
    RunExclusive(EmptyDb(), p);
  }

  lemma ReuseCommits(o: OptionContract, f: FutureContract)
    requires Acceptable(OptionUpsert(o)) && Acceptable(FutureUpsert(f))
    ensures Commits(EmptyDb(), Payload(Some([o]), Some([f])))
  {
    EveryHistory([]);
    PlaceholderFits();
    OneOfEach(o, f);
    RunIsAtomic(EmptyDb(), Payload(Some([o]), Some([f])));
  }

  lemma ReuseDisagrees(o: OptionContract, f: FutureContract, t: Tables, v: int)
    requires !IsPerpetual(f) && o.venueSymbol == f.venueSymbol
    ensures !KindsAgree(t, v, Attempted(Payload(Some([o]), Some([f]))))
  {
    var us := Attempted(Payload(Some([o]), Some([f])));
    OneOfEach(o, f);
    assert us[0].Name() == us[1].Name() && us[0].Kind() != us[1].Kind();
  }

  lemma OneOfEach(o: OptionContract, f: FutureContract)
    requires !IsPerpetual(f)
    ensures Attempted(Payload(Some([o]), Some([f]))) ==
            [OptionUpsert(o), FutureUpsert(f), CurrencyUpsert(BTC_USD, PLACEHOLDER_TICK)]
  {
    OnlyDated(f);
    assert OptionUpserts([o]) == [OptionUpsert(o)];
    assert FutureUpserts([f]) == [FutureUpsert(f)];
  }

  lemma OnlyDated(f: FutureContract)
    requires !IsPerpetual(f)
    ensures Dated([f]) == [f]
  {
    assert [f][..0] == [] && Dated([]) == [];
  }

  /** The tick size the ingest gives the spot index is one the column takes. */
  lemma PlaceholderFits()
    ensures Numeric(PLACEHOLDER_TICK) == Some(1_000_000)
  {
    FloorIs(PLACEHOLDER_TICK * 100000000.0 + 0.5, 1_000_000);
  }

  // ---------- What a run asks of its payload ----------

  /** An absent size, or a whole number of 32 bits. */
  predicate IsSize(size: Option<real>) {
    size.Some? ==> size.value.Floor as real == size.value && -2147483648.0 <= size.value <= 2147483647.0
  }

  lemma SizeTaken(size: Option<real>)
    ensures AsInt(size).Success? && FitsInt(AsInt(size).value) <==> IsSize(size)
  {
  }

  predicate OptionFits(c: OptionContract) {
    && InNumericRange(c.tickSize) && InNumericRange(c.strike)
    && (c.optionType == "call" || c.optionType == "put") && IsSize(c.contractSize)
  }

  predicate FutureFits(c: FutureContract) {
    InNumericRange(c.tickSize) && IsSize(c.contractSize)
  }

  lemma OptionTaken(c: OptionContract)
    ensures Acceptable(OptionUpsert(c)) <==> OptionFits(c)
  {
    NumericTakes(c.tickSize);
    NumericTakes(c.strike);
    SizeTaken(c.contractSize);
  }

  lemma FutureTaken(c: FutureContract)
    ensures Acceptable(FutureUpsert(c)) <==> c.settlementPeriod != "perpetual" && FutureFits(c)
  {
    NumericTakes(c.tickSize);
    SizeTaken(c.contractSize);
  }

  predicate Fitting(u: Upsert) {
    match u
    case OptionUpsert(c) => OptionFits(c)
    case FutureUpsert(c) => FutureFits(c)
    case CurrencyUpsert(_, _) => true
  }

  lemma FittingTaken(u: Upsert)
    requires u.FutureUpsert? ==> u.future.settlementPeriod != "perpetual"
    requires u.CurrencyUpsert? ==> u.tickSize == PLACEHOLDER_TICK
    ensures Acceptable(u) <==> Fitting(u)
  {
    match u
    case OptionUpsert(c) => OptionTaken(c);
    case FutureUpsert(c) => FutureTaken(c);
    case CurrencyUpsert(_, _) => PlaceholderFits();
  }

  /** What is attempted: each option, each future but the perpetual, and the index. */
  lemma AttemptedContents(p: Payload, u: Upsert)
    requires p.options.Some? && p.futures.Some?
    ensures u in Attempted(p) <==>
            || (u.OptionUpsert? && u.option in p.options.value)
            || (u.FutureUpsert? && u.future in p.futures.value && u.future.settlementPeriod != "perpetual")
            || u == CurrencyUpsert("btc_usd", 0.01)
  {
    var options, futures := p.options.value, Dated(p.futures.value);
    DatedIsFilter(p.futures.value);
    if u.OptionUpsert? && u.option in options {
      var i :| 0 <= i < |options| && options[i] == u.option;
      assert OptionUpserts(options)[i] == u;
    }
    if u.FutureUpsert? && u.future in futures {
      var i :| 0 <= i < |futures| && futures[i] == u.future;
      assert FutureUpserts(futures)[i] == u;
    }
    if u in OptionUpserts(options) {
      var i :| 0 <= i < |options| && OptionUpserts(options)[i] == u;
    }
    if u in FutureUpserts(futures) {
      var i :| 0 <= i < |futures| && FutureUpserts(futures)[i] == u;
    }
  }

  predicate PayloadFits(p: Payload)
    requires p.options.Some? && p.futures.Some?
  {
    && (forall c :: c in p.options.value ==> OptionFits(c))
    && (forall c :: c in p.futures.value && c.settlementPeriod != "perpetual" ==> FutureFits(c))
  }

  /**
   When a run commits, on the payload alone: both calls answered, every tick size and strike fits numeric(20, 8),
   every right is call or put, and every size is absent or a whole number of 32 bits. Perpetuals do not matter.
   */
  lemma CommitsExactly(db: Db, p: Payload)
    requires Consistent(db)
    ensures Commits(db, p) <==> p.options.Some? && p.futures.Some? && PayloadFits(p)
  {
    RunIsAtomic(db, p);
    if Fetched(p) {
      if Commits(db, p) {
        forall c | c in p.options.value ensures OptionFits(c) {
          AttemptedContents(p, OptionUpsert(c));
          OptionTaken(c);
        }
        forall c | c in p.futures.value && c.settlementPeriod != "perpetual" ensures FutureFits(c) {
          AttemptedContents(p, FutureUpsert(c));
          FutureTaken(c);
        }
      }
      forall u | u in Attempted(p) ensures Acceptable(u) <==> Fitting(u) {
        AttemptedContents(p, u);
        FittingTaken(u);
      }
      forall u | u in Attempted(p) && PayloadFits(p) ensures Acceptable(u) {
        AttemptedContents(p, u);
      }
    }
  }
}
