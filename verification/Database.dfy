/**
 The ingest as the Python code runs it: statement by statement on tables that change in place, with a rollback when
 an exception leaves the transaction. Each method is proved against the function of module ReferenceData it runs.
 */
module Database {
  import opened Wrappers
  import opened ReferenceData

  class Connection {
    var venue: map<string, int>
    var instrument: map<int, Instrument>
    var bySymbol: map<(int, string), int>
    var option: map<int, OptionRow>
    var future: map<int, FutureRow>
    var currencies: set<int>
    var nextInstrument: int
    var nextVenue: int

    function Rows(): Tables
      reads this
    {
      Tables(venue, instrument, bySymbol, option, future, currencies)
    }

    function State(): Db
      reads this
    {
      Db(Rows(), nextInstrument, nextVenue)
    }

    constructor ()
      ensures State() == EmptyDb()
    {
      venue, instrument, bySymbol, option, future, currencies := map[], map[], map[], map[], map[], {};
      nextInstrument, nextVenue := 1, 1;
    }

    method ExecuteSchema()
      modifies this
      ensures State() == EnsureSchema(old(State()))
    {
      if DERIBIT !in venue {
        venue := venue[DERIBIT := nextVenue];
      }
      nextVenue := nextVenue + 1;
    }

    method ExecuteInstrument(venueId: int, symbol: string, tickSize: real, kind: string)
      returns (r: Result<int, Error>)
      modifies this
      ensures Step(State(), r) == UpsertInstrument(old(State()), venueId, symbol, tickSize, kind)
    {
      var tick := Numeric(tickSize);
      if tick.None? {
        return Failure(ConstraintViolation);
      }
      if (venueId, symbol) in bySymbol {
        var id := bySymbol[(venueId, symbol)];
        if id !in instrument {
          return Failure(ConstraintViolation);
        }
        nextInstrument := nextInstrument + 1;
        instrument := instrument[id := instrument[id].(tickSize := tick.value)];
        return Success(id);
      }
      var id := nextInstrument;
      nextInstrument := nextInstrument + 1;
      if !IsVenue(Rows(), venueId) {
        return Failure(ConstraintViolation);
      }
      instrument := instrument[id := Instrument(venueId, symbol, tick.value, kind)];
      bySymbol := bySymbol[(venueId, symbol) := id];
      return Success(id);
    }

    method UpsertOptionContract(venueId: int, c: OptionContract) returns (r: Result<int, Error>)
      modifies this
      ensures Step(State(), r) == Apply(old(State()), venueId, OptionUpsert(c))
    {
      r := ExecuteInstrument(venueId, c.venueSymbol, c.tickSize, "option");
      if r.Failure? {
        return;
      }
      var size := AsInt(c.contractSize);
      if size.Failure? {
        return Failure(size.error);
      }
      var strike := Numeric(c.strike);
      if c.optionType !in {"call", "put"} || strike.None? || !FitsInt(size.value) {
        return Failure(ConstraintViolation);
      }
      option := option[r.value := OptionRow(c.optionType, strike.value, c.expiration, size.value, c.creation)];
    }

    method UpsertFutureContract(venueId: int, c: FutureContract) returns (r: Result<int, Error>)
      modifies this
      ensures Step(State(), r) == Apply(old(State()), venueId, FutureUpsert(c))
    {
      if IsPerpetual(c) {
        return Failure(PerpetualNotIngested);
      }
      r := ExecuteInstrument(venueId, c.venueSymbol, c.tickSize, "future");
      if r.Failure? {
        return;
      }
      var size := AsInt(c.contractSize);
      if size.Failure? {
        return Failure(size.error);
      }
      if !FitsInt(size.value) {
        return Failure(ConstraintViolation);
      }
      future := future[r.value := FutureRow(c.settlementPeriod, c.expiration, size.value, c.creation)];
    }

    method EnsureCurrencyInstrument(venueId: int, symbol: string, tickSize: real) returns (r: Result<int, Error>)
      modifies this
      ensures Step(State(), r) == Apply(old(State()), venueId, CurrencyUpsert(symbol, tickSize))
    {
      r := ExecuteInstrument(venueId, symbol, tickSize, "currency");
      if r.Failure? {
        return;
      }
      currencies := currencies + {r.value};
    }

    /** The loop over option contracts, left at the first exception. */
    method UpsertOptions(venueId: int, cs: seq<OptionContract>) returns (r: Result<int, Error>)
      modifies this
      ensures Step(State(), r) == ApplyAll(old(State()), venueId, OptionUpserts(cs))
    {
      ghost var start, us := State(), OptionUpserts(cs);
      r := Success(0);
      for i := 0 to |cs|
        invariant r.Success? && Step(State(), r) == ApplyAll(start, venueId, us[..i])
      {
        PrefixStep(start, venueId, us, i);
        r := UpsertOptionContract(venueId, cs[i]);
        if r.Failure? {
          FailureSticks(start, venueId, us, i + 1);
          return;
        }
      }
      assert us[..|cs|] == us;
    }

    /** The loop over dated futures. */
    method UpsertFutures(venueId: int, cs: seq<FutureContract>) returns (r: Result<int, Error>)
      modifies this
      ensures Step(State(), r) == ApplyAll(old(State()), venueId, FutureUpserts(cs))
    {
      ghost var start, us := State(), FutureUpserts(cs);
      r := Success(0);
      for i := 0 to |cs|
        invariant r.Success? && Step(State(), r) == ApplyAll(start, venueId, us[..i])
      {
        PrefixStep(start, venueId, us, i);
        r := UpsertFutureContract(venueId, cs[i]);
        if r.Failure? {
          FailureSticks(start, venueId, us, i + 1);
          return;
        }
      }
      assert us[..|cs|] == us;
    }

    /** The statements of one transaction: false if an exception leaves it. */
    method Transaction(venueId: int, p: Payload) returns (done: bool)
      modifies this
      ensures State() == ApplyAll(old(State()), venueId, Attempted(p)).db
      ensures done <==> Fetched(p) && ApplyAll(old(State()), venueId, Attempted(p)).result.Success?
    {
      ghost var start := State();
      if p.options.None? {
        return false;
      }
      ghost var os := OptionUpserts(p.options.value);
      var r := UpsertOptions(venueId, p.options.value);
      if p.futures.None? {
        return false;
      }
      var futures := Dated(p.futures.value);
      ghost var fs, last := FutureUpserts(futures), CurrencyUpsert(BTC_USD, PLACEHOLDER_TICK);
      assert Attempted(p) == os + (fs + [last]) == os + fs + [last];
      if r.Failure? {
        ConcatFails(start, venueId, os, fs + [last]);
        return false;
      }
      ApplyAllConcat(start, venueId, os, fs);
      ApplyAllSnoc(start, venueId, os + fs, last);
      r := UpsertFutures(venueId, futures);
      if r.Failure? {
        return false;
      }
      r := EnsureCurrencyInstrument(venueId, BTC_USD, PLACEHOLDER_TICK);
      return r.Success?;
    }

    /** `run`: schema, then one transaction that is committed whole or rolled back, the sequence aside. */
    method Ingest(p: Payload) returns (committed: bool)
      modifies this
      ensures State() == Run(old(State()), p)
      ensures committed <==> Commits(old(State()), p)
    {
      ghost var before := State();
      ExecuteSchema();
      var saved := Rows();
      committed := Transaction(venue[DERIBIT], p);
      if !committed {
        ghost var ended := State();
        venue, instrument, bySymbol := saved.venue, saved.instrument, saved.bySymbol;
        option, future, currencies := saved.option, saved.future, saved.currencies;
        SequenceOnlyGrows(EnsureSchema(before), VenueId(before), Attempted(p));
      }
    }
  }

  lemma ApplyAllSnoc(db: Db, v: int, us: seq<Upsert>, u: Upsert)
    ensures ApplyAll(db, v, us + [u]) ==
            if ApplyAll(db, v, us).result.Failure? then ApplyAll(db, v, us)
            else Apply(ApplyAll(db, v, us).db, v, u)
  {
    assert (us + [u])[..|us + [u]| - 1] == us;
  }

  lemma PrefixStep(db: Db, v: int, us: seq<Upsert>, i: nat)
    requires i < |us|
    ensures ApplyAll(db, v, us[..i + 1]) ==
            if ApplyAll(db, v, us[..i]).result.Failure? then ApplyAll(db, v, us[..i])
            else Apply(ApplyAll(db, v, us[..i]).db, v, us[i])
  {
    assert us[..i + 1] == us[..i] + [us[i]];
    ApplyAllSnoc(db, v, us[..i], us[i]);
  }

  /** Nothing after the first exception has an effect. */
  lemma {:induction false} FailureSticks(db: Db, v: int, us: seq<Upsert>, n: nat)
    requires n <= |us| && ApplyAll(db, v, us[..n]).result.Failure?
    ensures ApplyAll(db, v, us) == ApplyAll(db, v, us[..n])
    decreases |us| - n
  {
    if n == |us| {
      assert us[..n] == us;
    } else {
      PrefixStep(db, v, us, n);
      FailureSticks(db, v, us, n + 1);
    }
  }

  lemma ConcatFails(db: Db, v: int, a: seq<Upsert>, b: seq<Upsert>)
    requires ApplyAll(db, v, a).result.Failure?
    ensures ApplyAll(db, v, a + b) == ApplyAll(db, v, a)
  {
    assert (a + b)[..|a|] == a;
    FailureSticks(db, v, a + b, |a|);
  }

  lemma ConcatStep(db: Db, v: int, a: seq<Upsert>, rest: seq<Upsert>, u: Upsert)
    requires ApplyAll(db, v, a + rest).db == ApplyAll(ApplyAll(db, v, a).db, v, rest).db
    requires ApplyAll(db, v, a + rest).result.Success? <==> ApplyAll(ApplyAll(db, v, a).db, v, rest).result.Success?
    ensures var one, two := ApplyAll(db, v, a + rest + [u]), ApplyAll(ApplyAll(db, v, a).db, v, rest + [u]);
            one.db == two.db && (one.result.Success? <==> two.result.Success?)
  {
    ApplyAllSnoc(db, v, a + rest, u);
    ApplyAllSnoc(ApplyAll(db, v, a).db, v, rest, u);
  }

  lemma PrefixSnoc(a: seq<Upsert>, b: seq<Upsert>, n: nat)
    requires 1 <= n <= |b|
    ensures b[..n - 1] + [b[n - 1]] == b[..n]
    ensures a + b[..n - 1] + [b[n - 1]] == a + b[..n]
  {
  }

  lemma {:induction false} ConcatPrefix(db: Db, v: int, a: seq<Upsert>, b: seq<Upsert>, n: nat)
    requires ApplyAll(db, v, a).result.Success? && n <= |b|
    ensures ApplyAll(db, v, a + b[..n]).db == ApplyAll(ApplyAll(db, v, a).db, v, b[..n]).db
    ensures ApplyAll(db, v, a + b[..n]).result.Success? <==>
            ApplyAll(ApplyAll(db, v, a).db, v, b[..n]).result.Success?
  {
    if n == 0 {
      assert a + b[..0] == a;
    } else {
      ConcatPrefix(db, v, a, b, n - 1);
      ConcatStep(db, v, a, b[..n - 1], b[n - 1]);
      PrefixSnoc(a, b, n);
    }
  }

  lemma ApplyAllConcat(db: Db, v: int, a: seq<Upsert>, b: seq<Upsert>)
    requires ApplyAll(db, v, a).result.Success?
    ensures ApplyAll(db, v, a + b).db == ApplyAll(ApplyAll(db, v, a).db, v, b).db
    ensures ApplyAll(db, v, a + b).result.Success? <==> ApplyAll(ApplyAll(db, v, a).db, v, b).result.Success?
  {
    ConcatPrefix(db, v, a, b, |b|);
    assert b[..|b|] == b;
  }
}
