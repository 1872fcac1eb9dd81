/**
 From database rows to gateway identity: the startup query and row mapping of
 src/marketdata/InstrumentRepository.cpp, and `build_registry` of src/main.cpp.
 */
module Repository {
  import opened Wrappers
  import opened Symbol
  import opened Registry
  import R = ReferenceData

  /** One row of the startup SELECT; `expiration` in nanoseconds since the epoch. */
  datatype InstrumentRow = InstrumentRow(
    instrumentId: int,
    symbol: string,
    instrumentType: string,
    optionType: Option<string>,
    strike: Option<real>,
    expiration: Option<int>)

  // ---------- The query ----------

  function CoalesceExpiration(t: R.Tables, id: int): Option<int> {
    if id in t.option && t.option[id].expiration.Some? then t.option[id].expiration
    else if id in t.future then t.future[id].expiration
    else None
  }

  /** The two LEFT JOINs for one instrument. */
  function RowOf(t: R.Tables, id: int): InstrumentRow
    requires id in t.instrument
  {
    var expiration := CoalesceExpiration(t, id);
    InstrumentRow(id, t.instrument[id].symbol, t.instrument[id].kind,
                  if id in t.option then Some(t.option[id].optionType) else None,
                  if id in t.option then Some(R.Column(t.option[id].strike)) else None,
                  if expiration.Some? then Some(expiration.value * 1000) else None)
  }

  /** The JOIN with venue and the WHERE clause. */
  predicate Selected(t: R.Tables, code: string, id: int) {
    && id in t.instrument && code in t.venue && t.instrument[id].venueId == t.venue[code]
    && t.instrument[id].kind in {"option", "future", "currency"}
  }

  /** The selected rows with an id below n, in id order. */
  function SelectBelow(t: R.Tables, code: string, n: int): seq<InstrumentRow>
    decreases n
  {
    if n <= 1 then []
    else SelectBelow(t, code, n - 1) + if Selected(t, code, n - 1) then [RowOf(t, n - 1)] else []
  }

  function Select(db: R.Db, code: string): seq<InstrumentRow> {
    SelectBelow(db.tables, code, db.nextInstrument)
  }

  /** What the SQL text asks for, without saying how: every selected instrument once, ordered by id. */
  ghost predicate AnswersQuery(t: R.Tables, code: string, rows: seq<InstrumentRow>) {
    && (forall i :: 0 <= i < |rows| ==>
          Selected(t, code, rows[i].instrumentId) && rows[i] == RowOf(t, rows[i].instrumentId))
    && (forall i, j :: 0 <= i < j < |rows| ==> rows[i].instrumentId < rows[j].instrumentId)
    && (forall id :: Selected(t, code, id) ==> exists i :: 0 <= i < |rows| && rows[i].instrumentId == id)
  }

  /** The same for the ids below n. */
  ghost predicate AnswersBelow(t: R.Tables, code: string, n: int, rows: seq<InstrumentRow>) {
    && (forall r :: r in rows ==>
          1 <= r.instrumentId < n && Selected(t, code, r.instrumentId) && r == RowOf(t, r.instrumentId))
    && (forall i, j :: 0 <= i < j < |rows| ==> rows[i].instrumentId < rows[j].instrumentId)
    && (forall id :: 1 <= id < n && Selected(t, code, id) ==> RowOf(t, id) in rows)
  }

  lemma AnswersOneMore(t: R.Tables, code: string, n: int, rows: seq<InstrumentRow>)
    requires 1 <= n && AnswersBelow(t, code, n, rows)
    ensures AnswersBelow(t, code, n + 1, rows + if Selected(t, code, n) then [RowOf(t, n)] else [])
  {
    assert forall i :: 0 <= i < |rows| ==> rows[i] in rows;
  }

  lemma {:induction false} SelectBelowAnswers(t: R.Tables, code: string, n: int)
    ensures AnswersBelow(t, code, n, SelectBelow(t, code, n))
    decreases n
  {
    if n > 1 {
      SelectBelowAnswers(t, code, n - 1);
      AnswersOneMore(t, code, n - 1, SelectBelow(t, code, n - 1));
    }
  }

  lemma SelectAnswers(db: R.Db, code: string)
    requires R.Consistent(db)
    ensures AnswersQuery(db.tables, code, Select(db, code))
    ensures forall r :: r in Select(db, code) ==> 1 <= r.instrumentId
  {
    var t, rows := db.tables, Select(db, code);
    SelectBelowAnswers(t, code, db.nextInstrument);
    forall id | Selected(t, code, id) ensures exists i :: 0 <= i < |rows| && rows[i].instrumentId == id {
      assert RowOf(t, id) in rows;
    }
    assert forall i :: 0 <= i < |rows| ==> rows[i] in rows;
  }

  ghost predicate Ascending(s: seq<int>) {
    forall i, j :: 0 <= i < j < |s| ==> s[i] < s[j]
  }

  lemma LastIsGreatest(s: seq<int>, x: int)
    requires Ascending(s) && x in s
    ensures x <= s[|s| - 1] && (x in s[..|s| - 1] <==> x != s[|s| - 1])
  {
    var i :| 0 <= i < |s| && s[i] == x;
    if i < |s| - 1 {
      assert s[..|s| - 1][i] == x;
    }
  }

  lemma SameButLast(a: seq<int>, b: seq<int>)
    requires a != [] && b != [] && a[..|a| - 1] == b[..|b| - 1] && a[|a| - 1] == b[|b| - 1]
    ensures a == b
  {
    assert |a| == |a[..|a| - 1]| + 1 == |b|;
    assert forall i :: 0 <= i < |a| - 1 ==> a[i] == a[..|a| - 1][i] == b[i];
  }

  lemma SameEmptiness(a: seq<int>, b: seq<int>)
    requires forall x :: x in a <==> x in b
    ensures a == [] <==> b == []
  {
    if a != [] {
      var x := a[0];
      assert x in a;
    }
    if b != [] {
      var x := b[0];
      assert x in b;
    }
  }

  /** An ascending sequence is determined by its elements. */
  lemma {:induction false} AscendingUnique(a: seq<int>, b: seq<int>)
    requires Ascending(a) && Ascending(b) && forall x :: x in a <==> x in b
    ensures a == b
  {
    SameEmptiness(a, b);
    if a != [] {
      var m, n := |a| - 1, |b| - 1;
      assert a[m] in b && b[n] in a;
      LastIsGreatest(b, a[m]);
      LastIsGreatest(a, b[n]);
      forall x ensures x in a[..m] <==> x in b[..n] {
        if x in a {
          LastIsGreatest(a, x);
          LastIsGreatest(b, x);
        }
      }
      AscendingUnique(a[..m], b[..n]);
      SameButLast(a, b);
    }
  }

  function RowIds(rows: seq<InstrumentRow>): (ids: seq<int>)
    ensures |ids| == |rows| && forall i :: 0 <= i < |rows| ==> ids[i] == rows[i].instrumentId
  {
    seq(|rows|, i requires 0 <= i < |rows| => rows[i].instrumentId)
  }

  lemma AnswerIds(t: R.Tables, code: string, rows: seq<InstrumentRow>, id: int)
    requires AnswersQuery(t, code, rows)
    ensures id in RowIds(rows) <==> Selected(t, code, id)
  {
    if Selected(t, code, id) {
      var i :| 0 <= i < |rows| && rows[i].instrumentId == id;
      assert RowIds(rows)[i] == id;
    }
  }

  /** The query determines its answer: two row sequences that answer it are the same sequence. */
  lemma QueryDeterminesRows(t: R.Tables, code: string, a: seq<InstrumentRow>, b: seq<InstrumentRow>)
    requires AnswersQuery(t, code, a) && AnswersQuery(t, code, b)
    ensures a == b
  {
    forall id ensures id in RowIds(a) <==> id in RowIds(b) {
      AnswerIds(t, code, a, id);
      AnswerIds(t, code, b, id);
    }
    AscendingUnique(RowIds(a), RowIds(b));
    assert forall i :: 0 <= i < |a| ==> RowIds(a)[i] == RowIds(b)[i];
  }

  /**
   What a row of the answer says, column by column of the two LEFT JOINs: the option's columns are there exactly
   when the option row is, and the expiration is the option's before the future's.
   */
  lemma RowMeaning(db: R.Db, code: string, r: InstrumentRow)
    requires R.Consistent(db) && r in Select(db, code)
    ensures var t, id := db.tables, r.instrumentId;
            && id in t.instrument && code in t.venue && t.instrument[id].venueId == t.venue[code]
            && r.symbol == t.instrument[id].symbol && r.instrumentType == t.instrument[id].kind
            && r.instrumentType != R.PERPETUAL
            && (r.strike.Some? <==> id in t.option) && (r.optionType.Some? <==> id in t.option)
            && (id in t.option ==>
                  && r.optionType == Some(t.option[id].optionType)
                  && r.strike.value * 100000000.0 == t.option[id].strike as real)
            && (id in t.option && t.option[id].expiration.Some? ==>
                  r.expiration == Some(t.option[id].expiration.value * 1000))
            && ((id in t.option ==> t.option[id].expiration.None?) && id in t.future ==>
                  && (r.expiration.Some? <==> t.future[id].expiration.Some?)
                  && (r.expiration.Some? ==> r.expiration.value == t.future[id].expiration.value * 1000))
            && ((id in t.option ==> t.option[id].expiration.None?) && id !in t.future ==> r.expiration.None?)
  {
    SelectBelowAnswers(db.tables, code, db.nextInstrument);
  }

  /** Every instrument of the venue typed option, future or currency has its row. */
  lemma NothingLeftOut(db: R.Db, code: string, id: int)
    requires R.Consistent(db) && code in db.tables.venue
    requires id in db.tables.instrument && db.tables.instrument[id].venueId == db.tables.venue[code]
    ensures exists r :: r in Select(db, code) && r.instrumentId == id
  {
    SelectBelowAnswers(db.tables, code, db.nextInstrument);
    assert RowOf(db.tables, id) in Select(db, code);
  }

  lemma {:induction false} AscendingCount(s: seq<int>, ids: set<int>)
    requires Ascending(s) && forall x :: x in s <==> x in ids
    ensures |s| == |ids|
  {
    if s == [] {
      forall x ensures x !in ids {
        assert x in s <==> x in ids;
      }
      assert ids == {};
    } else {
      var rest, last := s[..|s| - 1], s[|s| - 1];
      assert last in s;
      forall x ensures x in rest <==> x in ids - {last} {
        if x in s {
          LastIsGreatest(s, x);
        }
      }
      AscendingCount(rest, ids - {last});
    }
  }

  /** The query leaves nothing out: as many rows as there are instruments to select. */
  lemma AnswerCount(t: R.Tables, code: string, rows: seq<InstrumentRow>, ids: set<int>)
    requires AnswersQuery(t, code, rows) && forall id :: id in ids <==> Selected(t, code, id)
    ensures |rows| == |ids|
  {
    forall id ensures id in RowIds(rows) <==> id in ids {
      AnswerIds(t, code, rows, id);
    }
    AscendingCount(RowIds(rows), ids);
  }

  // ---------- Row mapping ----------

  function RightOf(optionType: string): Option<OptionRight> {
    if optionType == "call" then Some(Call) else if optionType == "put" then Some(Put) else None
  }

  function ToInstrumentKey(row: InstrumentRow): Option<InstrumentKey> {
    if row.symbol == "" || ParseSymbol(row.symbol).None? then None else
    var key := ParseSymbol(row.symbol).value.(id := row.instrumentId);
    if row.instrumentType == "option" then
      if key.kind != OptionKind || (row.optionType.Some? && RightOf(row.optionType.value).None?) then None
      else Some(key.(strike := if row.strike.Some? then row.strike else key.strike,
                     right := if row.optionType.Some? then RightOf(row.optionType.value).value else key.right,
                     expiry := if row.expiration.Some? then row.expiration.value else key.expiry))
    else if row.instrumentType == "future" then
      if key.kind != FutureKind then None
      else Some(key.(expiry := if row.expiration.Some? then row.expiration.value else key.expiry, strike := None))
    else if row.instrumentType == "currency" then
      if key.kind != IndexKind then None else Some(key.(strike := None))
    else
      None
  }

  /** The branches of `to_instrument_key`, filling a local key. */
  method ToInstrumentKeySteps(row: InstrumentRow) returns (r: Option<InstrumentKey>)
    ensures r == ToInstrumentKey(row)
  {
    if row.symbol == "" {
      return None;
    }
    var parsed := ParseSymbolSteps(row.symbol);
    if parsed.None? {
      return None;
    }
    var key := parsed.value;
    key := key.(id := row.instrumentId);
    if row.instrumentType == "option" {
      if key.kind != OptionKind {
        return None;
      }
      if row.strike.Some? {
        key := key.(strike := row.strike);
      }
      if row.optionType.Some? {
        if row.optionType.value == "call" {
          key := key.(right := Call);
        } else if row.optionType.value == "put" {
          key := key.(right := Put);
        } else {
          return None;
        }
      }
      if row.expiration.Some? {
        key := key.(expiry := row.expiration.value);
      }
      return Some(key);
    }
    if row.instrumentType == "future" {
      if key.kind != FutureKind {
        return None;
      }
      if row.expiration.Some? {
        key := key.(expiry := row.expiration.value);
      }
      return Some(key.(strike := None));
    }
    if row.instrumentType == "currency" {
      if key.kind != IndexKind {
        return None;
      }
      return Some(key.(strike := None));
    }
    return None;
  }

  /** The kind a database type stands for. */
  function KindOfType(instrumentType: string): Option<InstrumentKind> {
    if instrumentType == "option" then Some(OptionKind)
    else if instrumentType == "future" then Some(FutureKind)
    else if instrumentType == "currency" then Some(IndexKind)
    else None
  }

  /**
   Which rows are mapped: those whose symbol is in the grammar, with the kind their type claims, and whose
   option_type, on an option row, is absent, 'call' or 'put'. An absent strike, right or expiry rejects nothing.
   */
  lemma MappedExactly(row: InstrumentRow)
    ensures ToInstrumentKey(row).Some? <==>
            && ParseSymbol(row.symbol).Some?
            && KindOfType(row.instrumentType) == Some(ParseSymbol(row.symbol).value.kind)
            && (row.instrumentType == "option" && row.optionType.Some? ==> row.optionType.value in {"call", "put"})
  {
  }

  /**
   What a mapped key carries: the row's id and symbol, the kind of its type, a strike exactly on an option, and
   each field of its shape from the row where present, else from the symbol. An index takes no field of the row.
   */
  lemma MappedFields(row: InstrumentRow)
    requires ToInstrumentKey(row).Some?
    ensures var k, parsed := ToInstrumentKey(row).value, ParseSymbol(row.symbol).value;
            && k.id == row.instrumentId && k.symbol == row.symbol && k.baseCcy == parsed.baseCcy != ""
            && KindOfType(row.instrumentType) == Some(k.kind) && Streamed(k)
            && (k.strike.Some? <==> k.kind == OptionKind)
            && (k.kind == OptionKind ==>
                  && k.strike == (if row.strike.Some? then row.strike else parsed.strike)
                  && k.right == (if row.optionType == Some("call") then Call
                                 else if row.optionType == Some("put") then Put else parsed.right))
            && k.expiry == (if row.expiration.Some? && k.kind != IndexKind then row.expiration.value
                            else parsed.expiry)
  {
    AcceptedKey(row.symbol);
  }

  // ---------- Building the registry ----------

  /** The keys of the mappable rows, in row order. */
  function Mapped(rows: seq<InstrumentRow>): seq<InstrumentKey> {
    if rows == [] then [] else
    var key := ToInstrumentKey(rows[|rows| - 1]);
    Mapped(rows[..|rows| - 1]) + if key.Some? then [key.value] else []
  }

  /** Rows `build_registry` counts as skipped: unmappable, or refused by `add`. */
  function Skipped(rows: seq<InstrumentRow>): nat {
    if rows == [] then 0 else
    var key := ToInstrumentKey(rows[|rows| - 1]);
    Skipped(rows[..|rows| - 1]) + if key.None? || key.value.id == 0 then 1 else 0
  }

  method BuildRegistry(rows: seq<InstrumentRow>) returns (registry: InstrumentRegistry, skipped: nat)
    ensures fresh(registry) && registry.Valid()
    ensures registry.added == Mapped(rows) && registry.keys == AddAll(Mapped(rows))
    ensures skipped == Skipped(rows)
    ensures registry.byChannel == map[]
  {
    registry := new InstrumentRegistry();
    skipped := 0;
    for i := 0 to |rows|
      invariant fresh(registry) && registry.Valid() && registry.byChannel == map[]
      invariant registry.added == Mapped(rows[..i]) && skipped == Skipped(rows[..i])
    {
      assert rows[..i + 1][..i] == rows[..i];
      var key := ToInstrumentKeySteps(rows[i]);
      if key.None? {
        skipped := skipped + 1;
        continue;
      }
      var id := registry.Add(key.value);
      if id.None? {
        skipped := skipped + 1;
      }
    }
    assert rows[..|rows|] == rows;
  }

  lemma SoundSnoc(keys: seq<InstrumentKey>, key: InstrumentKey)
    ensures Sound(keys + [key]) <==> Sound(keys) && key.id != 0 && ScanSymbol(keys, key.symbol).None?
  {
    var more := keys + [key];
    ScanSymbolFinds(keys, key.symbol);
    assert forall i :: 0 <= i < |keys| ==> more[i] == keys[i];
    assert more[|keys|] == key;
  }

  lemma SnocEqual<T>(a: seq<T>, b: seq<T>, x: T)
    ensures a + [x] == b + [x] <==> a == b
  {
    if a + [x] == b + [x] {
      assert a == (a + [x])[..|a + [x]| - 1] == (b + [x])[..|b + [x]| - 1] == b;
    }
  }

  /** `add` takes every key it is offered exactly when their symbols are distinct and none has id 0. */
  lemma {:induction false} AddTakesAll(added: seq<InstrumentKey>)
    ensures AddAll(added) == added <==> Sound(added)
    ensures |AddAll(added)| <= |added|
  {
    if added != [] {
      var before, key := added[..|added| - 1], added[|added| - 1];
      assert added == before + [key];
      AddTakesAll(before);
      AddSnoc(before, key);
      SoundSnoc(before, key);
      SnocEqual(AddAll(before), before, key);
    }
  }

  /** The mapped keys are exactly what the rows map to. */
  lemma {:induction false} MappedOrigin(rows: seq<InstrumentRow>, k: InstrumentKey)
    ensures k in Mapped(rows) <==> exists r :: r in rows && ToInstrumentKey(r) == Some(k)
  {
    if rows != [] {
      var before, last := rows[..|rows| - 1], rows[|rows| - 1];
      MappedOrigin(before, k);
      assert rows == before + [last];
      assert forall r :: r in rows <==> r in before || r == last;
    }
  }

  ghost predicate IdsAscend(rows: seq<InstrumentRow>) {
    forall i, j :: 0 <= i < j < |rows| ==> rows[i].instrumentId < rows[j].instrumentId
  }

  ghost predicate KeyIdsAscend(keys: seq<InstrumentKey>) {
    forall i, j :: 0 <= i < j < |keys| ==> keys[i].id < keys[j].id
  }

  /** Mapping keeps the order of ids. */
  lemma {:induction false} MappedAscends(rows: seq<InstrumentRow>)
    requires IdsAscend(rows)
    ensures KeyIdsAscend(Mapped(rows))
  {
    if rows != [] {
      var before, last := rows[..|rows| - 1], rows[|rows| - 1];
      MappedAscends(before);
      if ToInstrumentKey(last).Some? {
        MappedFields(last);
        forall k | k in Mapped(before) ensures k.id < last.instrumentId {
          MappedOrigin(before, k);
          var r :| r in before && ToInstrumentKey(r) == Some(k);
          MappedFields(r);
          var n :| 0 <= n < |before| && before[n] == r;
          assert rows[n] == r;
        }
        AppendAscends(Mapped(before), ToInstrumentKey(last).value);
      }
    }
  }

  lemma AppendAscends(keys: seq<InstrumentKey>, key: InstrumentKey)
    requires KeyIdsAscend(keys) && forall k :: k in keys ==> k.id < key.id
    ensures KeyIdsAscend(keys + [key])
  {
    assert forall i :: 0 <= i < |keys| ==> keys[i] in keys;
  }

  /** Every row is mapped or skipped, never both, once ids are not 0. */
  lemma {:induction false} MappedOrSkipped(rows: seq<InstrumentRow>)
    requires forall i :: 0 <= i < |rows| ==> rows[i].instrumentId != 0
    ensures |rows| == |Mapped(rows)| + Skipped(rows)
  {
    if rows != [] {
      MappedOrSkipped(rows[..|rows| - 1]);
    }
  }
}
