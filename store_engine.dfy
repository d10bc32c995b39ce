/** The engine store: the four operations on the `engine` table. The table is
    a map from id to row; the SQL text, the connection and the tracing spans
    are not modelled. A call that reports an error changes no row, for one
    of three reasons depending on where it stops:
    - an update whose id text does not parse, and any call whose transaction
      cannot begin, return before a transaction exists;
    - an error held in the function's `err` variable (a failed SELECT,
      INSERT, UPDATE or DELETE, or `RowsAffected`, and "no rows" on a
      SELECT) makes the deferred block roll the transaction back;
    - "not found" after an UPDATE or DELETE that matched no row is a fresh
      error value while `err` is nil, so the deferred block commits, but the
      statement changed nothing. */
module StoreEngine {
  import opened Base
  import opened Uuids
  import opened Models

  /** A row of the `engine` table. */
  datatype EngineRow = EngineRow(
    displacement: Int64,
    noOfCylinders: Int64,
    carRange: Int64,
    createdAt: Time,
    updatedAt: Time)

  type Table = map<Uuid, EngineRow>

  /** Where the database reports a failure during one call, if it does. A
      failure at a stage the call never reaches has no effect. */
  datatype Fault =
    | Healthy
    | AtBegin(message: string)   // opening the transaction
    | AtRead(message: string)    // the SELECT of a get or a delete, other than "no rows"
    | AtWrite(message: string)   // the INSERT, UPDATE or DELETE, or reading its affected-row count
  {
    predicate ReadReached() { !AtBegin? && !AtRead? }
    predicate WriteReached() { !AtBegin? && !AtWrite? }
  }

  /** The error Postgres reports when the id text is not a UUID. The model
      assumes the `id` column has the Postgres type `uuid`: the table's schema
      (store/schema.sql) is not part of this model, and with a text column a
      malformed id would instead match no row and be "not found". */
  const UuidSyntaxMessage := "invalid input syntax for type uuid"

  /** A call as the store receives it. */
  datatype EngineCall =
    | GetCall(id: string)
    | CreateCall(req: EngineRequest)
    | UpdateCall(id: string, req: EngineRequest)
    | DeleteCall(id: string)

  /** A call's reply and the table once its transaction has ended. */
  datatype Step = Step(reply: Reply<Engine>, table: Table)

  /** The row an insert at instant `now` writes: both timestamps are `now`. */
  function NewRow(req: EngineRequest, now: int): EngineRow {
    EngineRow(req.displacement, req.noOfCylinders, req.carRange, At(now), At(now))
  }

  /** The row an update at instant `now` leaves: new numbers and update time, same creation time. */
  function Overwritten(row: EngineRow, req: EngineRequest, now: int): EngineRow {
    row.(displacement := req.displacement, noOfCylinders := req.noOfCylinders,
         carRange := req.carRange, updatedAt := At(now))
  }

  /** What scanning a selected row yields: the id and the three numbers; the
      timestamps are not selected and keep their zero value. */
  function Selected(u: Uuid, row: EngineRow): Engine {
    Engine(u, row.displacement, row.noOfCylinders, row.carRange, ZeroTime, ZeroTime)
  }

  /** The engine invariant: every stored engine has a strictly positive
      displacement, number of cylinders and range. The store does not check
      it; the service keeps it by writing only numbers that passed
      `ValidateEngineRequest`. */
  predicate AllPositive(t: Table) {
    forall u :: u in t ==> t[u].displacement > 0 && t[u].noOfCylinders > 0 && t[u].carRange > 0
  }

  // --------------------------------------------------------------- specification

  /** GetEngineById: the stored row when the id names one; "not found" when it
      names none; any database failure otherwise. */
  function GetOutcome(t: Table, id: string, fault: Fault): (r: Reply<Engine>)
    ensures r.err.None? <==> fault.ReadReached() && Parse(id).Some? && Parse(id).value in t
    ensures r.err.None? ==> r.value == Selected(Parse(id).value, t[Parse(id).value])
    ensures r.err.Some? ==> r.value == ZeroEngine
    ensures r.err == Some(NotFound) <==> fault.ReadReached() && Parse(id).Some? && Parse(id).value !in t
    ensures r.err.Some? && r.err != Some(NotFound) ==> r.err.value.Database?
  {
    if fault.AtBegin? || fault.AtRead? then Reply(ZeroEngine, Some(Database(fault.message)))
    else match Parse(id)
      case None => Reply(ZeroEngine, Some(Database(UuidSyntaxMessage)))
      case Some(u) =>
        if u in t then Reply(Selected(u, t[u]), None) else Reply(ZeroEngine, Some(NotFound))
  }

  /** CreatedEngine with `newId` drawn by `uuid.New` and `now` read from the
      clock: the id is new to the table and is a version-4 UUID. */
  function CreateOutcome(t: Table, req: EngineRequest, newId: Uuid, now: int, fault: Fault): (s: Step)
    requires newId !in t && IsVersion4(newId)
    ensures s.reply.err.None? <==> fault.WriteReached()
    ensures s.reply.err.None? ==>
      && s.table.Keys == t.Keys + {newId}
      && newId !in t && s.table[newId] == NewRow(req, now)
      && (forall u :: u in t ==> s.table[u] == t[u])
      && s.reply.value.id == newId && s.reply.value.id != NilId
      && s.reply.value.createdAt == s.reply.value.updatedAt == At(now)
      && EngineRequest(s.reply.value.displacement, s.reply.value.noOfCylinders, s.reply.value.carRange) == req
    ensures s.reply.err.Some? ==>
      s.table == t && s.reply.value == ZeroEngine && s.reply.err.value.Database?
  {
    if fault.AtBegin? || fault.AtWrite? then
      Step(Reply(ZeroEngine, Some(Database(fault.message))), t)
    else
      Version4IsNotNil(newId);
      Step(Reply(Engine(newId, req.displacement, req.noOfCylinders, req.carRange, At(now), At(now)), None),
           t[newId := NewRow(req, now)])
  }

  /** UpdateEngine, writing the row's update time `now` and reporting
      `replyNow`: the clock is read twice. */
  function UpdateOutcome(t: Table, id: string, req: EngineRequest, now: int, replyNow: int, fault: Fault): (s: Step)
    ensures s.reply.err == Some(BadEngineId) <==> Parse(id).None?
    ensures s.reply.err.None? <==> Parse(id).Some? && fault.WriteReached() && Parse(id).value in t
    ensures s.reply.err == Some(NotFound) <==>
      Parse(id).Some? && fault.WriteReached() && Parse(id).value !in t
    ensures s.reply.err.None? ==>
      var u := Parse(id).value;
      && s.table.Keys == t.Keys
      && s.table[u] == Overwritten(t[u], req, now)
      && s.table[u].createdAt == t[u].createdAt
      && (forall v :: v in t && v != u ==> s.table[v] == t[v])
      && s.reply.value == Engine(u, req.displacement, req.noOfCylinders, req.carRange, ZeroTime, At(replyNow))
    ensures s.reply.err.Some? ==> s.table == t && s.reply.value == ZeroEngine
    ensures s.reply.err.Some? && s.reply.err != Some(NotFound) && s.reply.err != Some(BadEngineId) ==>
      s.reply.err.value.Database?
  {
    match Parse(id)
    case None => Step(Reply(ZeroEngine, Some(BadEngineId)), t)
    case Some(u) =>
      if fault.AtBegin? || fault.AtWrite? then Step(Reply(ZeroEngine, Some(Database(fault.message))), t)
      else if u !in t then Step(Reply(ZeroEngine, Some(NotFound)), t)
      else Step(Reply(Engine(u, req.displacement, req.noOfCylinders, req.carRange, ZeroTime, At(replyNow)), None),
                t[u := Overwritten(t[u], req, now)])
  }

  /** DeleteEngine: fetch the row, then delete it and return what was fetched. */
  function DeleteOutcome(t: Table, id: string, fault: Fault): (s: Step)
    ensures s.reply.err.None? <==> fault.Healthy? && Parse(id).Some? && Parse(id).value in t
    ensures s.reply.err.None? ==>
      var u := Parse(id).value;
      && s.table.Keys == t.Keys - {u}
      && (forall v :: v in s.table ==> s.table[v] == t[v])
      && s.reply.value == Selected(u, t[u])
    ensures s.reply.err == Some(NotFound) <==> fault.ReadReached() && Parse(id).Some? && Parse(id).value !in t
    ensures s.reply.err.Some? ==> s.table == t
    ensures s.reply.err.Some? && s.reply.err != Some(NotFound) ==> s.reply.err.value.Database?
    ensures fault.AtWrite? && Parse(id).Some? && Parse(id).value in t ==>
      s.reply == Reply(Selected(Parse(id).value, t[Parse(id).value]), Some(Database(fault.message)))
  {
    var fetched := GetOutcome(t, id, fault);
    if fetched.Failed() then Step(fetched, t)
    else if fault.AtWrite? then Step(Reply(fetched.value, Some(Database(fault.message))), t)
    else Step(fetched, t - {Parse(id).value})
  }

  // ------------------------------------------------------------------ the store

  class EngineStore {
    /** The `engine` table of the database the store is connected to. */
    var table: Table
    /** Every call the store has received, oldest first. */
    ghost var calls: seq<EngineCall>

    constructor (table: Table)
      ensures this.table == table && calls == []
    {
      this.table := table;
      calls := [];
    }

    method GetEngineById(id: string, fault: Fault) returns (r: Reply<Engine>)
      modifies this`calls
      ensures calls == old(calls) + [GetCall(id)]
      ensures r == GetOutcome(table, id, fault)
    {
      calls := calls + [GetCall(id)];
      if fault.AtBegin? {
        return Reply(ZeroEngine, Some(Database(fault.message)));
      }
      if fault.AtRead? {
        return Reply(ZeroEngine, Some(Database(fault.message)));
      }
      var key := Parse(id);
      if key.None? {
        return Reply(ZeroEngine, Some(Database(UuidSyntaxMessage)));
      }
      if key.value !in table {
        return Reply(ZeroEngine, Some(NotFound));
      }
      r := Reply(Selected(key.value, table[key.value]), None);
    }

    method CreatedEngine(req: EngineRequest, newId: Uuid, now: int, fault: Fault) returns (r: Reply<Engine>)
      requires newId !in table && IsVersion4(newId)
      modifies this
      ensures calls == old(calls) + [CreateCall(req)]
      ensures Step(r, table) == CreateOutcome(old(table), req, newId, now, fault)
    {
      calls := calls + [CreateCall(req)];
      if fault.AtBegin? {
        return Reply(ZeroEngine, Some(Database(fault.message)));
      }
      var createdAt := At(now);
      var updatedAt := createdAt;
      if fault.AtWrite? {
        return Reply(ZeroEngine, Some(Database(fault.message)));
      }
      table := table[newId := EngineRow(req.displacement, req.noOfCylinders, req.carRange, createdAt, updatedAt)];
      r := Reply(Engine(newId, req.displacement, req.noOfCylinders, req.carRange, createdAt, updatedAt), None);
    }

    method UpdateEngine(id: string, req: EngineRequest, now: int, replyNow: int, fault: Fault)
      returns (r: Reply<Engine>)
      modifies this
      ensures calls == old(calls) + [UpdateCall(id, req)]
      ensures Step(r, table) == UpdateOutcome(old(table), id, req, now, replyNow, fault)
    {
      calls := calls + [UpdateCall(id, req)];
      var engineId := Parse(id);
      if engineId.None? {
        return Reply(ZeroEngine, Some(BadEngineId));
      }
      if fault.AtBegin? || fault.AtWrite? {
        return Reply(ZeroEngine, Some(Database(fault.message)));
      }
      var u := engineId.value;
      var rowsAffected := if u in table then 1 else 0;
      if rowsAffected == 0 {
        return Reply(ZeroEngine, Some(NotFound));
      }
      table := table[u := table[u].(displacement := req.displacement, noOfCylinders := req.noOfCylinders,
                                    carRange := req.carRange, updatedAt := At(now))];
      r := Reply(Engine(u, req.displacement, req.noOfCylinders, req.carRange, ZeroTime, At(replyNow)), None);
    }

    method DeleteEngine(id: string, fault: Fault) returns (r: Reply<Engine>)
      modifies this
      ensures calls == old(calls) + [DeleteCall(id)]
      ensures Step(r, table) == DeleteOutcome(old(table), id, fault)
    {
      calls := calls + [DeleteCall(id)];
      if fault.AtBegin? || fault.AtRead? {
        return Reply(ZeroEngine, Some(Database(fault.message)));
      }
      var key := Parse(id);
      if key.None? {
        return Reply(ZeroEngine, Some(Database(UuidSyntaxMessage)));
      }
      if key.value !in table {
        return Reply(ZeroEngine, Some(NotFound));
      }
      var engine := Selected(key.value, table[key.value]);
      if fault.AtWrite? {
        return Reply(engine, Some(Database(fault.message)));
      }
      table := table - {key.value};
      r := Reply(engine, None);
    }
  }

  // ------------------------------------------------------ calls in sequence

  /** An engine created and then fetched by the id it was given back under
      reads back the numbers it was created with. */
  lemma CreateThenGet(t: Table, req: EngineRequest, newId: Uuid, now: int)
    requires newId !in t && IsVersion4(newId)
    ensures var created := CreateOutcome(t, req, newId, now, Healthy);
            var fetched := GetOutcome(created.table, Format(created.reply.value.id), Healthy);
            && fetched.err.None?
            && fetched.value.id == newId
            && EngineRequest(fetched.value.displacement, fetched.value.noOfCylinders, fetched.value.carRange) == req
  {
    ParseFormat(newId);
  }

  /** After an update that succeeded, a get by the same id reads the new numbers. */
  lemma UpdateThenGet(t: Table, u: Uuid, req: EngineRequest, now: int, replyNow: int)
    requires u in t
    ensures var updated := UpdateOutcome(t, Format(u), req, now, replyNow, Healthy);
            var fetched := GetOutcome(updated.table, Format(u), Healthy);
            && updated.reply.err.None?
            && fetched == Reply(Engine(u, req.displacement, req.noOfCylinders, req.carRange, ZeroTime, ZeroTime), None)
  {
    ParseFormat(u);
  }

  /** After a delete that succeeded, the id is gone: a get and a second delete
      both report "not found". */
  lemma DeleteThenGet(t: Table, u: Uuid)
    requires u in t
    ensures var deleted := DeleteOutcome(t, Format(u), Healthy);
            && deleted.reply.err.None?
            && GetOutcome(deleted.table, Format(u), Healthy).err == Some(NotFound)
            && DeleteOutcome(deleted.table, Format(u), Healthy).reply.err == Some(NotFound)
  {
    ParseFormat(u);
  }

  /** The life of one id: create takes it from absent to present, update needs
      it present and keeps it present, delete needs it present and makes it
      absent; every other id keeps its presence. */
  lemma Lifecycle(t: Table, u: Uuid, v: Uuid, req: EngineRequest, now: int, replyNow: int, fault: Fault)
    requires u != v
    ensures u !in t && IsVersion4(u) && CreateOutcome(t, req, u, now, fault).reply.err.None? ==>
      u in CreateOutcome(t, req, u, now, fault).table && (v in CreateOutcome(t, req, u, now, fault).table <==> v in t)
    ensures UpdateOutcome(t, Format(u), req, now, replyNow, fault).reply.err.None? ==>
      u in t && UpdateOutcome(t, Format(u), req, now, replyNow, fault).table.Keys == t.Keys
    ensures DeleteOutcome(t, Format(u), fault).reply.err.None? ==>
      u in t && u !in DeleteOutcome(t, Format(u), fault).table && (v in DeleteOutcome(t, Format(u), fault).table <==> v in t)
  {
    ParseFormat(u);
  }

  /** A create whose request passed validation keeps the engine invariant. */
  lemma CreateKeepsPositive(t: Table, req: EngineRequest, newId: Uuid, now: int, fault: Fault)
    requires newId !in t && IsVersion4(newId)
    requires AllPositive(t) && ValidateEngineRequest(req).None?
    ensures AllPositive(CreateOutcome(t, req, newId, now, fault).table)
  {
  }

  /** An update whose request passed validation keeps the engine invariant. */
  lemma UpdateKeepsPositive(t: Table, id: string, req: EngineRequest, now: int, replyNow: int, fault: Fault)
    requires AllPositive(t) && ValidateEngineRequest(req).None?
    ensures AllPositive(UpdateOutcome(t, id, req, now, replyNow, fault).table)
  {
  }

  /** A delete only removes rows, so it keeps the engine invariant. */
  lemma DeleteKeepsPositive(t: Table, id: string, fault: Fault)
    requires AllPositive(t)
    ensures AllPositive(DeleteOutcome(t, id, fault).table)
  {
  }

  /** The store on its own does not keep the invariant: it inserts whatever
      numbers it is given, so the validation in front of it is what does. */
  lemma StoreAloneAdmitsNonPositive(t: Table, newId: Uuid, now: int)
    requires newId !in t && IsVersion4(newId)
    ensures !AllPositive(CreateOutcome(t, EngineRequest(0, 4, 500), newId, now, Healthy).table)
  {
    assert CreateOutcome(t, EngineRequest(0, 4, 500), newId, now, Healthy).table[newId].displacement == 0;
  }
}
