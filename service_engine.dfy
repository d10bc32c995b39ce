/** The engine service: create and update run the engine request rules and
    stop at the first failure without calling the store; get and delete go
    straight to the store. Whatever the store returns is passed on, except
    that on an error the engine is replaced by the zero Engine. */
module ServiceEngine {
  import opened Base
  import opened Uuids
  import opened Models
  import opened StoreEngine

  class EngineService {
    const store: EngineStore

    constructor (store: EngineStore)
      ensures this.store == store
    {
      this.store := store;
    }

    method CreateEngine(req: EngineRequest, newId: Uuid, now: int, fault: Fault) returns (r: Reply<Engine>)
      requires newId !in store.table && IsVersion4(newId)
      modifies store
      ensures ValidateEngineRequest(req).Some? ==>
        && r == Reply(ZeroEngine, ValidateEngineRequest(req))
        && store.table == old(store.table) && store.calls == old(store.calls)
      ensures ValidateEngineRequest(req).None? ==>
        var s := CreateOutcome(old(store.table), req, newId, now, fault);
        && store.calls == old(store.calls) + [CreateCall(req)]
        && store.table == s.table
        && r == Scrub(s.reply, ZeroEngine)
      ensures AllPositive(old(store.table)) ==> AllPositive(store.table)
    {
      var invalid := ValidateEngineRequest(req);
      if invalid.Some? {
        return Reply(ZeroEngine, invalid);
      }
      var engine := store.CreatedEngine(req, newId, now, fault);
      if engine.Failed() {
        return Reply(ZeroEngine, engine.err);
      }
      r := engine;
    }

    method GetEngineById(id: string, fault: Fault) returns (r: Reply<Engine>)
      modifies store`calls
      ensures store.calls == old(store.calls) + [GetCall(id)]
      ensures r == Scrub(GetOutcome(store.table, id, fault), ZeroEngine)
    {
      var engine := store.GetEngineById(id, fault);
      if engine.Failed() {
        return Reply(ZeroEngine, engine.err);
      }
      r := engine;
    }

    method UpdateEngine(id: string, req: EngineRequest, now: int, replyNow: int, fault: Fault)
      returns (r: Reply<Engine>)
      modifies store
      ensures ValidateEngineRequest(req).Some? ==>
        && r == Reply(ZeroEngine, ValidateEngineRequest(req))
        && store.table == old(store.table) && store.calls == old(store.calls)
      ensures ValidateEngineRequest(req).None? ==>
        var s := UpdateOutcome(old(store.table), id, req, now, replyNow, fault);
        && store.calls == old(store.calls) + [UpdateCall(id, req)]
        && store.table == s.table
        && r == Scrub(s.reply, ZeroEngine)
      ensures AllPositive(old(store.table)) ==> AllPositive(store.table)
    {
      var invalid := ValidateEngineRequest(req);
      if invalid.Some? {
        return Reply(ZeroEngine, invalid);
      }
      var engine := store.UpdateEngine(id, req, now, replyNow, fault);
      if engine.Failed() {
        return Reply(ZeroEngine, engine.err);
      }
      r := engine;
    }

    method DeleteEngine(id: string, fault: Fault) returns (r: Reply<Engine>)
      modifies store
      ensures store.calls == old(store.calls) + [DeleteCall(id)]
      ensures var s := DeleteOutcome(old(store.table), id, fault);
              store.table == s.table && r == Scrub(s.reply, ZeroEngine)
      ensures AllPositive(old(store.table)) ==> AllPositive(store.table)
    {
      var engine := store.DeleteEngine(id, fault);
      if engine.Failed() {
        return Reply(ZeroEngine, engine.err);
      }
      r := engine;
    }
  }

  /** What the service answers to a delete whose DELETE statement fails: the
      store hands back the row it fetched along with the error, and the
      service drops the row and keeps the error. */
  lemma DeleteFailureDropsFetchedRow(t: Table, u: Uuid, message: string)
    requires u in t
    ensures DeleteOutcome(t, Format(u), AtWrite(message)).reply.value == Selected(u, t[u])
    ensures Scrub(DeleteOutcome(t, Format(u), AtWrite(message)).reply, ZeroEngine)
            == Reply(ZeroEngine, Some(Database(message)))
  {
    ParseFormat(u);
  }

  /** A create the service lets through and the database accepts is exactly
      the store's answer, and the table gains one row under a new id. */
  lemma ValidCreateSucceeds(t: Table, req: EngineRequest, newId: Uuid, now: int)
    requires newId !in t && IsVersion4(newId)
    requires ValidateEngineRequest(req).None?
    ensures var s := CreateOutcome(t, req, newId, now, Healthy);
            && Scrub(s.reply, ZeroEngine) == s.reply
            && s.reply.err.None?
            && |s.table| == |t| + 1
  {
  }
}
