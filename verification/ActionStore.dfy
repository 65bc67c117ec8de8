/**
 The ledger's store: a file replaced by write, sync, rename and directory sync, and the
 three ledger operations that swap the ledger in memory only once that write succeeded.
 */
module ActionStore {
  import opened Wrappers
  import opened Evidence
  import opened Ledger
  import opened Protocol

  /** The step of a write that reports an error, if one does. */
  datatype Point =
    | Nowhere
    | Serialization | SizeLimit | ParentCheck | LinkCheck | Creation
    | Writing | Flushing | FileSync | Renaming | DirectorySync

  predicate BeforeCreation(at: Point) {
    at.Serialization? || at.SizeLimit? || at.ParentCheck? || at.LinkCheck? || at.Creation?
  }

  /** The rename comes before the last step that can fail. */
  function WriteAt(at: Point): Write {
    match at
    case Nowhere => Durable
    case DirectorySync => LostPresent
    case _ => LostAbsent
  }

  datatype Contents = Partial | Whole(value: Ledger)

  class JsonStore {
    var file: Option<Contents>
    var temporary: Option<Contents>

    /** Nobody ever finds half a ledger under the store's name. */
    predicate Valid()
      reads this
    {
      temporary.None? && (file.Some? ==> file.value.Whole?)
    }

    function OnDisk(): Ledger
      requires Valid()
      reads this
    {
      if file.None? then EMPTY else file.value.value
    }

    constructor ()
      ensures Valid() && OnDisk() == EMPTY
    {
      file, temporary := None, None;
    }

    method Write(value: Ledger, at: Point) returns (r: Result<(), Point>)
      requires Valid()
      modifies this
      ensures Valid()
      ensures r.Ok? <==> WriteAt(at).Durable?
      ensures OnDisk() == if WriteAt(at).LostAbsent? then old(OnDisk()) else value
    {
      if BeforeCreation(at) {
        return Err(at);
      }
      temporary := Some(Partial);
      r := Replace(value, at);
      if r.Err? {
        temporary := None;
      }
    }

    method Replace(value: Ledger, at: Point) returns (r: Result<(), Point>)
      requires temporary == Some(Partial) && !BeforeCreation(at)
      modifies this
      ensures r.Ok? <==> at.Nowhere?
      ensures r.Ok? ==> temporary.None?
      ensures file == if WriteAt(at).LostAbsent? then old(file) else Some(Whole(value))
    {
      if at.Writing? || at.Flushing? {
        return Err(at);
      }
      temporary := Some(Whole(value));
      if at.FileSync? || at.Renaming? {
        return Err(at);
      }
      file, temporary := temporary, None;
      r := if at.DirectorySync? then Err(at) else Ok(());
    }
  }

  class JsonActionStore {
    const store: JsonStore
    var state: Ledger

    constructor Load(store: JsonStore)
      requires store.Valid()
      ensures this.store == store && state == store.OnDisk()
    {
      this.store := store;
      state := store.OnDisk();
    }

    /** Memory and disk after `op`, when its write ends as `w` does. */
    twostate predicate Performs(op: Op, w: Write)
      requires old(store.Valid()) && store.Valid()
      reads this, store
    {
      && state == MemoryAfter(old(state), op, w)
      && store.OnDisk() == DiskAfter(old(state), old(store.OnDisk()), op, w)
    }

    method Commit(next: Ledger, at: Point) returns (ok: bool)
      requires store.Valid()
      modifies this, store
      ensures store.Valid() && ok == WriteAt(at).Durable?
      ensures state == if ok then next else old(state)
      ensures store.OnDisk() == if WriteAt(at).LostAbsent? then old(store.OnDisk()) else next
    {
      var r := store.Write(next, at);
      ok := r.Ok?;
      if ok {
        state := next;
      }
    }

    method ClaimPrepared(target: string, record: Record, at: Point) returns (r: Result<bool, Fault>)
      requires store.Valid()
      modifies this, store
      ensures store.Valid() && Performs(Claim(target, record), WriteAt(at))
      ensures r == if !Claimable(old(state), target, record) then Ok(false)
                   else if WriteAt(at).Durable? then Ok(true) else Err(WriteLost)
    {
      if target in state.active || record.key in state.idempotency {
        return Ok(false);
      }
      var idempotency := state.idempotency + {record.key};
      var active := state.active[target := record];
      var audit := state.audit[target := History(state, target) + [record]];
      var ok := Commit(state.(audit := audit, active := active, idempotency := idempotency), at);
      r := if ok then Ok(true) else Err(WriteLost);
    }

    method DoAppend(target: string, record: Record, at: Point) returns (r: Result<(), Fault>)
      requires store.Valid()
      modifies this, store
      ensures store.Valid() && Performs(Append(target, record), WriteAt(at))
      ensures r.Ok? <==> Acknowledged(old(state), Append(target, record), WriteAt(at))
      ensures r.Err? ==> r.error == FaultOf(old(state), Append(target, record))
    {
      if target !in state.active {
        return Err(NoActiveTransaction);
      }
      var current := state.active[target];
      if current.key != record.key || current.actionId != record.actionId {
        return Err(CasMismatch);
      }
      var audit := state.audit[target := History(state, target) + [record]];
      var active := if Terminal(record.phase) then state.active - {target} else state.active[target := record];
      var ok := Commit(state.(audit := audit, active := active), at);
      r := if ok then Ok(()) else Err(WriteLost);
    }

    method EscalateUncertain(target: string, record: Record, cause: Cause, at: Point)
      returns (r: Result<Record, Fault>)
      requires store.Valid()
      modifies this, store
      ensures store.Valid() && Performs(Escalate(target, record, cause), WriteAt(at))
      ensures r.Ok? <==> Acknowledged(old(state), Escalate(target, record, cause), WriteAt(at))
      ensures r.Err? ==> r.error == FaultOf(old(state), Escalate(target, record, cause))
      ensures r.Ok? ==> r.value == record.Next(HumanRequired, NeedsReview(cause))
    {
      if target !in state.active {
        return Err(NoActiveTransaction);
      }
      var current := state.active[target];
      if current.key != record.key || current.actionId != record.actionId {
        return Err(CasMismatch);
      }
      var uncertain := record.Next(Uncertain, Unsure(cause));
      var human := uncertain.Next(HumanRequired, NeedsReview(cause));
      var audit := state.audit[target := History(state, target) + [uncertain, human]];
      var ok := Commit(state.(audit := audit, active := state.active - {target}), at);
      r := if ok then Ok(human) else Err(WriteLost);
    }

    /** Close what an earlier daemon left open; `None` when nothing was. */
    method RecoverAfterRestart(target: string, at: Point) returns (r: Result<Option<Record>, Fault>)
      requires store.Valid()
      modifies this, store
      ensures store.Valid()
      ensures target !in old(state).active ==>
        r == Ok(None) && state == old(state) && store.OnDisk() == old(store.OnDisk())
      ensures target in old(state).active ==>
        var closed := RestartClose(old(state).active[target]);
        && Performs(Append(target, closed), WriteAt(at))
        && r == (if WriteAt(at).Durable? then Ok(Some(closed)) else Err(WriteLost))
    {
      if target !in state.active {
        return Ok(None);
      }
      var record := state.active[target];
      var terminal := if record.phase.Prepared? then record.Next(Failed, RestartBeforeSideEffect)
                      else record.Next(HumanRequired, RestartAfterCommit);
      var done := DoAppend(target, terminal, at);
      r := if done.Ok? then Ok(Some(terminal)) else Err(done.error);
    }
  }
}
