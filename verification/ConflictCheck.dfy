/**
 * The department routes of the server, one at a time: each reads the store, writes it and says so
 * on the event log, and a PATCH that names the offset it works from is refused when the
 * department may have changed since.
 */
module ConflictCheck {
  import opened Shared
  import opened EventLog

  type Errors = seq<ValidationError>

  /** Everything a PATCH can change is in `content`; its id and office never change. */
  datatype Department = Department(id: string, officeId: string, content: Json)

  datatype Reply =
    | Missing
    | Conflict(current: Department)
    | Refused(errors: Errors)
    | Updated(department: Department)

  type Store = map<string, Department>

  /** What an office has stored under an id. */
  function Own(store: Store, officeId: string, id: string): Option<Department> {
    if id in store && store[id].officeId == officeId then Some(store[id]) else None
  }

  /** Each published event accounts for what its office's store became: only its own id may differ. */
  ghost predicate Accounted(history: seq<OfficeEvent>, stores: seq<Store>, officeId: string) {
    && |stores| == |history| + 1
    && forall j, id :: 0 <= j < |history| && !Concerns(history[j], id) ==>
         Own(stores[j + 1], officeId, id) == Own(stores[j], officeId, id)
  }

  /** Something no event after an offset concerns is still what it was at that offset. */
  lemma {:induction false} UnchangedIsCurrent(
    history: seq<OfficeEvent>, stores: seq<Store>, officeId: string, id: string, offset: nat)
    requires Accounted(history, stores, officeId) && offset <= |history|
    requires !ChangedAfter(history, id, offset)
    ensures Own(stores[offset], officeId, id) == Own(stores[|history|], officeId, id)
    decreases |history| - offset
  {
    if offset < |history| {
      assert history[offset] in Suffix(history, offset) by { assert Suffix(history, offset)[0] == history[offset]; }
      forall e | e in Suffix(history, offset + 1) ensures e in Suffix(history, offset) {
        assert Suffix(history, offset)[1..] == Suffix(history, offset + 1);
      }
      UnchangedIsCurrent(history, stores, officeId, id, offset + 1);
    }
  }

  /** Two stores agree but on the department of the office that an event with this data is about. */
  ghost predicate OnlyTouches(before: Store, next: Store, officeId: string, data: map<string, Json>) {
    forall f, id :: f != officeId || "id" !in data || data["id"] != Str(id) ==> Own(next, f, id) == Own(before, f, id)
  }

  /** The recorded stores of an office account for its history and end in what it stores now. */
  ghost predicate Recorded(history: seq<OfficeEvent>, stores: seq<Store>, officeId: string, now: Store) {
    && Accounted(history, stores, officeId)
    && forall id :: Own(stores[|history|], officeId, id) == Own(now, officeId, id)
  }

  lemma RecordedGrows(
    history: seq<OfficeEvent>, stores: seq<Store>, officeId: string, now: Store, event: OfficeEvent, next: Store)
    requires Recorded(history, stores, officeId, now) && OnlyTouches(now, next, officeId, event.data)
    ensures Recorded(history + [event], stores + [next], officeId, next)
  {
  }

  lemma RecordedElsewhere(
    history: seq<OfficeEvent>, stores: seq<Store>, f: string, now: Store, next: Store,
    officeId: string, data: map<string, Json>)
    requires Recorded(history, stores, f, now) && f != officeId && OnlyTouches(now, next, officeId, data)
    ensures Recorded(history, stores, f, next)
  {
  }

  class DepartmentServer {
    const log: OfficeEventLog
    var departments: Store
    ghost const initial: Store
    /** For each office that has published, the store as it was at every offset from 0. */
    ghost var past: map<string, seq<Store>>

    ghost function Stores(officeId: string): seq<Store>
      reads this
    {
      if officeId in past then past[officeId] else [initial]
    }

    ghost function Published(officeId: string): nat
      reads this, log
    {
      |log.History(officeId)|
    }

    ghost predicate Valid()
      reads this, log
    {
      && log.Valid()
      && (forall id :: id in departments ==> departments[id].id == id)
      && (forall f :: Recorded(log.History(f), Stores(f), f, departments))
    }

    /** What was current under an id when its office had published `offset` events. */
    ghost function CurrentAt(officeId: string, offset: nat, id: string): Option<Department>
      requires Valid() && offset <= Published(officeId)
      reads this, log
    {
      Own(Stores(officeId)[offset], officeId, id)
    }

    /** What was published stays published, and what was current at every offset stays on record. */
    twostate predicate KeepsThePast()
      requires old(Valid()) && Valid()
      reads this, log
    {
      && (forall f :: old(log.History(f)) <= log.History(f))
      && (forall f, o: nat, id :: o <= old(Published(f)) ==> CurrentAt(f, o, id) == old(CurrentAt(f, o, id)))
    }

    /** The office published one event more, of this kind about this id, and what it left is what is stored now. */
    twostate predicate Announces(officeId: string, kind: string, id: string)
      requires Valid()
      reads this, log
    {
      && Published(officeId) == old(Published(officeId)) + 1
      && log.History(officeId)[old(Published(officeId))].data == map["kind" := Str(kind), "id" := Str(id)]
      && CurrentAt(officeId, Published(officeId), id) == Own(departments, officeId, id)
    }

    constructor (log: OfficeEventLog, stored: Store)
      requires log.Valid() && forall f :: log.History(f) == []
      requires forall id :: id in stored ==> stored[id].id == id
      ensures Valid() && this.log == log && departments == stored
    {
      this.log := log;
      initial := stored;
      departments := stored;
      past := map[];
    }

    /** Publishes an event and leaves the store as `next`, with both on record. */
    method Write(officeId: string, now: int, data: map<string, Json>, next: Store) returns (event: OfficeEvent)
      requires log.Valid()
      modifies this, log
      ensures log.Valid() && departments == next && event.data == data
      ensures log.History(officeId) == old(log.History(officeId)) + [event]
      ensures Stores(officeId) == old(Stores(officeId)) + [next]
      ensures forall f :: f != officeId ==> log.History(f) == old(log.History(f)) && Stores(f) == old(Stores(f))
    {
      past := past[officeId := Stores(officeId) + [next]];
      departments := next;
      event := log.Publish(officeId, now, data);
    }

    /** The same for a `next` that differs at most where the event says, so that the record stays true. */
    method PublishWith(officeId: string, now: int, data: map<string, Json>, next: Store)
      requires Valid() && OnlyTouches(departments, next, officeId, data)
      requires forall id :: id in next ==> next[id].id == id
      modifies this, log
      ensures Valid() && KeepsThePast() && departments == next
      ensures exists event: OfficeEvent :: event.data == data && log.History(officeId) == old(log.History(officeId)) + [event]
      ensures Published(officeId) == old(Published(officeId)) + 1
      ensures Stores(officeId) == old(Stores(officeId)) + [next]
      ensures forall f :: f != officeId ==> log.History(f) == old(log.History(f))
    {
      ghost var before := departments;
      var event := Write(officeId, now, data, next);
      forall f ensures Recorded(log.History(f), Stores(f), f, next) {
        assert Recorded(old(log.History(f)), old(Stores(f)), f, before);
        if f == officeId {
          RecordedGrows(old(log.History(f)), old(Stores(f)), f, before, event, next);
        } else {
          RecordedElsewhere(log.History(f), Stores(f), f, before, next, officeId, data);
        }
      }
    }

    /** Writes one department, or removes it, and publishes that it changed. */
    method WriteAndPublish(officeId: string, id: string, now: int, kind: string, department: Option<Department>)
      requires Valid()
      requires department.Some? ==> department.value.id == id && department.value.officeId == officeId
      requires id in departments ==> departments[id].officeId == officeId
      modifies this, log
      ensures Valid() && KeepsThePast() && Announces(officeId, kind, id)
      ensures departments == if department.Some? then old(departments)[id := department.value] else old(departments) - {id}
      ensures forall f :: f != officeId ==> log.History(f) == old(log.History(f))
    {
      var next := if department.Some? then departments[id := department.value] else departments - {id};
      PublishWith(officeId, now, map["kind" := Str(kind), "id" := Str(id)], next);
    }

    /** Any event of the office that changes none of its departments. */
    method PublishOther(officeId: string, now: int, data: map<string, Json>)
      requires Valid()
      modifies this, log
      ensures Valid() && KeepsThePast() && departments == old(departments)
      ensures Published(officeId) == old(Published(officeId)) + 1
    {
      PublishWith(officeId, now, data, departments);
    }

    method Create(officeId: string, id: string, now: int, content: Json)
      requires Valid() && id !in departments
      modifies this, log
      ensures Valid() && KeepsThePast() && Announces(officeId, "department.created", id)
      ensures departments == old(departments)[id := Department(id, officeId, content)]
    {
      WriteAndPublish(officeId, id, now, "department.created", Some(Department(id, officeId, content)));
    }

    /** Whether a department may have changed since an offset; one that has not is what it was then. */
    method IsStale(id: string, since: int) returns (stale: bool)
      requires Valid() && id in departments
      modifies log
      ensures Valid() && KeepsThePast() && forall f :: log.History(f) == old(log.History(f))
      ensures 0 <= since <= Published(departments[id].officeId) ==>
        (stale <==>
          || Discarded(Published(departments[id].officeId), log.historyLimit) > since
          || ChangedAfter(log.History(departments[id].officeId), id, since))
      ensures !stale && 0 <= since <= Published(departments[id].officeId) ==>
        CurrentAt(departments[id].officeId, since, id) == Some(departments[id])
    {
      var officeId := departments[id].officeId;
      stale := log.ChangedSince(officeId, id, since);
      if !stale && 0 <= since <= Published(officeId) {
        UnchangedIsCurrent(log.History(officeId), Stores(officeId), officeId, id, since);
      }
    }

    method Save(id: string, content: Json, now: int) returns (saved: Department)
      requires Valid() && id in departments
      modifies this, log
      ensures Valid() && KeepsThePast() && Announces(saved.officeId, "department.updated", id)
      ensures saved == old(departments[id]).(content := content) && departments == old(departments)[id := saved]
    {
      saved := departments[id].(content := content);
      WriteAndPublish(saved.officeId, id, now, "department.updated", Some(saved));
    }

    /**
     * PATCH: `edit` stands for the checks and the update a body asks for, `since` for the offset
     * the request says it works from.
     */
    method Patch(id: string, since: Option<int>, now: int, edit: Json -> Result<Json, Errors>) returns (r: Reply)
      requires Valid()
      modifies this, log
      ensures Valid() && KeepsThePast()
      ensures r.Missing? <==> id !in old(departments)
      // Refused as stale exactly when history was lost or this department changed after the offset.
      ensures since.None? ==> !r.Conflict?
      ensures (since.Some? && id in old(departments)
               && 0 <= since.value <= old(Published(departments[id].officeId))) ==>
        (r.Conflict? <==>
          || Discarded(old(Published(departments[id].officeId)), log.historyLimit) > since.value
          || ChangedAfter(old(log.History(departments[id].officeId)), id, since.value))
      ensures r.Conflict? ==> r.current == old(departments[id])
      // What is saved is the edit of what was current at the claimed offset.
      ensures r.Updated? && since.Some? && 0 <= since.value <= old(Published(departments[id].officeId)) ==>
        var based := old(CurrentAt(departments[id].officeId, since.value, id));
        && based == Some(old(departments[id]))
        && edit(based.value.content) == Ok(r.department.content)
      ensures r.Updated? ==>
        && edit(old(departments[id]).content) == Ok(r.department.content)
        && r.department == old(departments[id]).(content := r.department.content)
        && departments == old(departments)[id := r.department]
        && Announces(r.department.officeId, "department.updated", id)
      ensures r.Refused? ==> edit(old(departments[id]).content) == Err(r.errors)
      ensures !r.Updated? ==> departments == old(departments) && forall f :: log.History(f) == old(log.History(f))
    {
      if id !in departments { return Missing; }
      if since.Some? {
        var stale := IsStale(id, since.value);
        if stale { return Conflict(departments[id]); }
      }
      var updated := edit(departments[id].content);
      if updated.Err? { return Refused(updated.error); }
      var saved := Save(id, updated.value, now);
      return Updated(saved);
    }

    /**
     * The switch claims no offset, so it never conflicts. `apply` puts a run state into a department.
     */
    method PutRunState(id: string, wanted: Json, now: int, apply: (Json, string) -> Json) returns (r: Reply)
      requires Valid()
      modifies this, log
      ensures Valid() && KeepsThePast() && (r.Missing? <==> id !in old(departments)) && !r.Conflict?
      ensures !r.Missing? ==> (r.Updated? <==> wanted in [Str("running"), Str("paused")])
      ensures r.Updated? ==>
        && r.department == old(departments[id]).(content := apply(old(departments[id]).content, wanted.s))
        && departments == old(departments)[id := r.department]
        && Announces(r.department.officeId, "department.updated", id)
      ensures !r.Updated? ==> departments == old(departments) && forall f :: log.History(f) == old(log.History(f))
    {
      if id !in departments { return Missing; }
      if !wanted.Str? || wanted.s !in ["running", "paused"] {
        return Refused([ValidationError("runState", "must be one of running, paused")]);
      }
      var saved := Save(id, apply(departments[id].content, wanted.s), now);
      return Updated(saved);
    }

    method Delete(id: string, now: int) returns (found: bool)
      requires Valid()
      modifies this, log
      ensures Valid() && KeepsThePast()
      ensures (found <==> id in old(departments)) && departments == old(departments) - {id}
      ensures found ==> Announces(old(departments[id].officeId), "department.deleted", id)
      ensures !found ==> forall f :: log.History(f) == old(log.History(f))
    {
      if id !in departments { return false; }
      WriteAndPublish(departments[id].officeId, id, now, "department.deleted", None);
      return true;
    }
  }
}
