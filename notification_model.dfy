/**
 * `NotificationModel` with its collaborators replaced by one append-only log:
 * every call it makes on the entity manager, the repositories and the event
 * dispatcher is recorded, in order, in `log`.
 */
module Model {
  import opened Wrappers
  import opened Entities
  import opened Dispatching
  import opened BatchSave

  lemma ConcatAssoc(a: seq<Op>, b: seq<Op>, c: seq<Op>, d: seq<Op>)
    ensures a + b + c + d == a + (b + c + d)
  {
  }

  /** Four appends in a row are one append of the four parts. */
  lemma AppendSteps(l0: seq<Op>, l1: seq<Op>, l2: seq<Op>, l3: seq<Op>, l4: seq<Op>,
                    a: seq<Op>, b: seq<Op>, c: seq<Op>, d: seq<Op>)
    requires l1 == l0 + a && l2 == l1 + b && l3 == l2 + c && l4 == l3 + d
    ensures l4 == l0 + (a + b + c + d)
  {
  }

  class NotificationModel {
    /** The events the dispatcher has at least one listener for (`hasListeners`). */
    const listeners: set<EventName>
    /** The calls made on collaborators so far, oldest first. */
    var log: seq<Op>

    constructor (listeners: set<EventName>)
      ensures this.listeners == listeners && log == []
    {
      this.listeners := listeners;
      log := [];
    }

    /** The inherited `setTimestamps` step, recorded with the flags it is given. */
    method SetTimestamps(entity: Entity, isNew: bool, unlock: bool)
      modifies this
      ensures log == old(log) + [Stamped(entity, isNew, unlock)]
    {
      log := log + [Stamped(entity, isNew, unlock)];
    }

    /** The Notification repository's `saveEntity($entity, $flush)`. */
    method SaveEntity(entity: Entity, flush: bool)
      modifies this
      ensures log == old(log) + [Saved(entity, flush)]
    {
      log := log + [Saved(entity, flush)];
    }

    /** The entity manager's `flush()`. */
    method Flush()
      modifies this
      ensures log == old(log) + [Flushed]
    {
      log := log + [Flushed];
    }

    /**
     * `dispatchEvent`: reject anything but a Notification, map the action to an
     * event name, and dispatch (building the event if none was supplied) only
     * when someone listens.
     */
    method DispatchEvent(action: string, entity: Entity, isNew: bool, event: Option<Event>)
      returns (r: Result<Option<Event>, Error>)
      modifies this
      ensures var o := Dispatch(listeners, action, entity, isNew, event);
              r == o.result && log == old(log) + o.ops
    {
      if !IsNotification(entity) {
        return Err(MethodNotAllowed(["Notification"]));
      }
      var name: EventName;
      if action == "pre_save" {
        name := PreSave;
      } else if action == "post_save" {
        name := PostSave;
      } else if action == "pre_delete" {
        name := PreDelete;
      } else if action == "post_delete" {
        name := PostDelete;
      } else {
        return Ok(None);
      }
      if name in listeners {
        var ev := event;
        if ev.None? {
          ev := Some(NotificationEvent(entity, isNew));
          log := log + [Constructed(ev.value)];
        }
        log := log + [Dispatched(name, ev.value)];
        return Ok(ev);
      }
      return Ok(None);
    }

    /**
     * One pass of the `saveEntities` loop body, up to the batch counter: stamp,
     * `pre_save` for a Notification, save without flush, `post_save` for a
     * Notification handed the `pre_save` result.
     */
    method SaveOne(entity: Entity, unlock: bool)
      modifies this
      ensures log == old(log) + EntityOps(listeners, entity, unlock)
    {
      ghost var pre := PreSaveDispatch(listeners, entity);
      ghost var post := PostSaveDispatch(listeners, entity);
      var isNew := IsNew(entity);
      SetTimestamps(entity, isNew, unlock);
      ghost var stamped := log;
      var dispatchEvent := IsNotification(entity);
      var event: Option<Event> := None;
      if dispatchEvent {
        assert pre == Dispatch(listeners, "pre_save", entity, isNew, None);
        var r := DispatchEvent("pre_save", entity, isNew, None);
        event := r.value;
      } else {
        assert pre == DispatchOutcome(Ok(None), []);
      }
      assert log == stamped + pre.ops && event == pre.result.value;
      ghost var dispatched := log;
      SaveEntity(entity, false);
      ghost var mid := log;
      if dispatchEvent {
        assert post == Dispatch(listeners, "post_save", entity, isNew, event);
        var _ := DispatchEvent("post_save", entity, isNew, event);
      } else {
        assert post == DispatchOutcome(Ok(None), []);
      }
      AppendSteps(old(log), stamped, dispatched, mid, log,
                  [Stamped(entity, isNew, unlock)], pre.ops, [Saved(entity, false)], post.ops);
    }

    /**
     * `saveEntities($entities, $unlock)`: save every entity without flushing,
     * bracket Notifications with `pre_save`/`post_save`, flush after every 20th
     * entity and once more at the end.
     */
    method SaveEntities(entities: seq<Entity>, unlock: bool)
      modifies this
      ensures log == old(log) + SaveAllOps(listeners, entities, unlock)
    {
      var batchSize := BatchSize;
      var i := 0;
      for k := 0 to |entities|
        invariant i == k
        invariant log == old(log) + LoopOps(listeners, entities[..k], unlock)
      {
        ghost var done := LoopOps(listeners, entities[..k], unlock);
        var entity := entities[k];
        SaveOne(entity, unlock);
        ghost var cur := EntityOps(listeners, entity, unlock);
        i := i + 1;
        ghost var tail: seq<Op> := if i % batchSize == 0 then [Flushed] else [];
        if i % batchSize == 0 {
          Flush();
        }
        assert log == old(log) + done + cur + tail;
        ConcatAssoc(old(log), done, cur, tail);
        LoopPass(listeners, entities, k, unlock);
      }
      assert entities[..|entities|] == entities;
      Flush();
    }

    /**
     * `getEntity($id)`: a null id yields a new Notification and touches no
     * repository; any other id is looked up by the inherited `getEntity`, whose
     * answers are `stored` (an unknown id gives null).
     */
    method GetEntity(id: Option<int>, stored: map<int, Entity>) returns (r: Option<Entity>)
      modifies this
      ensures id.None? ==> r == Some(Entity(NotificationKind, None)) && log == old(log)
      ensures id.Some? ==> log == old(log) + [Loaded(id.value)]
      ensures id.Some? ==> r == if id.value in stored then Some(stored[id.value]) else None
    {
      if id.None? {
        r := Some(Entity(NotificationKind, None));
      } else {
        log := log + [Loaded(id.value)];
        r := if id.value in stored then Some(stored[id.value]) else None;
      }
    }

    /**
     * `createStatEntry`: one Stat for (notification, lead) stamped with the
     * current time `now`, saved once through the Stat repository.
     */
    method CreateStatEntry(notification: Entity, lead: Lead, source: Option<string>, sourceId: Option<int>, now: int)
      requires IsNotification(notification)
      modifies this
      ensures log == old(log) + [StatSaved(Stat(now, lead, notification, source, sourceId))]
    {
      var stat := Stat(now, lead, notification, source, sourceId);
      log := log + [StatSaved(stat)];
    }
  }
}
