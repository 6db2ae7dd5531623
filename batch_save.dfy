/**
 * `NotificationModel::saveEntities`: the sequence of collaborator calls one
 * batch save performs, and what that sequence guarantees (who gets events,
 * in which order entities are saved, how often the entity manager flushes).
 */
module BatchSave {
  import opened Wrappers
  import opened Entities
  import opened Dispatching

  /** Entities saved between two batch flushes. */
  const BatchSize: nat := 20

  /** The `pre_save` dispatch: only for a Notification. */
  function PreSaveDispatch(listeners: set<EventName>, e: Entity): DispatchOutcome
  {
    if IsNotification(e) then Dispatch(listeners, "pre_save", e, IsNew(e), None)
    else DispatchOutcome(Ok(None), [])
  }

  /** The `post_save` dispatch, handed the event `pre_save` returned: only for a Notification. */
  function PostSaveDispatch(listeners: set<EventName>, e: Entity): DispatchOutcome
  {
    var pre := PreSaveDispatch(listeners, e);
    if IsNotification(e) then Dispatch(listeners, "post_save", e, IsNew(e), pre.result.value)
    else DispatchOutcome(Ok(None), [])
  }

  /**
   * The calls made for one entity: timestamps, then for a Notification the
   * `pre_save` event, the save without flush, then the `post_save` event that
   * receives whatever `pre_save` returned.
   */
  function EntityOps(listeners: set<EventName>, e: Entity, unlock: bool): seq<Op>
  {
    [Stamped(e, IsNew(e), unlock)] + PreSaveDispatch(listeners, e).ops + [Saved(e, false)] + PostSaveDispatch(listeners, e).ops
  }

  /** The calls made by the loop over `es`, with a flush after every `BatchSize`-th entity. */
  function LoopOps(listeners: set<EventName>, es: seq<Entity>, unlock: bool): seq<Op>
  {
    if es == [] then []
    else
      var n := |es|;
      LoopOps(listeners, es[..n - 1], unlock)
        + EntityOps(listeners, es[n - 1], unlock)
        + (if n % BatchSize == 0 then [Flushed] else [])
  }

  /** The loop's calls after pass `k` extend those before it by that pass and, on a batch boundary, a flush. */
  lemma LoopPass(listeners: set<EventName>, es: seq<Entity>, k: nat, unlock: bool)
    requires k < |es|
    ensures LoopOps(listeners, es[..k + 1], unlock) ==
              LoopOps(listeners, es[..k], unlock) + EntityOps(listeners, es[k], unlock)
              + (if (k + 1) % BatchSize == 0 then [Flushed] else [])
  {
    assert es[..k + 1][..k] == es[..k];
  }

  /** The calls made by `saveEntities($es, $unlock)`: the loop, then one unconditional flush. */
  function SaveAllOps(listeners: set<EventName>, es: seq<Entity>, unlock: bool): seq<Op>
  {
    LoopOps(listeners, es, unlock) + [Flushed]
  }

  /** How many times the entity manager was flushed. */
  function FlushCount(ops: seq<Op>): nat
  {
    multiset(ops)[Flushed]
  }

  /** The entities handed to the repository's saveEntity, in call order. */
  function SavedEntities(ops: seq<Op>): seq<Entity>
  {
    if ops == [] then []
    else SavedEntities(ops[..|ops| - 1]) + (if ops[|ops| - 1].Saved? then [ops[|ops| - 1].entity] else [])
  }

  /** Saves issued since the last flush: the writes a flush would still have to commit. */
  function PendingSaves(ops: seq<Op>): nat
  {
    if ops == [] then 0
    else if ops[|ops| - 1].Flushed? then 0
    else PendingSaves(ops[..|ops| - 1]) + (if ops[|ops| - 1].Saved? then 1 else 0)
  }

  /**
   * A Notification is stamped, gets `pre_save` (when it has listeners) before
   * its save, is saved without flush, and gets `post_save` (when it has
   * listeners) after it; a single event object serves both dispatches.
   */
  lemma NotificationSaveBracketed(listeners: set<EventName>, e: Entity, unlock: bool)
    requires IsNotification(e)
    ensures var isNew := IsNew(e);
            var ev := NotificationEvent(e, isNew);
            EntityOps(listeners, e, unlock) ==
              [Stamped(e, isNew, unlock)]
              + (if PreSave in listeners then [Constructed(ev), Dispatched(PreSave, ev)] else [])
              + [Saved(e, false)]
              + (if PostSave !in listeners then []
                 else if PreSave in listeners then [Dispatched(PostSave, ev)]
                 else [Constructed(ev), Dispatched(PostSave, ev)])
  {
  }

  /** Any other entity is stamped and saved, with no event and no error. */
  lemma OtherEntitySavedWithoutEvents(listeners: set<EventName>, e: Entity, unlock: bool)
    requires !IsNotification(e)
    ensures EntityOps(listeners, e, unlock) == [Stamped(e, IsNew(e), unlock), Saved(e, false)]
  {
  }

  lemma {:induction false} SavedEntitiesAppend(a: seq<Op>, b: seq<Op>)
    ensures SavedEntities(a + b) == SavedEntities(a) + SavedEntities(b)
    decreases |b|
  {
    if b == [] {
      assert a + b == a;
    } else {
      assert (a + b)[..|a + b| - 1] == a + b[..|b| - 1];
      SavedEntitiesAppend(a, b[..|b| - 1]);
    }
  }

  lemma {:induction false} PendingSavesAppend(a: seq<Op>, b: seq<Op>)
    requires Flushed !in b
    ensures PendingSaves(a + b) == PendingSaves(a) + |SavedEntities(b)|
    decreases |b|
  {
    if b == [] {
      assert a + b == a;
    } else {
      assert (a + b)[..|a + b| - 1] == a + b[..|b| - 1];
      PendingSavesAppend(a, b[..|b| - 1]);
    }
  }

  /** Calls on the event dispatcher only. */
  predicate EventOpsOnly(ops: seq<Op>)
  {
    forall op :: op in ops ==> op.Constructed? || op.Dispatched?
  }

  lemma {:induction false} EventOpsSaveNothing(ops: seq<Op>)
    requires EventOpsOnly(ops)
    ensures SavedEntities(ops) == [] && Flushed !in ops
  {
    if ops != [] {
      assert ops[|ops| - 1] in ops;
      assert forall op :: op in ops[..|ops| - 1] ==> op in ops;
      EventOpsSaveNothing(ops[..|ops| - 1]);
    }
  }

  /** One entity's calls contain exactly one save, of that entity, and no flush. */
  lemma EntityOpsSavesOnce(listeners: set<EventName>, e: Entity, unlock: bool)
    ensures SavedEntities(EntityOps(listeners, e, unlock)) == [e]
    ensures Flushed !in EntityOps(listeners, e, unlock)
  {
    DispatchOpsAreEventOps(listeners, e);
    SavesOnceStep(e, [Stamped(e, IsNew(e), unlock)], PreSaveDispatch(listeners, e).ops, PostSaveDispatch(listeners, e).ops);
  }

  /** A stamp, event calls, one save and event calls again save exactly that entity and never flush. */
  lemma SavesOnceStep(e: Entity, stamp: seq<Op>, pre: seq<Op>, post: seq<Op>)
    requires |stamp| == 1 && stamp[0].Stamped?
    requires EventOpsOnly(pre) && EventOpsOnly(post)
    ensures SavedEntities(stamp + pre + [Saved(e, false)] + post) == [e]
    ensures Flushed !in stamp + pre + [Saved(e, false)] + post
  {
    EventOpsSaveNothing(pre);
    EventOpsSaveNothing(post);
    var save := [Saved(e, false)];
    assert SavedEntities(stamp) == [] by {
      assert stamp[..0] == [];
    }
    assert SavedEntities(save) == [e] by {
      assert save[..0] == [];
    }
    var s1 := stamp + pre;
    var s2 := s1 + save;
    SavedEntitiesAppend(stamp, pre);
    SavedEntitiesAppend(s1, save);
    SavedEntitiesAppend(s2, post);
    assert Flushed !in s2 + post by {
      assert Flushed !in stamp && Flushed !in save;
    }
  }

  /**
   * For N entities the entity manager is flushed N / 20 + 1 times: once after
   * every 20th entity and once after the loop (an empty batch still flushes once).
   */
  lemma {:induction false} SaveAllFlushCount(listeners: set<EventName>, es: seq<Entity>, unlock: bool)
    ensures FlushCount(SaveAllOps(listeners, es, unlock)) == |es| / BatchSize + 1
  {
    LoopFlushCount(listeners, es, unlock);
  }

  lemma LoopFlushCount(listeners: set<EventName>, es: seq<Entity>, unlock: bool)
    ensures FlushCount(LoopOps(listeners, es, unlock)) == |es| / BatchSize
  {
    var chunks := EntityChunks(listeners, es, unlock);
    LoopOpsBatched(listeners, es, unlock);
    forall i | 0 <= i < |chunks|
      ensures Flushed !in chunks[i]
    {
      EntityOpsSavesOnce(listeners, es[i], unlock);
    }
    BatchedFlushCount(chunks);
  }

  /** The calls of each loop pass, one chunk per entity. */
  function EntityChunks(listeners: set<EventName>, es: seq<Entity>, unlock: bool): (cs: seq<seq<Op>>)
    ensures |cs| == |es| && forall i :: 0 <= i < |es| ==> cs[i] == EntityOps(listeners, es[i], unlock)
  {
    seq(|es|, i requires 0 <= i < |es| => EntityOps(listeners, es[i], unlock))
  }

  /** Chunks laid end to end, with a flush after every `BatchSize`-th chunk. */
  function Batched(chunks: seq<seq<Op>>): seq<Op>
  {
    if chunks == [] then []
    else
      var n := |chunks|;
      Batched(chunks[..n - 1]) + chunks[n - 1] + (if n % BatchSize == 0 then [Flushed] else [])
  }

  /** The loop's calls are its passes' chunks, batched. */
  lemma {:induction false} LoopOpsBatched(listeners: set<EventName>, es: seq<Entity>, unlock: bool)
    ensures LoopOps(listeners, es, unlock) == Batched(EntityChunks(listeners, es, unlock))
  {
    if es != [] {
      var n := |es|;
      LoopOpsBatched(listeners, es[..n - 1], unlock);
      var cs := EntityChunks(listeners, es, unlock);
      assert cs[..n - 1] == EntityChunks(listeners, es[..n - 1], unlock);
    }
  }

  /** Chunks that never flush by themselves give one flush per full batch. */
  lemma {:induction false} BatchedFlushCount(chunks: seq<seq<Op>>)
    requires forall i :: 0 <= i < |chunks| ==> Flushed !in chunks[i]
    ensures FlushCount(Batched(chunks)) == |chunks| / BatchSize
  {
    if chunks != [] {
      var n := |chunks|;
      BatchedFlushCount(chunks[..n - 1]);
      FlushCountLoopStep(Batched(chunks[..n - 1]), chunks[n - 1], n);
    }
  }

  /** One loop pass that does not flush by itself, then the counter's flush at a multiple of 20. */
  lemma FlushCountLoopStep(prev: seq<Op>, cur: seq<Op>, n: nat)
    requires n > 0 && FlushCount(prev) == (n - 1) / BatchSize && Flushed !in cur
    ensures FlushCount(prev + cur + (if n % BatchSize == 0 then [Flushed] else [])) == n / BatchSize
  {
    var tail: seq<Op> := if n % BatchSize == 0 then [Flushed] else [];
    FlushCountStep(prev, cur, tail);
    assert FlushCount(tail) == (if n % BatchSize == 0 then 1 else 0);
    BatchArithmetic(n);
  }

  lemma FlushCountStep(prev: seq<Op>, cur: seq<Op>, tail: seq<Op>)
    requires Flushed !in cur
    ensures FlushCount(prev + cur + tail) == FlushCount(prev) + FlushCount(tail)
  {
    assert multiset(prev + cur + tail) == multiset(prev) + multiset(cur) + multiset(tail);
  }

  /** The counter `$i` reaching a multiple of 20 adds one flush to the count. */
  lemma BatchArithmetic(n: nat)
    requires n > 0
    ensures (n - 1) / BatchSize + (if n % BatchSize == 0 then 1 else 0) == n / BatchSize
    ensures n % BatchSize != 0 ==> (n - 1) % BatchSize + 1 == n % BatchSize
  {
  }

  /** Saves that do not flush on their own. */
  predicate NoFlushingSave(ops: seq<Op>)
  {
    forall op :: op in ops && op.Saved? ==> !op.flush
  }

  /**
   * Every input entity is saved exactly once, in input order, and never with a
   * per-save flush.
   */
  lemma {:induction false} SaveAllSavesInOrder(listeners: set<EventName>, es: seq<Entity>, unlock: bool)
    ensures SavedEntities(SaveAllOps(listeners, es, unlock)) == es
    ensures NoFlushingSave(SaveAllOps(listeners, es, unlock))
  {
    LoopSavesInOrder(listeners, es, unlock);
    LoopSavesWithoutFlush(listeners, es, unlock);
    SavedEntitiesAppend(LoopOps(listeners, es, unlock), [Flushed]);
  }

  lemma SavedEntitiesStep(prev: seq<Op>, cur: seq<Op>, tail: seq<Op>, init: seq<Entity>, e: Entity)
    requires SavedEntities(prev) == init && SavedEntities(cur) == [e]
    requires tail == [] || tail == [Flushed]
    ensures SavedEntities(prev + cur + tail) == init + [e]
  {
    SavedEntitiesAppend(prev, cur);
    SavedEntitiesAppend(prev + cur, tail);
    assert SavedEntities(tail) == [] by {
      if tail != [] {
        assert tail[..0] == [];
      }
    }
  }

  lemma LoopSavesInOrder(listeners: set<EventName>, es: seq<Entity>, unlock: bool)
    ensures SavedEntities(LoopOps(listeners, es, unlock)) == es
  {
    var chunks := EntityChunks(listeners, es, unlock);
    LoopOpsBatched(listeners, es, unlock);
    forall i | 0 <= i < |chunks|
      ensures SavedEntities(chunks[i]) == [es[i]]
    {
      EntityOpsSavesOnce(listeners, es[i], unlock);
    }
    BatchedSavesInOrder(chunks, es);
  }

  /** Chunks that each save their own entity once save the entities in chunk order. */
  lemma {:induction false} BatchedSavesInOrder(chunks: seq<seq<Op>>, es: seq<Entity>)
    requires |chunks| == |es|
    requires forall i :: 0 <= i < |chunks| ==> SavedEntities(chunks[i]) == [es[i]]
    ensures SavedEntities(Batched(chunks)) == es
  {
    if chunks != [] {
      var n := |chunks|;
      BatchedSavesInOrder(chunks[..n - 1], es[..n - 1]);
      SavedEntitiesStep(Batched(chunks[..n - 1]), chunks[n - 1],
                        if n % BatchSize == 0 then [Flushed] else [], es[..n - 1], es[n - 1]);
      assert es[..n - 1] + [es[n - 1]] == es;
    }
  }

  lemma LoopSavesWithoutFlush(listeners: set<EventName>, es: seq<Entity>, unlock: bool)
    ensures NoFlushingSave(LoopOps(listeners, es, unlock))
  {
    var chunks := EntityChunks(listeners, es, unlock);
    LoopOpsBatched(listeners, es, unlock);
    forall i | 0 <= i < |chunks|
      ensures NoFlushingSave(chunks[i])
    {
      EntityOpsSaveWithoutFlush(listeners, es[i], unlock);
    }
    BatchedSavesWithoutFlush(chunks);
  }

  /** Chunks whose saves do not flush give batches whose saves do not flush. */
  lemma {:induction false} BatchedSavesWithoutFlush(chunks: seq<seq<Op>>)
    requires forall i :: 0 <= i < |chunks| ==> NoFlushingSave(chunks[i])
    ensures NoFlushingSave(Batched(chunks))
  {
    if chunks != [] {
      var n := |chunks|;
      BatchedSavesWithoutFlush(chunks[..n - 1]);
      NoFlushingSaveStep(Batched(chunks[..n - 1]), chunks[n - 1], if n % BatchSize == 0 then [Flushed] else []);
    }
  }

  lemma EntityOpsSaveWithoutFlush(listeners: set<EventName>, e: Entity, unlock: bool)
    ensures NoFlushingSave(EntityOps(listeners, e, unlock))
  {
    var pre := PreSaveDispatch(listeners, e).ops;
    var post := PostSaveDispatch(listeners, e).ops;
    DispatchOpsAreEventOps(listeners, e);
    NoFlushingSaveStep([Stamped(e, IsNew(e), unlock)], pre, []);
    NoFlushingSaveStep([Stamped(e, IsNew(e), unlock)] + pre, [Saved(e, false)], []);
    NoFlushingSaveStep([Stamped(e, IsNew(e), unlock)] + pre + [Saved(e, false)], post, []);
    assert [Stamped(e, IsNew(e), unlock)] + pre + [Saved(e, false)] + post + [] == EntityOps(listeners, e, unlock);
  }

  /** The two dispatches of a loop pass only call the event dispatcher. */
  lemma DispatchOpsAreEventOps(listeners: set<EventName>, e: Entity)
    ensures EventOpsOnly(PreSaveDispatch(listeners, e).ops)
    ensures EventOpsOnly(PostSaveDispatch(listeners, e).ops)
  {
  }

  lemma NoFlushingSaveStep(prev: seq<Op>, cur: seq<Op>, tail: seq<Op>)
    requires NoFlushingSave(prev) && (NoFlushingSave(cur) || EventOpsOnly(cur))
    requires tail == [] || tail == [Flushed]
    ensures NoFlushingSave(prev + cur + tail)
  {
  }

  /**
   * The flush after every 20th entity leaves at most 19 saves pending inside
   * the loop (exactly N mod 20), and the final flush leaves none.
   */
  lemma SaveAllBatchBoundaries(listeners: set<EventName>, es: seq<Entity>, unlock: bool)
    ensures PendingSaves(LoopOps(listeners, es, unlock)) == |es| % BatchSize
    ensures PendingSaves(SaveAllOps(listeners, es, unlock)) == 0
  {
    var chunks := EntityChunks(listeners, es, unlock);
    LoopOpsBatched(listeners, es, unlock);
    forall i | 0 <= i < |chunks|
      ensures Flushed !in chunks[i] && |SavedEntities(chunks[i])| == 1
    {
      EntityOpsSavesOnce(listeners, es[i], unlock);
    }
    BatchedPendingSaves(chunks);
  }

  /** With one save and no flush per chunk, the saves since the last flush are |chunks| mod 20. */
  lemma {:induction false} BatchedPendingSaves(chunks: seq<seq<Op>>)
    requires forall i :: 0 <= i < |chunks| ==> Flushed !in chunks[i] && |SavedEntities(chunks[i])| == 1
    ensures PendingSaves(Batched(chunks)) == |chunks| % BatchSize
  {
    if chunks != [] {
      var n := |chunks|;
      BatchedPendingSaves(chunks[..n - 1]);
      PendingSavesStep(Batched(chunks[..n - 1]), chunks[n - 1], if n % BatchSize == 0 then [Flushed] else []);
      BatchArithmetic(n);
    }
  }

  lemma PendingSavesStep(prev: seq<Op>, cur: seq<Op>, tail: seq<Op>)
    requires Flushed !in cur && |SavedEntities(cur)| == 1
    requires tail == [] || tail == [Flushed]
    ensures PendingSaves(prev + cur + tail) == if tail == [] then PendingSaves(prev) + 1 else 0
  {
    PendingSavesAppend(prev, cur);
    if tail != [] {
      assert (prev + cur + tail)[|prev + cur + tail| - 1] == Flushed;
    } else {
      assert prev + cur + tail == prev + cur;
    }
  }

  /**
   * Events are only ever built and dispatched for Notification entities of the
   * batch; the other entities are saved without any event.
   */
  lemma {:induction false} SaveAllEventsOnlyForNotifications(listeners: set<EventName>, es: seq<Entity>, unlock: bool)
    ensures forall op :: op in SaveAllOps(listeners, es, unlock) && (op.Constructed? || op.Dispatched?) ==>
              op.event.entity in es && IsNotification(op.event.entity)
  {
    LoopEventsOnlyForNotifications(listeners, es, unlock);
  }

  /** Every event call made for one entity is about that entity, and only if it is a Notification. */
  lemma EntityEventsConcernIt(listeners: set<EventName>, e: Entity, unlock: bool)
    ensures forall op :: op in EntityOps(listeners, e, unlock) && (op.Constructed? || op.Dispatched?) ==>
              op.event.entity == e && IsNotification(e)
  {
  }

  lemma LoopEventsOnlyForNotifications(listeners: set<EventName>, es: seq<Entity>, unlock: bool)
    ensures forall op :: op in LoopOps(listeners, es, unlock) && (op.Constructed? || op.Dispatched?) ==>
              op.event.entity in es && IsNotification(op.event.entity)
  {
    var chunks := EntityChunks(listeners, es, unlock);
    LoopOpsBatched(listeners, es, unlock);
    forall i | 0 <= i < |chunks|
      ensures ChunkEventsConcern(chunks[i], es[i])
    {
      EntityEventsConcernIt(listeners, es[i], unlock);
    }
    BatchedEventsConcern(chunks, es);
  }

  /** Every event call in `ops` is about `e`, which is a Notification. */
  predicate ChunkEventsConcern(ops: seq<Op>, e: Entity)
  {
    forall op :: op in ops && (op.Constructed? || op.Dispatched?) ==> op.event.entity == e && IsNotification(e)
  }

  /** Chunks whose events concern their own Notification give batches whose events concern the batch's Notifications. */
  lemma {:induction false} BatchedEventsConcern(chunks: seq<seq<Op>>, es: seq<Entity>)
    requires |chunks| == |es|
    requires forall i :: 0 <= i < |chunks| ==> ChunkEventsConcern(chunks[i], es[i])
    ensures forall op :: op in Batched(chunks) && (op.Constructed? || op.Dispatched?) ==>
              op.event.entity in es && IsNotification(op.event.entity)
  {
    if chunks != [] {
      var n := |chunks|;
      BatchedEventsConcern(chunks[..n - 1], es[..n - 1]);
      assert ChunkEventsConcern(chunks[n - 1], es[n - 1]);
      assert forall x :: x in es[..n - 1] ==> x in es;
      assert Batched(chunks) == Batched(chunks[..n - 1]) + chunks[n - 1] + (if n % BatchSize == 0 then [Flushed] else []);
    }
  }}
