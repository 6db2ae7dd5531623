/**
 * The values the notification model handles: entities (a Notification or any
 * other entity class handed to the batch save), delivery statistics, lifecycle
 * events, and the operations the model performs on its collaborators (entity
 * manager, repositories, event dispatcher), recorded in the order performed.
 */
module Entities {
  import opened Wrappers

  /** The runtime class of an entity: `instanceof Notification` or not. */
  datatype EntityKind = NotificationKind | OtherKind(className: string)

  /** An entity as the model sees it: its class and its id (null until first persisted). */
  datatype Entity = Entity(kind: EntityKind, id: Option<int>)

  predicate IsNotification(e: Entity)
  {
    e.kind.NotificationKind?
  }

  /** `($entity->getId()) ? false : true`: a null or zero id marks a new entity. */
  predicate IsNew(e: Entity)
  {
    match e.id
    case None => true
    case Some(n) => n == 0
  }

  /** A contact (`Lead`), referred to by its id. */
  datatype Lead = Lead(id: int)

  /** One delivery record (`Stat`): when, to whom, which notification, and from where. */
  datatype Stat = Stat(dateSent: int, lead: Lead, notification: Entity, source: Option<string>, sourceId: Option<int>)

  /** The four lifecycle events of `NotificationEvents` (their string values live outside this model). */
  datatype EventName = PreSave | PostSave | PreDelete | PostDelete

  /** A `NotificationEvent` built for an entity and its new/existing flag. */
  datatype Event = NotificationEvent(entity: Entity, isNew: bool)

  /** `MethodNotAllowedHttpException` with its list of allowed classes. */
  datatype Error = MethodNotAllowed(allowed: seq<string>)

  /** One call the model makes on a collaborator. */
  datatype Op =
    | Stamped(entity: Entity, isNew: bool, unlock: bool)  // setTimestamps (inherited, not modelled further)
    | Saved(entity: Entity, flush: bool)                   // Notification repository saveEntity
    | Flushed                                              // entity manager flush
    | Loaded(id: int)                                      // inherited getEntity by id
    | StatSaved(stat: Stat)                                // Stat repository saveEntity
    | Constructed(event: Event)                            // new NotificationEvent (with the entity manager set)
    | Dispatched(name: EventName, event: Event)            // event dispatcher dispatch
}
