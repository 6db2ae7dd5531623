/** The lifecycle-event mapping of `NotificationModel::dispatchEvent`. */
module Dispatching {
  import opened Wrappers
  import opened Entities

  /** The `switch ($action)`: the four lifecycle actions name an event, anything else none. */
  function EventNameFor(action: string): (r: Option<EventName>)
    ensures r.None? <==> action !in {"pre_save", "post_save", "pre_delete", "post_delete"}
  {
    match action
    case "pre_save" => Some(PreSave)
    case "post_save" => Some(PostSave)
    case "pre_delete" => Some(PreDelete)
    case "post_delete" => Some(PostDelete)
    case _ => None
  }

  /** The action string a caller passes to request each event. */
  function ActionFor(name: EventName): string
  {
    match name
    case PreSave => "pre_save"
    case PostSave => "post_save"
    case PreDelete => "pre_delete"
    case PostDelete => "post_delete"
  }

  /** The mapping is a bijection between the four action strings and the four events. */
  lemma EventNameForRoundTrip(action: string, name: EventName)
    ensures EventNameFor(ActionFor(name)) == Some(name)
    ensures EventNameFor(action) == Some(name) ==> action == ActionFor(name)
  {
  }

  /** What one `dispatchEvent` call returns and what it does to the dispatcher. */
  datatype DispatchOutcome = DispatchOutcome(result: Result<Option<Event>, Error>, ops: seq<Op>)

  /**
   * `dispatchEvent($action, $entity, $isNew, $event)` against a dispatcher whose
   * events with at least one listener are `listeners`.
   */
  function Dispatch(listeners: set<EventName>, action: string, entity: Entity, isNew: bool, event: Option<Event>): (o: DispatchOutcome)
    // the type guard comes first, whatever the action
    ensures o.result.Err? <==> !IsNotification(entity)
    ensures o.result.Err? ==> o.result.error == MethodNotAllowed(["Notification"]) && o.ops == []
    // an unknown action, or an event nobody listens to: null, nothing built, nothing dispatched
    ensures o.result.Ok? && (EventNameFor(action).None? || EventNameFor(action).value !in listeners) ==>
              o.result.value.None? && o.ops == []
    // otherwise the supplied event, or a new one for (entity, isNew), is dispatched once and returned
    ensures o.result.Ok? && EventNameFor(action).Some? && EventNameFor(action).value in listeners ==>
              var ev := if event.Some? then event.value else NotificationEvent(entity, isNew);
              && o.result.value == Some(ev)
              && o.ops == (if event.None? then [Constructed(ev)] else []) + [Dispatched(EventNameFor(action).value, ev)]
  {
    if !IsNotification(entity) then DispatchOutcome(Err(MethodNotAllowed(["Notification"])), [])
    else
      match EventNameFor(action)
      case None => DispatchOutcome(Ok(None), [])
      case Some(name) =>
        if name !in listeners then DispatchOutcome(Ok(None), [])
        else if event.None? then
          var ev := NotificationEvent(entity, isNew);
          DispatchOutcome(Ok(Some(ev)), [Constructed(ev), Dispatched(name, ev)])
        else DispatchOutcome(Ok(event), [Dispatched(name, event.value)])
  }
}
