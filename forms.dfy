/** `NotificationModel::createForm`: the entity check and the choice of form type and options. */
module Forms {
  import opened Wrappers
  import opened PhpValues
  import opened Entities

  /** `NotificationType` or `MobileNotificationType`. */
  datatype FormType = NotificationForm | MobileNotificationForm

  /** What is handed to the form factory's `create($type, $entity, $options)`. */
  datatype FormRequest = FormRequest(formType: FormType, entity: Entity, options: map<string, Value>)

  /**
   * `createForm($entity, $formFactory, $action, $options)`: only a Notification
   * gets a form; a non-empty action becomes the `action` option; an action
   * mentioning `mobile_` selects the mobile form.
   */
  function CreateForm(entity: Entity, action: Option<string>, options: map<string, Value>): (r: Result<FormRequest, Error>)
    ensures r.Err? <==> !IsNotification(entity)
    ensures r.Err? ==> r.error == MethodNotAllowed(["Notification"])
    ensures r.Ok? ==> r.value.entity == entity
    ensures r.Ok? ==> (r.value.formType == MobileNotificationForm <==> action.Some? && Contains(action.value, "mobile_"))
    ensures r.Ok? && !EmptyString(action) ==> "action" in r.value.options && r.value.options["action"] == Str(action.value)
    ensures r.Ok? ==> forall k :: k != "action" || EmptyString(action) ==>
              (k in r.value.options <==> k in options) && (k in options ==> r.value.options[k] == options[k])
  {
    if !IsNotification(entity) then Err(MethodNotAllowed(["Notification"]))
    else
      var opts := if !EmptyString(action) then options["action" := Str(action.value)] else options;
      var formType := if action.Some? && Contains(action.value, "mobile_") then MobileNotificationForm else NotificationForm;
      Ok(FormRequest(formType, entity, opts))
  }
}
