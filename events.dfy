/**
 * The `createEvent` server action (src/app/actions/events.ts): validate the form, build the
 * new event record and put it in front of the stored events.
 */
module EventActions {
  import opened Wrappers
  import opened Text
  import opened Types
  import Db

  /** The form as submitted: `None` for a field that is not there. */
  datatype EventForm = EventForm(
    title: Option<string>,
    date: Option<string>,
    location: Option<string>,
    description: Option<string>)

  /** The fields once the schema has accepted them. */
  datatype EventFields = EventFields(title: string, date: string, location: string, description: string)

  const InvalidForm := "Invalid form data. Please check your inputs."
  const CreateFailed := "Failed to create event."
  const SuccessMessage := "success"
  const PlaceholderImage := "https://placehold.co/600x400.png"
  const NewEventHint := "new event"

  /**
   * `eventSchema.safeParse`: each of title, date, location and description must be present
   * and at least one UTF-16 unit long, that is, not empty. The date is not checked to be one.
   */
  function ValidateEvent(form: EventForm): (r: Option<EventFields>)
    ensures r.Some? <==>
      (&& form.title.Some? && form.title.value != []
       && form.date.Some? && form.date.value != []
       && form.location.Some? && form.location.value != []
       && form.description.Some? && form.description.value != [])
    ensures r.Some? ==>
      r.value == EventFields(form.title.value, form.date.value, form.location.value, form.description.value)
  {
    if && form.title.Some? && Utf16Length(form.title.value) >= 1
       && form.date.Some? && Utf16Length(form.date.value) >= 1
       && form.location.Some? && Utf16Length(form.location.value) >= 1
       && form.description.Some? && Utf16Length(form.description.value) >= 1
    then Some(EventFields(form.title.value, form.date.value, form.location.value, form.description.value))
    else None
  }

  /**
   * The record `createEvent` builds: the four fields copied verbatim (the date stays the
   * submitted text), the fresh id, the placeholder image and the fixed image hint.
   */
  function NewEvent(f: EventFields, id: string): (e: Event)
    ensures e.id == id
    ensures e.title == f.title && e.date == f.date && e.location == f.location && e.description == f.description
    ensures e.image == PlaceholderImage && e.aiHint == NewEventHint
  {
    Event(id, f.title, f.date, f.location, f.description, PlaceholderImage, NewEventHint)
  }

  /**
   * `createEvent`. A rejected form returns the fixed invalid-form message and inserts
   * nothing. An accepted one puts the new event, carrying the given fresh id, in front of
   * the stored events. `refreshFailed` says whether `revalidatePath('/events')` threw after
   * the insertion; the failure message is then returned although the event was inserted.
   */
  method CreateEvent(store: Db.Store, form: EventForm, freshId: string, refreshFailed: bool)
    returns (message: string)
    modifies store
    ensures store.users == old(store.users) && store.projects == old(store.projects)
    ensures ValidateEvent(form).None? ==> message == InvalidForm && store.events == old(store.events)
    ensures ValidateEvent(form).Some? ==>
      && store.events == [NewEvent(ValidateEvent(form).value, freshId)] + old(store.events)
      && message == (if refreshFailed then CreateFailed else SuccessMessage)
  {
    var validated := ValidateEvent(form);
    if validated.None? {
      return InvalidForm;
    }
    var created := store.CreateEvent(NewEvent(validated.value, freshId));
    message := if refreshFailed then CreateFailed else SuccessMessage;
  }
}
