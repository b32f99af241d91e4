/** The per-event presenter of `src/presenter/event.js` as a class whose
    methods update its fields step by step, in the source's order. Each method
    is proved to reach the state that the matching function of module
    PresenterMachine computes, so the lemmas there describe the class. */
module EventPresenter {
  import opened TripTypes
  import opened EditClassification
  import opened PresenterMachine

  class Presenter {
    var mode: Mode
    var event: Option<Event>
    var eventComponent: Option<SummaryView>
    var editFormComponent: Option<EditForm>
    /** Which view instance the list container holds. */
    var attached: Attached
    /** Whether the Escape handler is registered on the document. */
    var listenerRegistered: bool
    /** The `changeMode` and `changeData` calls made so far, in order. */
    var calls: seq<Call>
    /** The view instances handed to `remove`. */
    var removed: set<nat>
    /** How many view instances have been built. */
    var instances: nat

    /** The fields as one value. */
    function Snapshot(): State
      reads this
    {
      State(mode, event, eventComponent, editFormComponent, attached,
            listenerRegistered, calls, removed, instances)
    }

    ghost predicate Valid()
      reads this
    {
      PresenterMachine.Valid(Snapshot())
    }

    /** A new presenter is in DEFAULT, has no views and mounts nothing. */
    constructor ()
      ensures Valid() && Snapshot() == Constructed()
      ensures mode == Default && eventComponent.None? && editFormComponent.None?
      ensures attached == Nothing && !listenerRegistered && calls == []
    {
      mode := Default;
      event := None;
      eventComponent := None;
      editFormComponent := None;
      attached := Nothing;
      listenerRegistered := false;
      calls := [];
      removed := {};
      instances := 0;
    }

    method Init(e: Event)
      requires Valid()
      modifies this
      ensures Snapshot() == PresenterMachine.Init(old(Snapshot()), e)
      ensures Valid()
    {
      ghost var target := PresenterMachine.Init(Snapshot(), e);
      event := Some(e);
      var prevEventComponent := eventComponent;
      var prevEditFormComponent := editFormComponent;
      eventComponent := Some(SummaryView(instances, e));
      editFormComponent := Some(EditForm(instances + 1, e, e));
      instances := instances + 2;

      if prevEventComponent.None? || prevEditFormComponent.None? {
        attached := Summary(eventComponent.value.instance);
      } else {
        if attached == Summary(prevEventComponent.value.instance) {
          attached := Summary(eventComponent.value.instance);
        }
        if attached == Form(prevEditFormComponent.value.instance) {
          attached := Form(editFormComponent.value.instance);
        }
        removed := removed + {prevEventComponent.value.instance, prevEditFormComponent.value.instance};
      }
      assert Snapshot() == target;
    }

    method Destroy()
      requires Valid()
      modifies this
      ensures Valid() && Snapshot() == PresenterMachine.Destroy(old(Snapshot()))
    {
      if eventComponent.Some? {
        if attached == Summary(eventComponent.value.instance) {
          attached := Nothing;
        }
        removed := removed + {eventComponent.value.instance};
      }
      if editFormComponent.Some? {
        if attached == Form(editFormComponent.value.instance) {
          attached := Nothing;
        }
        removed := removed + {editFormComponent.value.instance};
      }
    }

    method ResetView()
      requires Valid() && (mode == Editing ==> attached != Nothing)
      modifies this
      ensures Valid() && Snapshot() == PresenterMachine.ResetView(old(Snapshot()))
      ensures mode == Default && !listenerRegistered && calls == old(calls)
    {
      if mode != Default {
        ReplaceFormToEvent();
      }
    }

    method ReplaceEventToForm()
      requires Valid() && attached.Summary?
      modifies this
      ensures Valid() && Snapshot() == PresenterMachine.ReplaceEventToForm(old(Snapshot()))
      ensures mode == Editing && listenerRegistered
      ensures attached == Form(editFormComponent.value.instance)
      ensures calls == old(calls) + [ChangeMode(Default, attached)]
    {
      attached := Form(editFormComponent.value.instance);
      listenerRegistered := true;
      calls := calls + [ChangeMode(mode, attached)];
      mode := Editing;
    }

    method ReplaceFormToEvent()
      requires Valid() && attached.Form?
      modifies this
      ensures Valid() && Snapshot() == PresenterMachine.ReplaceFormToEvent(old(Snapshot()))
      ensures mode == Default && !listenerRegistered
      ensures attached == Summary(eventComponent.value.instance)
    {
      attached := Summary(eventComponent.value.instance);
      listenerRegistered := false;
      mode := Default;
    }

    method EscKeydownHandler(key: string)
      requires Valid() && listenerRegistered && attached != Nothing
      modifies this
      ensures Valid() && Snapshot() == PresenterMachine.EscKeydownHandler(old(Snapshot()), key)
      ensures !IsEscape(key) ==> Snapshot() == old(Snapshot())
    {
      if key == "Escape" || key == "Esc" {
        editFormComponent := Some(editFormComponent.value.(shown := event.value));
        ReplaceFormToEvent();
      }
    }

    method HandleEditClick()
      requires Valid() && attached.Summary?
      modifies this
      ensures Valid() && Snapshot() == PresenterMachine.HandleEditClick(old(Snapshot()))
    {
      ReplaceEventToForm();
    }

    method HandleCloseClick()
      requires Valid() && attached.Form?
      modifies this
      ensures Valid() && Snapshot() == PresenterMachine.HandleCloseClick(old(Snapshot()))
    {
      ReplaceFormToEvent();
    }

    method HandleSubmitForm(submitted: Event)
      requires Valid() && attached.Form?
      modifies this
      ensures Valid() && Snapshot() == PresenterMachine.HandleSubmitForm(old(Snapshot()), submitted)
      ensures calls == old(calls) + [ChangeData(UpdateEvent, Classify(event.value, submitted), submitted,
                                                Some(Meta(event.value, submitted)))]
    {
      var original := event.value;
      var updateType := Classify(original, submitted);
      calls := calls + [ChangeData(UpdateEvent, updateType, submitted, Some(Meta(original, submitted)))];
      ReplaceFormToEvent();
    }

    method HandleDeleteClick(e: Event)
      requires Valid() && attached.Form?
      modifies this
      ensures Valid() && Snapshot() == PresenterMachine.HandleDeleteClick(old(Snapshot()), e)
    {
      calls := calls + [ChangeData(DeleteEvent, Major, e, None)];
    }

    method HandleFavoriteClick()
      requires Valid() && attached.Summary?
      modifies this
      ensures Valid() && Snapshot() == PresenterMachine.HandleFavoriteClick(old(Snapshot()))
    {
      var e := event.value;
      calls := calls + [ChangeData(UpdateEvent, Patch, e.(isFavorite := !e.isFavorite), None)];
    }
  }
}
