/** The per-event presenter of `src/presenter/event.js` as a state machine over
    values: one function per operation, and the properties of each as lemmas.
    The class in module EventPresenter updates its fields step by step and is
    proved to reach exactly the state these functions compute. */
module PresenterMachine {
  import opened TripTypes
  import opened EditClassification

  datatype Mode = Default | Editing

  /** One instance of the summary view, built for one event. Every `init`
      builds new instances, told apart by their instance numbers. */
  datatype SummaryView = SummaryView(instance: nat, event: Event)

  /** One instance of the edit form; `shown` is the event whose values it
      displays, which `reset` sets back to a given event. */
  datatype EditForm = EditForm(instance: nat, event: Event, shown: Event)

  /** Which of the presenter's view instances the list container holds:
      the abstract effect of `render`, `replace` and `remove`. */
  datatype Attached = Nothing | Summary(instance: nat) | Form(instance: nat)

  /** One invocation of a parent callback, in order. A `changeMode` call
      records the mode flag and the mounted view that the parent's reaction
      to it observes. */
  datatype Call =
    | ChangeMode(modeSeen: Mode, attachedSeen: Attached)
    | ChangeData(action: UserAction, updateType: UpdateType, payload: Event, meta: Option<SubmitMeta>)

  /** Everything the presenter changes: its fields, the container slot, the
      document key-listener registration and the outgoing callbacks. `removed`
      holds the instances handed to `remove`; `instances` counts the view
      instances built so far. */
  datatype State = State(
    mode: Mode,
    event: Option<Event>,
    eventComponent: Option<SummaryView>,
    editFormComponent: Option<EditForm>,
    attached: Attached,
    listenerRegistered: bool,
    calls: seq<Call>,
    removed: set<nat>,
    instances: nat)

  /** The instance number of a mounted view. */
  function AttachedInstance(a: Attached): nat
    requires a != Nothing
  {
    match a
    case Summary(i) => i
    case Form(i) => i
  }

  /** The presenter's invariant. Before the first `init` it has no views and
      nothing is mounted. After it, both views are built for the stored event
      and are distinct, and neither is removed while one is mounted; a mounted form goes
      with EDITING and a mounted summary with DEFAULT; the key listener is held
      exactly in EDITING; every `changeMode` call was made while the flag still
      said DEFAULT and the form was already mounted. */
  ghost predicate Valid(s: State)
  {
    && (s.listenerRegistered <==> s.mode == Editing)
    && (forall i :: i in s.removed ==> i < s.instances)
    && (forall k :: 0 <= k < |s.calls| && s.calls[k].ChangeMode? ==>
          s.calls[k].modeSeen == Default && s.calls[k].attachedSeen.Form?)
    && (s.eventComponent.None? <==> s.editFormComponent.None?)
    && (s.eventComponent.None? <==> s.event.None?)
    && (s.eventComponent.None? ==> s.mode == Default && s.attached == Nothing)
    && (s.eventComponent.Some? ==>
          var v, f := s.eventComponent.value, s.editFormComponent.value;
          && v.event == s.event.value
          && f.event == s.event.value
          && v.instance < s.instances
          && f.instance < s.instances
          && v.instance != f.instance
          && (s.attached == Nothing || s.attached == Summary(v.instance) || s.attached == Form(f.instance))
          && (s.attached != Nothing ==> (s.attached.Form? <==> s.mode == Editing))
          && (s.attached != Nothing ==> v.instance !in s.removed && f.instance !in s.removed))
  }

  /** The state right after the constructor. */
  function Constructed(): (s: State)
    ensures Valid(s)
  {
    State(Default, None, None, None, Nothing, false, [], {}, 0)
  }

  /** `init(event)`: builds a fresh summary and a fresh form for `e`. The first
      time, it mounts the summary; later, whichever previous view is mounted
      is replaced by its fresh counterpart and both previous views are removed. */
  function Init(s: State, e: Event): (r: State)
    requires Valid(s)
    ensures Valid(r)
  {
    var summary := SummaryView(s.instances, e);
    var form := EditForm(s.instances + 1, e, e);
    var built := s.(event := Some(e), eventComponent := Some(summary),
                    editFormComponent := Some(form), instances := s.instances + 2);
    if s.eventComponent.None? || s.editFormComponent.None? then
      built.(attached := Summary(summary.instance))
    else
      var prevView, prevForm := s.eventComponent.value, s.editFormComponent.value;
      var afterView := if built.attached == Summary(prevView.instance) then Summary(summary.instance) else built.attached;
      var afterForm := if afterView == Form(prevForm.instance) then Form(form.instance) else afterView;
      built.(attached := afterForm, removed := s.removed + {prevView.instance, prevForm.instance})
  }

  /** `destroy()`: removes both views; before the first `init` there is nothing to remove. */
  function Destroy(s: State): (r: State)
    requires Valid(s)
    ensures Valid(r)
  {
    if s.eventComponent.None? || s.editFormComponent.None? then s
    else s.(attached := Nothing,
            removed := s.removed + {s.eventComponent.value.instance, s.editFormComponent.value.instance})
  }

  /** The first two steps of `_replaceEventToForm`: the form takes the summary's
      place and the key listener is added. */
  function SwapToForm(s: State): (r: State)
    requires Valid(s) && s.attached.Summary?
    ensures r.attached.Form? && r.listenerRegistered && r.mode == Default
  {
    s.(attached := Form(s.editFormComponent.value.instance), listenerRegistered := true)
  }

  /** `_replaceEventToForm()`: swap in the form, add the listener, call
      `changeMode`, and only then set the flag to EDITING. */
  function ReplaceEventToForm(s: State): (r: State)
    requires Valid(s) && s.attached.Summary?
    ensures Valid(r)
  {
    var t := SwapToForm(s);
    t.(calls := t.calls + [ChangeMode(t.mode, t.attached)]).(mode := Editing)
  }

  /** `_replaceFormToEvent()`: swap the summary back in, drop the listener,
      set the flag to DEFAULT. */
  function ReplaceFormToEvent(s: State): (r: State)
    requires Valid(s) && s.attached.Form?
    ensures Valid(r)
  {
    s.(attached := Summary(s.eventComponent.value.instance), listenerRegistered := false, mode := Default)
  }

  /** `resetView()`: leaves edit mode if the flag says so. The model assumes
      that it is not called on a presenter whose views were destroyed while it
      was editing: `replace` of an unmounted form is not modelled. */
  function ResetView(s: State): (r: State)
    requires Valid(s) && (s.mode == Editing ==> s.attached != Nothing)
    ensures Valid(r)
  {
    if s.mode != Default then ReplaceFormToEvent(s) else s
  }

  /** Whether a key name is one of the two names of the Escape key. */
  predicate IsEscape(key: string)
  {
    key == "Escape" || key == "Esc"
  }

  /** `_escKeydownHandler(evt)`: runs while the listener is registered; on
      Escape it resets the form to the stored event and leaves edit mode. Only
      states with a view mounted are modelled; see `DestroyWhileEditing` for the
      reachable state where the listener outlives the views. */
  function EscKeydownHandler(s: State, key: string): (r: State)
    requires Valid(s) && s.listenerRegistered && s.attached != Nothing
    ensures Valid(r)
  {
    if IsEscape(key) then
      ReplaceFormToEvent(s.(editFormComponent := Some(s.editFormComponent.value.(shown := s.event.value))))
    else s
  }

  /** `_handleEditClick()`, fired by the mounted summary. */
  function HandleEditClick(s: State): (r: State)
    requires Valid(s) && s.attached.Summary?
    ensures Valid(r)
  {
    ReplaceEventToForm(s)
  }

  /** `_handleCloseClick()`, fired by the mounted form. */
  function HandleCloseClick(s: State): (r: State)
    requires Valid(s) && s.attached.Form?
    ensures Valid(r)
  {
    ReplaceFormToEvent(s)
  }

  /** `_handleSubmitForm(event)`, fired by the mounted form with the edited event. */
  function HandleSubmitForm(s: State, submitted: Event): (r: State)
    requires Valid(s) && s.attached.Form?
    ensures Valid(r)
  {
    var original := s.event.value;
    var call := ChangeData(UpdateEvent, Classify(original, submitted), submitted, Some(Meta(original, submitted)));
    ReplaceFormToEvent(s.(calls := s.calls + [call]))
  }

  /** `_handleDeleteClick(event)`, fired by the mounted form with the event to delete. */
  function HandleDeleteClick(s: State, e: Event): (r: State)
    requires Valid(s) && s.attached.Form?
    ensures Valid(r)
  {
    s.(calls := s.calls + [ChangeData(DeleteEvent, Major, e, None)])
  }

  /** `_handleFavoriteClick()`, fired by the mounted summary. */
  function HandleFavoriteClick(s: State): (r: State)
    requires Valid(s) && s.attached.Summary?
    ensures Valid(r)
  {
    var e := s.event.value;
    s.(calls := s.calls + [ChangeData(UpdateEvent, Patch, e.(isFavorite := !e.isFavorite), None)])
  }

  // ---------------------------------------------------------------------------
  // Mounting

  /** The first `init` mounts the new summary, built for `e`, and touches
      nothing else. */
  lemma InitFirstMountsSummary(s: State, e: Event)
    requires Valid(s) && s.eventComponent.None?
    ensures var r := Init(s, e);
      && r.eventComponent.Some? && r.editFormComponent.Some?
      && r.attached == Summary(r.eventComponent.value.instance)
      && r.eventComponent.value.event == e && r.editFormComponent.value.shown == e
      && r.event == Some(e)
      && r.mode == Default && !r.listenerRegistered
      && r.calls == s.calls && r.removed == s.removed
  {
  }

  /** A later `init` keeps the same kind of view mounted, now a fresh instance
      built for `e`; both previous views are removed; the mode, the listener
      and the callbacks are untouched. */
  lemma InitLaterKeepsKind(s: State, e: Event)
    requires Valid(s) && s.eventComponent.Some?
    ensures var r := Init(s, e);
      && (r.attached.Summary? <==> s.attached.Summary?)
      && (r.attached.Form? <==> s.attached.Form?)
      && (r.attached == Nothing <==> s.attached == Nothing)
      && (r.attached != Nothing ==> AttachedInstance(r.attached) >= s.instances)
      && (r.attached.Summary? ==> r.attached.instance == r.eventComponent.value.instance)
      && (r.attached.Form? ==> r.attached.instance == r.editFormComponent.value.instance)
      && r.eventComponent.value.event == e && r.editFormComponent.value.event == e
      && s.eventComponent.value.instance in r.removed
      && s.editFormComponent.value.instance in r.removed
      && r.mode == s.mode && r.listenerRegistered == s.listenerRegistered
      && r.calls == s.calls
  {
  }

  /** `init` leaves exactly one view mounted, unless the views had been
      destroyed: then the previous ones are not in the container, neither is
      replaced, and nothing is mounted. */
  lemma InitMountsUnlessDestroyed(s: State, e: Event)
    requires Valid(s)
    ensures Init(s, e).attached != Nothing <==> (s.eventComponent.None? || s.attached != Nothing)
    ensures s.eventComponent.Some? ==> Init(Destroy(s), e).attached == Nothing
  {
  }

  /** `destroy` unmounts and removes both current views and is idempotent; it
      changes neither the mode flag nor the listener registration. */
  lemma DestroyUnmounts(s: State)
    requires Valid(s) && s.eventComponent.Some?
    ensures var r := Destroy(s);
      && r.attached == Nothing
      && s.eventComponent.value.instance in r.removed
      && s.editFormComponent.value.instance in r.removed
      && r.mode == s.mode && r.listenerRegistered == s.listenerRegistered
      && r.calls == s.calls
    ensures Destroy(Destroy(s)) == Destroy(s)
  {
  }

  /** `destroy` during edit leaves a state with nothing mounted while the flag
      says EDITING and the Escape listener is still registered. */
  lemma DestroyWhileEditing(e: Event)
    ensures var s := Destroy(HandleEditClick(Init(Constructed(), e)));
      && Valid(s) && s.attached == Nothing
      && s.mode == Editing && s.listenerRegistered
  {
  }

  // ---------------------------------------------------------------------------
  // Mode transitions

  /** `resetView` does nothing in DEFAULT; in EDITING it mounts the summary,
      drops the listener and sets DEFAULT, without calling the parent.
      Calling it twice equals calling it once. */
  lemma ResetViewLeavesEditing(s: State)
    requires Valid(s) && (s.mode == Editing ==> s.attached != Nothing)
    ensures s.mode == Default ==> ResetView(s) == s
    ensures var r := ResetView(s);
      && r.mode == Default && !r.listenerRegistered && r.calls == s.calls
      && (s.mode == Editing ==> r.attached == Summary(s.eventComponent.value.instance))
    ensures ResetView(ResetView(s)) == ResetView(s)
  {
  }

  /** Entering edit mounts the form in the summary's place, registers the
      listener and makes exactly one `changeMode` call, while the flag still
      says DEFAULT and the form is already mounted; then the flag says EDITING. */
  lemma EditClickEntersEditing(s: State)
    requires Valid(s) && s.attached.Summary?
    ensures var r := HandleEditClick(s);
      && r.attached == Form(s.editFormComponent.value.instance)
      && r.listenerRegistered && r.mode == Editing
      && r.calls == s.calls + [ChangeMode(Default, Form(s.editFormComponent.value.instance))]
      && r.event == s.event && r.eventComponent == s.eventComponent
      && r.editFormComponent == s.editFormComponent && r.removed == s.removed
  {
  }

  /** Why `changeMode` comes before the flag, assuming the parent (not part of
      this model) reacts to it by calling `resetView` on every presenter, this
      one included. `resetView` acts on the flag alone, and the call is made
      while the flag says DEFAULT (the recorded call above), so it would leave
      this presenter alone; had the flag been set to EDITING first, that
      `resetView` would put the summary back and drop the listener, undoing
      the click. */
  lemma FlagFirstWouldBeUndone(s: State)
    requires Valid(s) && s.attached.Summary?
    ensures var early := SwapToForm(s).(mode := Editing);
      && Valid(early)
      && ResetView(early).attached == s.attached
      && !ResetView(early).listenerRegistered
  {
  }

  /** Closing the form returns to DEFAULT with the summary mounted and the
      listener dropped, without calling the parent. */
  lemma CloseClickLeavesEditing(s: State)
    requires Valid(s) && s.attached.Form?
    ensures var r := HandleCloseClick(s);
      && r.mode == Default && !r.listenerRegistered
      && r.attached == Summary(s.eventComponent.value.instance)
      && r.calls == s.calls && r.editFormComponent == s.editFormComponent
  {
  }

  /** A key other than Escape changes nothing at all. */
  lemma EscOtherKeyIgnored(s: State, key: string)
    requires Valid(s) && s.listenerRegistered && s.attached != Nothing
    requires key != "Escape" && key != "Esc"
    ensures EscKeydownHandler(s, key) == s
  {
  }

  /** Escape discards the form's unsaved values: the form shows the stored
      event again, the summary (built for the stored event) is mounted, the
      listener is dropped and the mode is DEFAULT. */
  lemma EscapeDiscardsEdits(s: State, key: string)
    requires Valid(s) && s.listenerRegistered && s.attached != Nothing
    requires key == "Escape" || key == "Esc"
    ensures var r := EscKeydownHandler(s, key);
      && r.editFormComponent.Some? && r.editFormComponent.value.shown == s.event.value
      && r.attached == Summary(s.eventComponent.value.instance)
      && r.eventComponent.value.event == s.event.value
      && r.mode == Default && !r.listenerRegistered && r.calls == s.calls
  {
  }

  // ---------------------------------------------------------------------------
  // Outgoing data changes

  /** Submitting makes one `changeData(UPDATE_EVENT, t, submitted, meta)` call,
      where `t` is MINOR exactly when the price, the offers total, the
      destination or the end date differs from the stored event and PATCH
      otherwise; then the presenter is in DEFAULT with the summary mounted.
      The stored event itself is not replaced until the parent calls `init`. */
  lemma SubmitSendsOneUpdate(s: State, submitted: Event)
    requires Valid(s) && s.attached.Form?
    ensures var r := HandleSubmitForm(s, submitted);
      var original := s.event.value;
      && |r.calls| == |s.calls| + 1 && r.calls[..|s.calls|] == s.calls
      && r.calls[|s.calls|].ChangeData?
      && r.calls[|s.calls|].action == UpdateEvent
      && r.calls[|s.calls|].payload == submitted
      && r.calls[|s.calls|].meta == Some(Meta(original, submitted))
      && (r.calls[|s.calls|].updateType == Minor <==>
            original.price != submitted.price
            || OffersTotal(original.offers) != OffersTotal(submitted.offers)
            || original.destination != submitted.destination
            || original.timeEnd != submitted.timeEnd)
      && (r.calls[|s.calls|].updateType == Patch <==> r.calls[|s.calls|].updateType != Minor)
      && r.mode == Default && !r.listenerRegistered
      && r.attached == Summary(s.eventComponent.value.instance)
      && r.event == s.event
  {
    assert (s.calls + [HandleSubmitForm(s, submitted).calls[|s.calls|]])[..|s.calls|] == s.calls;
  }

  /** Delete makes exactly one `changeData(DELETE_EVENT, MAJOR, e)` call and
      changes nothing else: the parent is expected to destroy the presenter. */
  lemma DeleteForwardsMajor(s: State, e: Event)
    requires Valid(s) && s.attached.Form?
    ensures HandleDeleteClick(s, e) == s.(calls := s.calls + [ChangeData(DeleteEvent, Major, e, None)])
    ensures HandleDeleteClick(s, e).mode == s.mode
  {
  }

  /** Favourite makes exactly one `changeData(UPDATE_EVENT, PATCH, e')` call,
      where `e'` is the stored event with `isFavorite` negated, and changes
      nothing else. */
  lemma FavoriteForwardsToggle(s: State)
    requires Valid(s) && s.attached.Summary?
    ensures var r := HandleFavoriteClick(s);
      && |r.calls| == |s.calls| + 1
      && r == s.(calls := r.calls)
      && r.calls[..|s.calls|] == s.calls
      && r.calls[|s.calls|].ChangeData?
      && r.calls[|s.calls|].action == UpdateEvent
      && r.calls[|s.calls|].updateType == Patch
      && r.calls[|s.calls|].meta == None
      && r.calls[|s.calls|].payload.isFavorite == !s.event.value.isFavorite
      && r.calls[|s.calls|].payload.(isFavorite := s.event.value.isFavorite) == s.event.value
  {
    assert (s.calls + [HandleFavoriteClick(s).calls[|s.calls|]])[..|s.calls|] == s.calls;
  }
}
