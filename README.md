# Trip planner: per-event presenter and offers store

This project models two stateful components of a trip-planning UI, and proves
properties of the model.

The first is the per-event presenter (`src/presenter/event.js`). It owns one
trip event ("event") and two views of it: a read-only summary and an edit
form. It is a two-state machine (`DEFAULT`, `EDITING`). It decides which
view is mounted in the list container. It registers a document key listener
for Escape while editing. It grades submitted edits as `MINOR` or `PATCH`.
It reports everything else to its parent through two callbacks: `changeMode`
and `changeData`.

The second is the offers store (`src/model/offers.js`). It is a map from
offer type to offer, filled in place by `setOffers`.

Modules:

- `TripTypes` (`types.dfy`): the event and offer values, `UserAction` and `UpdateType`.
- `OffersModel` (`offers.dfy`): class `Offers`, and `Stored`, a left fold of
  single-key map updates that specifies `setOffers`, with its lemmas.
- `EditClassification` (`classification.dfy`): the offers total (`reduce`),
  the meta record and the `MINOR`/`PATCH` rule of the submit handler.
- `PresenterMachine` (`presenter_machine.dfy`): the presenter's whole state as
  one value. It has one function per operation, the invariant `Valid` that every
  operation keeps, and one lemma per promised behaviour.
- `EventPresenter` (`presenter.dfy`): class `Presenter`, the source's class
  `Event` renamed so it does not clash with the event value. Its methods update
  the fields step by step, in the source's order. Each is proved to reach
  exactly the state that the matching `PresenterMachine` function computes, so
  the lemmas there describe the class.

How the model stands in for what it leaves out:

- The DOM calls `render`, `replace`, `remove` and `contains` become the field
  `attached`. It says which view instance, if any, the container holds.
- Every `init` builds view instances with new instance numbers. The numbers
  passed to `remove` are collected in `removed`.
- The document listener is the boolean `listenerRegistered`.
- The parent callbacks are appended, in order, to `calls`. A `changeMode` entry
  records the mode flag and the mounted view at the moment of the call. This is
  how the model states that the flag flips only after the call.
- `reset(event)` on the form sets the form's `shown` event.
- A handler of a view may run only while that view is mounted. The Escape
  handler and `resetView` are modelled only while a view is mounted; the state
  that `destroy` leaves during EDITING is listed under "Left out".

Behaviours of the code worth knowing:

- `destroy` does not clear the view fields. So an `init` after `destroy` sees
  previous views that are not in the container, replaces neither, and mounts
  nothing (`InitMountsUnlessDestroyed`).
- `destroy` leaves the mode flag and the key listener as they were. A presenter
  destroyed during EDITING keeps its Escape listener with nothing mounted
  (`DestroyUnmounts`, `DestroyWhileEditing`).
- A later `init` keeps the current mode and the kind of view mounted
  (`InitLaterKeepsKind`).
- The start date and the duration are computed, but they only go into the meta
  record. The grade depends on price, offers total, destination and end date
  (`ClassifyMinorIff`, `ClassifyIgnoresStart`).
- On Escape the form is reset to the stored event before edit mode is left
  (`EscapeDiscardsEdits`).

## Model

| member | source | states |
|---|---|---|
| `OffersModel.Offers.constructor` | src/model/offers.js:2-4 | a new store holds the empty map |
| `OffersModel.Offers.SetOffers` | src/model/offers.js:6-9 | the loop leaves the map equal to the old map with each offer of `xs` set under its type, in order; the new key set is the old one together with the types in `xs` |
| `OffersModel.Offers.GetOffers` | src/model/offers.js:11-13 | returns the stored map and changes nothing |
| `OffersModel.StoredKeys` | src/model/offers.js:7 | after `setOffers(xs)` the keys are exactly the old keys plus every type occurring in `xs` |
| `OffersModel.StoredLastWins` | src/model/offers.js:7 | an offer that no later offer of `xs` shares a type with is the value stored under its type: the last write wins |
| `OffersModel.StoredFrame` | src/model/offers.js:7 | a key whose type does not occur in `xs` keeps its presence and value, because the map is never cleared |
| `OffersModel.StoredFromInput` | src/model/offers.js:7 | every type in `xs` is bound to an offer of `xs` that has that type |
| `OffersModel.StoredEmpty` | src/model/offers.js:7 | `setOffers([])` leaves the map unchanged |
| `OffersModel.StoredIdempotent` | src/model/offers.js:7 | setting the same offers twice gives the same map as setting them once |
| `EditClassification.OffersTotal` | src/presenter/event.js:111 | the `reduce` sum of offer prices: no offers total 0, and offers without a negative price never total a negative amount |
| `EditClassification.Classify` | src/presenter/event.js:111-117 | the grade is MINOR or PATCH, never MAJOR, and an unchanged event is PATCH; the full rule is stated by `ClassifyMinorIff` |
| `EditClassification.MetaAgreesWithClassify` | src/presenter/event.js:105-117 | equal start date and duration imply equal end date, so when the meta record reports everything equal the grade turns on offers total and destination alone; an unchanged event reports everything equal |
| `EditClassification.ClassifyMinorIff` | src/presenter/event.js:111-117 | the grade is MINOR iff price, offers total, destination or end date differs, PATCH iff none does, and never MAJOR |
| `EditClassification.ClassifyIgnoresStart` | src/presenter/event.js:105-117 | changing only the start date (and so the duration) of the submitted event never changes the grade |
| `EditClassification.ClassifyUnchangedIsPatch` | src/presenter/event.js:111-117 | submitting the stored event unchanged is a PATCH |
| `EditClassification.OffersTotalAppend` | src/presenter/event.js:111 | the offers total of a concatenation is the sum of the totals |
| `EditClassification.OffersTotalPermutation` | src/presenter/event.js:111 | the offers total does not depend on the order of the offers |
| `EditClassification.ReorderedOffersArePatch` | src/presenter/event.js:111-117 | reordering the offers and changing nothing else that is compared is a PATCH |
| `PresenterMachine.Constructed` | src/presenter/event.js:20-22 | the constructed state satisfies the invariant: DEFAULT, no views, nothing mounted, no listener |
| `PresenterMachine.Init` | src/presenter/event.js:32-62 | `init` keeps the invariant |
| `PresenterMachine.Destroy` | src/presenter/event.js:64-67 | `destroy` keeps the invariant |
| `PresenterMachine.SwapToForm` | src/presenter/event.js:76-77 | after the replace and the listener registration the form is mounted, the listener is held and the flag still says DEFAULT |
| `PresenterMachine.ReplaceEventToForm` | src/presenter/event.js:75-80 | entering edit mode keeps the invariant |
| `PresenterMachine.ReplaceFormToEvent` | src/presenter/event.js:82-86 | leaving edit mode keeps the invariant |
| `PresenterMachine.ResetView` | src/presenter/event.js:69-73 | `resetView` keeps the invariant |
| `PresenterMachine.EscKeydownHandler` | src/presenter/event.js:88-94 | the key handler keeps the invariant |
| `PresenterMachine.HandleEditClick` | src/presenter/event.js:96-98 | the edit click keeps the invariant |
| `PresenterMachine.HandleCloseClick` | src/presenter/event.js:100-102 | the close click keeps the invariant |
| `PresenterMachine.HandleSubmitForm` | src/presenter/event.js:104-119 | the submit keeps the invariant |
| `PresenterMachine.HandleDeleteClick` | src/presenter/event.js:121-123 | the delete click keeps the invariant |
| `PresenterMachine.HandleFavoriteClick` | src/presenter/event.js:125-137 | the favourite click keeps the invariant |
| `PresenterMachine.InitFirstMountsSummary` | src/presenter/event.js:47-50 | the first `init` mounts the new summary built for the event and changes nothing else: mode, listener, calls and removed views stay as they were |
| `PresenterMachine.InitLaterKeepsKind` | src/presenter/event.js:52-61 | a later `init` keeps the same kind of view mounted, now a fresh instance built for the new event; both previous views are removed; mode, listener and calls are unchanged |
| `PresenterMachine.InitMountsUnlessDestroyed` | src/presenter/event.js:47-61 | `init` leaves a view mounted iff it is the first `init` or a view was mounted before; after `destroy`, `init` mounts nothing |
| `PresenterMachine.DestroyWhileEditing` | src/presenter/event.js:64-67 | `destroy` during EDITING reaches a valid state with nothing mounted, the flag at EDITING and the Escape listener still registered |
| `PresenterMachine.DestroyUnmounts` | src/presenter/event.js:64-67 | `destroy` unmounts and removes both current views, is idempotent, and leaves mode, listener and calls unchanged |
| `PresenterMachine.ResetViewLeavesEditing` | src/presenter/event.js:69-73 | `resetView` is the identity in DEFAULT; in EDITING it mounts the summary, drops the listener and sets DEFAULT without calling the parent; twice equals once |
| `PresenterMachine.EditClickEntersEditing` | src/presenter/event.js:75-80 | the edit click mounts the form in the summary's place, registers the listener, appends exactly one `changeMode` call made while the flag still said DEFAULT with the form already mounted, then sets EDITING |
| `PresenterMachine.FlagFirstWouldBeUndone` | src/presenter/event.js:78-79 | had the flag been set before `changeMode`, a `resetView` of this presenter would unmount the form and drop the listener; so if the parent answers `changeMode` by resetting every presenter, this one included, the source's order is what keeps the click |
| `PresenterMachine.CloseClickLeavesEditing` | src/presenter/event.js:100-102 | the close click mounts the summary, drops the listener and sets DEFAULT without calling the parent |
| `PresenterMachine.EscOtherKeyIgnored` | src/presenter/event.js:88-89 | a key other than `Escape` or `Esc` leaves the whole state unchanged |
| `PresenterMachine.EscapeDiscardsEdits` | src/presenter/event.js:88-94 | on `Escape` or `Esc` the form shows the stored event again, the summary built for the stored event is mounted, the listener is dropped and the mode is DEFAULT |
| `PresenterMachine.SubmitSendsOneUpdate` | src/presenter/event.js:104-119 | submitting appends exactly one `changeData(UPDATE_EVENT, t, submitted, meta)` with `t` MINOR iff price, offers total, destination or end date differs and PATCH otherwise; then DEFAULT with the summary mounted; the stored event is unchanged |
| `PresenterMachine.DeleteForwardsMajor` | src/presenter/event.js:121-123 | delete appends exactly `changeData(DELETE_EVENT, MAJOR, e)` and changes nothing else |
| `PresenterMachine.FavoriteForwardsToggle` | src/presenter/event.js:125-137 | favourite appends exactly one `changeData(UPDATE_EVENT, PATCH, e')` where `e'` is the stored event with `isFavorite` negated, and changes nothing else |
| `EventPresenter.Presenter.constructor` | src/presenter/event.js:13-30 | a new presenter is in DEFAULT with no views, nothing mounted, no listener and no calls |
| `EventPresenter.Presenter.Init` | src/presenter/event.js:32-62 | the fields end as `PresenterMachine.Init` of the old state, and the invariant holds |
| `EventPresenter.Presenter.Destroy` | src/presenter/event.js:64-67 | the fields end as `PresenterMachine.Destroy` of the old state |
| `EventPresenter.Presenter.ResetView` | src/presenter/event.js:69-73 | the fields end as `PresenterMachine.ResetView` of the old state: DEFAULT, no listener, no new call |
| `EventPresenter.Presenter.ReplaceEventToForm` | src/presenter/event.js:75-80 | form mounted, listener held, EDITING, and one `changeMode` call appended that saw DEFAULT with the form mounted |
| `EventPresenter.Presenter.ReplaceFormToEvent` | src/presenter/event.js:82-86 | summary mounted, listener dropped, DEFAULT |
| `EventPresenter.Presenter.EscKeydownHandler` | src/presenter/event.js:88-94 | the fields end as `PresenterMachine.EscKeydownHandler` of the old state; any other key changes nothing |
| `EventPresenter.Presenter.HandleEditClick` | src/presenter/event.js:96-98 | the fields end as `PresenterMachine.HandleEditClick` of the old state |
| `EventPresenter.Presenter.HandleCloseClick` | src/presenter/event.js:100-102 | the fields end as `PresenterMachine.HandleCloseClick` of the old state |
| `EventPresenter.Presenter.HandleSubmitForm` | src/presenter/event.js:104-119 | appends the one update call graded by `Classify`, then the fields end as `PresenterMachine.HandleSubmitForm` of the old state |
| `EventPresenter.Presenter.HandleDeleteClick` | src/presenter/event.js:121-123 | the fields end as `PresenterMachine.HandleDeleteClick` of the old state |
| `EventPresenter.Presenter.HandleFavoriteClick` | src/presenter/event.js:125-137 | the fields end as `PresenterMachine.HandleFavoriteClick` of the old state |

## Left out

- DOM work (`render`, `replace`, `remove`, `getElement().contains`): `src/utils/render.js` is not part of this model. Their effect is the field `attached`. `remove` of a component not yet built (before the first `init`) is taken to do nothing. A `replace` of a view that is not mounted is not modelled. Handlers therefore require the view that fires them to be mounted.
- The document key listener, `evt.preventDefault()` and event objects: browser I/O. The listener is a boolean and a key event is its key name.
- The view classes `EventView` and `EditFormView` are not part of this model. Their handler setters (lines 41-45) are implied by the handlers' preconditions. `reset(event)` is recorded as the event the form shows. The user's typing inside the form is not modelled.
- `isDatesEqual` and `calculateDuration` (`src/utils/events.js`) are not part of this model. Dates are integers compared with plain equality. The duration is end minus start.
- Prices are integers, so the floating-point sums of JavaScript `reduce` are not modelled.
- The `console.log` calls (event.js lines 108-110, offers.js line 8) are diagnostics.
- The destinations model and the offers map are only passed to the form (line 39), so they are not modelled in the presenter.
- Exceptions thrown by `changeData` or `changeMode` are not modelled. Calls are recorded and assumed to return.
- `PresenterMachine.HandleSubmitForm`: `changeData` (line 117) runs before `_replaceFormToEvent` (line 118), and the call is modelled as a log entry with no effect on the presenter. If the parent calls `init` or `destroy` on this presenter from inside that call, the state after the submit differs from the one `SubmitSendsOneUpdate` states (stored event unchanged, previous summary instance mounted). The parent is not part of this model.
- `PresenterMachine.EscKeydownHandler`: not modelled in the state that `destroy` leaves during EDITING (listener still registered, nothing mounted; see `DestroyWhileEditing`). There the source calls `reset` on the removed form and `replace` on views that are not in the container. Their behaviour belongs to the view classes and `src/utils/render.js`, which are not part of this model. `EventPresenter.Presenter.EscKeydownHandler` has the same limit.
- `PresenterMachine.ResetView`: not modelled in that same state (flag at EDITING, nothing mounted), for the same reason. The model assumes the parent does not reset a presenter it has destroyed. `EventPresenter.Presenter.ResetView` has the same limit.
- The list-wide rule that one presenter at most is editing is not modelled. It is kept by the parent controller, which is not part of this model. Only this presenter's side is modelled: `changeMode` is called on entering EDITING, and `resetView` leaves EDITING.
- `OffersModel.Offers.GetOffers`: returns the map as a value. The source returns the `Map` object itself, so a caller that mutates it changes the store. That aliasing and the `Map`'s insertion order are not modelled.
