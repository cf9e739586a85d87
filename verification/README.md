# PageStateView in Dafny

A model of the core of the Android library PageStateView: a `FrameLayout`
container (`PageStateView`) that wraps an existing piece of a screen and
shows exactly one of six page states, the fluent `Builder` that performs the
wrapping and installs default state views, and the rotating-dot
`LoadingView` used as the default loading indicator.

The view hierarchy is abstract. Views are opaque identifiers. A `Ui` record
holds, for the whole forest:

- the ordered child list of each group;
- the visibility flag of each view (a view whose flag was never set is
  `VISIBLE`, as on Android);
- the layout-parameters objects, and for each view that has one a reference
  to its object.

Layout parameters are modelled as shared objects because the code shares
them. `init` hands the content's own object to its parent for the container
(PageStateView.java:279). The content keeps that object when the container
adds it, if it is a `FrameLayout.LayoutParams` (line 280). The first layout
pass writes the new width and height through each child's object (lines
151-154), so the container is resized too. Java exceptions become `Err`
values of a `Result`.

Modules, one per file:

- `Results` (`results.dfy`): `Option`, `Result` and the four faults the code
  can raise (`IllegalArgument`, `IllegalState`, `NullPointer`,
  `IndexOutOfBounds`).
- `Views` (`views.dfy`): view ids, visibility, layout-parameters objects and
  the operations `removeAllViews`, `removeView`, `addView(child)` of a
  `FrameLayout` (`AddToFrame`, with its layout-parameters step `Adopt`),
  `addView(child, index)` and `setVisibility`. It also holds Java `int`
  wrap-around (`Int32`) and Java's truncating `x / 2` (`Half`).
- `LoadingView` (`loading_view.dfy`): the spinner's running flag and
  animator repeat count, its centre, and the dots a frame paints.
- `PageStates` (`page_state_view.dfy`): the container (`Page`), `changeView`
  and the first-pass `onLayout`. The six public show methods `content()`,
  `error()`, `noNet()`, `loading()`, `custom()` and `noData()` are
  `ChangeView` with `Content`, `Error`, `NoNetwork`, `Loading`, `Custom` and
  `Empty`.
- `PageBuilder` (`page_builder.dfy`): the `Builder`, `init`, `initDefault`,
  the `set*View` methods, `checkState`, `addStateView`, `setRetryListener`
  and the click-to-retry rule. `build()` simply returns the builder's `page`.

Every operation has a partner definition:

- `changeView` assigns the flags one slot at a time in the source order. An
  independent overlay map (`Overlay`) states the same assignments
  declaratively, and `AssignIsOverlay` proves that the two agree.
- `init` on a well-placed host is shown to equal `Wrapped`. `Wrapped` is the
  reparenting followed by the defaults. The list surgery and the registered
  state are then proved about `Wrapped`.
- The container invariant `WellFormed` says:
  - no view serves two states;
  - every registered view is a child of the container;
  - no child occurs twice.
  `init` establishes it and `addStateView` preserves it.
- The spinner's `Coherent` says it is running exactly when its animator
  repeats forever. Create, stop and start all keep it, and so does every
  show (`ChangeViewCoherent`).
- Layout parameters: `Extends` says an update alters no existing object,
  and `ParamsValid` says no reference dangles. The surgery, the defaults and
  `addStateView` keep both.

Three behaviours of the code are modelled as written:

- An Activity or Fragment whose root group has no child makes `init` fail
  with a `NullPointerException`. `getChildAt(0)` returns null there, and
  `getLayoutParams()` is then called on it (PageStateView.java:270, 279).
  The model gives `Err(NullPointer)`.
- The retry icon and text of the default no-network view are wired to the
  retry listener, as are those of the error and empty views (lines 216-220).
- The default no-network view starts hidden, as do the error and empty
  defaults (line 218). Only the loading default keeps its flag.

## Model

| member | source | states |
|---|---|---|
| PageStates.ChangeView | pagestate/src/main/java/com/juntu/pagestate/PageStateView.java:119-142 | the spinner, if there is one, runs afterwards exactly when the target is LOADING; slots, children, layout parameters and the first-layout flag are unchanged; views not registered for any state keep their flags |
| PageStates.Assign | pagestate/src/main/java/com/juntu/pagestate/PageStateView.java:125-141 | the sequential visibility assignments touch only the flags of registered views and never child lists or layout parameters |
| PageStates.AssignIsOverlay | pagestate/src/main/java/com/juntu/pagestate/PageStateView.java:125-141 | applying the six guarded setVisibility calls in order gives the same view state as one overlay of the flags keyed by view, later slots overriding earlier ones |
| PageStates.OverlayKeys | pagestate/src/main/java/com/juntu/pagestate/PageStateView.java:125-141 | the views whose flag changeView writes are exactly the registered views, whichever state is shown |
| PageStates.OverlayValue | pagestate/src/main/java/com/juntu/pagestate/PageStateView.java:125-141 | when no view serves two states, the flag written for a registered view is VISIBLE if its state is the target and GONE otherwise |
| PageStates.ChangeViewVisibility | pagestate/src/main/java/com/juntu/pagestate/PageStateView.java:119-142 | after showing a state, each registered view is VISIBLE iff it belongs to that state and GONE otherwise; every other view keeps its flag |
| PageStates.ChangeViewExclusive | pagestate/src/main/java/com/juntu/pagestate/PageStateView.java:119-142 | at most one registered view is visible after a show, and a visible registered view belongs to the shown state |
| PageStates.ChangeViewIdempotent | pagestate/src/main/java/com/juntu/pagestate/PageStateView.java:119-142 | showing the same state twice leaves exactly the state of showing it once, spinner included |
| PageStates.ChangeViewLastWins | pagestate/src/main/java/com/juntu/pagestate/PageStateView.java:119-142 | the view flags after two shows depend only on the second one |
| PageStates.ChangeViewCoherent | pagestate/src/main/java/com/juntu/pagestate/PageStateView.java:121-123 | a spinner whose running flag agrees with its animator keeps that agreement through any show, and its animator repeats forever exactly when LOADING is shown |
| PageStates.LoadingThenContent | pagestate/src/main/java/com/juntu/pagestate/PageStateView.java:119-142 | on a container with loading and content views, showing LOADING makes only the loading view visible with the spinner running forever; showing CONTENT next makes only the content visible and sets the spinner to finish its cycle and stop |
| PageStates.OnLayout | pagestate/src/main/java/com/juntu/pagestate/PageStateView.java:144-159 | on the first pass it fails with NullPointer iff some child has no layout parameters; otherwise every child's object, and so any view sharing it, gets the container's width and height in 32-bit int arithmetic, objects no child holds are unchanged, no view's reference changes, and the pass is marked done; later passes change nothing |
| PageBuilder.NewBuilder | pagestate/src/main/java/com/juntu/pagestate/PageStateView.java:169-174 | a new builder owns an empty, never laid-out container with no registered views, no layout parameters, no listener and no wired elements |
| PageBuilder.Init | pagestate/src/main/java/com/juntu/pagestate/PageStateView.java:235-283 | init fails with IllegalArgument iff no parent group is resolved, and with NullPointer iff the host is a screen whose root group has no child; IndexOutOfBounds only arises when the resolved parent is the container itself; on success the listener is kept |
| PageBuilder.Install | pagestate/src/main/java/com/juntu/pagestate/PageStateView.java:273-282 | the successful end of init sets the spinner to the loading default's, hides the error, empty and no-network defaults, keeps every other flag, wires the defaults' retry elements and keeps the listener |
| PageBuilder.Reparent | pagestate/src/main/java/com/juntu/pagestate/PageStateView.java:273-280 | when the parent is another group, the container's only child is the content and the parent gets the container inserted where the content was removed, every other child list kept; visibility flags are untouched and the content is registered |
| PageBuilder.Detach | pagestate/src/main/java/com/juntu/pagestate/PageStateView.java:275-279 | the container is emptied and put in the content's place in the parent; only those two child lists change and no flag or layout parameter does |
| PageBuilder.ReparentParams | pagestate/src/main/java/com/juntu/pagestate/PageStateView.java:279-280 | the container holds the content's own object; the content keeps it when it is a FrameLayout.LayoutParams and otherwise gets a new one of the same size, so the two share an object exactly in the first case; no other reference changes and no object is altered |
| PageBuilder.ReparentInPlace | pagestate/src/main/java/com/juntu/pagestate/PageStateView.java:275-280 | removing the content from a parent without duplicates and inserting the container at the content's index puts the container exactly in the content's place; no other child list changes |
| PageBuilder.DetachLength | pagestate/src/main/java/com/juntu/pagestate/PageStateView.java:278 | removing a listed view from a parent without duplicates shortens its list by one |
| PageBuilder.InitSucceeds | pagestate/src/main/java/com/juntu/pagestate/PageStateView.java:259-283 | on a host whose parent is another group that lists the content once, init succeeds and its result is the reparenting at the content's index followed by the defaults |
| PageBuilder.InitAttaches | pagestate/src/main/java/com/juntu/pagestate/PageStateView.java:259-271 | on such a host init takes the view or the screen root's first child as the content, at its one position in the parent |
| PageBuilder.AttachSucceeds | pagestate/src/main/java/com/juntu/pagestate/PageStateView.java:278-279 | the content's old position is never beyond the parent's child count once the content has left it, so addView does not throw |
| PageBuilder.InitSurgery | pagestate/src/main/java/com/juntu/pagestate/PageStateView.java:261-281 | for the result of a successful init (`Wrapped`, which InitSucceeds equates with it), the parent's child list is the old one with the container in the content's position; the container's children are the content, then the error, loading, empty and no-network defaults; no other child list changes |
| PageBuilder.SurgeryThenDefaults | pagestate/src/main/java/com/juntu/pagestate/PageStateView.java:273-281 | the same list facts for the view at a given position of a given group |
| PageBuilder.InitDefault | pagestate/src/main/java/com/juntu/pagestate/PageStateView.java:176-222 | the four defaults are appended in the order error, loading, empty, no-network and registered in their slots; error, empty and no-network are hidden and no other flag changes; the spinner is the loading default's; the retry elements present in the defaults are added to the wired set; the layout parameters are those the container's addView gives the four roots |
| PageBuilder.AdoptAllParams | pagestate/src/main/java/com/juntu/pagestate/PageStateView.java:176-199 | after the container adds the defaults, each holds a FrameLayout.LayoutParams of the size it had, or matching the parent both ways when it had none; no other reference changes and no existing object is altered |
| PageBuilder.InitDefaults | pagestate/src/main/java/com/juntu/pagestate/PageStateView.java:176-283 | for the result of a successful init on a fresh builder, the model registers the content and the four defaults and nothing for CUSTOM; the container invariant holds; error, empty and no-network are GONE while the loading default and content keep their flags; the spinner is the loading default's; exactly the defaults' retry elements are wired; no listener is set |
| PageBuilder.InitRegisters | pagestate/src/main/java/com/juntu/pagestate/PageStateView.java:273-281 | the slot and container-invariant half of InitDefaults |
| PageBuilder.InitParams | pagestate/src/main/java/com/juntu/pagestate/PageStateView.java:176-283 | after init on a fresh builder whose content has layout parameters, the container holds the content's own object, unaltered; the content shares it exactly when it is a FrameLayout.LayoutParams and otherwise holds a copy of the same size; every child of the container holds a FrameLayout.LayoutParams, the defaults keeping their size or matching the parent; no reference dangles |
| PageBuilder.ParamsThroughInit | pagestate/src/main/java/com/juntu/pagestate/PageStateView.java:273-281 | the same layout-parameter facts for the view at a given position of a given group |
| PageBuilder.DefaultsParams | pagestate/src/main/java/com/juntu/pagestate/PageStateView.java:199 | adding the defaults after the surgery leaves the container's and the content's objects as the surgery left them and gives each default a FrameLayout.LayoutParams of its own size or matching the parent |
| PageBuilder.FirstLayoutAfterInit | pagestate/src/main/java/com/juntu/pagestate/PageStateView.java:144-159 | the first layout pass after such an init succeeds; when the content's object is a FrameLayout.LayoutParams the container shares it and takes the pass's width and height, and otherwise the container's object stays as the content had it |
| PageBuilder.InjectiveAfterInit | pagestate/src/main/java/com/juntu/pagestate/PageStateView.java:273-281 | five distinct views registered for content and the four defaults serve one state each |
| PageBuilder.WellFormedAfterInit | pagestate/src/main/java/com/juntu/pagestate/PageStateView.java:273-281 | the slot map and child list init produces satisfy the container invariant |
| PageBuilder.AddStateView | pagestate/src/main/java/com/juntu/pagestate/PageStateView.java:332-362 | the slot's previous view is removed from the container, the new view is appended with a FrameLayout.LayoutParams and registered, and it is GONE unless the slot is LOADING; no other flag, slot, list or reference changes, no object is altered, and the spinner is kept |
| PageBuilder.AddStateViewReplaces | pagestate/src/main/java/com/juntu/pagestate/PageStateView.java:332-362 | on a well-formed container, a new view replaces the slot's old view, which is no longer a child; every other registered view stays a child; the child count grows only when the slot was empty; the invariant is kept |
| PageBuilder.AddStateViewSameView | pagestate/src/main/java/com/juntu/pagestate/PageStateView.java:332-362 | setting a slot to the view it already holds moves that view to the end of the container without changing the slots or the child count, and keeps the invariant |
| PageBuilder.SlotReplaced | pagestate/src/main/java/com/juntu/pagestate/PageStateView.java:332-362 | the slot and child-list bookkeeping of a replacement keeps the views distinct and registered, and drops the replaced view |
| PageBuilder.SetView | pagestate/src/main/java/com/juntu/pagestate/PageStateView.java:286-330 | a null view is a no-op; a view before init (empty container) fails with IllegalState, and that is the only failure; otherwise the view becomes the slot's owner and last child with the flag and layout parameters addStateView gives, and the listener and wiring are kept |
| PageBuilder.SetViewReplaces | pagestate/src/main/java/com/juntu/pagestate/PageStateView.java:286-362 | after init, set*View with a new view is addStateView and keeps the container invariant |
| PageBuilder.SetViewBeforeInit | pagestate/src/main/java/com/juntu/pagestate/PageStateView.java:326-330 | any set*View with a view on a fresh builder fails with IllegalState |
| PageBuilder.SetRetryListener | pagestate/src/main/java/com/juntu/pagestate/PageStateView.java:368-371 | the listener is replaced and nothing else changes |
| PageBuilder.Click | pagestate/src/main/java/com/juntu/pagestate/PageStateView.java:225-233 | a click calls at most one listener, and it calls one iff the element is wired and a listener is set; the one it calls is the current listener |
| PageBuilder.RetryCallsLatestListener | pagestate/src/main/java/com/juntu/pagestate/PageStateView.java:225-233 | after two setRetryListener calls a wired element calls only the latest listener, exactly once |
| PageBuilder.CustomViewNeverRetries | pagestate/src/main/java/com/juntu/pagestate/PageStateView.java:319-324 | after init and setCustomView with a view that is not a default retry element, clicking it calls no listener |
| PageBuilder.ShowLoadingThenContent | pagestate/src/main/java/com/juntu/pagestate/PageStateView.java:119-142 | on the result of a successful init on a fresh builder whose loading default holds a newly created spinner, showing LOADING makes only the loading default visible with the spinner repeating forever; showing CONTENT next leaves only the content visible and the spinner stopped after its cycle |
| LoadingView.Create | pagestate/src/main/java/com/juntu/pagestate/LoadingView.java:51-75 | a new spinner is running with a 1500 ms restarting animator repeating forever and started once; the radii default to 60 and 10; there is no centre yet |
| LoadingView.StopRunning | pagestate/src/main/java/com/juntu/pagestate/LoadingView.java:105-112 | afterwards the view is stopped; a running view's animator finishes its cycle (repeat count 0); a stopped view is unchanged; running iff repeating forever is preserved |
| LoadingView.StartRunning | pagestate/src/main/java/com/juntu/pagestate/LoadingView.java:117-123 | afterwards the view runs; a stopped view repeats forever again and its animator is restarted once; a running view is unchanged; running iff repeating forever is preserved |
| LoadingView.StopStartIdempotent | pagestate/src/main/java/com/juntu/pagestate/LoadingView.java:105-123 | stopping twice is stopping once, and starting twice is starting once |
| LoadingView.StopThenStart | pagestate/src/main/java/com/juntu/pagestate/LoadingView.java:105-123 | stopping then starting a coherent running spinner gives it back with one more restart recorded |
| LoadingView.StopThenStartFromCreate | pagestate/src/main/java/com/juntu/pagestate/LoadingView.java:61-123 | a new spinner that is stopped and started is back in its initial running configuration apart from the restart count |
| LoadingView.SizeChanged | pagestate/src/main/java/com/juntu/pagestate/LoadingView.java:96-99 | the centre becomes half the new width and height, rounded toward zero; the old size plays no part and nothing else changes |
| LoadingView.Draw | pagestate/src/main/java/com/juntu/pagestate/LoadingView.java:83-91 | a frame paints one dot per configured colour, dot i in colour i |
| Views.Int32 | pagestate/src/main/java/com/juntu/pagestate/PageStateView.java:152-153 | the result is in the 32-bit range, congruent to the exact value modulo 2^32, and equal to it when it is in range |
| Views.Half | pagestate/src/main/java/com/juntu/pagestate/LoadingView.java:98 | Java's int division by two: the remainder is 0 or 1 for non-negative inputs and 0 or -1 for negative ones |
| Views.LastIndexOf | pagestate/src/main/java/com/juntu/pagestate/PageStateView.java:262-268 | the index init records is the last position holding the view, or 0 when the parent does not hold it |
| Views.LastIndexIsOnlyIndex | pagestate/src/main/java/com/juntu/pagestate/PageStateView.java:266-268 | in a list without duplicates the last and the first position of an element are its position |
| Views.FirstIndexOf | pagestate/src/main/java/com/juntu/pagestate/PageStateView.java:278 | the position removeView finds is the first one holding the view |
| Views.RemoveView | pagestate/src/main/java/com/juntu/pagestate/PageStateView.java:278 | removing a view that is not a child changes nothing, and removing a child shortens the list by one |
| Views.RemoveViewOrder | pagestate/src/main/java/com/juntu/pagestate/PageStateView.java:278 | removing a child keeps the children before its first occurrence in place and moves those after it up by one |
| Views.RemoveViewDistinct | pagestate/src/main/java/com/juntu/pagestate/PageStateView.java:334-356 | in a list without duplicates, removal drops exactly the removed view and keeps the list free of duplicates |
| Views.RemoveAt | pagestate/src/main/java/com/juntu/pagestate/PageStateView.java:278 | removal at a position keeps the elements before it and shifts the ones after it down by one |
| Views.InsertAt | pagestate/src/main/java/com/juntu/pagestate/PageStateView.java:279 | insertion at a position keeps the elements before it, places the view there and shifts the rest up by one |
| Views.ReplaceInPlace | pagestate/src/main/java/com/juntu/pagestate/PageStateView.java:278-279 | in a list without duplicates, removing the element at i and inserting another at i replaces it in place |
| Views.SetVisibility | pagestate/src/main/java/com/juntu/pagestate/PageStateView.java:125-126 | the view gets the new flag; every other view keeps its flag, and the tree and layout parameters are unchanged |
| Views.SetChildren | pagestate/src/main/java/com/juntu/pagestate/PageStateView.java:275 | the group gets the new child list and every other group keeps its own; flags and layout parameters are unchanged |
| Views.Adopt | pagestate/src/main/java/com/juntu/pagestate/PageStateView.java:280 | FrameLayout.addView keeps a FrameLayout.LayoutParams as it is, replaces any other object by a new FrameLayout.LayoutParams of the same size, and gives a view without one a new one matching the parent both ways; no other view's reference changes |
| Views.AdoptKeeps | pagestate/src/main/java/com/juntu/pagestate/PageStateView.java:280 | adopting a view alters no existing object and leaves no reference dangling |
| Views.AddToFrame | pagestate/src/main/java/com/juntu/pagestate/PageStateView.java:359 | FrameLayout.addView(child) appends the child, gives it the layout parameters Adopt gives, and changes no other child list or flag |
| Views.SameObject | pagestate/src/main/java/com/juntu/pagestate/PageStateView.java:279-280 | a view holding, after an update that alters no existing object, the reference another view held sees that same object |

## Left out

- Main-thread marshalling: `showView` posts `changeView` to the UI thread from other threads (PageStateView.java:103-114). Only the effect of `changeView` is modelled.
- Dot positions: `onDraw` places each dot with floating-point trigonometry from the animated fraction, the radii and the centre. `Draw` models the count and colours of the dots only. A frame drawn before the first size change, when the centre is still null, is not modelled either.
- Animation timing: the animator's frame callbacks and the `offset` fraction they update are not modelled. Only the duration, repeat mode, repeat count and the number of `start()` calls are.
- Layout inflation, resource lookup, `setBackgroundColor(Color.WHITE)` and paint setup. A default state view is a given `Template`, which records its root, its retry icon and text (each possibly absent) and its spinner.
- Host resolution: how an Activity, a support or platform Fragment, or a view's parent is found, including the caught `ClassCastException` for a view's parent, is abstracted into the `Host` value with its parent already resolved.
- A Fragment whose root view is not a `ViewGroup` makes the casts at PageStateView.java:253 and 256 throw a `ClassCastException` that nothing catches. `Host` has no case for it, so the model does not raise this fault.
- Android's `addView` throws when the child already has a parent. The model does not check this. The lemmas instead require distinct views: `HostInTree`, `DistinctRoots`, and a new view that is not yet a child.
- Init: `init` on a builder that already holds views is modelled as the source writes it (the children are dropped and the slots overwritten). The lemmas about the registered state only cover a fresh builder.
- OnLayout: when a child has no layout parameters, the source throws midway through the loop. By then it has already resized the objects of the children before it. The model returns the `NullPointer` fault alone and drops those partial writes.
- Reparent: a content view without layout parameters makes `parentView.addView` at PageStateView.java:279 throw, because the container is then given no object. The model goes on with no object for the container. The layout-parameter lemmas (`ReparentParams`, `InitParams`, `FirstLayoutAfterInit`) require the content to have one.
- The resolved parent's own check of layout parameters: the model has the parent accept the content's object as it is. This is what a parent of the kind that laid the content out does. A parent that converts the object (`generateLayoutParams`) is not modelled.
- RemoveView: its contract gives the length only. The positions it keeps are stated by the lemma `RemoveViewOrder` instead, because stating them on the function made every proof that uses it much more expensive.
- The demo application (`MainActivity`) is not part of this model.
