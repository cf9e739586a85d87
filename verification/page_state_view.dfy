/** The page-state container: at most one view per page state, a show
    operation that makes exactly the requested state's view visible, and the
    one-time layout fix-up of its children. */
module PageStates {
  import opened Results
  import opened Views
  import LoadingView

  /** The six page states. */
  datatype PageState = Empty | Loading | Error | Content | NoNetwork | Custom

  /** The container. `slots` holds the non-null view fields, `loading` the
      LoadingView found inside the default loading view (if any), and
      `isFirst` whether the first layout pass is still to come. */
  datatype Page = Page(
    self: ViewId,
    ui: Ui,
    slots: map<PageState, ViewId>,
    loading: Option<LoadingView.Spinner>,
    isFirst: bool)

  /** The order in which changeView assigns the slot visibilities. */
  const ShowOrder: seq<PageState> := [Error, Empty, Loading, Content, NoNetwork, Custom]

  /** No view is registered for two states. */
  predicate Injective(slots: map<PageState, ViewId>) {
    forall a, b :: a in slots && b in slots && slots[a] == slots[b] ==> a == b
  }

  /** The flag a registered slot receives when `target` is shown. */
  function SlotVisibility(st: PageState, target: PageState): Visibility {
    if st == target then Visible else Gone
  }

  /** One `if (xView != null) xView.setVisibility(...)` line. */
  function ShowSlot(ui: Ui, slots: map<PageState, ViewId>, st: PageState, target: PageState): Ui {
    if st in slots then SetVisibility(ui, slots[st], SlotVisibility(st, target)) else ui
  }

  /** The visibility assignments of changeView, applied one slot at a time in `order`. */
  function Assign(ui: Ui, slots: map<PageState, ViewId>, order: seq<PageState>, target: PageState): (r: Ui)
    ensures r.kids == ui.kids && r.lp == ui.lp && r.objects == ui.objects
    ensures forall v :: (forall st :: st in order && st in slots ==> slots[st] != v) ==> VisOf(r, v) == VisOf(ui, v)
    decreases |order|
  {
    if order == [] then ui
    else Assign(ShowSlot(ui, slots, order[0], target), slots, order[1..], target)
  }

  /** The declarative reading of the same assignments: the flags written,
      keyed by view, later slots overriding earlier ones. */
  function Overlay(slots: map<PageState, ViewId>, order: seq<PageState>, target: PageState): map<ViewId, Visibility>
    decreases |order|
  {
    if order == [] then map[]
    else
      var head := if order[0] in slots then map[slots[order[0]] := SlotVisibility(order[0], target)] else map[];
      head + Overlay(slots, order[1..], target)
  }

  /** Exactly the registered views of the listed states receive a flag. */
  lemma {:induction false} OverlayKeys(slots: map<PageState, ViewId>, order: seq<PageState>, target: PageState)
    ensures forall v :: v in Overlay(slots, order, target) <==> exists st :: st in order && st in slots && slots[st] == v
    decreases |order|
  {
    if order != [] {
      OverlayKeys(slots, order[1..], target);
      forall v | exists st :: st in order && st in slots && slots[st] == v
        ensures v in Overlay(slots, order, target)
      {
        var st :| st in order && st in slots && slots[st] == v;
        if st != order[0] { assert st in order[1..]; }
      }
    }
  }

  /** With no view shared between states, a listed registered view receives
      VISIBLE exactly when its state is the target, and GONE otherwise. */
  lemma {:induction false} OverlayValue(slots: map<PageState, ViewId>, order: seq<PageState>, target: PageState, st: PageState)
    requires Injective(slots) && st in slots && st in order
    ensures slots[st] in Overlay(slots, order, target)
    ensures Overlay(slots, order, target)[slots[st]] == SlotVisibility(st, target)
    decreases |order|
  {
    var rest := Overlay(slots, order[1..], target);
    if st in order[1..] {
      OverlayValue(slots, order[1..], target, st);
    } else {
      assert st == order[0];
      OverlayKeys(slots, order[1..], target);
      assert slots[st] !in rest;
    }
  }

  lemma MapUnionAssoc<K, V>(a: map<K, V>, b: map<K, V>, c: map<K, V>)
    ensures (a + b) + c == a + (b + c)
  {
  }

  lemma MapOverride<K, V>(m: map<K, V>, a: map<K, V>, b: map<K, V>)
    requires a.Keys <= b.Keys
    ensures (m + a) + b == m + b
  {
  }

  /** The sequential assignments and the declarative overlay agree. */
  lemma {:induction false} AssignIsOverlay(ui: Ui, slots: map<PageState, ViewId>, order: seq<PageState>, target: PageState)
    ensures Assign(ui, slots, order, target) == ui.(vis := ui.vis + Overlay(slots, order, target))
    decreases |order|
  {
    if order != [] {
      var next := ShowSlot(ui, slots, order[0], target);
      var head := if order[0] in slots then map[slots[order[0]] := SlotVisibility(order[0], target)] else map[];
      assert next.vis == ui.vis + head;
      AssignIsOverlay(next, slots, order[1..], target);
      MapUnionAssoc(ui.vis, head, Overlay(slots, order[1..], target));
    }
  }

  /** changeView: start the spinner when entering LOADING and stop it
      otherwise (when there is one), then set every registered slot's flag. */
  function ChangeView(p: Page, target: PageState): (r: Page)
    ensures r.self == p.self && r.slots == p.slots && r.isFirst == p.isFirst
    ensures r.ui.kids == p.ui.kids && r.ui.lp == p.ui.lp && r.ui.objects == p.ui.objects
    ensures r.loading.Some? <==> p.loading.Some?
    ensures r.loading.Some? ==> (r.loading.value.isRunning <==> target == Loading)
    ensures forall v :: v !in p.slots.Values ==> VisOf(r.ui, v) == VisOf(p.ui, v)
  {
    var spinner :=
      if p.loading.None? then None
      else if target == Loading then Some(LoadingView.StartRunning(p.loading.value))
      else Some(LoadingView.StopRunning(p.loading.value));
    p.(loading := spinner, ui := Assign(p.ui, p.slots, ShowOrder, target))
  }

  /** Visibility: after showing `target`, every registered view is VISIBLE if
      its state is `target` and GONE otherwise; unregistered views keep their flag. */
  lemma ChangeViewVisibility(p: Page, target: PageState)
    requires Injective(p.slots)
    ensures forall st :: st in p.slots ==> VisOf(ChangeView(p, target).ui, p.slots[st]) == SlotVisibility(st, target)
    ensures forall v :: v !in p.slots.Values ==> VisOf(ChangeView(p, target).ui, v) == VisOf(p.ui, v)
  {
    AssignIsOverlay(p.ui, p.slots, ShowOrder, target);
    forall st | st in p.slots
      ensures VisOf(ChangeView(p, target).ui, p.slots[st]) == SlotVisibility(st, target)
    {
      OverlayValue(p.slots, ShowOrder, target, st);
    }
  }

  /** Exclusivity: at most one registered view is visible afterwards, and a
      visible one belongs to the target state. */
  lemma ChangeViewExclusive(p: Page, target: PageState)
    requires Injective(p.slots)
    ensures forall a, b ::
              a in p.slots && b in p.slots
              && VisOf(ChangeView(p, target).ui, p.slots[a]) == Visible
              && VisOf(ChangeView(p, target).ui, p.slots[b]) == Visible
              ==> a == b
    ensures forall a :: a in p.slots && VisOf(ChangeView(p, target).ui, p.slots[a]) == Visible ==> a == target
  {
    ChangeViewVisibility(p, target);
  }

  /** Idempotence: showing the same state twice is showing it once, spinner included. */
  lemma {:induction false} ChangeViewIdempotent(p: Page, target: PageState)
    ensures ChangeView(ChangeView(p, target), target) == ChangeView(p, target)
  {
    var once := ChangeView(p, target);
    var twice := ChangeView(once, target);
    var o := Overlay(p.slots, ShowOrder, target);
    AssignIsOverlay(p.ui, p.slots, ShowOrder, target);
    AssignIsOverlay(once.ui, p.slots, ShowOrder, target);
    MapOverride(p.ui.vis, o, o);
    assert twice.ui == once.ui;
    assert twice.loading == once.loading;
  }

  /** The latest show decides the views: whatever was shown before, the view
      flags after showing `s2` are those of showing `s2` alone. */
  lemma {:induction false} ChangeViewLastWins(p: Page, s1: PageState, s2: PageState)
    ensures ChangeView(ChangeView(p, s1), s2).ui == ChangeView(p, s2).ui
  {
    var first := ChangeView(p, s1);
    var o1 := Overlay(p.slots, ShowOrder, s1);
    var o2 := Overlay(p.slots, ShowOrder, s2);
    AssignIsOverlay(p.ui, p.slots, ShowOrder, s1);
    AssignIsOverlay(first.ui, p.slots, ShowOrder, s2);
    AssignIsOverlay(p.ui, p.slots, ShowOrder, s2);
    OverlayKeys(p.slots, ShowOrder, s1);
    OverlayKeys(p.slots, ShowOrder, s2);
    assert o1.Keys <= o2.Keys;
    MapOverride(p.ui.vis, o1, o2);
  }

  /** The spinner stays coupled to the shown state: a coherent spinner stays
      coherent, and its animator repeats forever exactly when LOADING is shown. */
  lemma ChangeViewCoherent(p: Page, target: PageState)
    requires p.loading.Some? && LoadingView.Coherent(p.loading.value)
    ensures var r := ChangeView(p, target);
            && r.loading.Some? && LoadingView.Coherent(r.loading.value)
            && (r.loading.value.animator.repeatCount == LoadingView.INFINITE <==> target == Loading)
  {
  }

  /** Showing LOADING and then CONTENT on a container with both slots
      filled: first only the loading view is visible and a coherent spinner
      repeats forever; then only the content is visible and the spinner,
      having been running, is set to finish its cycle and stop. */
  lemma LoadingThenContent(p: Page)
    requires Injective(p.slots) && Loading in p.slots && Content in p.slots
    requires p.loading.Some? ==> LoadingView.Coherent(p.loading.value)
    ensures var l := ChangeView(p, Loading);
            var q := ChangeView(l, Content);
            && VisOf(l.ui, p.slots[Loading]) == Visible
            && (forall st :: st in p.slots && st != Loading ==> VisOf(l.ui, p.slots[st]) == Gone)
            && (l.loading.Some? ==> l.loading.value.isRunning && l.loading.value.animator.repeatCount == LoadingView.INFINITE)
            && VisOf(q.ui, p.slots[Content]) == Visible
            && (forall st :: st in p.slots && st != Content ==> VisOf(q.ui, p.slots[st]) == Gone)
            && (q.loading.Some? ==> !q.loading.value.isRunning && q.loading.value.animator.repeatCount == 0
                                    && LoadingView.Coherent(q.loading.value))
  {
    var l := ChangeView(p, Loading);
    ChangeViewVisibility(p, Loading);
    ChangeViewLastWins(p, Loading, Content);
    ChangeViewVisibility(p, Content);
    if p.loading.Some? {
      ChangeViewCoherent(p, Loading);
      ChangeViewCoherent(l, Content);
    }
  }

  /** Every child of the container has layout parameters. */
  predicate ChildrenHaveParams(p: Page) {
    forall c :: c in Children(p.ui, p.self) ==> HasParams(p.ui, c)
  }

  /** onLayout: on the first pass only, the layout-parameters object of
      every child gets the container's own width and height (in Java `int`
      arithmetic). A view that holds the same object as a child, as the
      container holds the content's, sees the new size too. A child without
      layout parameters makes the pass fail. Later passes change nothing. */
  method OnLayout(p: Page, changed: bool, left: int, top: int, right: int, bottom: int) returns (q: Result<Page>)
    requires IsInt32(left) && IsInt32(top) && IsInt32(right) && IsInt32(bottom)
    ensures !p.isFirst ==> q == Ok(p)
    ensures q.Err? <==> p.isFirst && !ChildrenHaveParams(p)
    ensures q.Err? ==> q.fault == NullPointer
    ensures q.Ok? && p.isFirst ==>
      var r := q.value;
      && !r.isFirst
      && (forall c :: c in Children(p.ui, p.self) ==>
            HasParams(r.ui, c) && ParamsOf(r.ui, c).size == Size(Int32(right - left), Int32(bottom - top)))
      && |r.ui.objects| == |p.ui.objects| && r.ui.lp == p.ui.lp
      && (forall h :: 0 <= h < |p.ui.objects| && (forall c :: c in Children(p.ui, p.self) && c in p.ui.lp ==> p.ui.lp[c] != h) ==>
            r.ui.objects[h] == p.ui.objects[h])
      && (forall h :: 0 <= h < |p.ui.objects| ==> r.ui.objects[h].frame == p.ui.objects[h].frame)
      && r.ui.kids == p.ui.kids && r.ui.vis == p.ui.vis
      && r.self == p.self && r.slots == p.slots && r.loading == p.loading
  {
    if !p.isFirst {
      return Ok(p);
    }
    var kids := Children(p.ui, p.self);
    var size := Size(Int32(right - left), Int32(bottom - top));
    var objects := p.ui.objects;
    var i := 0;
    while i < |kids|
      invariant 0 <= i <= |kids| && |objects| == |p.ui.objects|
      invariant forall j :: 0 <= j < i ==> HasParams(p.ui, kids[j]) && objects[p.ui.lp[kids[j]]].size == size
      invariant forall h :: 0 <= h < |objects| && (forall j :: 0 <= j < i ==> p.ui.lp[kids[j]] != h) ==>
        objects[h] == p.ui.objects[h]
      invariant forall h :: 0 <= h < |objects| ==> objects[h].frame == p.ui.objects[h].frame
    {
      if !HasParams(p.ui, kids[i]) {
        assert kids[i] in kids;
        return Err(NullPointer);
      }
      var h := p.ui.lp[kids[i]];
      objects := objects[h := objects[h].(size := size)];
      i := i + 1;
    }
    q := Ok(p.(ui := p.ui.(objects := objects), isFirst := false));
    forall c | c in kids ensures HasParams(p.ui, c) && objects[p.ui.lp[c]].size == size {
      var j :| 0 <= j < |kids| && kids[j] == c;
    }
  }
}
