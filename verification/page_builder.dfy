/** The builder: wraps an existing screen area in a page-state container,
    installs the default state views, lets the caller replace slot views,
    and routes clicks on the default retry elements to one listener. */
module PageBuilder {
  import opened Results
  import opened Views
  import LoadingView
  import opened PageStates

  /** An opaque retry listener. */
  type ListenerId = nat

  /** A pre-built default state view: its root, the retry icon and text found
      inside it (either may be absent), and the LoadingView found inside it. */
  datatype Template = Template(
    root: ViewId,
    icon: Option<ViewId>,
    text: Option<ViewId>,
    spinner: Option<LoadingView.Spinner>)

  /** The four built-in layouts, inflated afresh for each init. */
  datatype Defaults = Defaults(error: Template, loading: Template, empty: Template, noNet: Template)

  /** The object passed to init, with its parent already resolved: a view and
      the view group holding it (null when it has none or the parent is not a
      group), an Activity or Fragment and its root content group (null when
      it has none), something else, or null. */
  datatype Host =
    | NullHost
    | ViewHost(target: ViewId, parent: Option<ViewId>)
    | ScreenHost(root: Option<ViewId>)
    | OtherHost

  /** The builder: the container under construction, the current retry
      listener, and the elements whose click handler calls that listener. */
  datatype Builder = Builder(page: Page, listener: Option<ListenerId>, wired: set<ViewId>)

  /** The parent view group init resolves for a host. */
  function ResolvedParent(host: Host): Option<ViewId> {
    match host
    case ViewHost(_, parent) => parent
    case ScreenHost(root) => root
    case _ => None
  }

  /** The retry elements present in the error, empty and no-network defaults. */
  function RetryElements(d: Defaults): set<ViewId> {
    OptSet(d.error.icon) + OptSet(d.error.text) + OptSet(d.empty.icon) + OptSet(d.empty.text)
      + OptSet(d.noNet.icon) + OptSet(d.noNet.text)
  }

  function OptSet(v: Option<ViewId>): set<ViewId> {
    if v.Some? then {v.value} else {}
  }

  /** new Builder(context): an empty, never laid out container with no slots. */
  function NewBuilder(self: ViewId, ui: Ui): (b: Builder)
    ensures Fresh(b) && b.page.self == self && !HasParams(b.page.ui, self)
    ensures b.page.ui.kids == ui.kids[self := []] && b.page.ui.vis == ui.vis && b.page.ui.objects == ui.objects
  {
    Builder(Page(self, SetChildren(ui, self, []).(lp := ui.lp - {self}), map[], None, true), None, {})
  }

  /** A builder init has not run on: an empty, never laid out container
      with no slots, no spinner, no listener and nothing wired. */
  predicate Fresh(b: Builder) {
    && Children(b.page.ui, b.page.self) == [] && b.page.slots == map[] && b.page.loading == None
    && b.page.isFirst && b.listener == None && b.wired == {}
  }

  /** The roots of the four defaults are four different views. */
  predicate DistinctRoots(d: Defaults) {
    && d.error.root != d.loading.root && d.error.root != d.empty.root && d.error.root != d.noNet.root
    && d.loading.root != d.empty.root && d.loading.root != d.noNet.root
    && d.empty.root != d.noNet.root
  }

  /** FrameLayout.addView's layout-parameters step for each view of `vs` in
      turn; the tree and the visibility flags are left alone. */
  function AdoptAll(ui: Ui, vs: seq<ViewId>): (r: Ui)
    ensures r.kids == ui.kids && r.vis == ui.vis
    decreases |vs|
  {
    if vs == [] then ui else AdoptAll(Adopt(ui, vs[0]), vs[1..])
  }

  /** After AdoptAll every view of `vs` holds a FrameLayout.LayoutParams of
      the size it had, or matching the parent when it had none; no other
      view's reference changes and no existing object is altered. */
  lemma {:induction false} AdoptAllParams(ui: Ui, vs: seq<ViewId>)
    requires ParamsValid(ui)
    ensures var r := AdoptAll(ui, vs);
            && (forall v :: v in vs ==> HasParams(r, v) && ParamsOf(r, v).frame)
            && (forall v :: v in vs && HasParams(ui, v) ==> ParamsOf(r, v).size == ParamsOf(ui, v).size)
            && (forall v :: v in vs && !HasParams(ui, v) ==> ParamsOf(r, v).size == Size(MATCH_PARENT, MATCH_PARENT))
            && (forall w :: w !in vs ==> (w in r.lp <==> w in ui.lp) && (w in ui.lp ==> r.lp[w] == ui.lp[w]))
            && Extends(ui, r) && ParamsValid(r)
    decreases |vs|
  {
    if vs != [] {
      var next := Adopt(ui, vs[0]);
      AdoptKeeps(ui, vs[0]);
      AdoptAllParams(next, vs[1..]);
      var r := AdoptAll(ui, vs);
      assert r == AdoptAll(next, vs[1..]);
      forall v | v in vs
        ensures HasParams(r, v) && ParamsOf(r, v).frame
        ensures HasParams(ui, v) ==> ParamsOf(r, v).size == ParamsOf(ui, v).size
        ensures !HasParams(ui, v) ==> ParamsOf(r, v).size == Size(MATCH_PARENT, MATCH_PARENT)
      {
        if v !in vs[1..] {
          assert v == vs[0];
        } else if v != vs[0] {
          assert HasParams(next, v) <==> HasParams(ui, v);
        }
      }
    }
  }

  /** initDefault, that is initLayout and setDefaultViewListener for the
      error, loading, empty and no-network defaults in that order: each is
      registered in its slot and appended to the container with the layout
      parameters the container gives it, all but the loading view are hidden,
      the spinner comes from the loading default and the retry elements
      present in the other three are wired. Each of these parts of the state
      is updated by the four steps in the same order as in the source, so
      they are applied here one part at a time. */
  function InitDefault(b: Builder, d: Defaults): (r: Builder)
    ensures r.page.self == b.page.self && r.page.isFirst == b.page.isFirst && r.listener == b.listener
    ensures Children(r.page.ui, b.page.self)
         == Children(b.page.ui, b.page.self) + [d.error.root, d.loading.root, d.empty.root, d.noNet.root]
    ensures r.page.ui.kids == b.page.ui.kids[b.page.self := Children(r.page.ui, b.page.self)]
    ensures r.page.slots == b.page.slots[Error := d.error.root][Loading := d.loading.root]
                                        [Empty := d.empty.root][NoNetwork := d.noNet.root]
    ensures VisOf(r.page.ui, d.error.root) == Gone && VisOf(r.page.ui, d.empty.root) == Gone
    ensures VisOf(r.page.ui, d.noNet.root) == Gone
    ensures forall v :: v !in {d.error.root, d.empty.root, d.noNet.root} ==> VisOf(r.page.ui, v) == VisOf(b.page.ui, v)
    ensures r.page.ui.lp == AdoptAll(b.page.ui, Roots(d)).lp && r.page.ui.objects == AdoptAll(b.page.ui, Roots(d)).objects
    ensures r.page.loading == d.loading.spinner
    ensures r.wired == b.wired + RetryElements(d)
  {
    var p := b.page;
    var adopted := AdoptAll(p.ui, Roots(d));
    var vis := SetVisibility(SetVisibility(SetVisibility(adopted, d.error.root, Gone), d.empty.root, Gone), d.noNet.root, Gone);
    var page := p.(
      ui := SetChildren(vis, p.self, Children(p.ui, p.self) + Roots(d)),
      slots := p.slots[Error := d.error.root][Loading := d.loading.root][Empty := d.empty.root][NoNetwork := d.noNet.root],
      loading := d.loading.spinner);
    b.(page := page, wired := b.wired + RetryElements(d))
  }

  /** The roots of the four defaults, in the order initDefault adds them. */
  function Roots(d: Defaults): seq<ViewId> {
    [d.error.root, d.loading.root, d.empty.root, d.noNet.root]
  }

  /** The surgery of init: empty the container, take the content out of the
      parent, put the container at `index` handing it the content's own
      layout-parameters object, and make the content the container's only
      child (which keeps that object when it is a FrameLayout.LayoutParams
      and gets a copy otherwise). */
  function Reparent(p: Page, g: ViewId, content: ViewId, index: nat): (r: Page)
    requires index <= |Children(RemoveChild(SetChildren(p.ui, p.self, []), g, content), g)|
    ensures g != p.self ==>
              r.ui.kids == p.ui.kids[g := InsertAt(RemoveView(Children(p.ui, g), content), index, p.self)][p.self := [content]]
    ensures r.ui.vis == p.ui.vis
    ensures r.slots == p.slots[Content := content]
    ensures r.self == p.self && r.loading == p.loading && r.isFirst == p.isFirst
  {
    var ui3 := Detach(p.ui, p.self, g, content, index);
    var ui4 := if HasParams(ui3, content) then ui3.(lp := ui3.lp[p.self := ui3.lp[content]]) else ui3;
    assert ui4.kids == ui3.kids && ui4.vis == p.ui.vis;
    var ui5 := AddToFrame(ui4, p.self, content);
    assert ui5.kids == ui3.kids[p.self := Children(ui3, p.self) + [content]];
    assert g != p.self ==> Children(ui3, p.self) + [content] == [content];
    UpdateTwice(p.ui.kids[g := InsertAt(RemoveView(Children(p.ui, g), content), index, p.self)], p.self, [], [content]);
    p.(ui := ui5, slots := p.slots[Content := content])
  }

  /** The view-tree half of the surgery: empty the container, take the
      content out of its parent and put the container at its index. */
  function Detach(ui: Ui, self: ViewId, g: ViewId, content: ViewId, index: nat): (r: Ui)
    requires index <= |Children(RemoveChild(SetChildren(ui, self, []), g, content), g)|
    ensures g != self ==> r.kids == ui.kids[g := InsertAt(RemoveView(Children(ui, g), content), index, self)][self := []]
    ensures r.vis == ui.vis && r.lp == ui.lp && r.objects == ui.objects
  {
    var ui1 := SetChildren(ui, self, []);
    var ui2 := RemoveChild(ui1, g, content);
    AddChildAt(ui2, g, index, self)
  }

  /** The layout parameters after the surgery: the container holds the
      content's own object; the content keeps it when it is a
      FrameLayout.LayoutParams and otherwise holds a new copy of the same
      size, so the two share an object exactly in the first case; no other
      view's reference changes and no existing object is altered. */
  lemma ReparentParams(p: Page, g: ViewId, content: ViewId, index: nat)
    requires index <= |Children(RemoveChild(SetChildren(p.ui, p.self, []), g, content), g)|
    requires content != p.self && HasParams(p.ui, content) && ParamsValid(p.ui)
    ensures var r := Reparent(p, g, content, index);
            && HasParams(r.ui, content) && ParamsOf(r.ui, content).frame
            && r.ui.lp == p.ui.lp[p.self := p.ui.lp[content]][content := r.ui.lp[content]]
            && ParamsOf(r.ui, content).size == ParamsOf(p.ui, content).size
            && (r.ui.lp[content] == r.ui.lp[p.self] <==> ParamsOf(p.ui, content).frame)
            && Extends(p.ui, r.ui) && ParamsValid(r.ui)
  {
  }

  /** init: resolve the parent and the content view, move the content into
      the container that takes its place, and add the defaults after it. */
  function Init(b: Builder, host: Host, d: Defaults): (r: Result<Builder>)
    ensures r == Err(IllegalArgument) <==> ResolvedParent(host).None?
    ensures r == Err(NullPointer)
        <==> host.ScreenHost? && host.root.Some? && Children(b.page.ui, host.root.value) == []
    ensures r == Err(IndexOutOfBounds) ==> ResolvedParent(host) == Some(b.page.self)
    ensures r.Ok? ==> r.value.page.self == b.page.self && r.value.listener == b.listener
  {
    if host.NullHost? then Err(IllegalArgument)
    else if ResolvedParent(host).None? then Err(IllegalArgument)
    else
      var g := ResolvedParent(host).value;
      var siblings := Children(b.page.ui, g);
      if host.ScreenHost? && |siblings| == 0 then Err(NullPointer)
      else
        if host.ViewHost? then Attach(b, g, host.target, LastIndexOf(siblings, host.target), d)
        else Attach(b, g, siblings[0], 0, d)
  }

  /** The rest of init once the content and its old position are known:
      the position is checked against the parent's children after the
      content has left it, then the container is installed there. */
  function Attach(b: Builder, g: ViewId, content: ViewId, index: nat, d: Defaults): Result<Builder> {
    if index > |Children(RemoveChild(SetChildren(b.page.ui, b.page.self, []), g, content), g)| then
      Err(IndexOutOfBounds)
    else
      Ok(Install(b, g, content, index, d))
  }

  /** The successful end of init: the surgery around `content`, then
      initDefault. */
  function Install(b: Builder, g: ViewId, content: ViewId, index: nat, d: Defaults): (r: Builder)
    requires index <= |Children(RemoveChild(SetChildren(b.page.ui, b.page.self, []), g, content), g)|
    ensures r.page.self == b.page.self && r.page.isFirst == b.page.isFirst
    ensures r.listener == b.listener && r.wired == b.wired + RetryElements(d)
    ensures r.page.loading == d.loading.spinner
    ensures VisOf(r.page.ui, d.error.root) == Gone && VisOf(r.page.ui, d.empty.root) == Gone
    ensures VisOf(r.page.ui, d.noNet.root) == Gone
    ensures forall v :: v !in {d.error.root, d.empty.root, d.noNet.root} ==> VisOf(r.page.ui, v) == VisOf(b.page.ui, v)
  {
    var p1 := Reparent(b.page, g, content, index);
    assert p1.ui.vis == b.page.ui.vis;
    InitDefault(b.(page := p1), d)
  }

  /** The position of a state's view in the container after init. */
  function InitPosition(st: PageState): nat {
    match st
    case Content => 0
    case Error => 1
    case Loading => 2
    case Empty => 3
    case NoNetwork => 4
    case Custom => 5
  }

  /** Five different views registered in the five built-in slots serve
      one state each. */
  lemma InjectiveAfterInit(c: ViewId, e: ViewId, l: ViewId, m: ViewId, n: ViewId)
    requires Distinct([c, e, l, m, n])
    ensures Injective(map[Content := c, Error := e, Loading := l, Empty := m, NoNetwork := n])
  {
    var s := [c, e, l, m, n];
    var slots := map[Content := c, Error := e, Loading := l, Empty := m, NoNetwork := n];
    forall x, y | x in slots && y in slots && slots[x] == slots[y] ensures x == y {
      assert InitPosition(x) < 5 && slots[x] == s[InitPosition(x)];
      assert InitPosition(y) < 5 && slots[y] == s[InitPosition(y)];
    }
  }

  /** The container as init leaves it satisfies the invariant. */
  lemma WellFormedAfterInit(p: Page, content: ViewId, d: Defaults)
    requires DistinctRoots(d) && content !in {d.error.root, d.loading.root, d.empty.root, d.noNet.root}
    requires p.slots == map[Content := content, Error := d.error.root, Loading := d.loading.root,
                            Empty := d.empty.root, NoNetwork := d.noNet.root]
    requires Children(p.ui, p.self) == [content, d.error.root, d.loading.root, d.empty.root, d.noNet.root]
    ensures WellFormed(p)
  {
    DistinctFive(content, d.error.root, d.loading.root, d.empty.root, d.noNet.root);
    InjectiveAfterInit(content, d.error.root, d.loading.root, d.empty.root, d.noNet.root);
  }

  /** The container invariant: no view serves two states, every registered
      view is a child of the container, and no child occurs twice. */
  predicate WellFormed(p: Page) {
    && Injective(p.slots)
    && Distinct(Children(p.ui, p.self))
    && forall st :: st in p.slots ==> p.slots[st] in Children(p.ui, p.self)
  }

  /** What init needs of the view tree beyond the source's own checks: the
      parent is another group, lists the content once, and does not yet hold
      the container. */
  predicate HostInTree(b: Builder, host: Host) {
    && ResolvedParent(host).Some?
    && var g := ResolvedParent(host).value;
       var siblings := Children(b.page.ui, g);
       && g != b.page.self && Distinct(siblings) && b.page.self !in siblings
       && (host.ViewHost? ==> host.target in siblings)
       && (host.ScreenHost? ==> |siblings| > 0)
  }

  /** The position of the content view in the resolved parent. */
  function AnchorIndex(b: Builder, host: Host): (i: nat)
    requires HostInTree(b, host)
    ensures i < |Children(b.page.ui, ResolvedParent(host).value)|
  {
    var siblings := Children(b.page.ui, ResolvedParent(host).value);
    if host.ViewHost? then FirstIndexOf(siblings, host.target) else 0
  }

  /** The content view of a well-placed host. */
  function Anchor(b: Builder, host: Host): ViewId
    requires HostInTree(b, host)
  {
    Children(b.page.ui, ResolvedParent(host).value)[AnchorIndex(b, host)]
  }

  /** What init builds for a well-placed host: the defaults installed into
      the container that has taken the content's place. */
  function Wrapped(b: Builder, host: Host, d: Defaults): Builder
    requires HostInTree(b, host)
  {
    DetachLength(b.page, ResolvedParent(host).value, AnchorIndex(b, host));
    Install(b, ResolvedParent(host).value, Anchor(b, host), AnchorIndex(b, host), d)
  }

  /** On a well-placed host init succeeds. */
  lemma InitSucceeds(b: Builder, host: Host, d: Defaults)
    requires HostInTree(b, host)
    ensures Init(b, host, d) == Ok(Wrapped(b, host, d))
  {
    var g := ResolvedParent(host).value;
    var i := AnchorIndex(b, host);
    InitAttaches(b, host, d);
    AttachSucceeds(b, g, i, d);
  }

  /** A well-placed host leads init to the anchor and its position. */
  lemma InitAttaches(b: Builder, host: Host, d: Defaults)
    requires HostInTree(b, host)
    ensures Init(b, host, d) == Attach(b, ResolvedParent(host).value, Anchor(b, host), AnchorIndex(b, host), d)
  {
    var g := ResolvedParent(host).value;
    var siblings := Children(b.page.ui, g);
    var i := AnchorIndex(b, host);
    if host.ViewHost? {
      LastIndexIsOnlyIndex(siblings, i);
    }
  }

  /** The position of a child of another group always passes the bounds check of addView. */
  lemma AttachSucceeds(b: Builder, g: ViewId, i: nat, d: Defaults)
    requires g != b.page.self && Distinct(Children(b.page.ui, g)) && i < |Children(b.page.ui, g)|
    ensures i <= |Children(RemoveChild(SetChildren(b.page.ui, b.page.self, []), g, Children(b.page.ui, g)[i]), g)|
    ensures Attach(b, g, Children(b.page.ui, g)[i], i, d) == Ok(Install(b, g, Children(b.page.ui, g)[i], i, d))
  {
    DetachLength(b.page, g, i);
  }

  /** Taking a listed view out of a parent without repetitions shortens its
      list by one. */
  lemma DetachLength(p: Page, g: ViewId, i: nat)
    requires g != p.self && Distinct(Children(p.ui, g)) && i < |Children(p.ui, g)|
    ensures |Children(RemoveChild(SetChildren(p.ui, p.self, []), g, Children(p.ui, g)[i]), g)| == |Children(p.ui, g)| - 1
  {
    var siblings := Children(p.ui, g);
    assert Children(SetChildren(p.ui, p.self, []), g) == siblings;
    assert siblings[i] in siblings;
  }

  /** Reparenting the view at position `i` of another group puts the
      container exactly in its place. */
  lemma ReparentInPlace(p: Page, g: ViewId, i: nat)
    requires g != p.self && Distinct(Children(p.ui, g)) && p.self !in Children(p.ui, g)
    requires i < |Children(p.ui, g)|
    ensures |Children(RemoveChild(SetChildren(p.ui, p.self, []), g, Children(p.ui, g)[i]), g)| == |Children(p.ui, g)| - 1
    ensures var r := Reparent(p, g, Children(p.ui, g)[i], i);
            && Children(r.ui, g) == Children(p.ui, g)[i := p.self]
            && r.ui.kids == p.ui.kids[g := Children(p.ui, g)[i := p.self]][p.self := [Children(p.ui, g)[i]]]
  {
    var siblings := Children(p.ui, g);
    var ui1 := SetChildren(p.ui, p.self, []);
    assert Children(ui1, g) == siblings;
    RemoveViewDistinct(siblings, siblings[i]);
    ReplaceInPlace(siblings, i, p.self);
  }

  /** List surgery: the container takes the content's place in the parent,
      the parent keeps its length and the order of the other children, no
      other child list changes, and the container holds the content
      followed by the four defaults, with the content's layout size. */
  lemma InitSurgery(b: Builder, host: Host, d: Defaults)
    requires HostInTree(b, host)
    ensures var g := ResolvedParent(host).value;
            var siblings := Children(b.page.ui, g);
            var i := AnchorIndex(b, host);
            var r := Wrapped(b, host, d);
            && Children(r.page.ui, g) == siblings[i := b.page.self]
            && r.page.slots == b.page.slots[Content := siblings[i]][Error := d.error.root][Loading := d.loading.root]
                                           [Empty := d.empty.root][NoNetwork := d.noNet.root]
            && Children(r.page.ui, b.page.self)
               == [siblings[i], d.error.root, d.loading.root, d.empty.root, d.noNet.root]
            && r.page.ui.kids == b.page.ui.kids[g := siblings[i := b.page.self]]
                                 [b.page.self := Children(r.page.ui, b.page.self)]
  {
    SurgeryThenDefaults(b, ResolvedParent(host).value, AnchorIndex(b, host), d);
  }

  /** InitSurgery for the view at index `i` of a group `g`. */
  lemma SurgeryThenDefaults(b: Builder, g: ViewId, i: nat, d: Defaults)
    requires g != b.page.self && Distinct(Children(b.page.ui, g)) && b.page.self !in Children(b.page.ui, g)
    requires i < |Children(b.page.ui, g)|
    ensures |Children(RemoveChild(SetChildren(b.page.ui, b.page.self, []), g, Children(b.page.ui, g)[i]), g)|
            == |Children(b.page.ui, g)| - 1
    ensures var siblings := Children(b.page.ui, g);
            var r := Install(b, g, siblings[i], i, d);
            && Children(r.page.ui, g) == siblings[i := b.page.self]
            && r.page.slots == b.page.slots[Content := siblings[i]][Error := d.error.root][Loading := d.loading.root]
                                           [Empty := d.empty.root][NoNetwork := d.noNet.root]
            && Children(r.page.ui, b.page.self)
               == [siblings[i], d.error.root, d.loading.root, d.empty.root, d.noNet.root]
            && r.page.ui.kids == b.page.ui.kids[g := siblings[i := b.page.self]]
                                 [b.page.self := Children(r.page.ui, b.page.self)]
  {
    var siblings := Children(b.page.ui, g);
    var content := siblings[i];
    ReparentInPlace(b.page, g, i);
    var p1 := Reparent(b.page, g, content, i);
    var r := InitDefault(b.(page := p1), d);
    assert Children(p1.ui, b.page.self) == [content];
    var kids := Children(r.page.ui, b.page.self);
    assert kids == [content] + [d.error.root, d.loading.root, d.empty.root, d.noNet.root];
    var parentDone: map<ViewId, seq<ViewId>> := b.page.ui.kids[g := siblings[i := b.page.self]];
    assert p1.ui.kids == parentDone[b.page.self := [content]];
    assert r.page.ui.kids == parentDone[b.page.self := [content]][b.page.self := kids];
    UpdateTwice(parentDone, b.page.self, [content], kids);
    assert r.page.ui.kids == parentDone[b.page.self := kids];
    assert g in r.page.ui.kids && r.page.ui.kids[g] == siblings[i := b.page.self];
  }

  /** Init on a fresh builder registers the content and the four defaults
      and leaves the custom slot empty; the error, empty and no-network
      defaults are hidden while the loading default and the content keep
      their flags; the spinner is the loading default's; exactly the default
      retry elements are wired; the container invariant holds. */
  lemma InitDefaults(b: Builder, host: Host, d: Defaults)
    requires Fresh(b) && DistinctRoots(d) && HostInTree(b, host)
    requires Anchor(b, host) !in {b.page.self, d.error.root, d.loading.root, d.empty.root, d.noNet.root}
    ensures var r := Wrapped(b, host, d);
            && r.page.slots == map[Content := Anchor(b, host), Error := d.error.root,
                                   Loading := d.loading.root, Empty := d.empty.root, NoNetwork := d.noNet.root]
            && Custom !in r.page.slots
            && WellFormed(r.page)
            && VisOf(r.page.ui, d.error.root) == Gone && VisOf(r.page.ui, d.empty.root) == Gone
            && VisOf(r.page.ui, d.noNet.root) == Gone
            && VisOf(r.page.ui, d.loading.root) == VisOf(b.page.ui, d.loading.root)
            && VisOf(r.page.ui, Anchor(b, host)) == VisOf(b.page.ui, Anchor(b, host))
            && r.page.loading == d.loading.spinner
            && r.wired == RetryElements(d) && r.listener == None && r.page.isFirst
  {
    InitRegisters(b, host, d);
  }

  /** The slot and invariant half of InitDefaults. */
  lemma InitRegisters(b: Builder, host: Host, d: Defaults)
    requires Fresh(b) && DistinctRoots(d) && HostInTree(b, host)
    requires Anchor(b, host) !in {b.page.self, d.error.root, d.loading.root, d.empty.root, d.noNet.root}
    ensures var r := Wrapped(b, host, d);
            && r.page.slots == map[Content := Anchor(b, host), Error := d.error.root,
                                   Loading := d.loading.root, Empty := d.empty.root, NoNetwork := d.noNet.root]
            && WellFormed(r.page)
  {
    InitSurgery(b, host, d);
    var r := Wrapped(b, host, d);
    WellFormedAfterInit(r.page, Anchor(b, host), d);
  }

  /** Layout parameters after init on a fresh builder whose content view
      has some: the container holds the content's own object, unaltered;
      the content shares it exactly when it is a FrameLayout.LayoutParams
      and otherwise holds a copy of the same size; every child of the
      container holds a FrameLayout.LayoutParams, the defaults keeping the
      size they had or matching the parent when they had none; no reference
      is left dangling. */
  lemma InitParams(b: Builder, host: Host, d: Defaults)
    requires Fresh(b) && DistinctRoots(d) && HostInTree(b, host)
    requires Anchor(b, host) !in {b.page.self, d.error.root, d.loading.root, d.empty.root, d.noNet.root}
    requires b.page.self !in Roots(d) && HasParams(b.page.ui, Anchor(b, host)) && ParamsValid(b.page.ui)
    ensures var r := Wrapped(b, host, d).page;
            var c := Anchor(b, host);
            && HasParams(r.ui, r.self) && r.ui.lp[r.self] == b.page.ui.lp[c]
            && ParamsOf(r.ui, r.self) == ParamsOf(b.page.ui, c)
            && HasParams(r.ui, c) && ParamsOf(r.ui, c).size == ParamsOf(b.page.ui, c).size
            && (r.ui.lp[c] == r.ui.lp[r.self] <==> ParamsOf(b.page.ui, c).frame)
            && (forall v :: v in Children(r.ui, r.self) ==> HasParams(r.ui, v) && ParamsOf(r.ui, v).frame)
            && (forall v :: v in Roots(d) ==>
                  && HasParams(r.ui, v)
                  && ParamsOf(r.ui, v).size
                     == if HasParams(b.page.ui, v) then ParamsOf(b.page.ui, v).size else Size(MATCH_PARENT, MATCH_PARENT))
            && ParamsValid(r.ui)
  {
    ParamsThroughInit(b, ResolvedParent(host).value, AnchorIndex(b, host), d);
  }

  /** InitParams for the view at index `i` of a group `g`. */
  lemma ParamsThroughInit(b: Builder, g: ViewId, i: nat, d: Defaults)
    requires g != b.page.self && Distinct(Children(b.page.ui, g)) && b.page.self !in Children(b.page.ui, g)
    requires i < |Children(b.page.ui, g)|
    requires Children(b.page.ui, g)[i] !in Roots(d) && b.page.self !in Roots(d)
    requires HasParams(b.page.ui, Children(b.page.ui, g)[i]) && ParamsValid(b.page.ui)
    ensures |Children(RemoveChild(SetChildren(b.page.ui, b.page.self, []), g, Children(b.page.ui, g)[i]), g)|
            == |Children(b.page.ui, g)| - 1
    ensures var c := Children(b.page.ui, g)[i];
            var r := Install(b, g, c, i, d).page;
            && HasParams(r.ui, r.self) && r.ui.lp[r.self] == b.page.ui.lp[c]
            && ParamsOf(r.ui, r.self) == ParamsOf(b.page.ui, c)
            && HasParams(r.ui, c) && ParamsOf(r.ui, c).size == ParamsOf(b.page.ui, c).size
            && (r.ui.lp[c] == r.ui.lp[r.self] <==> ParamsOf(b.page.ui, c).frame)
            && (forall v :: v in Children(r.ui, r.self) ==> HasParams(r.ui, v) && ParamsOf(r.ui, v).frame)
            && (forall v :: v in Roots(d) ==>
                  && HasParams(r.ui, v)
                  && ParamsOf(r.ui, v).size
                     == if HasParams(b.page.ui, v) then ParamsOf(b.page.ui, v).size else Size(MATCH_PARENT, MATCH_PARENT))
            && ParamsValid(r.ui)
  {
    var c := Children(b.page.ui, g)[i];
    SurgeryThenDefaults(b, g, i, d);
    var p1 := Reparent(b.page, g, c, i);
    var r := InitDefault(b.(page := p1), d).page;
    assert Children(r.ui, r.self) == [c] + Roots(d);
    ReparentParams(b.page, g, c, i);
    DefaultsParams(b.page.ui, p1.ui, r.ui, Roots(d), b.page.self, c);
  }

  /** The first layout pass after such an init succeeds. When the content's
      object is a FrameLayout.LayoutParams the container shares it and takes
      the size the pass gives the children; otherwise the container's object
      is left as the content had it. */
  method FirstLayoutAfterInit(b: Builder, host: Host, d: Defaults, changed: bool,
                              left: int, top: int, right: int, bottom: int) returns (q: Result<Page>)
    requires Fresh(b) && DistinctRoots(d) && HostInTree(b, host)
    requires Anchor(b, host) !in {b.page.self, d.error.root, d.loading.root, d.empty.root, d.noNet.root}
    requires b.page.self !in Roots(d) && HasParams(b.page.ui, Anchor(b, host)) && ParamsValid(b.page.ui)
    requires IsInt32(left) && IsInt32(top) && IsInt32(right) && IsInt32(bottom)
    ensures q.Ok? && !q.value.isFirst && HasParams(q.value.ui, b.page.self)
    ensures ParamsOf(b.page.ui, Anchor(b, host)).frame
        ==> ParamsOf(q.value.ui, b.page.self).size == Size(Int32(right - left), Int32(bottom - top))
    ensures !ParamsOf(b.page.ui, Anchor(b, host)).frame
        ==> ParamsOf(q.value.ui, b.page.self) == ParamsOf(b.page.ui, Anchor(b, host))
  {
    InitParams(b, host, d);
    InitDefaults(b, host, d);
    var p := Wrapped(b, host, d).page;
    var c := Anchor(b, host);
    assert p.self == b.page.self;
    assert c in Children(p.ui, p.self);
    q := OnLayout(p, changed, left, top, right, bottom);
    var o := p.ui.lp[p.self];
    if !ParamsOf(b.page.ui, c).frame {
      forall v | v in Children(p.ui, p.self) && v in p.ui.lp ensures p.ui.lp[v] != o {
        assert ParamsOf(p.ui, v).frame;
      }
    }
  }

  /** The layout-parameters half of InitParams: `u1` is the tree after the
      surgery, `u2` any tree with the layout parameters the defaults leave. */
  lemma DefaultsParams(u0: Ui, u1: Ui, u2: Ui, vs: seq<ViewId>, self: ViewId, c: ViewId)
    requires ParamsValid(u0) && ParamsValid(u1) && Extends(u0, u1) && self != c && self !in vs && c !in vs
    requires HasParams(u0, c) && HasParams(u1, c) && ParamsOf(u1, c).frame
    requires u1.lp == u0.lp[self := u0.lp[c]][c := u1.lp[c]]
    requires u2.lp == AdoptAll(u1, vs).lp && u2.objects == AdoptAll(u1, vs).objects
    ensures && HasParams(u2, self) && u2.lp[self] == u0.lp[c] && ParamsOf(u2, self) == ParamsOf(u0, c)
            && HasParams(u2, c) && u2.lp[c] == u1.lp[c] && ParamsOf(u2, c) == ParamsOf(u1, c)
            && (forall v :: v in vs ==>
                  && HasParams(u2, v) && ParamsOf(u2, v).frame
                  && ParamsOf(u2, v).size
                     == if HasParams(u0, v) then ParamsOf(u0, v).size else Size(MATCH_PARENT, MATCH_PARENT))
            && ParamsValid(u2)
  {
    AdoptAllParams(u1, vs);
    SameObject(u0, u1, c, self);
    SameObject(u1, u2, self, self);
    SameObject(u1, u2, c, c);
    forall v | v in vs
      ensures HasParams(u2, v) && ParamsOf(u2, v).frame
      ensures ParamsOf(u2, v).size == if HasParams(u0, v) then ParamsOf(u0, v).size else Size(MATCH_PARENT, MATCH_PARENT)
    {
      if HasParams(u0, v) {
        SameObject(u0, u1, v, v);
      } else {
        assert !HasParams(u1, v);
      }
    }
  }

  /** addStateView: drop the slot's old view from the container, register the
      new one, append it, and hide it unless the slot is LOADING. */
  function AddStateView(p: Page, st: PageState, v: ViewId): (r: Page)
    requires st != Content
    ensures Children(r.ui, p.self)
         == (if st in p.slots then RemoveView(Children(p.ui, p.self), p.slots[st]) else Children(p.ui, p.self)) + [v]
    ensures r.ui.kids == p.ui.kids[p.self := Children(r.ui, p.self)]
    ensures VisOf(r.ui, v) == (if st == Loading then VisOf(p.ui, v) else Gone)
    ensures forall w :: w != v ==> VisOf(r.ui, w) == VisOf(p.ui, w)
    ensures r.slots == p.slots[st := v]
    ensures HasParams(r.ui, v) && ParamsOf(r.ui, v).frame
    ensures r.ui.lp == p.ui.lp[v := r.ui.lp[v]] && Extends(p.ui, r.ui)
    ensures ParamsValid(p.ui) ==> ParamsValid(r.ui)
    ensures r.self == p.self && r.loading == p.loading && r.isFirst == p.isFirst
  {
    var ui1 := if st in p.slots then RemoveChild(p.ui, p.self, p.slots[st]) else p.ui;
    var ui2 := AddToFrame(ui1, p.self, v);
    var ui3 := if st != Loading then SetVisibility(ui2, v, Gone) else ui2;
    p.(ui := ui3, slots := p.slots[st := v])
  }

  /** setLoadingView, setErrorView, setEmptyView, setNoNetView and
      setCustomView: null is ignored, a call before init is an IllegalState,
      otherwise the slot gets the new view. */
  function SetView(b: Builder, st: PageState, v: Option<ViewId>): (r: Result<Builder>)
    requires st != Content
    ensures v.None? ==> r == Ok(b)
    ensures r.Err? <==> v.Some? && Children(b.page.ui, b.page.self) == []
    ensures r.Err? ==> r.fault == IllegalState
    ensures r.Ok? && v.Some? ==>
      var q := r.value.page;
      && q.slots == b.page.slots[st := v.value]
      && |Children(q.ui, q.self)| > 0 && Children(q.ui, q.self)[|Children(q.ui, q.self)| - 1] == v.value
      && VisOf(q.ui, v.value) == (if st == Loading then VisOf(b.page.ui, v.value) else Gone)
      && (forall w :: w != v.value ==> VisOf(q.ui, w) == VisOf(b.page.ui, w))
      && q.ui.kids == b.page.ui.kids[b.page.self := Children(q.ui, b.page.self)]
      && HasParams(q.ui, v.value) && ParamsOf(q.ui, v.value).frame
      && q.ui.lp == b.page.ui.lp[v.value := q.ui.lp[v.value]]
    ensures r.Ok? ==>
      && r.value.page.self == b.page.self && r.value.page.loading == b.page.loading
      && r.value.page.isFirst == b.page.isFirst
      && r.value.listener == b.listener && r.value.wired == b.wired
  {
    if v.None? then Ok(b)
    else if |Children(b.page.ui, b.page.self)| == 0 then Err(IllegalState)
    else Ok(b.(page := AddStateView(b.page, st, v.value)))
  }

  /** Replacement safety: on a well-formed container, a new view that is not
      yet a child replaces the slot's old view, which leaves the container;
      every other registered view stays, and the invariant is kept. */
  lemma AddStateViewReplaces(p: Page, st: PageState, v: ViewId)
    requires st != Content && WellFormed(p) && v !in Children(p.ui, p.self)
    ensures var q := AddStateView(p, st, v);
            var kids := Children(q.ui, q.self);
            && WellFormed(q)
            && q.slots[st] == v && v in kids
            && (st in p.slots ==> p.slots[st] !in kids)
            && (forall s2 :: s2 in p.slots && s2 != st ==> q.slots[s2] == p.slots[s2] && q.slots[s2] in kids)
            && |kids| == |Children(p.ui, p.self)| + (if st in p.slots then 0 else 1)
  {
    var q := AddStateView(p, st, v);
    SlotReplaced(p.slots, Children(p.ui, p.self), st, v);
    assert Children(q.ui, q.self)
        == (if st in p.slots then RemoveView(Children(p.ui, p.self), p.slots[st]) else Children(p.ui, p.self)) + [v];
  }

  /** Setting a slot to the view it already holds moves that view to the
      end of the container and changes nothing else; the invariant is kept. */
  lemma AddStateViewSameView(p: Page, st: PageState)
    requires st != Content && WellFormed(p) && st in p.slots
    ensures var v := p.slots[st];
            var q := AddStateView(p, st, v);
            && WellFormed(q) && q.slots == p.slots
            && Children(q.ui, q.self) == RemoveView(Children(p.ui, p.self), v) + [v]
            && |Children(q.ui, q.self)| == |Children(p.ui, p.self)|
  {
    var v := p.slots[st];
    var kids := Children(p.ui, p.self);
    var q := AddStateView(p, st, v);
    RemoveViewDistinct(kids, v);
    DistinctAppend(RemoveView(kids, v), v);
    assert p.slots[st := v] == p.slots;
    forall s2 | s2 in q.slots ensures q.slots[s2] in Children(q.ui, q.self) {
      assert p.slots[s2] in kids;
    }
  }

  /** The list and slot bookkeeping of addStateView, on plain values. */
  lemma SlotReplaced(slots: map<PageState, ViewId>, kids: seq<ViewId>, st: PageState, v: ViewId)
    requires Injective(slots) && Distinct(kids) && v !in kids
    requires forall s :: s in slots ==> slots[s] in kids
    ensures var out := (if st in slots then RemoveView(kids, slots[st]) else kids) + [v];
            var q := slots[st := v];
            && Injective(q) && Distinct(out)
            && (forall s :: s in q ==> q[s] in out)
            && (st in slots ==> slots[st] !in out)
            && |out| == |kids| + (if st in slots then 0 else 1)
  {
    var mid := if st in slots then RemoveView(kids, slots[st]) else kids;
    if st in slots {
      RemoveViewDistinct(kids, slots[st]);
    }
    DistinctAppend(mid, v);
    forall s | s in slots && s != st ensures slots[s] in mid {
      assert slots[s] in kids;
    }
  }

  /** setXView with a view that is not yet a child, after init: the slot's
      old view is replaced as above. */
  lemma SetViewReplaces(b: Builder, st: PageState, v: ViewId)
    requires st != Content && WellFormed(b.page)
    requires Children(b.page.ui, b.page.self) != [] && v !in Children(b.page.ui, b.page.self)
    ensures SetView(b, st, Some(v)) == Ok(b.(page := AddStateView(b.page, st, v)))
    ensures WellFormed(SetView(b, st, Some(v)).value.page)
  {
    AddStateViewReplaces(b.page, st, v);
  }

  /** setRetryListener: the one listener the default retry elements call is replaced. */
  function SetRetryListener(b: Builder, listener: Option<ListenerId>): (r: Builder)
    ensures r.listener == listener && r.page == b.page && r.wired == b.wired
  {
    b.(listener := listener)
  }

  /** A click on element `e`: the listeners it calls. A wired element calls
      the listener set at the time of the click, if there is one. */
  function Click(b: Builder, e: ViewId): (calls: seq<ListenerId>)
    ensures |calls| <= 1
    ensures |calls| == 1 <==> e in b.wired && b.listener.Some?
    ensures forall l :: l in calls ==> b.listener == Some(l)
  {
    if e in b.wired && b.listener.Some? then [b.listener.value] else []
  }

  /** The latest listener is the one a default retry element calls, exactly once. */
  lemma RetryCallsLatestListener(b: Builder, first: ListenerId, latest: ListenerId, e: ViewId)
    requires e in b.wired
    ensures Click(SetRetryListener(SetRetryListener(b, Some(first)), Some(latest)), e) == [latest]
  {
  }

  /** Views the caller supplies are not wired: after init on a fresh builder
      and setCustomView, clicking the custom view calls nothing. */
  lemma CustomViewNeverRetries(self: ViewId, ui: Ui, host: Host, d: Defaults, c: ViewId, listener: ListenerId)
    requires Init(NewBuilder(self, ui), host, d).Ok?
    requires c !in RetryElements(d)
    ensures var b := Init(NewBuilder(self, ui), host, d).value;
            SetView(b, Custom, Some(c)).Ok?
            && Click(SetRetryListener(SetView(b, Custom, Some(c)).value, Some(listener)), c) == []
  {
    var b := Init(NewBuilder(self, ui), host, d).value;
    assert |Children(b.page.ui, self)| >= 4;
  }

  /** Builder misuse: any set*View with a view before init is an IllegalState. */
  lemma SetViewBeforeInit(self: ViewId, ui: Ui, st: PageState, v: ViewId)
    requires st != Content
    ensures SetView(NewBuilder(self, ui), st, Some(v)) == Err(IllegalState)
  {
  }

  /** The loading default's LoadingView, if it has one, is as its
      constructor left it: inflating the layout creates it afresh. */
  predicate SpinnerAsCreated(d: Defaults) {
    d.loading.spinner.Some? ==> LoadingView.AsCreated(d.loading.spinner.value)
  }

  /** After init, showing LOADING makes only the loading default visible
      with its spinner repeating forever; showing CONTENT next makes only
      the content visible and lets the spinner finish its cycle and stop. */
  lemma ShowLoadingThenContent(b: Builder, host: Host, d: Defaults)
    requires Fresh(b) && DistinctRoots(d) && HostInTree(b, host) && SpinnerAsCreated(d)
    requires Anchor(b, host) !in {b.page.self, d.error.root, d.loading.root, d.empty.root, d.noNet.root}
    ensures var r := Wrapped(b, host, d);
            var l := ChangeView(r.page, Loading);
            var q := ChangeView(l, Content);
            && VisOf(l.ui, r.page.slots[Loading]) == Visible
            && (forall st :: st in r.page.slots && st != Loading ==> VisOf(l.ui, r.page.slots[st]) == Gone)
            && (l.loading.Some? ==> l.loading.value.isRunning && l.loading.value.animator.repeatCount == LoadingView.INFINITE)
            && VisOf(q.ui, r.page.slots[Content]) == Visible
            && (forall st :: st in r.page.slots && st != Content ==> VisOf(q.ui, r.page.slots[st]) == Gone)
            && (q.loading.Some? ==> !q.loading.value.isRunning && q.loading.value.animator.repeatCount == 0
                                    && LoadingView.Coherent(q.loading.value))
  {
    InitDefaults(b, host, d);
    LoadingThenContent(Wrapped(b, host, d).page);
  }
}
