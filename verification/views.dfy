/** The slice of the Android view hierarchy that the page-state container touches:
    opaque view identifiers, child lists, visibility flags and layout-parameters objects. */
module Views {

  /** An opaque view reference. */
  type ViewId = nat

  /** View.VISIBLE, View.INVISIBLE and View.GONE. */
  datatype Visibility = Visible | Invisible | Gone

  /** The width and height held in a layout-parameters object. */
  datatype Size = Size(width: int, height: int)

  /** ViewGroup.LayoutParams.MATCH_PARENT. */
  const MATCH_PARENT: int := -1

  /** A LayoutParams object: whether it is a FrameLayout.LayoutParams (the
      class a FrameLayout accepts as it is) and the size it holds. */
  datatype LayoutParams = LayoutParams(frame: bool, size: Size)

  /** The view forest: the ordered children of every view group, the
      visibility flag of every view whose flag was ever set, and the layout
      parameters. A view holds a reference (`lp`) to a LayoutParams object in
      `objects`; two views may hold the same object, and a write through one
      is seen by the other. */
  datatype Ui = Ui(
    kids: map<ViewId, seq<ViewId>>,
    vis: map<ViewId, Visibility>,
    lp: map<ViewId, nat>,
    objects: seq<LayoutParams>)

  const TWO_POW_31: int := 0x8000_0000
  const TWO_POW_32: int := 0x1_0000_0000

  predicate IsInt32(x: int) {
    -TWO_POW_31 <= x < TWO_POW_31
  }

  /** Java's 32-bit `int` arithmetic: the mathematical value wrapped into range. */
  function Int32(x: int): (r: int)
    ensures IsInt32(r)
    ensures (x - r) % TWO_POW_32 == 0
    ensures IsInt32(x) ==> r == x
  {
    (x + TWO_POW_31) % TWO_POW_32 - TWO_POW_31
  }

  /** Java's `x / 2` on an `int`: division truncating toward zero. */
  function Half(x: int): (r: int)
    ensures x >= 0 ==> 0 <= x - 2 * r <= 1
    ensures x < 0 ==> -1 <= x - 2 * r <= 0
  {
    if x >= 0 then x / 2 else -((-x) / 2)
  }

  predicate Distinct<T(==)>(s: seq<T>) {
    forall i, j :: 0 <= i < j < |s| ==> s[i] != s[j]
  }

  lemma DistinctFive<T>(a: T, b: T, c: T, d: T, e: T)
    requires a != b && a != c && a != d && a != e && b != c && b != d && b != e && c != d && c != e && d != e
    ensures Distinct([a, b, c, d, e])
  {
    var s := [a, b, c, d, e];
    forall i, j | 0 <= i < j < 5 ensures s[i] != s[j] {
    }
  }

  lemma DistinctAppend<T>(s: seq<T>, v: T)
    requires Distinct(s) && v !in s
    ensures Distinct(s + [v])
  {
  }

  /** ViewGroup.indexOfChild: the first position holding `v`. */
  function FirstIndexOf<T(==)>(s: seq<T>, v: T): (r: nat)
    requires v in s
    ensures r < |s| && s[r] == v
    ensures forall j :: 0 <= j < r ==> s[j] != v
  {
    if s[0] == v then 0 else 1 + FirstIndexOf(s[1..], v)
  }

  /** A scan that overwrites its answer at every match: the last position
      holding `v`, or 0 when `v` does not occur. */
  function LastIndexOf<T(==)>(s: seq<T>, v: T): (r: nat)
    ensures v !in s ==> r == 0
    ensures v in s ==> r < |s| && s[r] == v && forall j :: r < j < |s| ==> s[j] != v
  {
    if |s| == 0 then 0
    else if s[|s| - 1] == v then |s| - 1
    else LastIndexOf(s[..|s| - 1], v)
  }

  lemma LastIndexIsOnlyIndex<T>(s: seq<T>, i: nat)
    requires Distinct(s) && i < |s|
    ensures LastIndexOf(s, s[i]) == i && FirstIndexOf(s, s[i]) == i
  {
  }

  /** The list without position `k`. */
  function RemoveAt<T>(s: seq<T>, k: nat): (r: seq<T>)
    requires k < |s|
    ensures |r| == |s| - 1
    ensures forall j :: 0 <= j < k ==> r[j] == s[j]
    ensures forall j :: k <= j < |r| ==> r[j] == s[j + 1]
  {
    s[..k] + s[k + 1..]
  }

  /** ViewGroup.removeView on a child list: drop the first occurrence, if any. */
  function RemoveView<T(==)>(s: seq<T>, v: T): (r: seq<T>)
    ensures v !in s ==> r == s
    ensures v in s ==> |r| == |s| - 1
  {
    if v in s then RemoveAt(s, FirstIndexOf(s, v)) else s
  }

  /** What removeView keeps: the children before the first occurrence stay
      where they are and those after it move up by one. */
  lemma RemoveViewOrder<T>(s: seq<T>, v: T)
    requires v in s
    ensures var r, k := RemoveView(s, v), FirstIndexOf(s, v);
            && |r| == |s| - 1
            && (forall j :: 0 <= j < k ==> r[j] == s[j])
            && (forall j :: k <= j < |r| ==> r[j] == s[j + 1])
  {
  }

  /** Removing from a list without repetitions leaves a list without
      repetitions that no longer holds the removed view but keeps the rest. */
  lemma RemoveViewDistinct<T>(s: seq<T>, v: T)
    requires Distinct(s)
    ensures Distinct(RemoveView(s, v)) && v !in RemoveView(s, v)
    ensures forall w :: w in s && w != v <==> w in RemoveView(s, v)
  {
    if v in s {
      var k := FirstIndexOf(s, v);
      var r := RemoveView(s, v);
      forall w | w in s && w != v ensures w in r {
        var j :| 0 <= j < |s| && s[j] == w;
        if j < k { assert r[j] == w; } else { assert r[j - 1] == w; }
      }
    }
  }

  /** ViewGroup.addView(child, index): insert before position `i`. */
  function InsertAt<T>(s: seq<T>, i: nat, v: T): (r: seq<T>)
    requires i <= |s|
    ensures |r| == |s| + 1 && r[i] == v
    ensures forall j :: 0 <= j < i ==> r[j] == s[j]
    ensures forall j :: i < j < |r| ==> r[j] == s[j - 1]
  {
    s[..i] + [v] + s[i..]
  }

  /** Removing a child and inserting another at the position it held is
      replacing it in place. */
  lemma {:induction false} ReplaceInPlace<T>(s: seq<T>, i: nat, w: T)
    requires Distinct(s) && i < |s|
    ensures i <= |RemoveView(s, s[i])|
    ensures InsertAt(RemoveView(s, s[i]), i, w) == s[i := w]
  {
    LastIndexIsOnlyIndex(s, i);
    var r := RemoveView(s, s[i]);
    var t := InsertAt(r, i, w);
    assert |t| == |s[i := w]|;
    forall j | 0 <= j < |t| ensures t[j] == s[i := w][j] {
      if j > i { assert r[j - 1] == s[j]; }
    }
  }

  function Children(ui: Ui, g: ViewId): seq<ViewId> {
    if g in ui.kids then ui.kids[g] else []
  }

  /** View.getVisibility: a view whose flag was never set is VISIBLE. */
  function VisOf(ui: Ui, v: ViewId): Visibility {
    if v in ui.vis then ui.vis[v] else Visible
  }

  function SetVisibility(ui: Ui, v: ViewId, x: Visibility): (r: Ui)
    ensures VisOf(r, v) == x
    ensures forall w :: w != v ==> VisOf(r, w) == VisOf(ui, w)
    ensures r.kids == ui.kids && r.lp == ui.lp && r.objects == ui.objects
  {
    ui.(vis := ui.vis[v := x])
  }

  /** Replace the child list of group `g`; every other group keeps its list. */
  function SetChildren(ui: Ui, g: ViewId, s: seq<ViewId>): (r: Ui)
    ensures Children(r, g) == s
    ensures r.kids == ui.kids[g := s]
    ensures r.vis == ui.vis && r.lp == ui.lp && r.objects == ui.objects
  {
    ui.(kids := ui.kids[g := s])
  }

  /** ViewGroup.removeView. */
  function RemoveChild(ui: Ui, g: ViewId, v: ViewId): Ui {
    SetChildren(ui, g, RemoveView(Children(ui, g), v))
  }

  /** ViewGroup.addView(child, index) of a parent that accepts the child's
      layout parameters as they are. */
  function AddChildAt(ui: Ui, g: ViewId, i: nat, v: ViewId): Ui
    requires i <= |Children(ui, g)|
  {
    SetChildren(ui, g, InsertAt(Children(ui, g), i, v))
  }

  /** A second update of the same key overrides the first. */
  lemma UpdateTwice<K, V>(m: map<K, V>, k: K, a: V, b: V)
    ensures m[k := a][k := b] == m[k := b]
  {
  }

  /** View.getLayoutParams is not null. */
  predicate HasParams(ui: Ui, v: ViewId) {
    v in ui.lp && ui.lp[v] < |ui.objects|
  }

  /** The object View.getLayoutParams returns. */
  function ParamsOf(ui: Ui, v: ViewId): LayoutParams
    requires HasParams(ui, v)
  {
    ui.objects[ui.lp[v]]
  }

  /** Every reference a view holds names an existing object. */
  predicate ParamsValid(ui: Ui) {
    forall v :: v in ui.lp ==> ui.lp[v] < |ui.objects|
  }

  /** `b` keeps every object of `a` as it was (new objects may follow). */
  predicate Extends(a: Ui, b: Ui) {
    && |a.objects| <= |b.objects|
    && forall h :: 0 <= h < |a.objects| ==> b.objects[h] == a.objects[h]
  }

  /** A view `w` that holds, in an extension, the reference `v` held sees
      the same object. */
  lemma SameObject(a: Ui, b: Ui, v: ViewId, w: ViewId)
    requires Extends(a, b) && HasParams(a, v) && w in b.lp && b.lp[w] == a.lp[v]
    ensures HasParams(b, w) && ParamsOf(b, w) == ParamsOf(a, v)
  {
  }

  /** The layout-parameters step of FrameLayout.addView(child): a
      FrameLayout.LayoutParams is kept as it is; any other object is replaced
      by a new FrameLayout.LayoutParams of the same size; a view without one
      gets a new one that matches the parent both ways. */
  function Adopt(ui: Ui, v: ViewId): (r: Ui)
    ensures HasParams(r, v) && ParamsOf(r, v).frame
    ensures HasParams(ui, v) ==> ParamsOf(r, v).size == ParamsOf(ui, v).size
    ensures !HasParams(ui, v) ==> ParamsOf(r, v).size == Size(MATCH_PARENT, MATCH_PARENT)
    ensures HasParams(ui, v) && ParamsOf(ui, v).frame ==> r == ui
    ensures !(HasParams(ui, v) && ParamsOf(ui, v).frame) ==> r.lp[v] >= |ui.objects|
    ensures r.kids == ui.kids && r.vis == ui.vis && |ui.objects| <= |r.objects|
    ensures r.lp == ui.lp[v := r.lp[v]]
  {
    if HasParams(ui, v) && ParamsOf(ui, v).frame then ui
    else
      var size := if HasParams(ui, v) then ParamsOf(ui, v).size else Size(MATCH_PARENT, MATCH_PARENT);
      ui.(lp := ui.lp[v := |ui.objects|], objects := ui.objects + [LayoutParams(true, size)])
  }

  /** Adopting a view alters no existing object and leaves no reference
      dangling. */
  lemma AdoptKeeps(ui: Ui, v: ViewId)
    ensures Extends(ui, Adopt(ui, v))
    ensures ParamsValid(ui) ==> ParamsValid(Adopt(ui, v))
  {
  }

  /** FrameLayout.addView(child): append as the last child, with the layout
      parameters FrameLayout accepts. */
  function AddToFrame(ui: Ui, g: ViewId, v: ViewId): (r: Ui)
    ensures Children(r, g) == Children(ui, g) + [v]
    ensures r.kids == ui.kids[g := Children(ui, g) + [v]]
    ensures r.vis == ui.vis && r.lp == Adopt(ui, v).lp && r.objects == Adopt(ui, v).objects
  {
    SetChildren(Adopt(ui, v), g, Children(ui, g) + [v])
  }
}
