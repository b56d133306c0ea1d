/** base.go: the shared alignment enums, the 9-way `ChildPosition` anchor
    and the recursive `containsObject` search of a canvas-object tree; also
    the colour and text-size fallbacks that several widgets apply alike. */
module Base {
  import opened Basics
  import opened Geometry

  /** `Position`: the nine anchors of a child inside its parent. Go allows any
      integer, so an unrecognised value is kept as `PositionOther`. */
  datatype Position =
    | TopLeft | TopCenter | TopRight
    | CenterLeft | Center | CenterRight
    | BottomLeft | BottomCenter | BottomRight
    | PositionOther(code: int)

  /** `MainAxisAlignment`. */
  datatype MainAxisAlignment =
    | MainStart | MainEnd | MainCenter | SpaceBetween | SpaceAround | SpaceEvenly
    | MainOther(code: int)

  /** `CrossAxisAlignment`. */
  datatype CrossAxisAlignment = CrossStart | CrossEnd | CrossCenter | Stretch | CrossOther(code: int)

  predicate AnchoredLeft(p: Position) { p == TopLeft || p == CenterLeft || p == BottomLeft }
  predicate AnchoredHCenter(p: Position) { p == TopCenter || p == Center || p == BottomCenter }
  predicate AnchoredRight(p: Position) { p == TopRight || p == CenterRight || p == BottomRight }
  predicate AnchoredTop(p: Position) { p == TopLeft || p == TopCenter || p == TopRight }
  predicate AnchoredVCenter(p: Position) { p == CenterLeft || p == Center || p == CenterRight }
  predicate AnchoredBottom(p: Position) { p == BottomLeft || p == BottomCenter || p == BottomRight }

  /** `ChildPosition`: where a child of the given size sits inside the parent
      for an anchor. Left/top anchors touch the near edge, right/bottom anchors
      touch the far edge, centre anchors leave equal margins on both sides, and
      an unrecognised anchor leaves the child at the origin. */
  function ChildPosition(position: Position, parent: Size, child: Size): (r: Pos)
    ensures AnchoredLeft(position) ==> r.x == 0.0
    ensures AnchoredRight(position) ==> r.x + child.width == parent.width
    ensures AnchoredHCenter(position) ==> r.x == parent.width - (r.x + child.width)
    ensures AnchoredTop(position) ==> r.y == 0.0
    ensures AnchoredBottom(position) ==> r.y + child.height == parent.height
    ensures AnchoredVCenter(position) ==> r.y == parent.height - (r.y + child.height)
    ensures position.PositionOther? ==> r == Pos(0.0, 0.0)
  {
    var centerX := (parent.width - child.width) / 2.0;
    var centerY := (parent.height - child.height) / 2.0;
    var rightX := parent.width - child.width;
    var bottomY := parent.height - child.height;
    match position
    case TopLeft => Pos(0.0, 0.0)
    case TopCenter => Pos(centerX, 0.0)
    case TopRight => Pos(rightX, 0.0)
    case CenterLeft => Pos(0.0, centerY)
    case Center => Pos(centerX, centerY)
    case CenterRight => Pos(rightX, centerY)
    case BottomLeft => Pos(0.0, bottomY)
    case BottomCenter => Pos(centerX, bottomY)
    case BottomRight => Pos(rightX, bottomY)
    case PositionOther(_) => Pos(0.0, 0.0)
  }

  /** A canvas object, identified by its identity; containers hold an ordered
      list of children. */
  datatype CanvasObject = Widget(id: int) | Container(id: int, objects: seq<CanvasObject>)

  /** `containsObject(root, obj)`: true when root is obj, otherwise a
      depth-first search of a container's children in order. */
  function ContainsObject(root: CanvasObject, obj: int): bool
    decreases root, 1
  {
    root.id == obj || (root.Container? && ChildrenContain(root, obj, 0))
  }

  /** The loop over `container.Objects` from index i on, stopping at the
      first child that contains obj. */
  function ChildrenContain(root: CanvasObject, obj: int, i: nat): bool
    requires root.Container?
    decreases root, 0, |root.objects| - i
  {
    i < |root.objects| && (ContainsObject(root.objects[i], obj) || ChildrenContain(root, obj, i + 1))
  }

  /** Reference definition: obj occurs somewhere in the tree rooted at root. */
  ghost predicate Occurs(root: CanvasObject, obj: int)
    decreases root
  {
    root.id == obj
    || (root.Container? && exists k :: 0 <= k < |root.objects| && Occurs(root.objects[k], obj))
  }

  /** The search finds obj exactly when it occurs in the tree: reflexive, and
      false for a widget (non-container) other than obj. */
  lemma {:induction false} ContainsObjectIffOccurs(root: CanvasObject, obj: int)
    ensures ContainsObject(root, obj) <==> Occurs(root, obj)
    ensures root.id == obj ==> ContainsObject(root, obj)
    ensures root.Widget? && root.id != obj ==> !ContainsObject(root, obj)
    decreases root, 1
  {
    if root.Container? && root.id != obj {
      ChildrenContainIffSomeChild(root, obj, 0);
    }
  }

  lemma {:induction false} ChildrenContainIffSomeChild(root: CanvasObject, obj: int, i: nat)
    requires root.Container?
    ensures ChildrenContain(root, obj, i)
        <==> exists k :: i <= k < |root.objects| && Occurs(root.objects[k], obj)
    decreases root, 0, |root.objects| - i
  {
    if i < |root.objects| {
      ContainsObjectIffOccurs(root.objects[i], obj);
      ChildrenContainIffSomeChild(root, obj, i + 1);
      if Occurs(root.objects[i], obj) {
        assert i <= i < |root.objects| && Occurs(root.objects[i], obj);
      }
      if exists k :: i <= k < |root.objects| && Occurs(root.objects[k], obj) {
        var k :| i <= k < |root.objects| && Occurs(root.objects[k], obj);
        if k > i {
          assert i + 1 <= k < |root.objects| && Occurs(root.objects[k], obj);
        }
      }
    }
  }

  /** `GetWindow`: the first of the application's windows (each given by
      its content) whose content holds obj, or None (Go's nil) when no
      window does. */
  method GetWindow(windows: seq<CanvasObject>, obj: int) returns (r: Option<nat>)
    ensures r.Some? ==> r.value < |windows| && Occurs(windows[r.value], obj)
    ensures r.Some? ==> forall k :: 0 <= k < r.value ==> !Occurs(windows[k], obj)
    ensures r.None? <==> forall k :: 0 <= k < |windows| ==> !Occurs(windows[k], obj)
  {
    var i := 0;
    while i < |windows|
      invariant i <= |windows|
      invariant forall k :: 0 <= k < i ==> !Occurs(windows[k], obj)
    {
      ContainsObjectIffOccurs(windows[i], obj);
      if ContainsObject(windows[i], obj) {
        return Some(i);
      }
      i := i + 1;
    }
    return None;
  }

  // ---------------------------------------------------------------------
  // Rules several widgets share

  /** A colour getter: the colour set, or the theme's colour `name` when the
      setting is nil. */
  function ColorOr(setting: Option<Color>, name: ThemeColorName): (c: Color)
    ensures setting.Some? ==> c == setting.value
    ensures setting.None? ==> c == Themed(name)
  {
    if setting.None? then Themed(name) else setting.value
  }

  /** The size a label's layout gives its text: per axis, a positive fixed
      length, else the text's min length. */
  function FixedTextSize(fixedWidth: real, fixedHeight: real, textMin: Size): (s: Size)
    ensures s.width == if fixedWidth > 0.0 then fixedWidth else textMin.width
    ensures s.height == if fixedHeight > 0.0 then fixedHeight else textMin.height
  {
    Size(if fixedWidth > 0.0 then fixedWidth else textMin.width,
         if fixedHeight > 0.0 then fixedHeight else textMin.height)
  }
}
