/** mywidget/slide.menu.go: the side menu's tree of menu items addressed by
    path uids such as "0-1-2" (the index of the item at each level, joined
    by '-'), with the special uid "root" for the tree's root. */
module SideMenu {
  import opened Basics
  import opened Decimal
  import opened Text

  /** `MenuItemModel` (base.go): the icon and the tap callback matter only
      by whether they are set. */
  datatype MenuItem = MenuItem(name: string, hasIcon: bool, subItems: seq<MenuItem>, hasTapCb: bool)

  const RootUid: string := "root"

  /** The panic of indexing a slice out of range. */
  const IndexOutOfRange: string := "index out of range"

  /** The loop of `parseUID` over the pieces: every piece must parse, and the
      result lists the parsed values in order. */
  function ParseParts(parts: seq<string>): (r: Option<seq<int>>)
    ensures r.Some? <==> forall k :: 0 <= k < |parts| ==> Atoi(parts[k]).Some?
    ensures r.Some? ==>
      (|r.value| == |parts| && forall k :: 0 <= k < |parts| ==> Atoi(parts[k]) == Some(r.value[k]))
    decreases |parts|
  {
    if |parts| == 0 then Some([])
    else
      var init := parts[..|parts| - 1];
      match ParseParts(init)
      case None => None
      case Some(vs) =>
        match Atoi(parts[|parts| - 1])
        case None => None
        case Some(v) => Some(vs + [v])
  }

  /** `parseUID`: split at '-' and parse each piece; any empty or non-numeric
      piece is an error. Since no piece can hold a '-', every index is
      non-negative. */
  function ParseUID(uid: string): (r: Option<seq<int>>)
    ensures r.Some? ==> |r.value| >= 1
    ensures r.Some? ==> forall k :: 0 <= k < |r.value| ==> r.value[k] >= 0
  {
    var parts := Split(uid, '-');
    var r := ParseParts(parts);
    if r.Some? then
      forall k | 0 <= k < |r.value| ensures r.value[k] >= 0 {
        AtoiWithoutMinus(parts[k]);
      }
      r
    else r
  }

  /** A string without '-' never parses to a negative number. */
  lemma AtoiWithoutMinus(s: string)
    requires '-' !in s
    ensures Atoi(s).Some? ==> Atoi(s).value >= 0
  {
    if |s| > 0 {
      assert s[0] != '-';
    }
  }

  /** `findMenuItemByUID`: an empty path gives nil; otherwise index the
      current level and descend. There is no bounds check, so an index
      outside the level panics. */
  function Find(items: seq<MenuItem>, path: seq<int>): (r: Outcome<Option<MenuItem>>)
    ensures |path| == 0 ==> r == Ok(None)
    ensures |path| > 0 && r.Ok? ==> r.value.Some?
    ensures |path| == 1 && 0 <= path[0] < |items| ==> r == Ok(Some(items[path[0]]))
    decreases |path|
  {
    if |path| == 0 then Ok(None)
    else if !(0 <= path[0] < |items|) then Panic(IndexOutOfRange)
    else if |path| == 1 then Ok(Some(items[path[0]]))
    else Find(items[path[0]].subItems, path[1..])
  }

  /** Extending a path that resolves to an item by one index resolves to
      that sub-item, or panics when the index is outside its sub-items. */
  lemma {:induction false} FindExtend(items: seq<MenuItem>, path: seq<int>, i: int)
    requires |path| > 0 && Find(items, path).Ok?
    ensures var item := Find(items, path).value.value;
      Find(items, path + [i]) ==
        if 0 <= i < |item.subItems| then Ok(Some(item.subItems[i])) else Panic(IndexOutOfRange)
    decreases |path|
  {
    assert (path + [i])[0] == path[0];
    if |path| > 1 {
      assert (path + [i])[1..] == path[1..] + [i];
      FindExtend(items[path[0]].subItems, path[1..], i);
    }
  }

  /** The texts `prefix + "0"` .. `prefix + "<n-1>"`, in order. */
  function IndexTexts(prefix: string, n: nat): (r: seq<string>)
    ensures |r| == n && forall i :: 0 <= i < n ==> r[i] == prefix + IntToString(i)
  {
    if n == 0 then [] else IndexTexts(prefix, n - 1) + [prefix + IntToString(n - 1)]
  }

  /** The children callback of the tree: "0".."n-1" for the root; for any
      other uid that resolves to an item, the uid followed by '-' and the
      sub-item's index; no children for a uid that does not parse. */
  function Children(items: seq<MenuItem>, uid: string): (r: Outcome<seq<string>>)
    ensures uid == RootUid ==>
      (r.Ok? && |r.value| == |items| && forall i :: 0 <= i < |items| ==> r.value[i] == IntToString(i))
    ensures uid != RootUid && ParseUID(uid).None? ==> r == Ok([])
    ensures uid != RootUid && ParseUID(uid).Some? ==>
      match Find(items, ParseUID(uid).value)
      case Panic(_) => r.Panic?
      case Ok(found) =>
        (r.Ok? && |r.value| == |found.value.subItems|
         && forall i :: 0 <= i < |r.value| ==> r.value[i] == uid + "-" + IntToString(i))
  {
    if uid == RootUid then Ok(IndexTexts("", |items|))
    else match ParseUID(uid)
      case None => Ok([])
      case Some(path) =>
        match Find(items, path)
        case Panic(reason) => Panic(reason)
        case Ok(found) =>
          if found.None? then Ok([])
          else Ok(IndexTexts(uid + "-", |found.value.subItems|))
  }

  /** The branch callback: the root is a branch; another uid is a branch when
      it resolves to an item with sub-items; a uid that does not parse is a
      leaf. */
  function IsBranch(items: seq<MenuItem>, uid: string): (r: Outcome<bool>)
    ensures uid == RootUid ==> r == Ok(true)
    ensures uid != RootUid && ParseUID(uid).None? ==> r == Ok(false)
    ensures uid != RootUid && ParseUID(uid).Some? ==>
      match Find(items, ParseUID(uid).value)
      case Panic(_) => r.Panic?
      case Ok(found) => r == Ok(|found.value.subItems| > 0)
  {
    if uid == RootUid then Ok(true)
    else match ParseUID(uid)
      case None => Ok(false)
      case Some(path) =>
        match Find(items, path)
        case Panic(reason) => Panic(reason)
        case Ok(found) => Ok(found.Some? && |found.value.subItems| > 0)
  }

  /** The item `OnSelected` hands to the select callback: none for the root
      or a uid that does not parse, otherwise the item the uid resolves to. */
  function SelectedItem(items: seq<MenuItem>, uid: string): (r: Outcome<Option<MenuItem>>)
    ensures uid == RootUid || ParseUID(uid).None? ==> r == Ok(None)
    ensures uid != RootUid && ParseUID(uid).Some? ==> r == Find(items, ParseUID(uid).value)
  {
    if uid == RootUid then Ok(None)
    else match ParseUID(uid)
      case None => Ok(None)
      case Some(path) => Find(items, path)
  }

  // ---------------------------------------------------------------------
  // Round trips between generated uids and lookups

  /** The rendering of a non-negative index holds no '-'. */
  lemma NoMinusInIndex(i: int)
    requires i >= 0
    ensures '-' !in IntToString(i)
  {
  }

  /** Parsing a piece-sequence with one more piece appends its value. */
  lemma ParsePartsSnoc(parts: seq<string>, piece: string)
    ensures ParseParts(parts + [piece]) ==
      match ParseParts(parts)
      case None => None
      case Some(vs) => match Atoi(piece) case None => None case Some(v) => Some(vs + [v])
  {
    assert (parts + [piece])[..|parts|] == parts;
  }

  /** A piece without '-' that parses is a one-element path. */
  lemma ParseSinglePiece(s: string)
    requires '-' !in s && Atoi(s).Some?
    ensures ParseUID(s) == Some([Atoi(s).value])
  {
    SplitNoSeparator(s, '-');
    var none: seq<string> := [];
    assert none + [s] == [s];
    ParsePartsSnoc(none, s);
    assert ParseParts(none) == Some([]);
    assert [] + [Atoi(s).value] == [Atoi(s).value];
  }

  /** Every child uid of the root parses to the one-element path of its
      index and resolves to that top-level item. */
  lemma RootChildRoundTrip(items: seq<MenuItem>, i: int)
    requires 0 <= i < |items|
    ensures ParseUID(Children(items, RootUid).value[i]) == Some([i])
    ensures Find(items, [i]) == Ok(Some(items[i]))
  {
    var s := IntToString(i);
    assert Children(items, RootUid).value[i] == s;
    NoMinusInIndex(i);
    AtoiIntToString(i);
    ParseSinglePiece(s);
  }

  /** Every child uid of a resolved item parses to the item's path extended
      by the child's index, and resolves to that sub-item. */
  lemma ChildRoundTrip(items: seq<MenuItem>, uid: string, i: int)
    requires uid != RootUid && ParseUID(uid).Some?
    requires Find(items, ParseUID(uid).value).Ok?
    requires 0 <= i < |Find(items, ParseUID(uid).value).value.value.subItems|
    ensures Children(items, uid).Ok?
    ensures ParseUID(Children(items, uid).value[i]) == Some(ParseUID(uid).value + [i])
    ensures Find(items, ParseUID(uid).value + [i])
         == Ok(Some(Find(items, ParseUID(uid).value).value.value.subItems[i]))
  {
    var path := ParseUID(uid).value;
    var s := IntToString(i);
    NoMinusInIndex(i);
    SplitAppend(uid, '-', s);
    assert uid + "-" + s == uid + ['-'] + s;
    AtoiIntToString(i);
    ParsePartsSnoc(Split(uid, '-'), s);
    FindExtend(items, path, i);
  }

  /** Scenario: a two-level menu. */
  lemma ScenarioTwoLevels()
    ensures var leaf := MenuItem("leaf", false, [], false);
            var items := [MenuItem("a", false, [leaf], true), MenuItem("b", true, [], false)];
            && IsBranch(items, RootUid) == Ok(true)
            && IsBranch(items, "x") == Ok(false)
            && SelectedItem(items, "abc") == Ok(None)
  {
    var s := "x";
    SplitNoSeparator(s, '-');
    AtoiRefusesForeign(s, 0);
    var t := "abc";
    SplitNoSeparator(t, '-');
    AtoiRefusesForeign(t, 0);
  }
}
