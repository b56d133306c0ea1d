/** mywidget/linked.select.go: a drop-down whose options are display names of
    a list of items, linked back to the items' models through two maps. The
    host `widget.Select` is reduced to its options and selected label; the
    `silent` flag, which keeps programmatic changes from reaching
    `onChange`, shows up as operations that report no callback, and the
    `onChange` function matters only by being set (`hasOnChange`). */
module LinkedSelect {
  import opened Basics

  /** `SelectItemModel[M]`. */
  datatype Item<M> = Item(displayName: string, model: M)

  datatype LinkedSelect<M(==,!new)> = LinkedSelect(
    items: seq<Item<M>>,
    keyIndex: map<string, int>,
    modelMap: map<M, string>,
    options: seq<string>,
    selected: string,
    hasOnChange: bool)

  /** The last index of the list whose display name is `name`. */
  function LastNamed<M>(list: seq<Item<M>>, name: string): (r: Option<nat>)
    ensures r.Some? ==>
      (r.value < |list| && list[r.value].displayName == name
       && forall j :: r.value < j < |list| ==> list[j].displayName != name)
    ensures r.None? ==> forall j :: 0 <= j < |list| ==> list[j].displayName != name
    decreases |list|
  {
    if |list| == 0 then None
    else if list[|list| - 1].displayName == name then Some(|list| - 1)
    else LastNamed(list[..|list| - 1], name)
  }

  /** The last index of the list whose model is `m`. */
  function LastOfModel<M(==,!new)>(list: seq<Item<M>>, m: M): (r: Option<nat>)
    ensures r.Some? ==>
      (r.value < |list| && list[r.value].model == m
       && forall j :: r.value < j < |list| ==> list[j].model != m)
    ensures r.None? ==> forall j :: 0 <= j < |list| ==> list[j].model != m
    decreases |list|
  {
    if |list| == 0 then None
    else if list[|list| - 1].model == m then Some(|list| - 1)
    else LastOfModel(list[..|list| - 1], m)
  }

  /** The state `Update` leaves: the options are the display names in list
      order, `keyIndex` maps each display name to its last index, and
      `modelMap` maps each model to the display name of its last item. */
  ghost predicate Linked<M(!new)>(ls: LinkedSelect<M>)
  {
    && |ls.options| == |ls.items|
    && (forall k :: 0 <= k < |ls.items| ==> ls.options[k] == ls.items[k].displayName)
    && (forall name :: name in ls.keyIndex <==> LastNamed(ls.items, name).Some?)
    && (forall name :: name in ls.keyIndex ==> ls.keyIndex[name] == LastNamed(ls.items, name).value)
    && (forall m :: m in ls.modelMap <==> LastOfModel(ls.items, m).Some?)
    && (forall m :: m in ls.modelMap ==>
          ls.modelMap[m] == ls.items[LastOfModel(ls.items, m).value].displayName)
  }

  /** No two items share a display name. */
  predicate DistinctNames<M>(list: seq<Item<M>>)
  {
    forall i, j :: 0 <= i < j < |list| ==> list[i].displayName != list[j].displayName
  }

  /** `NewLinkedSelect`: no items, empty maps, nothing selected; the
      callback may be nil. */
  function NewLinkedSelect<M(==,!new)>(hasOnChange: bool): (ls: LinkedSelect<M>)
    ensures Linked(ls) && ls.selected == "" && ls.hasOnChange == hasOnChange
  {
    LinkedSelect([], map[], map[], [], "", hasOnChange)
  }

  /** Extending the list by one item: the item is the last of its display
      name and of its model; the other names and models keep their last
      index. */
  lemma LastSnoc<M(!new)>(list: seq<Item<M>>, i: nat)
    requires i < |list|
    ensures forall name :: (LastNamed(list[..i + 1], name)
      == if list[i].displayName == name then Some(i) else LastNamed(list[..i], name))
    ensures forall m :: (LastOfModel(list[..i + 1], m)
      == if list[i].model == m then Some(i) else LastOfModel(list[..i], m))
  {
    var prefix := list[..i + 1];
    assert prefix[..|prefix| - 1] == list[..i] && prefix[|prefix| - 1] == list[i];
    forall name
      ensures LastNamed(prefix, name) == if list[i].displayName == name then Some(i) else LastNamed(list[..i], name)
    {
    }
    forall m
      ensures LastOfModel(prefix, m) == if list[i].model == m then Some(i) else LastOfModel(list[..i], m)
    {
    }
  }

  /** `Update`: rebuild the options and both maps from the list, then select
      the last item whose model equals the default, or clear the selection
      when there is no default or no such item. */
  method Update<M(==,!new)>(ls: LinkedSelect<M>, defaultModel: Option<M>, list: seq<Item<M>>)
    returns (r: LinkedSelect<M>)
    ensures r.items == list && Linked(r) && r.hasOnChange == ls.hasOnChange
    ensures defaultModel.Some? && LastOfModel(list, defaultModel.value).Some? ==>
      r.selected == list[LastOfModel(list, defaultModel.value).value].displayName
    ensures defaultModel.None? || LastOfModel(list, defaultModel.value).None? ==> r.selected == ""
  {
    var keyIndex: map<string, int> := map[];
    var modelMap: map<M, string> := map[];
    var options: seq<string> := [];
    var selectIndex := -1;
    var i := 0;
    while i < |list|
      invariant 0 <= i <= |list|
      invariant |options| == i && forall k :: 0 <= k < i ==> options[k] == list[k].displayName
      invariant forall name :: name in keyIndex <==> LastNamed(list[..i], name).Some?
      invariant forall name :: name in keyIndex ==> keyIndex[name] == LastNamed(list[..i], name).value
      invariant forall m :: m in modelMap <==> LastOfModel(list[..i], m).Some?
      invariant forall m :: m in modelMap ==>
        modelMap[m] == list[LastOfModel(list[..i], m).value].displayName
      invariant defaultModel.None? ==> selectIndex == -1
      invariant defaultModel.Some? ==>
        selectIndex == match LastOfModel(list[..i], defaultModel.value) case None => -1 case Some(k) => k
    {
      var item := list[i];
      LastSnoc(list, i);
      options := options + [item.displayName];
      keyIndex := keyIndex[item.displayName := i];
      modelMap := modelMap[item.model := item.displayName];
      if defaultModel.Some? && item.model == defaultModel.value {
        selectIndex := i;
      }
      i := i + 1;
    }
    assert list[..i] == list;
    var selected := if selectIndex >= 0 then options[selectIndex] else "";
    r := LinkedSelect(list, keyIndex, modelMap, options, selected, ls.hasOnChange);
  }

  /** `SetSelectedByModel`: select the label of a known model; an unknown
      model leaves the selection as it is. */
  function SetSelectedByModel<M(==,!new)>(ls: LinkedSelect<M>, m: M): (r: LinkedSelect<M>)
    ensures m in ls.modelMap ==> r.selected == ls.modelMap[m]
    ensures m !in ls.modelMap ==> r == ls
    ensures r.items == ls.items && r.keyIndex == ls.keyIndex && r.modelMap == ls.modelMap
    ensures r.options == ls.options
  {
    if m in ls.modelMap then ls.(selected := ls.modelMap[m]) else ls
  }

  /** `GetSelected`: the model of the selected label, or nothing for an
      empty label or a label that is not a known display name. */
  function GetSelected<M(==,!new)>(ls: LinkedSelect<M>): (r: Option<M>)
    requires Linked(ls)
    ensures ls.selected == "" ==> r == None
    ensures ls.selected !in ls.keyIndex ==> r == None
    ensures ls.selected != "" && ls.selected in ls.keyIndex ==>
      r == Some(ls.items[LastNamed(ls.items, ls.selected).value].model)
  {
    var picked := ls.selected;
    if picked == "" then None
    else if picked in ls.keyIndex then Some(ls.items[ls.keyIndex[picked]].model)
    else None
  }

  /** The user picks a label: it becomes the selection, and a set
      `onChange` receives the model of the label's last item; nothing is
      reported for a label that is not a display name or when `onChange`
      is nil. */
  function UserSelect<M(==,!new)>(ls: LinkedSelect<M>, picked: string): (r: (LinkedSelect<M>, Option<M>))
    requires Linked(ls)
    ensures r.0 == ls.(selected := picked)
    ensures r.1.Some? <==> picked in ls.keyIndex && ls.hasOnChange
    ensures r.1.Some? ==> r.1.value == ls.items[LastNamed(ls.items, picked).value].model
  {
    var fired := if picked in ls.keyIndex && ls.hasOnChange then Some(ls.items[ls.keyIndex[picked]].model) else None;
    (ls.(selected := picked), fired)
  }

  // ---------------------------------------------------------------------
  // Round trips between models and labels

  /** With distinct display names, selecting a known model and reading the
      selection back gives that model. */
  lemma SelectByModelRoundTrip<M(!new)>(ls: LinkedSelect<M>, m: M)
    requires Linked(ls) && DistinctNames(ls.items) && m in ls.modelMap
    ensures Linked(SetSelectedByModel(ls, m))
    ensures GetSelected(SetSelectedByModel(ls, m)) == if ls.modelMap[m] == "" then None else Some(m)
  {
    var k := LastOfModel(ls.items, m).value;
    var name := ls.items[k].displayName;
    assert LastNamed(ls.items, name).Some?;
  }

  /** With distinct display names, every option picked by the user reports
      the model of that option's item to a set `onChange`, and nothing
      without one. */
  lemma UserSelectReportsItsModel<M(!new)>(ls: LinkedSelect<M>, k: int)
    requires Linked(ls) && DistinctNames(ls.items) && 0 <= k < |ls.items|
    ensures UserSelect(ls, ls.options[k]).1 == if ls.hasOnChange then Some(ls.items[k].model) else None
    ensures GetSelected(UserSelect(ls, ls.options[k]).0) == if ls.options[k] == "" then None else Some(ls.items[k].model)
  {
    var name := ls.items[k].displayName;
    assert LastNamed(ls.items, name).Some?;
  }

  /** With distinct display names, `Update` with a default that is in the
      list leaves the default selected. */
  method UpdateSelectsDefault<M(==,!new)>(ls: LinkedSelect<M>, d: M, list: seq<Item<M>>)
    returns (r: LinkedSelect<M>, got: Option<M>)
    requires DistinctNames(list) && LastOfModel(list, d).Some?
    requires list[LastOfModel(list, d).value].displayName != ""
    ensures Linked(r) && r.items == list
    ensures got == GetSelected(r) && got == Some(d)
  {
    r := Update(ls, Some(d), list);
    UserSelectReportsItsModel(r, LastOfModel(list, d).value);
    got := GetSelected(r);
  }
}
