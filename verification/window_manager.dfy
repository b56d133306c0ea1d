/** window.manager.go: the process-wide registry of windows keyed by a
    page's window id. Each operation is one atomic step on the registry
    (the mutex only serialises them). Windows are identified by a handle so
    that "reused" and "newly created" can be told apart. */
module WindowManager {
  import opened Basics
  import opened Geometry

  /** What the registry needs of a `Page`: its id, content (an identity plus
      the content's min size), title and requested size. */
  datatype Page = Page(winId: int, content: int, contentMin: Size, title: string, winSize: Size)

  /** A native window as far as the manager configures it. */
  datatype Window = Window(handle: nat, content: Option<int>, title: string, size: Size,
                           fixedSize: bool, visible: bool)

  /** `app` is unset until `SetApp`; `closed` lists the handles of windows
      that were closed, oldest first; `created` counts created windows and
      provides the next fresh handle. */
  datatype Manager = Manager(app: Option<int>, windows: map<int, Window>, created: nat, closed: seq<nat>)

  const AppNotSet: string := "App instance not set. Use SetApp to initialize."

  /** The singleton as first obtained: no app, no windows. */
  function NewManager(): (m: Manager)
    ensures m.app == None && m.windows == map[]
  {
    Manager(None, map[], 0, [])
  }

  /** Every registered window has a handle below `created`, and distinct ids
      hold distinct windows. */
  predicate Valid(m: Manager)
  {
    && (forall id :: id in m.windows ==> m.windows[id].handle < m.created)
    && (forall i, j :: i in m.windows && j in m.windows && i != j ==>
          m.windows[i].handle != m.windows[j].handle)
  }

  /** `SetApp`: binds the app (None is Go's nil) while none is bound, so a
      nil app leaves the manager waiting for the next call. */
  function SetApp(m: Manager, app: Option<int>): (r: Manager)
    ensures m.app == None ==> r.app == app
    ensures m.app != None ==> r.app == m.app
    ensures r.windows == m.windows && r.created == m.created && r.closed == m.closed
  {
    if m.app == None then m.(app := app) else m
  }

  /** Once an app is bound no later call replaces it, while a nil app binds
      nothing and the next app is still taken. */
  lemma SetAppBindsFirstApp(m: Manager, a: int, b: Option<int>)
    ensures SetApp(SetApp(m, Some(a)), b).app == SetApp(m, Some(a)).app
    ensures m.app == None ==> SetApp(SetApp(m, Some(a)), b).app == Some(a)
    ensures SetApp(SetApp(m, None), Some(a)).app == SetApp(m, Some(a)).app
  {
  }

  /** The size `ShowPage` resizes to: a non-positive requested dimension is
      replaced by the content's min size on that axis. */
  function EffectiveSize(page: Page): (s: Size)
    ensures page.winSize.width > 0.0 ==> s.width == page.winSize.width
    ensures page.winSize.width <= 0.0 ==> s.width == page.contentMin.width
    ensures page.winSize.height > 0.0 ==> s.height == page.winSize.height
    ensures page.winSize.height <= 0.0 ==> s.height == page.contentMin.height
  {
    var w := if page.winSize.width <= 0.0 then page.contentMin.width else page.winSize.width;
    var h := if page.winSize.height <= 0.0 then page.contentMin.height else page.winSize.height;
    Size(w, h)
  }

  /** `ShowPage`: panics without an app; otherwise reuses the registered
      window of the page's id or creates and registers one, then sets the
      content, title, size and fixed-size flag and shows it. Centring is a
      request to the host and leaves the registry as it is. */
  function ShowPage(m: Manager, page: Page, centerOnScreen: bool, fixedSize: bool): (r: Outcome<Manager>)
    ensures r.Panic? <==> m.app == None
    ensures r.Panic? ==> r.reason == AppNotSet
    ensures r.Ok? ==>
      var m' := r.value;
      && m'.windows.Keys == m.windows.Keys + {page.winId}
      && (forall id :: id in m.windows && id != page.winId ==> m'.windows[id] == m.windows[id])
      && m'.windows[page.winId].content == Some(page.content)
      && m'.windows[page.winId].title == page.title
      && m'.windows[page.winId].size == EffectiveSize(page)
      && m'.windows[page.winId].fixedSize == fixedSize
      && m'.windows[page.winId].visible
      && m'.app == m.app && m'.closed == m.closed
    ensures r.Ok? && page.winId in m.windows ==>
      r.value.windows[page.winId].handle == m.windows[page.winId].handle && r.value.created == m.created
    ensures r.Ok? && page.winId !in m.windows ==>
      r.value.windows[page.winId].handle == m.created && r.value.created == m.created + 1
    ensures r.Ok? && Valid(m) ==> Valid(r.value)
  {
    if m.app == None then Panic(AppNotSet)
    else
      var existing := page.winId in m.windows;
      var w := if existing then m.windows[page.winId]
               else Window(m.created, None, "", Size(0.0, 0.0), false, false);
      var created := if existing then m.created else m.created + 1;
      var w' := w.(content := Some(page.content), title := page.title, size := EffectiveSize(page),
                   fixedSize := fixedSize, visible := true);
      Ok(m.(windows := m.windows[page.winId := w'], created := created))
  }

  /** `ClosePage`: panics without an app; otherwise closes and forgets the
      page's window, if there is one. */
  function ClosePage(m: Manager, page: Page): (r: Outcome<Manager>)
    ensures r.Panic? <==> m.app == None
    ensures r.Panic? ==> r.reason == AppNotSet
    ensures r.Ok? ==>
      var m' := r.value;
      && m'.windows.Keys == m.windows.Keys - {page.winId}
      && (forall id :: id in m'.windows ==> m'.windows[id] == m.windows[id])
      && m'.app == m.app && m'.created == m.created
      && m'.closed == m.closed + (if page.winId in m.windows then [m.windows[page.winId].handle] else [])
    ensures r.Ok? && Valid(m) ==> Valid(r.value)
  {
    if m.app == None then Panic(AppNotSet)
    else if page.winId in m.windows then
      Ok(m.(windows := m.windows - {page.winId}, closed := m.closed + [m.windows[page.winId].handle]))
    else Ok(m)
  }

  /** `GetWindow`: the registered window of the page, or nil; no app check. */
  function GetWindow(m: Manager, page: Page): (r: Option<Window>)
    ensures r.Some? <==> page.winId in m.windows
    ensures r.Some? ==> r.value == m.windows[page.winId]
  {
    if page.winId in m.windows then Some(m.windows[page.winId]) else None
  }

  /** `ShowWindow` and `HideWindow`: panic without an app; otherwise set the
      visibility of a registered window and ignore unknown ids. */
  function SetVisible(m: Manager, windowId: int, visible: bool): (r: Outcome<Manager>)
    ensures r.Panic? <==> m.app == None
    ensures r.Panic? ==> r.reason == AppNotSet
    ensures r.Ok? ==>
      var m' := r.value;
      && m'.windows.Keys == m.windows.Keys
      && (forall id :: id in m.windows && id != windowId ==> m'.windows[id] == m.windows[id])
      && (windowId in m.windows ==> m'.windows[windowId] == m.windows[windowId].(visible := visible))
      && m'.app == m.app && m'.created == m.created && m'.closed == m.closed
    ensures r.Ok? && Valid(m) ==> Valid(r.value)
  {
    if m.app == None then Panic(AppNotSet)
    else if windowId in m.windows then
      Ok(m.(windows := m.windows[windowId := m.windows[windowId].(visible := visible)]))
    else Ok(m)
  }

  function ShowWindow(m: Manager, windowId: int): (r: Outcome<Manager>)
    ensures r.Panic? <==> m.app == None
    ensures r.Ok? ==> r.value.windows.Keys == m.windows.Keys
    ensures r.Ok? && windowId in m.windows ==> r.value.windows[windowId].visible
  {
    SetVisible(m, windowId, true)
  }

  function HideWindow(m: Manager, windowId: int): (r: Outcome<Manager>)
    ensures r.Panic? <==> m.app == None
    ensures r.Ok? ==> r.value.windows.Keys == m.windows.Keys
    ensures r.Ok? && windowId in m.windows ==> !r.value.windows[windowId].visible
  {
    SetVisible(m, windowId, false)
  }

  // ---------------------------------------------------------------------
  // Relations between operations

  /** Showing the same page twice is the same as showing it once: the second
      call reuses the window and writes the same settings. */
  lemma ShowPageIdempotent(m: Manager, page: Page, center: bool, fixedSize: bool)
    requires m.app.Some?
    ensures ShowPage(m, page, center, fixedSize).Ok?
    ensures ShowPage(ShowPage(m, page, center, fixedSize).value, page, center, fixedSize)
         == ShowPage(m, page, center, fixedSize)
  {
    var m1 := ShowPage(m, page, center, fixedSize).value;
    var w := m1.windows[page.winId];
    var w' := w.(content := Some(page.content), title := page.title, size := EffectiveSize(page),
                 fixedSize := fixedSize, visible := true);
    assert w' == w;
    assert m1.windows[page.winId := w'] == m1.windows;
  }

  /** Closing a freshly shown page restores the registry: the window created
      for it is the only one removed, and it is recorded as closed. */
  lemma ShowThenCloseRestoresRegistry(m: Manager, page: Page, center: bool, fixedSize: bool)
    requires m.app.Some? && page.winId !in m.windows
    ensures var shown := ShowPage(m, page, center, fixedSize);
            shown.Ok? && ClosePage(shown.value, page).Ok?
            && ClosePage(shown.value, page).value.windows == m.windows
            && ClosePage(shown.value, page).value.closed == m.closed + [m.created]
  {
    var shown := ShowPage(m, page, center, fixedSize).value;
    assert shown.windows - {page.winId} == m.windows;
  }

  /** After `ClosePage` the page has no window. */
  lemma CloseThenGetIsNil(m: Manager, page: Page)
    requires m.app.Some?
    ensures ClosePage(m, page).Ok? && GetWindow(ClosePage(m, page).value, page) == None
  {
  }

  /** Hiding after showing a registered window leaves it exactly as hidden. */
  lemma HideAfterShow(m: Manager, windowId: int)
    requires m.app.Some? && windowId in m.windows
    ensures var shown := ShowWindow(m, windowId).value;
            HideWindow(shown, windowId) == HideWindow(m, windowId)
  {
    var w := m.windows[windowId];
    assert m.windows[windowId := w.(visible := true)][windowId := w.(visible := false)]
        == m.windows[windowId := w.(visible := false)];
  }

  /** Scenario: with no app, every configuring call fails while `GetWindow`
      still answers. */
  lemma ScenarioNoApp(page: Page)
    ensures ShowPage(NewManager(), page, true, false).Panic?
    ensures ClosePage(NewManager(), page).Panic?
    ensures ShowWindow(NewManager(), page.winId).Panic?
    ensures HideWindow(NewManager(), page.winId).Panic?
    ensures GetWindow(NewManager(), page) == None
  {
  }
}
