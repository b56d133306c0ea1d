/** mywidget/tapContainer.go: a container that tells single taps from double
    taps. The clock is the explicit time of each tap (in nanoseconds), and
    the single-tap timer of `time.AfterFunc` is a flag plus an explicit
    "timer elapsed" event. */
module TapContainer {
  import opened Basics
  import opened Geometry

  /** 300 ms, in nanoseconds. */
  const DoubleTapWindow: int := 300_000_000

  /** The previous tap: when and where it happened. */
  datatype TapRecord = TapRecord(time: int, pos: Pos)

  /** `lastTap` is None while `lastTapTime` is Go's zero time, before the
      first tap; `pending` is whether an armed single-tap timer has neither
      fired nor been stopped. The callbacks matter only by being set. */
  datatype TapContainer = TapContainer(
    hasOnTap: bool, hasOnDoubleTap: bool, lastTap: Option<TapRecord>, pending: bool)

  /** What a step hands to the application. */
  datatype Fired = Nothing | SingleTapFired | DoubleTapFired

  /** `distance(p, q) < 10`, squared to stay within the reals. */
  predicate Near(p: Pos, q: Pos)
  {
    (p.x - q.x) * (p.x - q.x) + (p.y - q.y) * (p.y - q.y) < 100.0
  }

  /** The classification of `Tapped`: a double tap comes less than 300 ms
      after the previous tap and less than 10 units from it. Go's zero time
      lies so far back that the first tap never qualifies. */
  predicate IsDoubleTap(c: TapContainer, now: int, pos: Pos)
  {
    match c.lastTap
    case None => false
    case Some(last) => now - last.time < DoubleTapWindow && Near(last.pos, pos)
  }

  /** `NewTapContainer`: only the single-tap callback. */
  function NewTapContainer(onTapSet: bool): (c: TapContainer)
    ensures c.hasOnTap == onTapSet && !c.hasOnDoubleTap
    ensures c.lastTap.None? && !c.pending
  {
    TapContainer(onTapSet, false, None, false)
  }

  /** `NewTapContainerWithDoubleTap`: only the double-tap callback. */
  function NewTapContainerWithDoubleTap(onDoubleTapSet: bool): (c: TapContainer)
    ensures !c.hasOnTap && c.hasOnDoubleTap == onDoubleTapSet
    ensures c.lastTap.None? && !c.pending
  {
    TapContainer(false, onDoubleTapSet, None, false)
  }

  /** `Tapped`: a double tap stops the pending timer and fires `onDoubleTap`
      at once; a single tap stops the old timer and arms a new one, firing
      nothing yet. Either way the tap becomes the previous tap. */
  function Tapped(c: TapContainer, now: int, pos: Pos): (r: (TapContainer, Fired))
    ensures r.0.lastTap == Some(TapRecord(now, pos))
    ensures r.0.hasOnTap == c.hasOnTap && r.0.hasOnDoubleTap == c.hasOnDoubleTap
    ensures IsDoubleTap(c, now, pos) ==>
      !r.0.pending && (r.1 == DoubleTapFired <==> c.hasOnDoubleTap) && r.1 != SingleTapFired
    ensures !IsDoubleTap(c, now, pos) ==> r.0.pending && r.1 == Nothing
  {
    var c' := c.(lastTap := Some(TapRecord(now, pos)));
    if IsDoubleTap(c, now, pos) then
      (c'.(pending := false), if c.hasOnDoubleTap then DoubleTapFired else Nothing)
    else (c'.(pending := true), Nothing)
  }

  /** The armed timer runs out: `onTapped` fires when it is set at that
      moment. A stopped timer does nothing. */
  function TimerElapsed(c: TapContainer): (r: (TapContainer, Fired))
    ensures !r.0.pending
    ensures r.1 == SingleTapFired <==> c.pending && c.hasOnTap
    ensures r.1 != DoubleTapFired
    ensures !c.pending ==> r.0 == c
    ensures r.0.lastTap == c.lastTap && r.0.hasOnTap == c.hasOnTap && r.0.hasOnDoubleTap == c.hasOnDoubleTap
  {
    if c.pending then (c.(pending := false), if c.hasOnTap then SingleTapFired else Nothing)
    else (c, Nothing)
  }

  /** `SetOnTap` and `SetOnDoubleTap`. */
  function SetOnTap(c: TapContainer, present: bool): (r: TapContainer)
    ensures r == c.(hasOnTap := present)
  {
    c.(hasOnTap := present)
  }

  function SetOnDoubleTap(c: TapContainer, present: bool): (r: TapContainer)
    ensures r == c.(hasOnDoubleTap := present)
  {
    c.(hasOnDoubleTap := present)
  }

  // ---------------------------------------------------------------------
  // Runs of events

  datatype Event = Tap(time: int, pos: Pos) | Elapse | SetTap(present: bool) | SetDoubleTap(present: bool)

  function Step(c: TapContainer, e: Event): (TapContainer, Fired)
  {
    match e
    case Tap(t, p) => Tapped(c, t, p)
    case Elapse => TimerElapsed(c)
    case SetTap(b) => (SetOnTap(c, b), Nothing)
    case SetDoubleTap(b) => (SetOnDoubleTap(c, b), Nothing)
  }

  /** The final state and what each event fired. */
  function Run(c: TapContainer, evs: seq<Event>): (r: (TapContainer, seq<Fired>))
    ensures |r.1| == |evs|
    decreases |evs|
  {
    if |evs| == 0 then (c, [])
    else
      var (c1, f) := Step(c, evs[0]);
      var (c2, fs) := Run(c1, evs[1..]);
      (c2, [f] + fs)
  }

  function CountSingles(fs: seq<Fired>): nat
  {
    if |fs| == 0 then 0 else (if fs[0] == SingleTapFired then 1 else 0) + CountSingles(fs[1..])
  }

  function CountTaps(evs: seq<Event>): nat
  {
    if |evs| == 0 then 0 else (if evs[0].Tap? then 1 else 0) + CountTaps(evs[1..])
  }

  /** Each tap arms at most one timer and each timer fires `onTapped` at most
      once: over any run, the single-tap callbacks fired plus the timer
      still armed at the end are at most the taps plus the timer armed at
      the start. */
  lemma {:induction false} SinglesBoundedByTaps(c: TapContainer, evs: seq<Event>)
    ensures var r := Run(c, evs);
      CountSingles(r.1) + (if r.0.pending then 1 else 0) <= CountTaps(evs) + (if c.pending then 1 else 0)
    decreases |evs|
  {
    if |evs| > 0 {
      var (c1, f) := Step(c, evs[0]);
      SinglesBoundedByTaps(c1, evs[1..]);
      var r := Run(c, evs);
      assert r.1 == [f] + Run(c1, evs[1..]).1;
      assert ([f] + Run(c1, evs[1..]).1)[1..] == Run(c1, evs[1..]).1;
    }
  }

  /** A tap's classification depends only on the tap before it: after a tap
      at (t, p), the next tap is double exactly when it is less than 300 ms
      later and less than 10 units away. */
  lemma NextTapClassification(c: TapContainer, t: int, p: Pos, t2: int, p2: Pos)
    ensures IsDoubleTap(Tapped(c, t, p).0, t2, p2) <==> t2 - t < DoubleTapWindow && Near(p, p2)
  {
  }

  /** The first tap after construction is single, and arms the timer. */
  lemma FirstTapIsSingle(onTapSet: bool, onDoubleTapSet: bool, now: int, pos: Pos)
    ensures !IsDoubleTap(NewTapContainer(onTapSet), now, pos)
    ensures !IsDoubleTap(NewTapContainerWithDoubleTap(onDoubleTapSet), now, pos)
    ensures Tapped(NewTapContainer(onTapSet), now, pos).0.pending
  {
  }

  /** Three taps 100 ms apart at one spot: the first is single, the second
      and the third are both double, and the single tap's timer never fires
      `onTapped`. */
  lemma ScenarioThreeRapidTaps(p: Pos)
    ensures var c0 := NewTapContainer(true).(hasOnDoubleTap := true);
      var r := Run(c0, [Tap(0, p), Tap(100_000_000, p), Tap(200_000_000, p), Elapse]);
      r.1 == [Nothing, DoubleTapFired, DoubleTapFired, Nothing]
  {
    var c0 := NewTapContainer(true).(hasOnDoubleTap := true);
    var evs := [Tap(0, p), Tap(100_000_000, p), Tap(200_000_000, p), Elapse];
    assert Near(p, p);
    var c1 := Tapped(c0, 0, p).0;
    var c2 := Tapped(c1, 100_000_000, p).0;
    var c3 := Tapped(c2, 200_000_000, p).0;
    assert !c3.pending;
    var e1 := evs[1..];
    var e2 := e1[1..];
    var e3 := e2[1..];
    assert e1 == [Tap(100_000_000, p), Tap(200_000_000, p), Elapse];
    assert e2 == [Tap(200_000_000, p), Elapse];
    assert e3 == [Elapse];
    assert IsDoubleTap(c1, 100_000_000, p) && IsDoubleTap(c2, 200_000_000, p);
    assert Run(c3, e3) == (c3, [Nothing] + Run(c3, []).1);
    assert [Nothing] + Run(c3, []).1 == [Nothing];
    assert Step(c2, e2[0]) == (c3, DoubleTapFired);
    assert [DoubleTapFired] + [Nothing] == [DoubleTapFired, Nothing];
    assert Run(c2, e2) == (c3, [DoubleTapFired, Nothing]);
    assert Step(c1, e1[0]) == (c2, DoubleTapFired);
    assert [DoubleTapFired] + [DoubleTapFired, Nothing] == [DoubleTapFired, DoubleTapFired, Nothing];
    assert Run(c1, e1) == (c3, [DoubleTapFired, DoubleTapFired, Nothing]);
  }

  /** A single tap left alone fires `onTapped` when its timer runs out, and
      a second tap close by in time and place suppresses it. */
  lemma SingleFiresUnlessFollowed(c: TapContainer, t: int, p: Pos, t2: int, p2: Pos)
    requires c.hasOnTap && !IsDoubleTap(c, t, p)
    ensures TimerElapsed(Tapped(c, t, p).0).1 == SingleTapFired
    ensures t2 - t < DoubleTapWindow && Near(p, p2) ==>
      TimerElapsed(Tapped(Tapped(c, t, p).0, t2, p2).0).1 == Nothing
  {
  }
}
