/** mywidget/log.control.go: the log console's buffers. `buf` keeps the
    lines for copying (trimmed to `maxLines` on every append), `pending` the
    lines not yet shown, `segments` the lines shown by the rich text. The
    ticker, the mutex and the UI dispatch are left out: every operation is
    one atomic step, and a flush applies its UI part at once. */
module LogConsole {
  import opened Basics
  import opened Text

  datatype Console = Console(
    buf: seq<string>,
    pending: seq<string>,
    maxLines: int,
    dirty: bool,
    segments: seq<string>,
    autoScroll: bool)

  /** The panic a Go slice expression raises when `maxLines` is negative. */
  const SliceOutOfRange: string := "slice bounds out of range"

  /** `dirty` records exactly whether there are lines waiting to be shown. */
  predicate DirtyTracksPending(c: Console)
  {
    c.dirty <==> |c.pending| > 0
  }

  /** The last `m` elements of `s` (all of `s` when it is shorter). */
  function Last(s: seq<string>, m: nat): (r: seq<string>)
    ensures |r| == if |s| <= m then |s| else m
  {
    if |s| > m then s[|s| - m..] else s
  }

  /** `Last` keeps a suffix: the dropped lines are exactly the oldest ones. */
  lemma LastIsSuffix(s: seq<string>, m: nat)
    ensures s == s[..|s| - |Last(s, m)|] + Last(s, m)
  {
  }

  /** `NewLogConsole(maxLines)`: empty buffers, auto-scroll on. */
  function NewLogConsole(maxLines: int): (c: Console)
    ensures c.buf == [] && c.pending == [] && c.segments == []
    ensures c.maxLines == maxLines && c.autoScroll && DirtyTracksPending(c)
  {
    Console([], [], maxLines, false, [], true)
  }

  /** `Append`: add the line to `buf` and `pending`, drop the oldest lines of
      `buf` beyond `maxLines` and mark the console dirty. A negative
      `maxLines` makes the trimming slice start past the end, which panics. */
  function Append(c: Console, line: string): (r: Outcome<Console>)
    ensures r.Panic? <==> c.maxLines < 0
    ensures r.Ok? ==>
      && r.value.buf == Last(c.buf + [line], c.maxLines)
      && r.value.pending == c.pending + [line]
      && r.value.dirty
      && DirtyTracksPending(r.value)
      && r.value.segments == c.segments
      && r.value.maxLines == c.maxLines && r.value.autoScroll == c.autoScroll
    ensures r.Ok? ==> |r.value.buf| <= c.maxLines
    ensures r.Ok? && c.maxLines > 0 ==> |r.value.buf| > 0 && r.value.buf[|r.value.buf| - 1] == line
  {
    var buf := c.buf + [line];
    if |buf| > c.maxLines then
      var overflow := |buf| - c.maxLines;
      if overflow > |buf| then Panic(SliceOutOfRange)
      else Ok(c.(buf := buf[overflow..], pending := c.pending + [line], dirty := true))
    else Ok(c.(buf := buf, pending := c.pending + [line], dirty := true))
  }

  /** `Clear`: empty every buffer and the display; nothing is dirty. */
  function Clear(c: Console): (r: Console)
    ensures r.buf == [] && r.pending == [] && r.segments == []
    ensures !r.dirty && DirtyTracksPending(r)
    ensures r.maxLines == c.maxLines && r.autoScroll == c.autoScroll
  {
    c.(buf := [], pending := [], dirty := false, segments := [])
  }

  /** `SetAutoScroll`: only the auto-scroll flag changes. */
  function SetAutoScroll(c: Console, enable: bool): (r: Console)
    ensures r.autoScroll == enable && r.(autoScroll := c.autoScroll) == c
  {
    c.(autoScroll := enable)
  }

  /** `SetMaxLines`: a positive value replaces the limit; the buffer is not
      trimmed again. */
  function SetMaxLines(c: Console, num: int): (r: Console)
    ensures num > 0 ==> r.maxLines == num
    ensures num <= 0 ==> r == c
    ensures r.buf == c.buf && r.pending == c.pending && r.segments == c.segments && r.dirty == c.dirty
  {
    if num > 0 then c.(maxLines := num) else c
  }

  /** `flushIfNeeded`: when dirty with pending lines, move the pending lines
      to the end of the display, keep the last `maxLines` segments and clear
      `pending` and `dirty`; otherwise nothing happens. A negative limit
      panics in the trimming slice once the display is non-empty. */
  function Flush(c: Console): (r: Outcome<Console>)
    ensures !c.dirty || |c.pending| == 0 ==> r == Ok(c)
    ensures c.dirty && |c.pending| > 0 ==>
      (r.Panic? <==> c.maxLines < 0)
    ensures c.dirty && |c.pending| > 0 && r.Ok? ==>
      && r.value.segments == Last(c.segments + c.pending, c.maxLines)
      && r.value.pending == [] && !r.value.dirty
      && r.value.buf == c.buf && r.value.maxLines == c.maxLines
    ensures r.Ok? && DirtyTracksPending(c) ==> DirtyTracksPending(r.value)
  {
    if !c.dirty || |c.pending| == 0 then Ok(c)
    else
      var segments := c.segments + c.pending;
      if |segments| > c.maxLines then
        var start := |segments| - c.maxLines;
        if start > |segments| then Panic(SliceOutOfRange)
        else Ok(c.(pending := [], dirty := false, segments := segments[start..]))
      else Ok(c.(pending := [], dirty := false, segments := segments))
  }

  /** The panic of indexing the first of no open windows. */
  const IndexOutOfRange: string := "index out of range [0] with length 0"

  /** `CopyAll`: the buffer's lines joined by newlines, put on the clipboard
      of the app's first window. With no window open, taking the first one
      panics; a window without a clipboard receives nothing (None). */
  function CopyAll(c: Console, openWindows: nat, firstHasClipboard: bool): (r: Outcome<Option<string>>)
    ensures r.Panic? <==> openWindows == 0
    ensures r.Panic? ==> r.reason == IndexOutOfRange
    ensures r.Ok? ==> (r.value.Some? <==> firstHasClipboard)
    ensures r.Ok? && r.value.Some? ==> r.value.value == Join(c.buf, "\n")
  {
    var text := Join(c.buf, "\n");
    if openWindows == 0 then Panic(IndexOutOfRange)
    else if firstHasClipboard then Ok(Some(text))
    else Ok(None)
  }

  /** The copied text has every line plus one newline between neighbours,
      and splitting it at newlines gives the buffer back when no line holds
      a newline itself. */
  lemma CopyAllSplitsBack(c: Console, openWindows: nat)
    requires |c.buf| >= 1 && openWindows > 0
    ensures |CopyAll(c, openWindows, true).value.value| == TotalLength(c.buf) + |c.buf| - 1
    ensures (forall k :: 0 <= k < |c.buf| ==> '\n' !in c.buf[k]) ==>
      Split(CopyAll(c, openWindows, true).value.value, '\n') == c.buf
  {
    JoinLength(c.buf, "\n");
    if forall k :: 0 <= k < |c.buf| ==> '\n' !in c.buf[k] {
      SplitJoin(c.buf, '\n');
    }
  }

  // ---------------------------------------------------------------------
  // Sequences of appends

  /** Appending one at a time, stopping at the first panic. */
  function AppendAll(c: Console, lines: seq<string>): Outcome<Console>
    decreases |lines|
  {
    if |lines| == 0 then Ok(c)
    else match Append(c, lines[0])
      case Panic(reason) => Panic(reason)
      case Ok(c') => AppendAll(c', lines[1..])
  }

  /** Trimming, adding and trimming again equals adding and trimming once. */
  lemma LastTwice(x: seq<string>, ys: seq<string>, m: nat)
    ensures Last(Last(x, m) + ys, m) == Last(x + ys, m)
  {
    if |x| > m {
      var t := x[|x| - m..];
      var z := t + ys;
      if |z| > m {
        assert z[|z| - m..] == (x + ys)[|x + ys| - m..];
      } else {
        assert ys == [];
        assert x + ys == x;
      }
    }
  }

  /** A sequence of appends with a non-negative limit never panics, queues
      every new line in order and leaves the console dirty once a line was
      added. */
  lemma {:induction false} AppendAllQueuesLines(c: Console, lines: seq<string>)
    requires c.maxLines >= 0
    ensures AppendAll(c, lines).Ok?
    ensures AppendAll(c, lines).value.pending == c.pending + lines
    ensures AppendAll(c, lines).value.maxLines == c.maxLines
    ensures AppendAll(c, lines).value.dirty == (c.dirty || |lines| > 0)
    decreases |lines|
  {
    if |lines| == 0 {
      assert c.pending + lines == c.pending;
    } else {
      var c' := Append(c, lines[0]).value;
      assert AppendAll(c, lines) == AppendAll(c', lines[1..]);
      assert c'.pending == c.pending + [lines[0]] && c'.maxLines == c.maxLines && c'.dirty;
      AppendAllQueuesLines(c', lines[1..]);
      assert c.pending + [lines[0]] + lines[1..] == c.pending + lines;
    }
  }

  /** After any sequence of appends with a fixed non-negative limit, `buf`
      holds the last `maxLines` of the old buffer followed by the new lines;
      so after `Clear` it holds the last `maxLines` lines appended since. A
      buffer left longer than the limit by `SetMaxLines` is trimmed by the
      first append, so only an empty sequence needs the buffer in bounds. */
  lemma {:induction false} AppendAllKeepsLastLines(c: Console, lines: seq<string>)
    requires c.maxLines >= 0 && (|lines| > 0 || |c.buf| <= c.maxLines)
    ensures AppendAll(c, lines).Ok?
    ensures AppendAll(c, lines).value.buf == Last(c.buf + lines, c.maxLines)
    decreases |lines|
  {
    AppendAllQueuesLines(c, lines);
    if |lines| == 0 {
      assert c.buf + lines == c.buf;
    } else {
      var c' := Append(c, lines[0]).value;
      assert AppendAll(c, lines) == AppendAll(c', lines[1..]);
      assert c'.buf == Last(c.buf + [lines[0]], c.maxLines) && c'.maxLines == c.maxLines;
      assert |c'.buf| <= c'.maxLines;
      AppendAllKeepsLastLines(c', lines[1..]);
      LastTwice(c.buf + [lines[0]], lines[1..], c.maxLines);
      assert c.buf + [lines[0]] + lines[1..] == c.buf + lines;
    }
  }

  /** Lowering the limit leaves the buffer longer than the limit until the
      next append, which keeps only the last lines. */
  lemma ScenarioLoweredLimit()
    ensures var c := AppendAll(NewLogConsole(3), ["a", "b", "c"]);
            && c.Ok? && c.value.buf == ["a", "b", "c"]
            && |SetMaxLines(c.value, 1).buf| > SetMaxLines(c.value, 1).maxLines
            && AppendAll(SetMaxLines(c.value, 1), ["d"]) == Append(SetMaxLines(c.value, 1), "d")
            && Append(SetMaxLines(c.value, 1), "d").value.buf == ["d"]
  {
    AppendAllKeepsLastLines(NewLogConsole(3), ["a", "b", "c"]);
    var c := AppendAll(NewLogConsole(3), ["a", "b", "c"]).value;
    AppendAllKeepsLastLines(SetMaxLines(c, 1), ["d"]);
  }

  /** The scenario of a limit of two: three appends keep the last two lines
      for copying, and the flush shows the last two. */
  lemma ScenarioLimitTwo()
    ensures var c := AppendAll(NewLogConsole(2), ["a", "b", "c"]);
            c.Ok? && c.value.buf == ["b", "c"] && c.value.pending == ["a", "b", "c"]
            && Flush(c.value) == Ok(c.value.(pending := [], dirty := false, segments := ["b", "c"]))
  {
    AppendAllQueuesLines(NewLogConsole(2), ["a", "b", "c"]);
    AppendAllKeepsLastLines(NewLogConsole(2), ["a", "b", "c"]);
  }
}
