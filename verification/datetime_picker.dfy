/** mywidget/datetime.picker.go: a button showing a timestamp, with a popup
    holding a calendar and hour/minute/second drop-downs. A time is the
    record of its fields; `time.Date` normalisation and the local time zone
    are not modelled, and the clock is an explicit `now` argument. */
module DateTimePicker {
  import opened Basics
  import opened Decimal

  datatype DateTime = DateTime(year: int, month: int, day: int, hour: int, minute: int, second: int)

  /** Go's zero `time.Time`: January 1 of year 1, 00:00:00. */
  const ZeroTime: DateTime := DateTime(1, 1, 1, 0, 0, 0)

  function IsZero(t: DateTime): bool { t == ZeroTime }

  /** The text of the display button. */
  datatype Caption = Placeholder(text: string) | Prompt | Timestamp(t: DateTime)

  /** The prompt shown for a zero time without a placeholder. */
  const PromptText: string := "请选择时间"

  function CaptionText(c: Caption, format: DateTime -> string): string
  {
    match c
    case Placeholder(text) => text
    case Prompt => PromptText
    case Timestamp(t) => format(t)
  }

  datatype DateTimePicker = DateTimePicker(
    selected: DateTime, placeHolder: string, caption: Caption, hasOnChanged: bool)

  /** `refreshText`: the placeholder for a zero time when there is one, the
      prompt for a zero time without one, and the time itself otherwise. */
  function RefreshText(selected: DateTime, placeHolder: string): (c: Caption)
    ensures IsZero(selected) && placeHolder != "" <==> c == Placeholder(placeHolder)
    ensures IsZero(selected) && placeHolder == "" <==> c == Prompt
    ensures !IsZero(selected) <==> c == Timestamp(selected)
  {
    if IsZero(selected) then
      if placeHolder != "" then Placeholder(placeHolder) else Prompt
    else Timestamp(selected)
  }

  /** A state change and the value handed to `onChanged`, if it fired. */
  datatype Change = Change(picker: DateTimePicker, notified: Option<DateTime>)

  /** Store a new time, refresh the caption and notify when a callback is
      set: the common tail of `Clear` and both popup handlers. */
  function SetAndNotify(dp: DateTimePicker, t: DateTime): (c: Change)
    ensures c.picker.selected == t
    ensures c.picker.caption == RefreshText(t, dp.placeHolder)
    ensures c.picker.placeHolder == dp.placeHolder && c.picker.hasOnChanged == dp.hasOnChanged
    ensures c.notified == (if dp.hasOnChanged then Some(t) else None)
  {
    Change(dp.(selected := t, caption := RefreshText(t, dp.placeHolder)),
           if dp.hasOnChanged then Some(t) else None)
  }

  /** `NewDateTimePicker`: the time, the placeholder and the callback as
      given, and the caption the refresh rule shows for them. */
  function NewDateTimePicker(t: DateTime, zeroPlace: string, hasChanged: bool): (dp: DateTimePicker)
    ensures dp.selected == t && dp.caption == RefreshText(t, zeroPlace)
    ensures dp.placeHolder == zeroPlace && dp.hasOnChanged == hasChanged
  {
    DateTimePicker(t, zeroPlace, RefreshText(t, zeroPlace), hasChanged)
  }

  /** `Clear`: the zero time, shown as the placeholder (or the prompt), and
      one notification with the zero time when a callback is set. */
  function Clear(dp: DateTimePicker): (c: Change)
    ensures IsZero(c.picker.selected)
    ensures c.picker.caption == (if dp.placeHolder != "" then Placeholder(dp.placeHolder) else Prompt)
    ensures c.notified == (if dp.hasOnChanged then Some(ZeroTime) else None)
  {
    SetAndNotify(dp, ZeroTime)
  }

  /** `mustInt`: the parsed value, or 0 when the text does not parse. */
  function MustInt(s: string): (v: int)
    ensures Atoi(s).Some? ==> v == Atoi(s).value
    ensures Atoi(s).None? ==> v == 0
  {
    match Atoi(s) case Some(v) => v case None => 0
  }

  /** `makeRange(min, max)`: the numbers min..max rendered with `%02d`, in
      ascending order; empty when max < min. */
  method MakeRange(min: int, max: int) returns (list: seq<string>)
    ensures |list| == if max < min then 0 else max - min + 1
    ensures forall k :: 0 <= k < |list| ==> list[k] == Pad2(min + k)
    ensures forall k :: 0 <= k < |list| ==> MustInt(list[k]) == min + k
  {
    list := [];
    var i := min;
    while i <= max
      invariant min <= i <= if max < min then min else max + 1
      invariant |list| == i - min
      invariant forall k :: 0 <= k < |list| ==> list[k] == Pad2(min + k)
      decreases max - i
    {
      list := list + [Pad2(i)];
      i := i + 1;
    }
    forall k | 0 <= k < |list|
      ensures MustInt(list[k]) == min + k
    {
      AtoiPad2(min + k);
    }
  }

  /** The popup's state: the hour, minute and second it shares between the
      calendar and the time drop-downs (captured when it opens, rewritten by
      every time change), and the drop-downs' selected texts. */
  datatype Popup = Popup(h: int, m: int, s: int, hourSel: string, minuteSel: string, secondSel: string)

  /** `showPopup`: show the selected time, or `now` when it is zero. */
  function ShowPopup(dp: DateTimePicker, now: DateTime): (p: Popup)
    ensures var shown := if IsZero(dp.selected) then now else dp.selected;
      p.h == shown.hour && p.m == shown.minute && p.s == shown.second
    ensures p.hourSel == Pad2(p.h) && p.minuteSel == Pad2(p.m) && p.secondSel == Pad2(p.s)
  {
    var shown := if IsZero(dp.selected) then now else dp.selected;
    Popup(shown.hour, shown.minute, shown.second,
          Pad2(shown.hour), Pad2(shown.minute), Pad2(shown.second))
  }

  /** The calendar callback: the picked date with the popup's h:m:s. */
  function PickDate(dp: DateTimePicker, p: Popup, year: int, month: int, day: int): (c: Change)
    ensures c.picker.selected == DateTime(year, month, day, p.h, p.m, p.s)
    ensures c.notified == (if dp.hasOnChanged then Some(c.picker.selected) else None)
  {
    SetAndNotify(dp, DateTime(year, month, day, p.h, p.m, p.s))
  }

  /** `updateTime`, run when any time drop-down changes: start from `now` if
      the time is zero, keep its date and take h:m:s from the drop-downs
      (0 for a text that does not parse); the popup remembers them. */
  function ChangeTime(dp: DateTimePicker, p: Popup, now: DateTime): (r: (Change, Popup))
    ensures var base := if IsZero(dp.selected) then now else dp.selected;
      var t := r.0.picker.selected;
      && t.year == base.year && t.month == base.month && t.day == base.day
      && t.hour == MustInt(p.hourSel) && t.minute == MustInt(p.minuteSel) && t.second == MustInt(p.secondSel)
      && r.1.h == t.hour && r.1.m == t.minute && r.1.s == t.second
    ensures r.0.notified == (if dp.hasOnChanged then Some(r.0.picker.selected) else None)
  {
    var base := if IsZero(dp.selected) then now else dp.selected;
    var h, m, s := MustInt(p.hourSel), MustInt(p.minuteSel), MustInt(p.secondSel);
    (SetAndNotify(dp, DateTime(base.year, base.month, base.day, h, m, s)), p.(h := h, m := m, s := s))
  }

  /** Picking a date keeps the time the popup opened with; choosing a time
      afterwards keeps the picked date; and picking another date after that
      keeps the chosen time. */
  lemma DateAndTimeRecompose(dp: DateTimePicker, now: DateTime, y: int, mo: int, d: int,
                             h: int, mi: int, s: int, y2: int, mo2: int, d2: int)
    requires !IsZero(dp.selected)
    requires y != 1 || mo != 1 || d != 1
    ensures var p := ShowPopup(dp, now);
      var c1 := PickDate(dp, p, y, mo, d);
      && c1.picker.selected == DateTime(y, mo, d, dp.selected.hour, dp.selected.minute, dp.selected.second)
      && var r := ChangeTime(c1.picker, p.(hourSel := Pad2(h), minuteSel := Pad2(mi), secondSel := Pad2(s)), now);
         && r.0.picker.selected == DateTime(y, mo, d, h, mi, s)
         && PickDate(r.0.picker, r.1, y2, mo2, d2).picker.selected == DateTime(y2, mo2, d2, h, mi, s)
  {
    AtoiPad2(h);
    AtoiPad2(mi);
    AtoiPad2(s);
  }

  /** After `Clear`, a time change starts from `now`'s date. */
  lemma ClearThenChangeTimeUsesNow(dp: DateTimePicker, p: Popup, now: DateTime)
    ensures var cleared := Clear(dp).picker;
      var t := ChangeTime(cleared, p, now).0.picker.selected;
      t.year == now.year && t.month == now.month && t.day == now.day
  {
  }
}
