/** mywidget/ellipsis.label.go: a label that shortens its text in the middle,
    keeping `leftKeep` runes on the left and `rightKeep` runes on the right
    around "...". Strings are sequences of runes, as after `[]rune(s)`. */
module EllipsisLabel {
  import opened Basics

  const Dots: string := "..."

  /** The panic of a Go slice expression whose bounds fall outside the text. */
  const SliceOutOfRange: string := "slice bounds out of range"

  /** The part of the label's state the text rule uses. */
  datatype EllipsisLabel = EllipsisLabel(fullText: string, leftKeep: int, rightKeep: int, display: string)

  /** `n` NUL runes: what a rune slice holds past its length. */
  function Nuls(n: nat): (z: string)
    ensures |z| == n && forall k :: 0 <= k < n ==> z[k] == '\0'
  {
    seq(n, _ => '\0')
  }

  /** The runes a non-positive keep contributes nothing for. */
  function Kept(keep: int): nat
  {
    if keep > 0 then keep else 0
  }

  /** `updateDisplay`'s rule on `runes := []rune(full)`, whose capacity the
      runtime chooses (at least the rune count). A text no longer than
      leftKeep+rightKeep+3 runes is shown whole; a longer one as
      `runes[:leftKeep]`, "..." and `runes[n-rightKeep:]` (a non-positive
      keep contributes nothing). The left slice may reach past the runes up
      to the capacity, where the slice holds NUL runes, and panics beyond it;
      the right slice panics when it would start before the text. Both can
      only happen when the other keep is negative. */
  function Shorten(full: string, leftKeep: int, rightKeep: int, capacity: int): (r: Outcome<string>)
    requires capacity >= |full|
    ensures |full| <= leftKeep + rightKeep + 3 ==> r == Ok(full)
    ensures r.Panic? <==>
      |full| > leftKeep + rightKeep + 3 && (leftKeep > capacity || rightKeep > |full|)
    ensures r.Panic? ==> leftKeep < -3 || rightKeep < -3
    ensures leftKeep >= 0 && rightKeep >= 0 ==> r.Ok?
    ensures r.Ok? && |full| > leftKeep + rightKeep + 3 ==>
      && |r.value| == Kept(leftKeep) + Kept(rightKeep) + 3
      && r.value[Kept(leftKeep)..Kept(leftKeep) + 3] == Dots
      && (leftKeep <= |full| ==> r.value[..Kept(leftKeep)] == full[..Kept(leftKeep)])
      && (leftKeep > |full| ==> r.value[..leftKeep] == full + Nuls(leftKeep - |full|))
      && r.value[Kept(leftKeep) + 3..] == full[|full| - Kept(rightKeep)..]
  {
    var n := |full|;
    if n <= leftKeep + rightKeep + 3 then Ok(full)
    else if leftKeep > 0 && leftKeep > capacity then Panic(SliceOutOfRange)
    else if rightKeep > 0 && n - rightKeep < 0 then Panic(SliceOutOfRange)
    else
      var left := if leftKeep <= 0 then "" else if leftKeep <= n then full[..leftKeep] else full + Nuls(leftKeep - n);
      var right := if rightKeep > 0 then full[n - rightKeep..] else "";
      var d := left + Dots + right;
      assert d[..|left|] == left && d[|left|..|left| + 3] == Dots && d[|left| + 3..] == right;
      assert rightKeep <= 0 ==> full[n..] == "";
      Ok(d)
  }

  /** A shortened text is the kept prefix, "..." and the kept suffix, has
      exactly leftKeep+rightKeep+3 runes and is strictly shorter than the
      full text. */
  lemma ShortenedShape(full: string, leftKeep: nat, rightKeep: nat, capacity: int)
    requires capacity >= |full| && |full| > leftKeep + rightKeep + 3
    ensures Shorten(full, leftKeep, rightKeep, capacity) ==
      Ok(full[..leftKeep] + Dots + full[|full| - rightKeep..])
    ensures |Shorten(full, leftKeep, rightKeep, capacity).value| == leftKeep + rightKeep + 3 < |full|
    ensures leftKeep == 0 ==> Shorten(full, leftKeep, rightKeep, capacity).value[..3] == Dots
    ensures rightKeep == 0 ==>
      Shorten(full, leftKeep, rightKeep, capacity).value[leftKeep..] == Dots
  {
    var d := full[..leftKeep] + Dots + full[|full| - rightKeep..];
    if leftKeep == 0 {
      assert full[..0] == "";
    }
    if rightKeep == 0 {
      assert full[|full|..] == "";
      assert d[leftKeep..] == Dots;
    }
  }

  /** The rule is idempotent: a displayed text is displayed unchanged,
      whatever capacity its own rune slice gets. */
  lemma ShortenIdempotent(full: string, leftKeep: int, rightKeep: int, capacity: int, capacity': int)
    requires capacity >= |full| && Shorten(full, leftKeep, rightKeep, capacity).Ok?
    requires capacity' >= |Shorten(full, leftKeep, rightKeep, capacity).value|
    ensures Shorten(Shorten(full, leftKeep, rightKeep, capacity).value, leftKeep, rightKeep, capacity')
         == Shorten(full, leftKeep, rightKeep, capacity)
  {
    var d := Shorten(full, leftKeep, rightKeep, capacity).value;
    var n := |full|;
    if n > leftKeep + rightKeep + 3 && |d| > leftKeep + rightKeep + 3 {
      var l := Kept(leftKeep);
      var rk := Kept(rightKeep);
      assert d == d[..l] + d[l..l + 3] + d[l + 3..];
      assert d[|d| - rk..] == d[l + 3..];
      if leftKeep <= 0 { assert d[..l] == ""; }
      if rightKeep <= 0 { assert d[|d|..] == ""; }
    }
  }

  /** `Refresh`: the display is recomputed from the full text. */
  function Refresh(e: EllipsisLabel, capacity: int): (r: Outcome<EllipsisLabel>)
    requires capacity >= |e.fullText|
    ensures r.Ok? <==> Shorten(e.fullText, e.leftKeep, e.rightKeep, capacity).Ok?
    ensures r.Ok? ==> r.value == e.(display := Shorten(e.fullText, e.leftKeep, e.rightKeep, capacity).value)
  {
    match Shorten(e.fullText, e.leftKeep, e.rightKeep, capacity)
    case Ok(d) => Ok(e.(display := d))
    case Panic(reason) => Panic(reason)
  }

  /** `SetText`: replace the full text and refresh. */
  function SetText(e: EllipsisLabel, text: string, capacity: int): (r: Outcome<EllipsisLabel>)
    requires capacity >= |text|
    ensures r.Ok? ==> r.value.fullText == text
    ensures r.Ok? ==> r.value.leftKeep == e.leftKeep && r.value.rightKeep == e.rightKeep
    ensures r == Refresh(e.(fullText := text), capacity)
  {
    Refresh(e.(fullText := text), capacity)
  }

  /** `Tapped`: the text copied to the clipboard is the full text. */
  function Tapped(e: EllipsisLabel): (copied: string)
  {
    e.fullText
  }

  /** Whatever the display shows, a tap after `SetText` copies the text that
      was set, and refreshing again changes nothing. */
  lemma SetTextThenTap(e: EllipsisLabel, text: string, capacity: int)
    requires e.leftKeep >= 0 && e.rightKeep >= 0 && capacity >= |text|
    ensures SetText(e, text, capacity).Ok?
    ensures Tapped(SetText(e, text, capacity).value) == text
    ensures Refresh(SetText(e, text, capacity).value, capacity) == SetText(e, text, capacity)
    ensures |text| > e.leftKeep + e.rightKeep + 3 ==> SetText(e, text, capacity).value.display != text
  {
    if |text| > e.leftKeep + e.rightKeep + 3 {
      ShortenedShape(text, e.leftKeep, e.rightKeep, capacity);
    }
  }

  lemma ScenarioShortened()
    ensures Shorten("abcdefghij", 2, 3, 10) == Ok("ab...hij")
    ensures Shorten("abcdefgh", 2, 3, 8) == Ok("abcdefgh")
  {
    var s := "abcdefghij";
    ShortenedShape(s, 2, 3, 10);
    assert s[..2] == "ab";
    assert s[7..] == "hij";
    assert "ab" + Dots + "hij" == "ab...hij";
  }

  /** A left keep past the text reads the NUL runes of the slice's spare
      capacity, and panics when the capacity is exactly the rune count. */
  lemma ScenarioSpareCapacity()
    ensures Shorten("abcdefghij", 12, -10, 32) == Ok("abcdefghij\0\0...")
    ensures Shorten("abcdefghij", 12, -10, 10) == Panic(SliceOutOfRange)
  {
    var left := "abcdefghij" + Nuls(2);
    assert left == "abcdefghij\0\0";
    assert left + Dots + "" == "abcdefghij\0\0...";
  }
}
