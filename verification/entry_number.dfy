/** mywidget/entry.number.go: an entry that takes only digits and '.' from
    the keyboard and refuses pastes that are not numbers. `strconv.ParseFloat`
    is an abstract predicate `parsesAsFloat` on the clipboard text. */
module EntryNumber {
  import opened Basics
  import opened Decimal
  import opened Input

  /** The runes `TypedRune` lets through. The test looks at one rune at a
      time, so several '.' pass and a sign or exponent never does. */
  predicate AcceptsRune(r: char)
  {
    IsDigit(r) || r == '.'
  }

  /** A text made only of accepted runes. */
  predicate NumericChars(s: string)
  {
    forall k :: 0 <= k < |s| ==> AcceptsRune(s[k])
  }

  /** Whether the entry hands an event on to the embedded `widget.Entry`: a
      rune when it is accepted; a paste when its content parses as a float;
      every other shortcut and every key (the entry does not override
      `TypedKey`). */
  function Forwards(parsesAsFloat: string -> bool, e: Event): (fwd: bool)
    ensures e.RuneTyped? ==> (fwd <==> IsDigit(e.r) || e.r == '.')
    ensures e.ShortcutTyped? && e.sc.Paste? ==> (fwd <==> parsesAsFloat(e.sc.content))
    ensures e.ShortcutTyped? && !e.sc.Paste? ==> fwd
    ensures e.KeyTyped? ==> fwd
  {
    match e
    case RuneTyped(r) => AcceptsRune(r)
    case KeyTyped(_) => true
    case ShortcutTyped(sc) => if sc.Paste? then parsesAsFloat(sc.content) else true
  }

  /** `Forwards` as the filter of an event stream. */
  function Filter(parsesAsFloat: string -> bool): Event -> bool
  {
    e => Forwards(parsesAsFloat, e)
  }

  /** The runes among the delivered events. */
  function TypedRunes(evs: seq<Event>): (s: string)
    decreases |evs|
  {
    if |evs| == 0 then ""
    else (if evs[0].RuneTyped? then [evs[0].r] else "") + TypedRunes(evs[1..])
  }

  /** Only accepted runes reach the embedded entry, whatever is typed. */
  lemma {:induction false} DeliveredRunesAreNumeric(parsesAsFloat: string -> bool, evs: seq<Event>)
    ensures NumericChars(TypedRunes(Delivered(evs, Filter(parsesAsFloat))))
    decreases |evs|
  {
    var fwd := Filter(parsesAsFloat);
    if |evs| > 0 {
      DeliveredRunesAreNumeric(parsesAsFloat, evs[1..]);
      var rest := Delivered(evs[1..], fwd);
      if fwd(evs[0]) {
        assert Delivered(evs, fwd) == [evs[0]] + rest;
        assert ([evs[0]] + rest)[1..] == rest;
      } else {
        assert Delivered(evs, fwd) == rest;
      }
    }
  }

  /** Inserting delivered runes anywhere into a text of digits and dots (as
      the embedded entry does at its cursor) keeps it digits and dots. */
  lemma InsertKeepsNumeric(parsesAsFloat: string -> bool, text: string, at: nat, evs: seq<Event>)
    requires NumericChars(text) && at <= |text|
    ensures NumericChars(text[..at] + TypedRunes(Delivered(evs, Filter(parsesAsFloat))) + text[at..])
  {
    DeliveredRunesAreNumeric(parsesAsFloat, evs);
  }

  /** A typed rune reaches the entry exactly when it is a digit or '.'. */
  lemma RuneFilter(parsesAsFloat: string -> bool)
    ensures forall c: char :: Forwards(parsesAsFloat, RuneTyped(c)) <==> ('0' <= c <= '9' || c == '.')
    ensures Forwards(parsesAsFloat, RuneTyped('.'))
    ensures !Forwards(parsesAsFloat, RuneTyped('-')) && !Forwards(parsesAsFloat, RuneTyped('+'))
    ensures !Forwards(parsesAsFloat, RuneTyped('e'))
  {
  }

  /** `NewEntryByInt(i)`: the text is `%d` of i, which reads back as i. */
  function NewEntryByInt(i: int): (text: string)
    ensures Atoi(text) == Some(i)
    ensures NumericChars(text) <==> i >= 0
  {
    AtoiIntToString(i);
    IntToString(i)
  }

  /** Typing the initial text of a non-negative number rune by rune gets
      every rune through, while a negative number loses its sign. */
  lemma TypingNewEntryText(parsesAsFloat: string -> bool, i: int)
    ensures var evs := TypeText(NewEntryByInt(i));
      Delivered(evs, Filter(parsesAsFloat)) == evs <==> i >= 0
  {
    var s := NewEntryByInt(i);
    var evs := TypeText(s);
    var fwd := Filter(parsesAsFloat);
    DeliveredAllIff(evs, fwd);
    if i < 0 {
      assert !fwd(evs[0]);
    } else {
      assert forall k :: 0 <= k < |evs| ==> fwd(evs[k]) by {
        forall k | 0 <= k < |evs| ensures fwd(evs[k]) {
          assert evs[k] == RuneTyped(s[k]);
          assert AcceptsRune(s[k]);
        }
      }
    }
  }
}
