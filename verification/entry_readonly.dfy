/** mywidget/entry.readonly.go: an entry that can be selected and copied
    from but not typed into: every rune, the deleting and line-breaking keys
    and every paste are dropped before they reach the embedded entry. The
    cut shortcut is not dropped and edits the text; `ForwardsCorrected`
    refuses it as well. */
module EntryReadonly {
  import opened Input

  /** The keys `TypedKey` drops. */
  const BlockedKeys: set<string> := {KeyBackspace, KeyDelete, KeyReturn, KeyEnter}

  /** Whether the entry hands an event on to the embedded `widget.Entry`. */
  function Forwards(e: Event): (fwd: bool)
    ensures e.RuneTyped? ==> !fwd
    ensures e.KeyTyped? ==> (fwd <==> e.name != "BackSpace" && e.name != "Delete" && e.name != "Return" && e.name != "KP_Enter")
    ensures e.ShortcutTyped? ==> (fwd <==> !e.sc.Paste?)
  {
    match e
    case RuneTyped(_) => false
    case KeyTyped(name) => name !in BlockedKeys
    case ShortcutTyped(sc) => !sc.Paste?
  }

  /** `Forwards` as the filter of an event stream. */
  function Filter(): Event -> bool
  {
    e => Forwards(e)
  }

  /** Whatever is typed, no rune, no deleting or line-breaking key and no
      paste reaches the embedded entry; everything else does, in order. */
  lemma DeliveredExceptBlocked(evs: seq<Event>)
    ensures forall e :: e in Delivered(evs, Filter()) ==>
      !e.RuneTyped? && !(e.ShortcutTyped? && e.sc.Paste?) && !(e.KeyTyped? && e.name in BlockedKeys)
    ensures forall e :: e in Delivered(evs, Filter()) ==> e in evs
    ensures Delivered(evs, Filter()) == evs <==> forall k :: 0 <= k < |evs| ==> Forwards(evs[k])
  {
    DeliveredFromInput(evs, Filter());
    DeliveredAllIff(evs, Filter());
  }

  /** The events the embedded `widget.Entry` answers by changing its text:
      a rune is inserted, Backspace and Delete erase, Return and Enter
      break the line, a paste inserts the clipboard and a cut erases the
      selection. */
  predicate EditsText(e: Event)
  {
    || e.RuneTyped?
    || (e.KeyTyped? && e.name in BlockedKeys)
    || (e.ShortcutTyped? && (e.sc.Paste? || e.sc.Cut?))
  }

  /** As written, a cut is not among the refused shortcuts: it reaches the
      embedded entry, which erases the selection from the text. */
  lemma CutReachesEntry(evs: seq<Event>)
    requires ShortcutTyped(Cut) in evs
    ensures ShortcutTyped(Cut) in Delivered(evs, Filter())
    ensures exists e :: e in Delivered(evs, Filter()) && EditsText(e)
  {
    DeliveredKeeps(evs, Filter(), ShortcutTyped(Cut));
  }

  /** `TypedShortcut` refusing a cut as it refuses a paste. */
  function ForwardsCorrected(e: Event): (fwd: bool)
    ensures fwd <==> Forwards(e) && e != ShortcutTyped(Cut)
    ensures fwd ==> !EditsText(e)
  {
    match e
    case RuneTyped(_) => false
    case KeyTyped(name) => name !in BlockedKeys
    case ShortcutTyped(sc) => !sc.Paste? && !sc.Cut?
  }

  /** `ForwardsCorrected` as the filter of an event stream. */
  function FilterCorrected(): Event -> bool
  {
    e => ForwardsCorrected(e)
  }

  /** With cuts refused, nothing that reaches the embedded entry edits the
      text, while selecting and copying still pass. */
  lemma CorrectedDeliversNoEdit(evs: seq<Event>)
    ensures forall e :: e in Delivered(evs, FilterCorrected()) ==> !EditsText(e)
    ensures ShortcutTyped(Copy) in evs ==> ShortcutTyped(Copy) in Delivered(evs, FilterCorrected())
    ensures ShortcutTyped(SelectAll) in evs ==> ShortcutTyped(SelectAll) in Delivered(evs, FilterCorrected())
  {
    if ShortcutTyped(Copy) in evs {
      DeliveredKeeps(evs, FilterCorrected(), ShortcutTyped(Copy));
    }
    if ShortcutTyped(SelectAll) in evs {
      DeliveredKeeps(evs, FilterCorrected(), ShortcutTyped(SelectAll));
    }
  }

  /** Typing a text delivers nothing at all. */
  lemma TypingDeliversNothing(s: string)
    ensures Delivered(TypeText(s), Filter()) == []
  {
    DeliveredNone(TypeText(s), Filter());
  }

  /** Selecting, copying and moving the cursor pass through. */
  lemma ScenarioSelectAndCopy()
    ensures var evs := [KeyTyped("Left"), ShortcutTyped(SelectAll), ShortcutTyped(Copy)];
      Delivered(evs, Filter()) == evs
    ensures Delivered([KeyTyped(KeyBackspace), ShortcutTyped(Paste("x")), ShortcutTyped(Copy)], Filter())
         == [ShortcutTyped(Copy)]
  {
    var evs := [KeyTyped("Left"), ShortcutTyped(SelectAll), ShortcutTyped(Copy)];
    DeliveredAllIff(evs, Filter());
  }

  /** `NewReadonlyEntry`: the text as given, wrapped at word boundaries. */
  datatype Wrapping = WrapOff | WrapBreak | WrapWord
  datatype ReadonlyEntry = ReadonlyEntry(text: string, wrapping: Wrapping)

  function NewReadonlyEntry(text: string): (e: ReadonlyEntry)
    ensures e.text == text && e.wrapping == WrapWord
  {
    ReadonlyEntry(text, WrapWord)
  }
}
