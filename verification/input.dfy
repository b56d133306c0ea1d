/** The host toolkit's keyboard input as the entries see it: typed runes,
    named keys and shortcuts, and the stream of them that an entry lets
    through to the toolkit's own `widget.Entry`. */
module Input {

  /** `fyne.Shortcut` as the entries distinguish it; a paste carries the
      clipboard content it would insert. */
  datatype Shortcut = Paste(content: string) | Copy | Cut | SelectAll | OtherShortcut(name: string)

  /** One input event delivered to a focused entry. */
  datatype Event = RuneTyped(r: char) | KeyTyped(name: string) | ShortcutTyped(sc: Shortcut)

  /** The `fyne.KeyName` values the read-only entry refuses. */
  const KeyBackspace: string := "BackSpace"
  const KeyDelete: string := "Delete"
  const KeyReturn: string := "Return"
  const KeyEnter: string := "KP_Enter"

  /** Typing a text rune by rune. */
  function TypeText(s: string): (evs: seq<Event>)
    ensures |evs| == |s| && forall k :: 0 <= k < |s| ==> evs[k] == RuneTyped(s[k])
  {
    seq(|s|, k requires 0 <= k < |s| => RuneTyped(s[k]))
  }

  /** The events an override lets through to the embedded entry, in the
      order they arrived: each event is handled on its own. */
  function Delivered(evs: seq<Event>, forwards: Event -> bool): (out: seq<Event>)
    ensures |out| <= |evs|
    ensures forall k :: 0 <= k < |out| ==> forwards(out[k])
    decreases |evs|
  {
    if |evs| == 0 then []
    else (if forwards(evs[0]) then [evs[0]] else []) + Delivered(evs[1..], forwards)
  }

  /** Every delivered event is one of the events that arrived. */
  lemma {:induction false} DeliveredFromInput(evs: seq<Event>, forwards: Event -> bool)
    ensures forall e :: e in Delivered(evs, forwards) ==> e in evs
    decreases |evs|
  {
    if |evs| > 0 {
      DeliveredFromInput(evs[1..], forwards);
      assert forall e :: e in evs[1..] ==> e in evs;
    }
  }

  /** Nothing is lost that the override forwards: the stream passes
      unchanged exactly when every event in it is forwarded. */
  lemma {:induction false} DeliveredAllIff(evs: seq<Event>, forwards: Event -> bool)
    ensures Delivered(evs, forwards) == evs <==> forall k :: 0 <= k < |evs| ==> forwards(evs[k])
    decreases |evs|
  {
    if |evs| > 0 {
      DeliveredAllIff(evs[1..], forwards);
      if !forwards(evs[0]) {
        assert |Delivered(evs, forwards)| < |evs| by {
          assert Delivered(evs, forwards) == Delivered(evs[1..], forwards);
        }
      } else {
        assert Delivered(evs, forwards) == [evs[0]] + Delivered(evs[1..], forwards);
        if Delivered(evs, forwards) == evs {
          assert Delivered(evs[1..], forwards) == evs[1..];
        }
        if forall k :: 0 <= k < |evs| ==> forwards(evs[k]) {
          assert forall k :: 0 <= k < |evs[1..]| ==> forwards(evs[1..][k]) by {
            forall k | 0 <= k < |evs[1..]| ensures forwards(evs[1..][k]) {
              assert evs[1..][k] == evs[k + 1];
            }
          }
        }
      }
    }
  }

  /** A stream of which nothing is forwarded delivers nothing. */
  lemma {:induction false} DeliveredNone(evs: seq<Event>, forwards: Event -> bool)
    requires forall k :: 0 <= k < |evs| ==> !forwards(evs[k])
    ensures Delivered(evs, forwards) == []
    decreases |evs|
  {
    if |evs| > 0 {
      assert forall k :: 0 <= k < |evs[1..]| ==> evs[1..][k] == evs[k + 1];
      DeliveredNone(evs[1..], forwards);
    }
  }

  /** An event that arrived and is forwarded is delivered. */
  lemma {:induction false} DeliveredKeeps(evs: seq<Event>, forwards: Event -> bool, e: Event)
    requires e in evs && forwards(e)
    ensures e in Delivered(evs, forwards)
    decreases |evs|
  {
    if evs[0] != e {
      assert e in evs[1..];
      DeliveredKeeps(evs[1..], forwards, e);
    }
  }

  /** Filtering one stream after another is filtering their concatenation. */
  lemma {:induction false} DeliveredAppend(a: seq<Event>, b: seq<Event>, forwards: Event -> bool)
    ensures Delivered(a + b, forwards) == Delivered(a, forwards) + Delivered(b, forwards)
    decreases |a|
  {
    if |a| == 0 {
      assert a + b == b;
    } else {
      assert (a + b)[0] == a[0];
      assert (a + b)[1..] == a[1..] + b;
      DeliveredAppend(a[1..], b, forwards);
    }
  }
}
