/** String helpers with the semantics of Go's `strings.Split` (single
    character separator), `strings.Join` and `strings.TrimSpace`. Strings are
    sequences of runes. */
module Text {

  /** `strings.Split(s, string(sep))`: the pieces between separators; the
      empty string splits into one empty piece. */
  function Split(s: string, sep: char): (parts: seq<string>)
    ensures |parts| >= 1
    ensures forall k :: 0 <= k < |parts| ==> sep !in parts[k]
    decreases |s|
  {
    if |s| == 0 then [""]
    else
      var rest := Split(s[1..], sep);
      if s[0] == sep then [""] + rest
      else [[s[0]] + rest[0]] + rest[1..]
  }

  /** `strings.Join(parts, sep)`. */
  function Join(parts: seq<string>, sep: string): string
    decreases |parts|
  {
    if |parts| == 0 then ""
    else if |parts| == 1 then parts[0]
    else parts[0] + sep + Join(parts[1..], sep)
  }

  /** Joining with the separator undoes splitting. */
  lemma {:induction false} JoinSplit(s: string, sep: char)
    ensures Join(Split(s, sep), [sep]) == s
    decreases |s|
  {
    if |s| > 0 {
      JoinSplit(s[1..], sep);
      var rest := Split(s[1..], sep);
      if s[0] == sep {
        assert Split(s, sep)[1..] == rest;
      } else if |rest| == 1 {
        assert [s[0]] + s[1..] == s;
      } else {
        var parts := Split(s, sep);
        assert parts[1..] == rest[1..];
        assert Join(rest, [sep]) == rest[0] + [sep] + Join(rest[1..], [sep]);
        assert [s[0]] + s[1..] == s;
      }
    }
  }

  /** Splitting a string that ends in a separator followed by a piece free of
      separators yields the pieces of the prefix followed by that piece. */
  lemma {:induction false} SplitAppend(a: string, sep: char, b: string)
    requires sep !in b
    ensures Split(a + [sep] + b, sep) == Split(a, sep) + [b]
    decreases |a|
  {
    if |a| == 0 {
      SplitNoSeparator(b, sep);
      assert [sep] + b == a + [sep] + b;
      assert ([sep] + b)[1..] == b;
    } else {
      SplitAppend(a[1..], sep, b);
      assert (a + [sep] + b)[1..] == a[1..] + [sep] + b;
    }
  }

  /** A string without separators is a single piece. */
  lemma {:induction false} SplitNoSeparator(s: string, sep: char)
    requires sep !in s
    ensures Split(s, sep) == [s]
    decreases |s|
  {
    if |s| > 0 {
      SplitNoSeparator(s[1..], sep);
      assert [s[0]] + s[1..] == s;
    }
  }

  /** Splitting a string that starts with a separator-free piece and a
      separator yields that piece followed by the pieces of the rest. */
  lemma {:induction false} SplitPrepend(a: string, sep: char, b: string)
    requires sep !in a
    ensures Split(a + [sep] + b, sep) == [a] + Split(b, sep)
    decreases |a|
  {
    if |a| == 0 {
      assert a + [sep] + b == [sep] + b;
      assert ([sep] + b)[1..] == b;
    } else {
      SplitPrepend(a[1..], sep, b);
      assert (a + [sep] + b)[1..] == a[1..] + [sep] + b;
      assert [a[0]] + a[1..] == a;
    }
  }

  /** Splitting undoes joining when no piece holds the separator. */
  lemma {:induction false} SplitJoin(parts: seq<string>, sep: char)
    requires |parts| >= 1
    requires forall k :: 0 <= k < |parts| ==> sep !in parts[k]
    ensures Split(Join(parts, [sep]), sep) == parts
    decreases |parts|
  {
    if |parts| == 1 {
      SplitNoSeparator(parts[0], sep);
    } else {
      SplitJoin(parts[1..], sep);
      SplitPrepend(parts[0], sep, Join(parts[1..], [sep]));
      assert [parts[0]] + parts[1..] == parts;
    }
  }

  /** The number of characters of a joined text: every piece plus one
      separator between each pair of neighbours. */
  function TotalLength(parts: seq<string>): nat
  {
    if |parts| == 0 then 0 else |parts[0]| + TotalLength(parts[1..])
  }

  lemma {:induction false} JoinLength(parts: seq<string>, sep: string)
    requires |parts| >= 1
    ensures |Join(parts, sep)| == TotalLength(parts) + (|parts| - 1) * |sep|
    decreases |parts|
  {
    if |parts| > 1 {
      JoinLength(parts[1..], sep);
    }
  }

  /** `unicode.IsSpace`: the Latin-1 spaces and the other White_Space runes. */
  predicate IsSpace(c: char)
  {
    var n := c as int;
    n == 0x20 || (0x09 <= n <= 0x0D) || n == 0x85 || n == 0xA0 || n == 0x1680
    || (0x2000 <= n <= 0x200A) || n == 0x2028 || n == 0x2029 || n == 0x202F
    || n == 0x205F || n == 0x3000
  }

  /** The index of the first rune at or after `i` that is not white space
      (`|s|` when there is none). */
  function SkipSpace(s: string, i: nat): (r: nat)
    requires i <= |s|
    ensures i <= r <= |s|
    ensures forall k :: i <= k < r ==> IsSpace(s[k])
    ensures r < |s| ==> !IsSpace(s[r])
    decreases |s| - i
  {
    if i < |s| && IsSpace(s[i]) then SkipSpace(s, i + 1) else i
  }

  /** The index just past the last rune before `j` that is not white space
      (0 when there is none). */
  function SkipSpaceBack(s: string, j: nat): (r: nat)
    requires j <= |s|
    ensures r <= j
    ensures forall k :: r <= k < j ==> IsSpace(s[k])
    ensures r > 0 ==> !IsSpace(s[r - 1])
  {
    if j > 0 && IsSpace(s[j - 1]) then SkipSpaceBack(s, j - 1) else j
  }

  /** `strings.TrimLeft` with white space: drop the longest all-space prefix. */
  function TrimLeft(s: string): (t: string)
    ensures |t| <= |s|
    ensures |t| > 0 ==> !IsSpace(t[0])
    ensures t == s[|s|-|t|..]
    ensures forall k :: 0 <= k < |s| - |t| ==> IsSpace(s[k])
  {
    s[SkipSpace(s, 0)..]
  }

  /** `strings.TrimRight` with white space: drop the longest all-space
      suffix. */
  function TrimRight(s: string): (t: string)
    ensures |t| <= |s|
    ensures |t| > 0 ==> !IsSpace(t[|t|-1])
    ensures t == s[..|t|]
    ensures forall k :: |t| <= k < |s| ==> IsSpace(s[k])
  {
    s[..SkipSpaceBack(s, |s|)]
  }

  /** `strings.TrimSpace`: drop leading and trailing white space. The
      result is the slice of `s` between an all-space prefix and an
      all-space suffix, and is empty or starts and ends with a rune that is
      not white space. */
  function TrimSpace(s: string): (t: string)
    ensures |t| <= |s|
    ensures |t| > 0 ==> !IsSpace(t[0]) && !IsSpace(t[|t|-1])
    ensures var i := SkipSpace(s, 0);
      && i + |t| <= |s| && t == s[i..i + |t|]
      && (forall k :: 0 <= k < i ==> IsSpace(s[k]))
      && (forall k :: i + |t| <= k < |s| ==> IsSpace(s[k]))
  {
    TrimRightOfTrimLeft(s);
    TrimRight(TrimLeft(s))
  }

  /** Trimming the right end of the left-trimmed text leaves a slice of `s`
      between the leading and the trailing white space. */
  lemma TrimRightOfTrimLeft(s: string)
    ensures var i := SkipSpace(s, 0);
      var t := TrimRight(TrimLeft(s));
      && i + |t| <= |s| && t == s[i..i + |t|]
      && (forall k :: i + |t| <= k < |s| ==> IsSpace(s[k]))
  {
    var i := SkipSpace(s, 0);
    var l := TrimLeft(s);
    assert l == s[i..];
    var t := TrimRight(l);
    forall k | i + |t| <= k < |s|
      ensures IsSpace(s[k])
    {
      assert s[k] == l[k - i];
    }
  }

  /** A text that neither starts nor ends with white space is its own
      trimmed text. */
  lemma TrimSpaceKeepsTrimmed(s: string)
    requires |s| > 0 && !IsSpace(s[0]) && !IsSpace(s[|s|-1])
    ensures TrimSpace(s) == s
  {
    assert SkipSpace(s, 0) == 0;
    assert SkipSpaceBack(s, |s|) == |s|;
    assert s[0..] == s;
  }

  /** Surrounding a text that neither starts nor ends with white space by
      single spaces is undone by TrimSpace. */
  lemma TrimSpacePadded(s: string)
    requires |s| > 0 && !IsSpace(s[0]) && !IsSpace(s[|s|-1])
    ensures TrimSpace(" " + s + " ") == s
  {
    var p := " " + s + " ";
    assert SkipSpace(p, 1) == 1;
    assert SkipSpace(p, 0) == 1;
    assert p[1..] == s + " ";
    assert SkipSpaceBack(s + " ", |s| + 1) == |s|;
    assert (s + " ")[..|s|] == s;
  }
}
