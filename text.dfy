/**
 * The JavaScript string operations the application relies on, written out:
 * `String.prototype.trim`, `split` on a one-character separator, `Array.prototype.join`,
 * `toLowerCase` restricted to ASCII letters, `includes`, `replace` with a one-character
 * string pattern, and the UTF-16 length that Zod's `min` compares against.
 */
module Text {

  /** ECMAScript WhiteSpace and LineTerminator code points: exactly what `trim` removes. */
  predicate IsJsSpace(c: char)
  {
    || c == '\t' || c == '\n' || c == '\U{000B}' || c == '\U{000C}' || c == '\r' || c == ' '
    || c == '\U{00A0}' || c == '\U{1680}' || ('\U{2000}' <= c <= '\U{200A}')
    || c == '\U{2028}' || c == '\U{2029}' || c == '\U{202F}' || c == '\U{205F}'
    || c == '\U{3000}' || c == '\U{FEFF}'
  }

  predicate AllSpace(s: string)
  {
    forall i :: 0 <= i < |s| ==> IsJsSpace(s[i])
  }

  // ---------------------------------------------------------------------------
  // trim
  // ---------------------------------------------------------------------------

  /** How many white-space characters `s` starts with. */
  function LeadingSpace(s: string): (n: nat)
    ensures n <= |s|
    ensures forall i :: 0 <= i < n ==> IsJsSpace(s[i])
    ensures n < |s| ==> !IsJsSpace(s[n])
  {
    if s == [] || !IsJsSpace(s[0]) then 0 else 1 + LeadingSpace(s[1..])
  }

  /** Where the white space that `s` ends with begins. */
  function TrailingSpaceStart(s: string): (n: nat)
    ensures n <= |s|
    ensures forall i :: n <= i < |s| ==> IsJsSpace(s[i])
    ensures n > 0 ==> !IsJsSpace(s[n - 1])
  {
    if s == [] || !IsJsSpace(s[|s| - 1]) then |s| else TrailingSpaceStart(s[..|s| - 1])
  }

  /**
   * `s.trim()`: what is left is a contiguous slice of `s`, everything cut off is white
   * space, and what is left neither starts nor ends with white space.
   */
  function Trim(s: string): (r: string)
    ensures TrimmedAt(s, r, LeadingSpace(s))
    ensures NoOuterSpace(r)
  {
    var a := LeadingSpace(s);
    var t := s[a..];
    var b := TrailingSpaceStart(t);
    assert t[..b] == s[a..a + b];
    var head, tail := s[..a], s[a + b..];
    assert AllSpace(head) by {
      forall i | 0 <= i < |head| ensures IsJsSpace(head[i]) { assert head[i] == s[i]; }
    }
    assert AllSpace(tail) by {
      forall i | 0 <= i < |tail| ensures IsJsSpace(tail[i]) { assert tail[i] == t[b + i]; }
    }
    t[..b]
  }

  /** `r` sits in `s` at offset `i` and everything around it is white space. */
  predicate TrimmedAt(s: string, r: string, i: int)
  {
    && 0 <= i <= |s| - |r|
    && r == s[i..i + |r|]
    && AllSpace(s[..i])
    && AllSpace(s[i + |r|..])
  }

  /** Neither the first nor the last character of `s` is white space. */
  predicate NoOuterSpace(s: string)
  {
    s == [] || (!IsJsSpace(s[0]) && !IsJsSpace(s[|s| - 1]))
  }

  /** A string without white space at either end is left as it is. */
  lemma TrimKeepsTrimmed(s: string)
    requires NoOuterSpace(s)
    ensures Trim(s) == s
  {
    if s != [] {
      assert LeadingSpace(s) == 0;
      assert s[0..] == s;
      assert TrailingSpaceStart(s) == |s|;
    }
  }

  /** Trimming twice is trimming once. */
  lemma TrimIdempotent(s: string)
    ensures Trim(Trim(s)) == Trim(s)
  {
    TrimKeepsTrimmed(Trim(s));
  }

  /** A string of white space only trims to the empty string. */
  lemma {:induction false} TrimAllSpace(s: string)
    requires AllSpace(s)
    ensures LeadingSpace(s) == |s|
    ensures Trim(s) == []
  {
    if s != [] {
      assert IsJsSpace(s[0]);
      TrimAllSpace(s[1..]);
    }
  }

  /** White space put in front of a string does not change its trimmed form. */
  lemma TrimIgnoresLeadingSpace(c: char, s: string)
    requires IsJsSpace(c)
    ensures Trim([c] + s) == Trim(s)
  {
    var cs := [c] + s;
    assert cs[1..] == s;
    assert LeadingSpace(cs) == 1 + LeadingSpace(s);
    assert cs[LeadingSpace(cs)..] == s[LeadingSpace(s)..];
  }

  // ---------------------------------------------------------------------------
  // split and join
  // ---------------------------------------------------------------------------

  /**
   * `s.split(sep)` for a one-character separator: the pieces between separators, in order.
   * Empty pieces are kept, so there is always one piece more than there are separators
   * (the empty string splits into one empty piece).
   */
  function Split(s: string, sep: char): (r: seq<string>)
    ensures |r| == Count(s, sep) + 1
    ensures forall i :: 0 <= i < |r| ==> sep !in r[i]
  {
    if s == [] then [[]]
    else
      var rest := Split(s[1..], sep);
      if s[0] == sep then [[]] + rest
      else [[s[0]] + rest[0]] + rest[1..]
  }

  /** How many times `c` occurs in `s`. */
  function Count(s: string, c: char): nat
  {
    if s == [] then 0 else (if s[0] == c then 1 else 0) + Count(s[1..], c)
  }

  /** `items.join(sep)`: the items in order with `sep` between neighbours and nowhere else. */
  function JoinWith(items: seq<string>, sep: string): (r: string)
    ensures |items| > 0 ==> items[0] <= r
  {
    if |items| == 0 then []
    else if |items| == 1 then items[0]
    else items[0] + sep + JoinWith(items[1..], sep)
  }

  /** A non-empty join ends with the last item: no separator is put after it. */
  lemma {:induction false} JoinWithEnds(items: seq<string>, sep: string)
    requires |items| > 0
    ensures |items[|items| - 1]| <= |JoinWith(items, sep)|
    ensures JoinWith(items, sep)[|JoinWith(items, sep)| - |items[|items| - 1]|..] == items[|items| - 1]
  {
    if |items| > 1 {
      var rest := JoinWith(items[1..], sep);
      JoinWithEnds(items[1..], sep);
      var r := JoinWith(items, sep);
      assert r == items[0] + sep + rest;
      assert r[|r| - |rest|..] == rest;
    }
  }

  /** Joining the pieces of a split with the separator gives back the original string. */
  lemma {:induction false} JoinSplit(s: string, sep: char)
    ensures JoinWith(Split(s, sep), [sep]) == s
  {
    if s != [] {
      var rest := Split(s[1..], sep);
      JoinSplit(s[1..], sep);
      assert JoinWith(rest, [sep]) == s[1..];
      var r := Split(s, sep);
      if s[0] == sep {
        assert r == [[]] + rest;
        assert r[1..] == rest;
        assert JoinWith(r, [sep]) == [] + [sep] + JoinWith(rest, [sep]);
      } else if |rest| == 1 {
        assert r == [[s[0]] + rest[0]];
        assert JoinWith(r, [sep]) == [s[0]] + s[1..];
      } else {
        assert r == [[s[0]] + rest[0]] + rest[1..];
        assert r[1..] == rest[1..];
        assert JoinWith(r, [sep]) == [s[0]] + (rest[0] + [sep] + JoinWith(rest[1..], [sep]));
      }
      assert [s[0]] + s[1..] == s;
    }
  }

  /** A string without the separator splits into itself alone. */
  lemma {:induction false} SplitWithoutSeparator(s: string, sep: char)
    requires sep !in s
    ensures Split(s, sep) == [s]
  {
    if s != [] {
      assert sep !in s[1..];
      SplitWithoutSeparator(s[1..], sep);
      assert [s[0]] + s[1..] == s;
    }
  }

  /** Splitting at the first separator: the part before it comes out as the first piece. */
  lemma {:induction false} SplitAtFirstSeparator(x: string, sep: char, y: string)
    requires sep !in x
    ensures Split(x + [sep] + y, sep) == [x] + Split(y, sep)
  {
    var s := x + [sep] + y;
    if x == [] {
      assert s[1..] == y;
    } else {
      assert s[1..] == x[1..] + [sep] + y;
      assert sep !in x[1..];
      SplitAtFirstSeparator(x[1..], sep, y);
      var rest := Split(s[1..], sep);
      assert rest[0] == x[1..] && rest[1..] == Split(y, sep);
      assert [x[0]] + x[1..] == x;
    }
  }

  /** Splitting a join gives the items back, when no item contains the separator. */
  lemma {:induction false} SplitJoin(items: seq<string>, sep: char)
    requires |items| > 0
    requires forall i :: 0 <= i < |items| ==> sep !in items[i]
    ensures Split(JoinWith(items, [sep]), sep) == items
  {
    if |items| == 1 {
      SplitWithoutSeparator(items[0], sep);
    } else {
      SplitJoin(items[1..], sep);
      SplitAtFirstSeparator(items[0], sep, JoinWith(items[1..], [sep]));
      assert [items[0]] + items[1..] == items;
    }
  }

  /**
   * The join of a list is the join of its first `k` items, one separator, and the join of
   * the others: the items keep their order and are separated by exactly one `sep`.
   */
  lemma {:induction false} JoinWithSplitAt(items: seq<string>, sep: string, k: nat)
    requires 0 < k < |items|
    ensures JoinWith(items, sep) == JoinWith(items[..k], sep) + sep + JoinWith(items[k..], sep)
  {
    if k > 1 {
      JoinWithSplitAt(items[1..], sep, k - 1);
      assert items[1..][..k - 1] == items[..k][1..];
      assert items[1..][k - 1..] == items[k..];
    }
  }

  // ---------------------------------------------------------------------------
  // split followed by trim of every piece
  // ---------------------------------------------------------------------------

  /** `s.split(sep).map(p => p.trim())`: every piece of the split, trimmed, in order. */
  function SplitTrim(s: string, sep: char): (r: seq<string>)
    ensures |r| == Count(s, sep) + 1
    ensures forall i :: 0 <= i < |r| ==> r[i] == Trim(Split(s, sep)[i])
  {
    TrimEach(Split(s, sep))
  }

  /** `pieces.map(p => p.trim())`. */
  function TrimEach(pieces: seq<string>): (r: seq<string>)
    ensures |r| == |pieces|
    ensures forall i :: 0 <= i < |r| ==> r[i] == Trim(pieces[i])
  {
    if pieces == [] then [] else [Trim(pieces[0])] + TrimEach(pieces[1..])
  }

  /** Whether a string is its own trimmed form and holds no `sep`. */
  predicate CleanItem(x: string, sep: char)
  {
    Trim(x) == x && sep !in x
  }

  /** Every item with one space put in front. */
  function SpaceEach(items: seq<string>): (r: seq<string>)
    ensures |r| == |items|
    ensures forall i :: 0 <= i < |r| ==> r[i] == [' '] + items[i]
  {
    if items == [] then [] else [[' '] + items[0]] + SpaceEach(items[1..])
  }

  /** Joining with `sep` and a space is joining with `sep` alone after a space is put in front of every item but the first. */
  lemma {:induction false} JoinSpaced(items: seq<string>, sep: char)
    requires |items| > 0
    ensures JoinWith(items, [sep, ' ']) == JoinWith([items[0]] + SpaceEach(items[1..]), [sep])
  {
    var spaced := [items[0]] + SpaceEach(items[1..]);
    if |items| > 1 {
      var tail := items[1..];
      JoinSpaced(tail, sep);
      assert spaced[1..] == SpaceEach(tail);
      assert SpaceEach(tail) == [[' '] + tail[0]] + SpaceEach(tail[1..]);
      var tailSpaced := [tail[0]] + SpaceEach(tail[1..]);
      if |tail| == 1 {
        assert JoinWith(SpaceEach(tail), [sep]) == [' '] + tail[0];
      } else {
        assert SpaceEach(tail)[1..] == SpaceEach(tail[1..]) == tailSpaced[1..];
        assert JoinWith(SpaceEach(tail), [sep]) == ([' '] + tail[0]) + [sep] + JoinWith(SpaceEach(tail[1..]), [sep]);
        assert JoinWith(tailSpaced, [sep]) == tail[0] + [sep] + JoinWith(SpaceEach(tail[1..]), [sep]);
      }
      assert JoinWith(SpaceEach(tail), [sep]) == [' '] + JoinWith(tailSpaced, [sep]);
      assert JoinWith(spaced, [sep]) == items[0] + [sep] + JoinWith(SpaceEach(tail), [sep]);
    }
  }

  /**
   * Items joined by `sep` and a space (as `items.join(', ')` shows them in a form) come back
   * unchanged from split-and-trim, when every item is already trimmed and holds no separator.
   */
  lemma SplitTrimJoin(items: seq<string>, sep: char)
    requires |items| > 0
    requires sep != ' '
    requires forall i :: 0 <= i < |items| ==> CleanItem(items[i], sep)
    ensures SplitTrim(JoinWith(items, [sep, ' ']), sep) == items
  {
    var spaced := [items[0]] + SpaceEach(items[1..]);
    JoinSpaced(items, sep);
    SpacedClean(items, sep);
    SplitJoin(spaced, sep);
  }

  /**
   * The empty list is the exception to the round trip above: its join is the empty string,
   * which splits into one empty piece, and trimming leaves that piece empty.
   */
  lemma SplitTrimJoinEmpty(sep: char)
    ensures SplitTrim(JoinWith([], [sep, ' ']), sep) == [""]
  {
    SplitWithoutSeparator("", sep);
  }

  /** Putting one space in front of clean items keeps them free of `sep`, and trimming takes it off again. */
  lemma SpacedClean(items: seq<string>, sep: char)
    requires |items| > 0
    requires sep != ' '
    requires forall i :: 0 <= i < |items| ==> CleanItem(items[i], sep)
    ensures forall i :: 0 <= i < |items| ==> sep !in ([items[0]] + SpaceEach(items[1..]))[i]
    ensures TrimEach([items[0]] + SpaceEach(items[1..])) == items
  {
    var spaced := [items[0]] + SpaceEach(items[1..]);
    var r := TrimEach(spaced);
    forall i | 0 <= i < |items|
      ensures sep !in spaced[i] && r[i] == items[i]
    {
      assert CleanItem(items[i], sep);
      if i > 0 {
        assert spaced[i] == [' '] + items[i];
        TrimIgnoresLeadingSpace(' ', items[i]);
      }
    }
  }

  // ---------------------------------------------------------------------------
  // UTF-16 length
  // ---------------------------------------------------------------------------

  /** `s.length` in JavaScript: code points above U+FFFF take two UTF-16 code units. */
  function Utf16Length(s: string): (n: nat)
    ensures |s| <= n <= 2 * |s|
  {
    if s == [] then 0
    else (if s[0] as int >= 0x1_0000 then 2 else 1) + Utf16Length(s[1..])
  }

  // ---------------------------------------------------------------------------
  // case folding and substring search
  // ---------------------------------------------------------------------------

  /** `toLowerCase` on one character, for ASCII letters only. */
  function LowerChar(c: char): (d: char)
    ensures 'A' <= c <= 'Z' ==> d as int == c as int + 32
    ensures !('A' <= c <= 'Z') ==> d == c
  {
    if 'A' <= c <= 'Z' then (c as int + 32) as char else c
  }

  /** `s.toLowerCase()` with the ASCII letter fold: same length, each character folded. */
  function Lower(s: string): (r: string)
    ensures |r| == |s|
    ensures forall i :: 0 <= i < |s| ==> r[i] == LowerChar(s[i])
  {
    seq(|s|, i requires 0 <= i < |s| => LowerChar(s[i]))
  }

  /** `needle` occurs in `hay` starting at index `i`. */
  predicate OccursAt(hay: string, needle: string, i: int)
  {
    0 <= i <= |hay| - |needle| && hay[i..i + |needle|] == needle
  }

  /** `hay.includes(needle)`: whether `needle` occurs in `hay` as a contiguous piece. */
  function Includes(hay: string, needle: string): (b: bool)
    ensures b <==> exists i :: OccursAt(hay, needle, i)
  {
    if needle <= hay then
      assert OccursAt(hay, needle, 0);
      true
    else if hay == [] then
      false
    else
      OccursShift(hay, needle);
      Includes(hay[1..], needle)
  }

  /** When `needle` is not a prefix of `hay`, its occurrences in `hay` are those in the rest of `hay`. */
  lemma OccursShift(hay: string, needle: string)
    requires hay != [] && !(needle <= hay)
    ensures (exists i :: OccursAt(hay, needle, i)) <==> (exists i :: OccursAt(hay[1..], needle, i))
  {
    if i :| OccursAt(hay, needle, i) {
      assert i != 0;
      assert OccursAt(hay[1..], needle, i - 1);
    }
    if i :| OccursAt(hay[1..], needle, i) {
      assert OccursAt(hay, needle, i + 1);
    }
  }
}
