/** The narration player (exhibit-kiosk/src/components/Narration.tsx): the
    loaded text is split into lines, shown three lines per page, typed one
    character per timer callback, and paged forward with a wrap to the
    first page. */
module Narration {

  const LinesPerPage: nat := 3

  /** `t.replace(/\r\n/g, "\n")`: every CR LF pair, scanning left to right
      without overlap, becomes a single LF. */
  function Normalize(t: string): (r: string)
    ensures |r| <= |t|
  {
    NormalizeFrom(t, 0)
  }

  /** The replacement applied to `t[i..]`, scanning from index `i`. */
  function NormalizeFrom(t: string, i: nat): (r: string)
    requires i <= |t|
    ensures |r| <= |t| - i
    decreases |t| - i
  {
    if i == |t| then []
    else if i + 1 < |t| && t[i] == '\r' && t[i + 1] == '\n' then "\n" + NormalizeFrom(t, i + 2)
    else [t[i]] + NormalizeFrom(t, i + 1)
  }

  /** `t` holds no CR directly followed by LF. */
  predicate NoCrLf(t: string) {
    forall k :: 0 <= k < |t| - 1 ==> !(t[k] == '\r' && t[k + 1] == '\n')
  }

  /** Text with no CR LF pair is left as it is. */
  lemma NormalizeNoCrLf(t: string)
    requires NoCrLf(t)
    ensures Normalize(t) == t
  {
    NoCrLfFrom(t, 0);
  }

  lemma {:induction false} NoCrLfFrom(t: string, i: nat)
    requires NoCrLf(t) && i <= |t|
    ensures NormalizeFrom(t, i) == t[i..]
    decreases |t| - i
  {
    if i < |t| {
      NoCrLfFrom(t, i + 1);
      assert t[i..] == [t[i]] + t[i + 1..];
    }
  }

  /** Scanning `a + t` from inside `a` normalises the rest of `a`, then `t`
      on its own, when `t` does not start with LF: no CR LF pair straddles
      the seam. */
  lemma {:induction false} NormalizeFromAppend(a: string, t: string, i: nat)
    requires i <= |a|
    requires t != [] && t[0] != '\n'
    ensures NormalizeFrom(a + t, i) == NormalizeFrom(a, i) + Normalize(t)
    decreases |a| - i
  {
    var at := a + t;
    if i == |a| {
      NormalizeFromShift(a, t, 0);
    } else if i + 1 < |a| && a[i] == '\r' && a[i + 1] == '\n' {
      assert at[i] == '\r' && at[i + 1] == '\n';
      NormalizeFromAppend(a, t, i + 2);
    } else {
      assert at[i] == a[i];
      assert !(i + 1 < |at| && at[i] == '\r' && at[i + 1] == '\n') by {
        if i + 1 < |a| {
          assert at[i + 1] == a[i + 1];
        } else {
          assert at[i + 1] == t[0];
        }
      }
      NormalizeFromAppend(a, t, i + 1);
    }
  }

  /** Scanning `a + t` past `a` is scanning `t`. */
  lemma {:induction false} NormalizeFromShift(a: string, t: string, j: nat)
    requires j <= |t|
    ensures NormalizeFrom(a + t, |a| + j) == NormalizeFrom(t, j)
    decreases |t| - j
  {
    var at := a + t;
    if j < |t| {
      assert at[|a| + j] == t[j];
      if j + 1 < |t| {
        assert at[|a| + j + 1] == t[j + 1];
      }
      if j + 1 < |t| && t[j] == '\r' && t[j + 1] == '\n' {
        NormalizeFromShift(a, t, j + 2);
      } else {
        NormalizeFromShift(a, t, j + 1);
      }
    }
  }

  /** Text that does not start with LF normalises the same whatever
      precedes it. */
  lemma NormalizeAppend(a: string, t: string)
    requires t != [] && t[0] != '\n'
    ensures Normalize(a + t) == Normalize(a) + Normalize(t)
  {
    NormalizeFromAppend(a, t, 0);
  }

  /** Each CR LF pair becomes one LF and the text on either side is
      normalised independently. */
  lemma CrLfBecomesLf(a: string, b: string)
    ensures Normalize(a + "\r\n" + b) == Normalize(a) + "\n" + Normalize(b)
  {
    var t := "\r\n" + b;
    NormalizeAppend(a, t);
    assert Normalize(t) == "\n" + Normalize(b) by {
      NormalizeFromShift("\r\n", b, 0);
    }
    assert a + "\r\n" + b == a + t;
  }

  /** `t.split("\n")`: the pieces between line feeds, blank ones included;
      the empty text gives one empty line. */
  function Split(t: string): (r: seq<string>)
    ensures |r| >= 1
    ensures forall k :: 0 <= k < |r| ==> '\n' !in r[k]
    decreases |t|
  {
    if t == [] then [""]
    else
      var rest := Split(t[1..]);
      if t[0] == '\n' then [""] + rest else [[t[0]] + rest[0]] + rest[1..]
  }

  /** The number of characters in `lines`. */
  function TotalLength(lines: seq<string>): nat {
    if lines == [] then 0 else |lines[0]| + TotalLength(lines[1..])
  }

  /** `lines.join("\n")`: the lines' characters with one LF between each
      two neighbours. */
  function Join(lines: seq<string>): (r: string)
    ensures lines == [] ==> r == ""
    ensures lines != [] ==> |r| == TotalLength(lines) + |lines| - 1
    ensures lines != [] ==> r[..|lines[0]|] == lines[0]
  {
    if |lines| == 0 then ""
    else if |lines| == 1 then lines[0]
    else lines[0] + "\n" + Join(lines[1..])
  }

  /** Joining the split text gives the text back. */
  lemma {:induction false} JoinSplit(t: string)
    ensures Join(Split(t)) == t
    decreases |t|
  {
    if t != [] {
      var rest := Split(t[1..]);
      JoinSplit(t[1..]);
      if t[0] == '\n' {
        assert Split(t) == [""] + rest;
        assert ([""] + rest)[1..] == rest;
      } else {
        var first := [t[0]] + rest[0];
        assert Split(t) == [first] + rest[1..];
        if |rest| == 1 {
          assert Join(Split(t)) == first;
        } else {
          assert ([first] + rest[1..])[1..] == rest[1..];
          assert Join(Split(t)) == first + "\n" + Join(rest[1..]);
          assert Join(rest) == rest[0] + "\n" + Join(rest[1..]);
        }
        assert t == [t[0]] + t[1..];
      }
    }
  }

  lemma {:induction false} SplitWithout(a: string)
    requires '\n' !in a
    ensures Split(a) == [a]
    decreases |a|
  {
    if a != [] {
      assert '\n' !in a[1..];
      SplitWithout(a[1..]);
      assert [a[0]] + a[1..] == a;
    }
  }

  lemma {:induction false} SplitAtFeed(a: string, b: string)
    requires '\n' !in a
    ensures Split(a + "\n" + b) == [a] + Split(b)
    decreases |a|
  {
    if a == [] {
      assert a + "\n" + b == "\n" + b;
      assert ("\n" + b)[1..] == b;
    } else {
      assert (a + "\n" + b)[1..] == a[1..] + "\n" + b;
      assert '\n' !in a[1..];
      SplitAtFeed(a[1..], b);
      assert [a[0]] + a[1..] == a;
    }
  }

  /** Lines without line feeds survive a join and a split. */
  lemma {:induction false} SplitJoin(lines: seq<string>)
    requires |lines| >= 1
    requires forall k :: 0 <= k < |lines| ==> '\n' !in lines[k]
    ensures Split(Join(lines)) == lines
    decreases |lines|
  {
    if |lines| == 1 {
      SplitWithout(lines[0]);
    } else {
      SplitJoin(lines[1..]);
      SplitAtFeed(lines[0], Join(lines[1..]));
      assert [lines[0]] + lines[1..] == lines;
    }
  }

  /** What loading a narration file yields: its lines, blank ones kept. */
  function LoadLines(text: string): (r: seq<string>)
    ensures |r| >= 1
    ensures forall k :: 0 <= k < |r| ==> '\n' !in r[k]
    ensures Join(r) == Normalize(text)
  {
    JoinSplit(Normalize(text));
    Split(Normalize(text))
  }

  /** `lines.slice(pageStart, pageStart + 3)`: at most three lines, those
      from `pageStart` on. */
  function PageLines(lines: seq<string>, pageStart: nat): (p: seq<string>)
    ensures |p| <= LinesPerPage
    ensures pageStart < |lines| ==> |p| == if |lines| - pageStart < LinesPerPage then |lines| - pageStart else LinesPerPage
    ensures pageStart >= |lines| ==> p == []
    ensures forall k :: 0 <= k < |p| ==> pageStart + k < |lines| && p[k] == lines[pageStart + k]
  {
    if pageStart >= |lines| then []
    else if pageStart + LinesPerPage <= |lines| then lines[pageStart..pageStart + LinesPerPage]
    else lines[pageStart..]
  }

  /** The text of the page that starts at `pageStart`, or "" with no lines.
      A page of lines without line feeds splits back into those lines. */
  function PageText(lines: seq<string>, pageStart: nat): (r: string)
    ensures |lines| == 0 ==> r == ""
    ensures pageStart < |lines| && (forall k :: 0 <= k < |lines| ==> '\n' !in lines[k]) ==>
      Split(r) == PageLines(lines, pageStart)
  {
    if |lines| == 0 then ""
    else
      PageSplitsBack(lines, pageStart);
      Join(PageLines(lines, pageStart))
  }

  lemma PageSplitsBack(lines: seq<string>, pageStart: nat)
    ensures pageStart < |lines| && (forall k :: 0 <= k < |lines| ==> '\n' !in lines[k]) ==>
      Split(Join(PageLines(lines, pageStart))) == PageLines(lines, pageStart)
  {
    var p := PageLines(lines, pageStart);
    if pageStart < |lines| && (forall k :: 0 <= k < |lines| ==> '\n' !in lines[k]) {
      assert forall k :: 0 <= k < |p| ==> '\n' !in p[k];
      SplitJoin(p);
    }
  }

  /** The page after the one at `pageStart`, wrapping to the first page. */
  function NextPageStart(pageStart: nat, lineCount: nat): (r: nat)
    ensures r % LinesPerPage == 0 <== pageStart % LinesPerPage == 0
    ensures r < lineCount || (r == 0 && lineCount == 0)
    ensures r == 0 || r == pageStart + LinesPerPage
    ensures r == 0 <==> pageStart + LinesPerPage >= lineCount
  {
    var next := pageStart + LinesPerPage;
    if next >= lineCount then 0 else next
  }

  /** Typing one more character extends the typed prefix by it. */
  lemma TypedOneMore(t: string, i: nat)
    requires i < |t|
    ensures t[..i] + [t[i]] == t[..i + 1]
  {
    assert t[..i + 1] == t[..i] + [t[i]];
  }

  class Player {
    var lines: seq<string>
    var pageStart: nat
    /** The typed part of the page. */
    var shown: string
    /** The index of the next character to type. */
    var i: nat
    /** The page text the last render computed; a change of it resets the typing. */
    var pageText: string
    /** Whether a typing or page-advance timer is scheduled. */
    var armed: bool

    ghost predicate Valid()
      reads this
    {
      && pageText == PageText(lines, pageStart)
      && pageStart % LinesPerPage == 0
      && (pageStart < |lines| || pageStart == 0)
      && (forall k :: 0 <= k < |lines| ==> '\n' !in lines[k])
      && i <= |pageText|
      && shown == pageText[..i]
      && (armed ==> pageText != "")
    }

    /** Mounted: nothing loaded, nothing shown, no timer. */
    constructor ()
      ensures Valid()
      ensures lines == [] && pageStart == 0 && shown == "" && i == 0 && !armed
    {
      lines, pageStart, shown, i, pageText, armed := [], 0, "", 0, "", false;
    }

    /** The render after `lines` or `pageStart` changed: the page text is
        recomputed, typing restarts when that text differs from the last one,
        and the typing effect schedules a timer when there is text. */
    method Rerender()
      requires pageStart % LinesPerPage == 0 && (pageStart < |lines| || pageStart == 0)
      requires forall k :: 0 <= k < |lines| ==> '\n' !in lines[k]
      requires i <= |pageText| && shown == pageText[..i]
      modifies this
      ensures Valid()
      ensures lines == old(lines) && pageStart == old(pageStart)
      ensures pageText != old(pageText) ==> shown == "" && i == 0
      ensures pageText == old(pageText) ==> shown == old(shown) && i == old(i)
      ensures armed == (pageText != "")
    {
      var t := PageText(lines, pageStart);
      if t != pageText {
        shown, i := "", 0;
      }
      pageText := t;
      armed := t != "";
    }

    /** The file's text arrives (once, before anything is loaded). */
    method Load(text: string)
      requires Valid() && lines == []
      modifies this
      ensures Valid()
      ensures lines == LoadLines(text) && pageStart == 0
      ensures pageText == PageText(lines, 0) && shown == "" && i == 0
      ensures armed == (pageText != "")
    {
      lines := LoadLines(text);
      Rerender();
    }

    /** The scheduled timer fires. With no timer nothing happens. While the
        page is not fully typed, its next character is shown. Once it is,
        the page start moves on (wrapping to 0); when that leaves the page
        start as it was, nothing re-renders and no further timer is
        scheduled. */
    method Step()
      requires Valid()
      modifies this
      ensures Valid() && lines == old(lines)
      ensures !old(armed) ==>
        pageStart == old(pageStart) && shown == old(shown) && i == old(i) && !armed
      ensures old(armed) && old(i) < |old(pageText)| ==>
        pageStart == old(pageStart) && i == old(i) + 1 && shown == old(shown) + [old(pageText)[old(i)]] && armed
      ensures old(armed) && old(i) >= |old(pageText)| ==>
        pageStart == NextPageStart(old(pageStart), |lines|)
      ensures old(armed) && old(i) >= |old(pageText)| && pageStart == old(pageStart) ==>
        shown == old(shown) && i == old(i) && !armed
      ensures old(armed) && old(i) >= |old(pageText)| && pageStart != old(pageStart) ==>
        (pageText != old(pageText) ==> shown == "" && i == 0) &&
        (pageText == old(pageText) ==> shown == old(shown) && i == old(i)) &&
        armed == (pageText != "")
    {
      if !armed {
        return;
      }
      if i >= |pageText| {
        var next := NextPageStart(pageStart, |lines|);
        if next == pageStart {
          armed := false;
        } else {
          pageStart := next;
          Rerender();
        }
      } else {
        TypedOneMore(pageText, i);
        shown := shown + [pageText[i]];
        i := i + 1;
      }
    }

    /** Unmounting clears the scheduled timer. */
    method Unmount()
      requires Valid()
      modifies this
      ensures Valid() && !armed
      ensures lines == old(lines) && pageStart == old(pageStart) && shown == old(shown) && i == old(i)
    {
      armed := false;
    }
  }
}
