/** The per-tile typewriter (exhibit-kiosk/src/components/TypeLines.tsx).
    Each timer callback is one call of `Tick`; the array `out` is typed into
    in place, one prefix of the current line per tick. */
module TypeLines {

  /** Ticks that do work while typing `lines`: for each line one tick per
      prefix length `0 .. |line|` and one more to move to the next line. */
  function Cost(lines: seq<string>): nat {
    if lines == [] then 0 else |lines[0]| + 2 + Cost(lines[1..])
  }

  lemma {:induction false} CostSplit(lines: seq<string>, li: nat)
    requires li < |lines|
    ensures Cost(lines[li..]) == |lines[li]| + 2 + Cost(lines[li + 1..])
  {
    assert lines[li..][1..] == lines[li + 1..];
  }

  class Typewriter {
    const lines: seq<string>
    /** The lines as typed so far. */
    const out: array<string>
    /** What the tile shows: the last snapshot of `out`. */
    var rendered: seq<string>
    /** The line being typed. */
    var li: nat
    /** The length of the next prefix of `lines[li]` to show. */
    var ci: nat
    /** Set by the effect's cleanup. */
    var cancelled: bool

    ghost predicate Valid()
      reads this, out
    {
      && out.Length == |lines|
      && li <= |lines|
      && (li < |lines| ==> ci <= |lines[li]| + 1)
      && (li == |lines| ==> ci == 0)
      && (forall j :: 0 <= j < li ==> out[j] == lines[j])
      && (li < |lines| ==> out[li] == lines[li][..if ci == 0 then 0 else ci - 1])
      && (forall j :: li < j < |lines| ==> out[j] == "")
      && rendered == out[..]
    }

    /** Ticks that still do work before the typewriter has finished. */
    ghost function Remaining(): nat
      reads this, out
      requires Valid()
    {
      if li < |lines| then CostSplit(lines, li); Cost(lines[li..]) - ci else 0
    }

    /** The effect's start: one empty string per line, nothing typed yet. */
    constructor (lines: seq<string>)
      ensures Valid() && fresh(out)
      ensures this.lines == lines && out[..] == seq(|lines|, _ => "")
      ensures li == 0 && ci == 0 && !cancelled
      ensures Remaining() == Cost(lines)
    {
      this.lines := lines;
      out := new string[|lines|](_ => "");
      li, ci, cancelled := 0, 0, false;
      new;
      rendered := out[..];
      assert lines[0..] == lines;
    }

    /** One timer callback. It does nothing once cancelled or past the last
        line; otherwise it shows the next prefix of the current line, or,
        with the whole line shown, moves to the next line. It answers whether
        it scheduled another tick. */
    method Tick() returns (rescheduled: bool)
      requires Valid()
      modifies this, out
      ensures Valid() && cancelled == old(cancelled)
      ensures rescheduled == (!old(cancelled) && old(li) < |lines|)
      ensures !rescheduled ==> li == old(li) && ci == old(ci) && out[..] == old(out[..]) && rendered == old(rendered)
      ensures rescheduled && old(ci) <= |lines[old(li)]| ==>
        li == old(li) && ci == old(ci) + 1 && out[..] == old(out[..])[old(li) := lines[old(li)][..old(ci)]]
      ensures rescheduled && old(ci) > |lines[old(li)]| ==>
        li == old(li) + 1 && ci == 0 && out[..] == old(out[..])
      ensures rescheduled ==> Remaining() == old(Remaining()) - 1
    {
      if cancelled || li >= |lines| {
        return false;
      }
      var target := lines[li];
      if ci <= |target| {
        out[li] := target[..ci];
        rendered := out[..];
        ci := ci + 1;
      } else {
        CostSplit(lines, li);
        li, ci := li + 1, 0;
      }
      rescheduled := true;
    }

    /** The effect's cleanup: no later tick does anything. */
    method Cancel()
      requires Valid()
      modifies this
      ensures Valid() && cancelled
      ensures li == old(li) && ci == old(ci) && rendered == old(rendered)
    {
      cancelled := true;
    }

    /** Past the last line every line has been typed in full. */
    lemma Finished()
      requires Valid() && li == |lines|
      ensures out[..] == lines
    {
      assert forall j :: 0 <= j < |lines| ==> out[..][j] == lines[j];
    }
  }

  /** The effect's whole run without a cancellation: ticks are rescheduled
      until the last line has been moved past, after which every line is
      shown in full. It answers the typed lines and how many ticks did work. */
  method TypeAll(lines: seq<string>) returns (typed: seq<string>, ticks: nat)
    ensures typed == lines
    ensures ticks == Cost(lines)
  {
    var w := new Typewriter(lines);
    ticks := 0;
    while w.li < |lines|
      invariant fresh(w) && fresh(w.out) && w.Valid()
      invariant w.lines == lines && !w.cancelled
      invariant ticks + w.Remaining() == Cost(lines)
      decreases w.Remaining()
    {
      var _ := w.Tick();
      ticks := ticks + 1;
    }
    w.Finished();
    typed := w.out[..];
  }
}
