/** The kiosk's batch buffer and clear cycle (exhibit-kiosk/src/App.tsx).
    Arrivals queue in `pending`; promotion moves as many as fit into the
    fixed-size `visible` window; a full window starts a clear cycle (a pause,
    then the clearing animation) that empties the window and triggers the
    light, at most once per 500 ms. Each effect and timer callback is one
    atomic method; the two timers are the phases `Paused` and `Clearing`. */
module Kiosk {
  import opened Wrappers
  import opened Format
  import opened Event

  /** The configured window size (exhibit-kiosk/src/config.ts). */
  const BatchSize: nat := 12
  /** Light triggers closer together than this are dropped. */
  const LightCooldownMs: int := 500

  /** One parsed stream message; absent fields are `None`/`Undefined`. */
  datatype Payload = Payload(
    id: Option<string>,
    imageUrl: Option<string>,
    title: Option<string>,
    subtitle: Option<string>,
    meta: JsValue,
    alt: Option<string>)

  /** The item a message becomes: none without an image URL; the id falls
      back to a synthesised one and the alt text to the title, then "image". */
  function Accept(raw: Payload, freshId: string): (r: Option<EventItem>)
    ensures r.None? <==> !Filled(raw.imageUrl)
    ensures r.Some? ==>
      && r.value.imageUrl == raw.imageUrl.value && r.value.imageUrl != ""
      && r.value.title == raw.title && r.value.subtitle == raw.subtitle && r.value.meta == raw.meta
      && (Filled(raw.id) ==> r.value.id == raw.id.value)
      && (!Filled(raw.id) ==> r.value.id == freshId)
      && Filled(r.value.alt)
      && (Filled(raw.alt) ==> r.value.alt == raw.alt)
      && (!Filled(raw.alt) && Filled(raw.title) ==> r.value.alt == raw.title)
      && (!Filled(raw.alt) && !Filled(raw.title) ==> r.value.alt == Some("image"))
  {
    if !Filled(raw.imageUrl) then None
    else
      var alt := if Filled(raw.alt) then raw.alt.value else if Filled(raw.title) then raw.title.value else "image";
      Some(EventItem(
        if Filled(raw.id) then raw.id.value else freshId,
        raw.imageUrl.value, raw.title, raw.subtitle, raw.meta, Some(alt)))
  }

  /** How many pending items one run of the promotion effect moves: none
      while clearing, with a full window or with nothing pending, otherwise
      as many as fit. */
  function PromoteCount(isClearing: bool, visibleLen: nat, pendingLen: nat, batchSize: nat): (take: nat)
    ensures take == 0 <==> isClearing || visibleLen >= batchSize || pendingLen == 0
    ensures take <= pendingLen
    ensures take > 0 ==> visibleLen + take <= batchSize
    ensures take > 0 ==> visibleLen + take == batchSize || take == pendingLen
  {
    if isClearing || visibleLen >= batchSize || pendingLen == 0 then 0
    else if batchSize - visibleLen < pendingLen then batchSize - visibleLen
    else pendingLen
  }

  /** Whether a light trigger at `now` passes the cooldown after an accepted
      trigger at `last`. */
  function LightAccepts(now: int, last: int): (b: bool)
    ensures b ==> now >= last + LightCooldownMs
    ensures now >= last + LightCooldownMs ==> b
  {
    now - last >= LightCooldownMs
  }

  /** One grid cell: a visible item, or a blank placeholder. */
  datatype Slot = Tile(item: EventItem) | Blank(id: string)

  /** The key of the blank placeholder with index `n`. */
  function BlankId(n: nat): string {
    "blank-" + IntToString(n)
  }

  /** The blanks `blank-0`, `blank-1`, ..., `blank-(count-1)`. */
  function Blanks(count: nat): (r: seq<Slot>)
    ensures |r| == count
    ensures forall k :: 0 <= k < count ==> r[k] == Blank(BlankId(k))
  {
    if count == 0 then [] else Blanks(count - 1) + [Blank(BlankId(count - 1))]
  }

  /** Distinct blank indices give distinct keys. */
  lemma BlankIdsDiffer(j: nat, k: nat)
    requires j != k
    ensures BlankId(j) != BlankId(k)
  {
    IntToStringInjective(j, k);
    assert BlankId(j)[6..] == IntToString(j);
    assert BlankId(k)[6..] == IntToString(k);
  }

  /** The visible items as grid cells. */
  function Tiles(visible: seq<EventItem>): (r: seq<Slot>)
    ensures |r| == |visible|
    ensures forall k :: 0 <= k < |r| ==> r[k] == Tile(visible[k])
  {
    if visible == [] then [] else Tiles(visible[..|visible| - 1]) + [Tile(visible[|visible| - 1])]
  }

  /** The grid: the visible items in order, then blanks up to the window
      size. */
  function Slots(visible: seq<EventItem>, batchSize: nat): (r: seq<Slot>)
    ensures |r| == if |visible| < batchSize then batchSize else |visible|
    ensures forall k :: 0 <= k < |visible| ==> r[k] == Tile(visible[k])
    ensures forall k :: |visible| <= k < |r| ==> r[k] == Blank(BlankId(k - |visible|))
  {
    Tiles(visible) + Blanks(if |visible| < batchSize then batchSize - |visible| else 0)
  }

  /** The blank placeholders of the grid carry pairwise distinct keys. */
  lemma SlotKeysDistinct(visible: seq<EventItem>, batchSize: nat, j: nat, k: nat)
    requires |visible| <= j < k < |Slots(visible, batchSize)|
    ensures Slots(visible, batchSize)[j].id != Slots(visible, batchSize)[k].id
  {
    var a, b := j - |visible|, k - |visible|;
    BlankIdsDiffer(a, b);
    assert Slots(visible, batchSize)[j] == Blank(BlankId(a));
  }

  /** Where the clear cycle is: no cycle, the pause before the tiles vanish,
      or the vanish animation. Both timers carry the window size captured
      when the cycle was scheduled. */
  datatype Phase = Filling | Paused(captured: nat) | Clearing(countAtClear: nat)

  /** One POST to the light endpoint. */
  datatype LightCall = LightCall(count: nat, at: int)

  class Kiosk {
    const batchSize: nat
    var pending: seq<EventItem>
    var visible: seq<EventItem>
    var isClearing: bool
    /** Items ever promoted. */
    var total: nat
    /** When the light was last triggered. */
    var lightCooldown: int
    var phase: Phase
    /** The light triggers that passed the cooldown, oldest first. */
    var lightLog: seq<LightCall>

    /** Every item accepted so far, in arrival order. */
    ghost var arrived: seq<EventItem>
    /** Every item a clear cycle removed, in order. */
    ghost var cleared: seq<EventItem>
    /** Completed clear cycles. */
    ghost var clears: nat

    ghost predicate Valid()
      reads this
    {
      && |visible| <= batchSize
      && (isClearing <==> phase.Clearing?)
      && (phase.Paused? ==> |visible| == batchSize && phase.captured == batchSize)
      && (phase.Clearing? ==> |visible| == batchSize && phase.countAtClear == batchSize)
      // nothing is lost, duplicated or reordered
      && cleared + visible + pending == arrived
      && total == |cleared| + |visible|
      && |cleared| == clears * batchSize
      // the light fires at most once per cycle, with a full window's count,
      // and accepted triggers are at least the cooldown apart
      && |lightLog| <= clears
      && (forall k :: 0 <= k < |lightLog| ==> lightLog[k].count == batchSize)
      && (forall k :: 0 < k < |lightLog| ==> lightLog[k].at >= lightLog[k - 1].at + LightCooldownMs)
      && lightCooldown == (if lightLog == [] then 0 else lightLog[|lightLog| - 1].at)
    }

    constructor (batchSize: nat)
      ensures Valid() && this.batchSize == batchSize
      ensures pending == [] && visible == [] && !isClearing && total == 0 && phase == Filling
      ensures lightCooldown == 0 && lightLog == [] && arrived == []
    {
      this.batchSize := batchSize;
      pending, visible, isClearing, total := [], [], false, 0;
      lightCooldown, phase, lightLog := 0, Filling, [];
      arrived, cleared, clears := [], [], 0;
    }

    /** A stream message arrives: an item with an image URL joins the back of
        `pending`, whatever the clear cycle is doing. */
    method Arrive(raw: Payload, freshId: string)
      requires Valid()
      modifies this
      ensures Valid()
      ensures pending == old(pending) + (match Accept(raw, freshId) case Some(item) => [item] case None => [])
      ensures arrived == old(arrived) + (match Accept(raw, freshId) case Some(item) => [item] case None => [])
      ensures visible == old(visible) && isClearing == old(isClearing) && phase == old(phase)
      ensures total == old(total) && lightLog == old(lightLog) && lightCooldown == old(lightCooldown)
      ensures cleared == old(cleared)
    {
      var item := Accept(raw, freshId);
      if item.Some? {
        pending := pending + [item.value];
        arrived := arrived + [item.value];
      }
    }

    /** The promotion effect: the first `take` pending items move, in order,
        to the back of the window and `total` grows by `take`. */
    method Promote() returns (take: nat)
      requires Valid()
      modifies this
      ensures Valid()
      ensures take == PromoteCount(old(isClearing), |old(visible)|, |old(pending)|, batchSize)
      ensures visible == old(visible) + old(pending)[..take] && pending == old(pending)[take..]
      ensures visible + pending == old(visible) + old(pending)
      ensures total == old(total) + take
      ensures take > 0 ==> |visible| == batchSize || pending == []
      ensures isClearing == old(isClearing) && phase == old(phase)
      ensures lightLog == old(lightLog) && lightCooldown == old(lightCooldown)
      ensures arrived == old(arrived) && cleared == old(cleared)
    {
      take := PromoteCount(isClearing, |visible|, |pending|, batchSize);
      if take > 0 {
        visible := visible + pending[..take];
        pending := pending[take..];
        total := total + take;
        assert old(pending) == old(pending)[..take] + pending;
      }
    }

    /** The clear-trigger effect: a cycle is scheduled when none is running
        and the window has just become full. */
    method StartClear() returns (started: bool)
      requires Valid()
      modifies this
      ensures Valid()
      ensures started == (old(phase) == Filling && |visible| == batchSize)
      ensures phase == if started then Paused(batchSize) else old(phase)
      ensures pending == old(pending) && visible == old(visible) && isClearing == old(isClearing)
      ensures total == old(total) && lightLog == old(lightLog) && lightCooldown == old(lightCooldown)
      ensures arrived == old(arrived) && cleared == old(cleared)
    {
      started := phase == Filling && !isClearing && |visible| == batchSize;
      if started {
        phase := Paused(|visible|);
      }
    }

    /** The pause timer fires: the clearing animation starts. */
    method PauseElapsed()
      requires Valid() && phase.Paused?
      modifies this
      ensures Valid()
      ensures isClearing && phase == Clearing(old(phase).captured)
      ensures pending == old(pending) && visible == old(visible)
      ensures total == old(total) && lightLog == old(lightLog) && lightCooldown == old(lightCooldown)
      ensures arrived == old(arrived) && cleared == old(cleared)
    {
      isClearing := true;
      phase := Clearing(phase.captured);
    }

    /** The light trigger: dropped within the cooldown of the last accepted
        trigger, which keeps its timestamp; otherwise recorded and sent. */
    method TriggerLight(count: nat, now: int) returns (sent: bool)
      requires count == batchSize
      requires |lightLog| < clears
      requires (forall k :: 0 <= k < |lightLog| ==> lightLog[k].count == batchSize)
      requires (forall k :: 0 < k < |lightLog| ==> lightLog[k].at >= lightLog[k - 1].at + LightCooldownMs)
      requires lightCooldown == (if lightLog == [] then 0 else lightLog[|lightLog| - 1].at)
      modifies this`lightCooldown, this`lightLog
      ensures sent == LightAccepts(now, old(lightCooldown))
      ensures sent ==> lightCooldown == now && lightLog == old(lightLog) + [LightCall(count, now)]
      ensures !sent ==> lightCooldown == old(lightCooldown) && lightLog == old(lightLog)
      ensures |lightLog| <= clears
      ensures (forall k :: 0 <= k < |lightLog| ==> lightLog[k].count == batchSize)
      ensures (forall k :: 0 < k < |lightLog| ==> lightLog[k].at >= lightLog[k - 1].at + LightCooldownMs)
      ensures lightCooldown == (if lightLog == [] then 0 else lightLog[|lightLog| - 1].at)
    {
      if now - lightCooldown < LightCooldownMs {
        return false;
      }
      lightCooldown := now;
      lightLog := lightLog + [LightCall(count, now)];
      sent := true;
    }

    /** The animation timer fires: the window empties, the cycle ends and the
        light is triggered with the count captured for this cycle; `pending`
        is untouched. */
    method FinishClear(now: int) returns (sent: bool)
      requires Valid() && phase.Clearing?
      modifies this
      ensures Valid()
      ensures visible == [] && !isClearing && phase == Filling
      ensures pending == old(pending) && total == old(total)
      ensures cleared == old(cleared) + old(visible) && arrived == old(arrived)
      ensures sent == LightAccepts(now, old(lightCooldown))
      ensures sent ==> lightLog == old(lightLog) + [LightCall(old(phase).countAtClear, now)] && lightCooldown == now
      ensures !sent ==> lightLog == old(lightLog) && lightCooldown == old(lightCooldown)
    {
      var count := phase.countAtClear;
      cleared := cleared + visible;
      clears := clears + 1;
      visible := [];
      isClearing := false;
      phase := Filling;
      sent := TriggerLight(count, now);
    }
  }

  /** The kiosk as the app mounts it, with the configured window size and
      an empty grid of `BatchSize` blanks. */
  method Mount() returns (k: Kiosk, grid: seq<Slot>)
    ensures fresh(k) && k.Valid() && k.batchSize == BatchSize
    ensures k.pending == [] && k.visible == [] && k.phase == Filling && k.total == 0
    ensures |grid| == BatchSize && forall j :: 0 <= j < BatchSize ==> grid[j] == Blank(BlankId(j))
  {
    k := new Kiosk(BatchSize);
    grid := Slots(k.visible, k.batchSize);
  }

  /** A clear cycle that ends with at least a window's worth pending starts
      the next one straight away: the promotion after the clear fills the
      window with the oldest pending items and the fill starts a new pause. */
  method ClearThenRefill(k: Kiosk, now: int) returns (started: bool)
    requires k.Valid() && k.phase.Clearing? && |k.pending| >= k.batchSize
    modifies k
    ensures k.Valid() && started
    ensures k.visible == old(k.pending)[..k.batchSize] && k.pending == old(k.pending)[k.batchSize..]
    ensures k.phase == Paused(k.batchSize)
  {
    var sent := k.FinishClear(now);
    var took := k.Promote();
    started := k.StartClear();
  }

  /** The first half of the two-slot walk-through: three arrivals, and the
      promotion that fills the two-item window and leaves one pending. */
  method FillTwoSlots(p1: Payload, p2: Payload, p3: Payload) returns (k: Kiosk)
    requires Filled(p1.imageUrl) && Filled(p2.imageUrl) && Filled(p3.imageUrl)
    ensures fresh(k) && k.Valid() && k.batchSize == 2
    ensures k.visible == [Accept(p1, "e1").value, Accept(p2, "e2").value]
    ensures k.pending == [Accept(p3, "e3").value]
    ensures k.phase == Filling && k.lightCooldown == 0 && k.lightLog == []
  {
    ghost var i1, i2, i3 := Accept(p1, "e1").value, Accept(p2, "e2").value, Accept(p3, "e3").value;
    k := new Kiosk(2);
    k.Arrive(p1, "e1");
    k.Arrive(p2, "e2");
    k.Arrive(p3, "e3");
    assert k.pending == [i1, i2, i3] && k.visible == [];
    assert k.pending[..2] == [i1, i2] && k.pending[2..] == [i3];
    var took := k.Promote();
  }

  /** The two-slot walk-through: three arrivals fill a two-item window and
      leave one pending; the clear cycle empties the window and triggers the
      light with count 2; the next promotion shows the third item. */
  method TwoSlotCycle(p1: Payload, p2: Payload, p3: Payload, now: int)
    returns (shownFirst: seq<EventItem>, shownAfter: seq<EventItem>, lights: seq<LightCall>)
    requires Filled(p1.imageUrl) && Filled(p2.imageUrl) && Filled(p3.imageUrl)
    requires now >= LightCooldownMs
    ensures shownFirst == [Accept(p1, "e1").value, Accept(p2, "e2").value]
    ensures shownAfter == [Accept(p3, "e3").value]
    ensures lights == [LightCall(2, now)]
  {
    var k := FillTwoSlots(p1, p2, p3);
    shownFirst := k.visible;
    var started := k.StartClear();
    k.PauseElapsed();
    var took := k.Promote();
    var sent := k.FinishClear(now);
    took := k.Promote();
    shownAfter := k.visible;
    lights := k.lightLog;
  }
}
