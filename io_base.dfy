/**
 * The device-plugin base (`IOBase`): bus events are filtered and converted
 * on the bus thread and handed to the device writer through a bounded
 * mailbox (`multiprocessing.Queue(10)`) with a non-blocking put, so a jammed
 * device drops LED updates instead of stalling the bus.
 */
module IoBase {
  import opened Wrappers
  import opened Events

  /** The mailbox size `IOBase` creates. */
  const WriteQueueSize: int := 10

  /** The only event the base plugin forwards to its device. */
  const LedsEnabled: string := "leds_enabled"

  /** A queue already holding `maxsize` items refuses a non-blocking put; `maxsize <= 0` means unbounded. */
  predicate IsFull<D>(items: seq<D>, maxsize: int)
  {
    maxsize > 0 && |items| >= maxsize
  }

  /**
   * The queue after `put_nowait(x)`: what was queued stays in front, `x` is
   * appended exactly when the queue is not full, and a bounded queue within
   * its bound stays within it.
   */
  function Offer<D>(items: seq<D>, maxsize: int, x: D): (r: seq<D>)
    ensures |items| <= |r| <= |items| + 1
    ensures r[..|items|] == items
    ensures |r| == |items| + 1 <==> !IsFull(items, maxsize)
    ensures |r| == |items| + 1 ==> r[|items|] == x
    ensures 0 < maxsize && |items| <= maxsize ==> |r| <= maxsize
  {
    if IsFull(items, maxsize) then items else items + [x]
  }

  /** The queue after offering each of `xs` in turn, with no consumer in between. */
  function OfferAll<D>(items: seq<D>, maxsize: int, xs: seq<D>): seq<D>
    decreases |xs|
  {
    if xs == [] then items else OfferAll(Offer(items, maxsize, xs[0]), maxsize, xs[1..])
  }

  /**
   * Offering items to a bounded queue with no consumption keeps what was
   * queued and appends the earliest offers that fit; the rest are dropped.
   */
  lemma {:induction false} OfferAllKeepsEarliest<D>(items: seq<D>, maxsize: int, xs: seq<D>)
    requires 0 < maxsize && |items| <= maxsize
    ensures var room := maxsize - |items|;
      OfferAll(items, maxsize, xs) == items + xs[..if |xs| <= room then |xs| else room]
    decreases |xs|
  {
    if xs != [] {
      var next := Offer(items, maxsize, xs[0]);
      OfferAllKeepsEarliest(next, maxsize, xs[1..]);
      if |items| == maxsize {
        assert next == items;
        assert OfferAll(next, maxsize, xs[1..]) == items;
        assert xs[..0] == [];
      } else {
        assert next == items + [xs[0]];
        var room := maxsize - |items|;
        var k := if |xs| <= room then |xs| else room;
        assert xs[..k] == [xs[0]] + xs[1..][..k - 1];
      }
    }
  }

  /** From an empty mailbox of size 10: after any number of puts it holds exactly the first ten (or fewer) items. */
  lemma MailboxKeepsFirstTen<D>(xs: seq<D>)
    ensures OfferAll([], WriteQueueSize, xs) == xs[..if |xs| <= WriteQueueSize then |xs| else WriteQueueSize]
    ensures |OfferAll([], WriteQueueSize, xs)| <= WriteQueueSize
  {
    OfferAllKeepsEarliest([], WriteQueueSize, xs);
  }

  /** `multiprocessing.Queue(maxsize)` as the two plugin threads use it. */
  class Mailbox<D> {
    const maxsize: int
    var items: seq<D>

    ghost predicate Valid()
      reads this
    {
      maxsize > 0 ==> |items| <= maxsize
    }

    constructor (maxsize: int)
      ensures this.maxsize == maxsize && items == [] && Valid()
    {
      this.maxsize := maxsize;
      items := [];
    }

    /** `put_nowait`: appends, or reports Full and changes nothing. */
    method PutNowait(x: D) returns (full: bool)
      requires Valid()
      modifies this
      ensures Valid()
      ensures full == IsFull(old(items), maxsize)
      ensures items == Offer(old(items), maxsize, x)
    {
      full := IsFull(items, maxsize);
      if !full {
        items := items + [x];
      }
    }

    /** `get`: takes the oldest item; on an empty queue the caller blocks (None). */
    method Get() returns (x: Option<D>)
      requires Valid()
      modifies this
      ensures Valid()
      ensures old(items) == [] ==> x == None && items == []
      ensures old(items) != [] ==> x == Some(old(items)[0]) && items == old(items)[1..]
    {
      if items == [] {
        return None;
      }
      x := Some(items[0]);
      items := items[1..];
    }
  }

  /** The queue after `IOBase.process_event(ev)`. */
  function AfterEvent<D>(items: seq<D>, convert: D -> D, ev: Event<D>): seq<D>
  {
    if ev.name == LedsEnabled then Offer(items, WriteQueueSize, convert(ev.data)) else items
  }

  /** The queue after a run of events with no consumption. */
  function AfterEvents<D>(items: seq<D>, convert: D -> D, evs: seq<Event<D>>): seq<D>
    decreases |evs|
  {
    if evs == [] then items else AfterEvents(AfterEvent(items, convert, evs[0]), convert, evs[1..])
  }

  /** The converted payloads of the `leds_enabled` events, in order. */
  function LedPayloads<D>(convert: D -> D, evs: seq<Event<D>>): seq<D>
    decreases |evs|
  {
    if evs == [] then []
    else (if evs[0].name == LedsEnabled then [convert(evs[0].data)] else []) + LedPayloads(convert, evs[1..])
  }

  /** Processing events is offering the converted `leds_enabled` payloads, and nothing else. */
  lemma {:induction false} AfterEventsOffersLedPayloads<D>(items: seq<D>, convert: D -> D, evs: seq<Event<D>>)
    ensures AfterEvents(items, convert, evs) == OfferAll(items, WriteQueueSize, LedPayloads(convert, evs))
    decreases |evs|
  {
    if evs != [] {
      AfterEventsOffersLedPayloads(AfterEvent(items, convert, evs[0]), convert, evs[1..]);
      var rest := LedPayloads(convert, evs[1..]);
      if evs[0].name == LedsEnabled {
        var ps := [convert(evs[0].data)] + rest;
        assert ps[0] == convert(evs[0].data) && ps[1..] == rest;
      } else {
        assert LedPayloads(convert, evs) == rest;
      }
    }
  }

  /**
   * From an empty mailbox, any run of events leaves at most ten items: the
   * first ten converted `leds_enabled` payloads, in the order received.
   */
  lemma EventsFillMailboxInOrder<D>(convert: D -> D, evs: seq<Event<D>>)
    ensures var ps := LedPayloads(convert, evs);
      AfterEvents([], convert, evs) == ps[..if |ps| <= WriteQueueSize then |ps| else WriteQueueSize]
  {
    AfterEventsOffersLedPayloads([], convert, evs);
    MailboxKeepsFirstTen(LedPayloads(convert, evs));
  }

  class IOBase<D> {
    const writeQueue: Mailbox<D>
    /** `convert_data`, which a device plugin may override. */
    const convertData: D -> D

    ghost predicate Valid()
      reads this, writeQueue
    {
      writeQueue.maxsize == WriteQueueSize && writeQueue.Valid()
    }

    /** A device plugin with its own conversion. */
    constructor WithConversion(convert: D -> D)
      ensures Valid() && fresh(writeQueue) && writeQueue.items == []
      ensures convertData == convert
    {
      writeQueue := new Mailbox<D>(WriteQueueSize);
      convertData := convert;
    }

    /** The base class: `convert_data` returns the data unchanged. */
    constructor ()
      ensures Valid() && fresh(writeQueue) && writeQueue.items == []
      ensures forall x :: convertData(x) == x
    {
      writeQueue := new Mailbox<D>(WriteQueueSize);
      convertData := x => x;
    }

    /**
     * `process_event`: a `leds_enabled` event queues its converted payload,
     * unless the mailbox is full, when the payload is dropped; every other
     * event leaves the mailbox alone. It never raises.
     */
    method ProcessEvent(ev: Event<D>)
      requires Valid()
      modifies writeQueue
      ensures Valid()
      ensures writeQueue.items == AfterEvent(old(writeQueue.items), convertData, ev)
      ensures ev.name != LedsEnabled ==> writeQueue.items == old(writeQueue.items)
      ensures ev.name == LedsEnabled && |old(writeQueue.items)| < WriteQueueSize ==>
        writeQueue.items == old(writeQueue.items) + [convertData(ev.data)]
      ensures |old(writeQueue.items)| == WriteQueueSize ==> writeQueue.items == old(writeQueue.items)
    {
      if ev.name == LedsEnabled {
        var data := convertData(ev.data);
        var _ := writeQueue.PutNowait(data);
      }
    }

    /** What the writer thread takes from the mailbox: the oldest pending item. */
    method Pop() returns (x: Option<D>)
      requires Valid()
      modifies writeQueue
      ensures Valid()
      ensures old(writeQueue.items) == [] ==> x == None && writeQueue.items == []
      ensures old(writeQueue.items) != [] ==>
        x == Some(old(writeQueue.items)[0]) && writeQueue.items == old(writeQueue.items)[1..]
    {
      x := writeQueue.Get();
    }
  }
}
