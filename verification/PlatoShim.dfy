// The touch input shim: raw multitouch batches are re-encoded into frames of five events, kept
// in a ring buffer and handed out to reads of any size.
module PlatoShim {
  import opened Wrappers

  type u16 = x: int | 0 <= x < 0x1_0000

  const EV_SYN: u16 := 0
  const EV_KEY: u16 := 1
  const EV_ABS: u16 := 3
  const SYN_REPORT: u16 := 0
  const BTN_TOUCH: u16 := 0x14A
  const ABS_MT_TOUCH_MAJOR: u16 := 0x30
  const ABS_MT_POSITION_X: u16 := 0x35
  const ABS_MT_POSITION_Y: u16 := 0x36
  const ABS_MT_TRACKING_ID: u16 := 0x39

  const QUEUE_SIZE: nat := 128
  const RAW_BATCH: nat := 16
  const FRAME: nat := 5
  const CONTACT: i32 := 100

  datatype Event = Event(sec: u32, usec: u32, kind: u16, code: u16, value: i32)

  // --- The shim as a transducer of event streams ---

  datatype Touch = Touch(isDown: bool, newDown: bool, trackingId: i32, x: i32, y: i32)

  /** What a raw event does to the touch state before any frame is sent. */
  function Absorb(t: Touch, e: Event): Touch {
    if e.kind == EV_ABS then
      if e.code == ABS_MT_TRACKING_ID then (if e.value >= 0 then t.(trackingId := e.value) else t)
      else if e.code == ABS_MT_POSITION_X then t.(x := e.value)
      else if e.code == ABS_MT_POSITION_Y then t.(y := e.value)
      else t
    else if e.kind == EV_KEY then
      if e.code == BTN_TOUCH then t.(newDown := e.value != 0) else t
    else t
  }

  function FrameOf(t: Touch, major: i32, e: Event): (f: seq<Event>)
    ensures |f| == FRAME
  {
    [Event(e.sec, e.usec, EV_ABS, ABS_MT_TRACKING_ID, t.trackingId), Event(e.sec, e.usec, EV_ABS, ABS_MT_POSITION_X, t.x),
     Event(e.sec, e.usec, EV_ABS, ABS_MT_POSITION_Y, t.y), Event(e.sec, e.usec, EV_ABS, ABS_MT_TOUCH_MAJOR, major),
     Event(e.sec, e.usec, EV_SYN, SYN_REPORT, 0)]
  }

  predicate IsReport(e: Event) {
    e.kind == EV_SYN && e.code == SYN_REPORT
  }

  /** One raw event: the new touch state and the events sent. */
  function Step(t: Touch, e: Event): (Touch, seq<Event>) {
    if !IsReport(e) then (Absorb(t, e), [])
    else if t.newDown then (t.(isDown := true), FrameOf(t, CONTACT, e))
    else if t.isDown then (t.(isDown := false), FrameOf(t, 0, e))
    else (t, [])
  }

  function Run(t: Touch, raw: seq<Event>): (Touch, seq<Event>) {
    if raw == [] then (t, [])
    else
      var (u, out) := Run(t, raw[..|raw| - 1]);
      var (v, more) := Step(u, raw[|raw| - 1]);
      (v, out + more)
  }

  lemma RunAppendOne(t: Touch, raw: seq<Event>, e: Event)
    ensures Run(t, raw + [e]) == (var (u, out) := Run(t, raw); var (v, more) := Step(u, e); (v, out + more))
  {
    assert (raw + [e])[..|raw|] == raw;
  }

  lemma {:induction false} RunAppend(t: Touch, a: seq<Event>, b: seq<Event>)
    ensures Run(t, a + b) == (var (u, out) := Run(t, a); var (v, more) := Run(u, b); (v, out + more))
  {
    if b == [] {
      assert a + b == a;
      assert Run(t, a).1 + [] == Run(t, a).1;
    } else {
      var c := b[..|b| - 1];
      RunAppend(t, a, c);
      assert (a + b)[..|a + b| - 1] == a + c;
      var (u, out) := Run(t, a);
      var (v, more) := Run(u, c);
      var last := Step(v, b[|b| - 1]).1;
      assert (out + more) + last == out + (more + last);
    }
  }

  // --- What the frames carry, read off the raw events ---

  /** The value of the newest event of the given kind and code, or the default. */
  function Newest(raw: seq<Event>, kind: u16, code: u16, start: i32): i32 {
    if raw == [] then start
    else if raw[|raw| - 1].kind == kind && raw[|raw| - 1].code == code then raw[|raw| - 1].value
    else Newest(raw[..|raw| - 1], kind, code, start)
  }

  /** The newest tracking id that is not negative, or the default. */
  function NewestId(raw: seq<Event>, start: i32): i32 {
    if raw == [] then start
    else
      var e := raw[|raw| - 1];
      if e.kind == 3 && e.code == 0x39 && e.value >= 0 then e.value
      else NewestId(raw[..|raw| - 1], start)
  }

  predicate Touching(raw: seq<Event>) {
    Newest(raw, 1, 0x14A, 0) != 0
  }

  /** Whether the finger was down at the newest report. */
  predicate DownAtReport(raw: seq<Event>) {
    raw != [] && if IsReport(raw[|raw| - 1]) then Touching(raw) else DownAtReport(raw[..|raw| - 1])
  }

  predicate Lifted(t: Touch) {
    !t.isDown && !t.newDown
  }

  /** The touch state of a shim whose finger was up at the start is what the raw events last said. */
  lemma {:induction false} StateIsNewest(t: Touch, raw: seq<Event>)
    requires Lifted(t)
    ensures Run(t, raw).0 == Touch(DownAtReport(raw), Touching(raw), NewestId(raw, t.trackingId),
                                   Newest(raw, EV_ABS, ABS_MT_POSITION_X, t.x), Newest(raw, EV_ABS, ABS_MT_POSITION_Y, t.y))
  {
    if raw != [] {
      StateIsNewest(t, raw[..|raw| - 1]);
    }
  }

  /** Every report, an event of kind 0 and code 0, sends one frame of five events at its time while the finger is down and one when
      it has just gone up: the newest tracking id, X and Y, how hard it is touched (100 or 0), and a report. Nothing else sends
      anything. */
  lemma FrameCarriesNewest(t: Touch, raw: seq<Event>, e: Event)
    requires Lifted(t)
    ensures Run(t, raw + [e]).1 == Run(t, raw).1 +
              if e.kind == 0 && e.code == 0 && (Touching(raw) || DownAtReport(raw)) then
                [Event(e.sec, e.usec, 3, 0x39, NewestId(raw, t.trackingId)),
                 Event(e.sec, e.usec, 3, 0x35, Newest(raw, 3, 0x35, t.x)),
                 Event(e.sec, e.usec, 3, 0x36, Newest(raw, 3, 0x36, t.y)),
                 Event(e.sec, e.usec, 3, 0x30, if Touching(raw) then 100 else 0),
                 Event(e.sec, e.usec, 0, 0, 0)]
              else []
  {
    StateIsNewest(t, raw);
    assert (raw + [e])[..|raw|] == raw;
  }

  // --- The shape of the output ---

  datatype Shape = Malformed | Open | Closed

  predicate IsFrame(f: seq<Event>, major: i32) {
    && |f| == FRAME
    && (forall k :: 0 <= k < 4 ==> f[k].kind == EV_ABS)
    && f[0].code == ABS_MT_TRACKING_ID && f[1].code == ABS_MT_POSITION_X && f[2].code == ABS_MT_POSITION_Y
    && f[3].code == ABS_MT_TOUCH_MAJOR && f[3].value == major
    && IsReport(f[4])
  }

  /** Reads an event stream frame by frame: a contact frame may come at any time, a lift frame only after a contact frame. */
  function ShapeOf(out: seq<Event>): Shape {
    if out == [] then Closed
    else if |out| < FRAME then Malformed
    else
      var before := ShapeOf(out[..|out| - FRAME]);
      var last := out[|out| - FRAME..];
      if before == Malformed then Malformed
      else if IsFrame(last, CONTACT) then Open
      else if IsFrame(last, 0) && before == Open then Closed
      else Malformed
  }

  lemma ShapeAppend(out: seq<Event>, f: seq<Event>)
    requires |f| == FRAME
    ensures ShapeOf(out + f) ==
            if ShapeOf(out) == Malformed then Malformed
            else if IsFrame(f, CONTACT) then Open
            else if IsFrame(f, 0) && ShapeOf(out) == Open then Closed
            else Malformed
  {
    hide IsFrame;
    assert (out + f)[..|out + f| - FRAME] == out;
    assert (out + f)[|out + f| - FRAME..] == f;
  }

  lemma FrameOfIsFrame(t: Touch, major: i32, e: Event)
    requires IsReport(e)
    ensures forall m: i32 :: IsFrame(FrameOf(t, major, e), m) <==> m == major
  {
  }

  /** What the shim sends is well formed, and a contact is open in it just when the finger was down at the last report. */
  lemma {:induction false} OutputIsFramed(t: Touch, raw: seq<Event>)
    requires Lifted(t)
    ensures ShapeOf(Run(t, raw).1) == if Run(t, raw).0.isDown then Open else Closed
  {
    hide IsFrame, FrameOf;
    if raw != [] {
      var e := raw[|raw| - 1];
      var (u, out) := Run(t, raw[..|raw| - 1]);
      OutputIsFramed(t, raw[..|raw| - 1]);
      hide ShapeOf;
      if IsReport(e) && (u.newDown || u.isDown) {
        var major := if u.newDown then CONTACT else 0;
        FrameOfIsFrame(u, major, e);
        ShapeAppend(out, Step(u, e).1);
      } else {
        assert out + [] == out;
      }
    }
  }

  function FrameAt(out: seq<Event>, k: nat): (f: seq<Event>)
    requires FRAME * (k + 1) <= |out|
  {
    out[FRAME * k..FRAME * (k + 1)]
  }

  lemma {:induction false} WholeFrames(out: seq<Event>) returns (m: nat)
    requires ShapeOf(out) != Malformed
    ensures |out| == FRAME * m
  {
    hide IsFrame;
    if out == [] {
      m := 0;
    } else {
      m := WholeFrames(out[..|out| - FRAME]);
      m := m + 1;
    }
  }

  /** The last frame of a well-formed stream, and what may come before it. */
  lemma LastFrame(out: seq<Event>)
    requires out != [] && ShapeOf(out) != Malformed
    ensures |out| >= FRAME && ShapeOf(out[..|out| - FRAME]) != Malformed
    ensures var before, last := ShapeOf(out[..|out| - FRAME]), out[|out| - FRAME..];
            (IsFrame(last, CONTACT) && ShapeOf(out) == Open) || (IsFrame(last, 0) && ShapeOf(out) == Closed && before == Open)
  {
    hide IsFrame;
  }

  /** In a well-formed stream a lift frame directly follows a contact frame: no lift comes without a contact, and each run of
      contacts is closed by exactly one lift before the next run. The events are whole frames. */
  lemma {:induction false} FramesAlternate(out: seq<Event>, n: nat, k: nat)
    requires ShapeOf(out) != Malformed && |out| == FRAME * n && k < n
    ensures IsFrame(FrameAt(out, k), CONTACT)
         || (IsFrame(FrameAt(out, k), 0) && k > 0 && IsFrame(FrameAt(out, k - 1), CONTACT))
    ensures k == n - 1 && ShapeOf(out) == Open ==> IsFrame(FrameAt(out, k), CONTACT)
    decreases n
  {
    hide IsFrame, ShapeOf, FrameAt;
    LastFrame(out);
    var rest := out[..|out| - FRAME];
    assert |rest| == FRAME * (n - 1);
    if k < n - 1 {
      FramesAlternate(rest, n - 1, k);
      FrameKept(out, n, k);
      if k > 0 {
        FrameKept(out, n, k - 1);
      }
    } else {
      NewestFrame(out, n);
      if n > 1 {
        FramesAlternate(rest, n - 1, n - 2);
        FrameKept(out, n, n - 2);
      } else {
        EmptyIsClosed(rest);
      }
    }
  }

  lemma NewestFrame(out: seq<Event>, n: nat)
    requires |out| == FRAME * n && n > 0
    ensures FrameAt(out, n - 1) == out[|out| - FRAME..]
  {
  }

  lemma EmptyIsClosed(out: seq<Event>)
    requires |out| == 0
    ensures ShapeOf(out) == Closed
  {
  }

  lemma FrameKept(out: seq<Event>, n: nat, k: nat)
    requires |out| == FRAME * n && k < n - 1
    ensures FrameAt(out[..|out| - FRAME], k) == FrameAt(out, k)
  {
  }

  // --- The ring buffer ---

  function After(slot: nat): nat {
    (slot + 1) % QUEUE_SIZE
  }

  ghost predicate RingOk(q: seq<Event>, head: nat, tail: nat) {
    |q| == QUEUE_SIZE && head < QUEUE_SIZE && tail < QUEUE_SIZE
  }

  /** The events held, oldest first. */
  ghost function Ring(q: seq<Event>, head: nat, tail: nat): seq<Event>
    requires RingOk(q, head, tail)
  {
    if head <= tail then q[head..tail] else q[head..] + q[..tail]
  }

  lemma RingPut(q: seq<Event>, head: nat, tail: nat, e: Event)
    requires RingOk(q, head, tail) && After(tail) != head
    ensures |Ring(q, head, tail)| < QUEUE_SIZE - 1
    ensures Ring(q[tail := e], head, After(tail)) == Ring(q, head, tail) + [e]
  {
    var p := q[tail := e];
    if tail == QUEUE_SIZE - 1 {
      assert After(tail) == 0;
      assert p[head..] == q[head..tail] + [e];
      assert p[..0] == [];
    } else {
      assert After(tail) == tail + 1;
      assert p[..tail + 1] == q[..tail] + [e];
      if head <= tail {
        assert p[head..tail + 1] == q[head..tail] + [e];
      } else {
        assert p[head..] == q[head..];
      }
    }
  }

  /** A ring whose next slot is its head holds as much as it can. */
  lemma RingFull(q: seq<Event>, head: nat, tail: nat)
    requires RingOk(q, head, tail) && After(tail) == head
    ensures |Ring(q, head, tail)| == QUEUE_SIZE - 1
  {
  }

  lemma RingTake(q: seq<Event>, head: nat, tail: nat)
    requires RingOk(q, head, tail) && head != tail
    ensures |Ring(q, head, tail)| > 0 && Ring(q, head, tail)[0] == q[head]
    ensures Ring(q, After(head), tail) == Ring(q, head, tail)[1..]
  {
    if head < tail {
      TakeStraight(q, head, tail);
    } else if head == QUEUE_SIZE - 1 {
      TakeLast(q, tail);
    } else {
      TakeWrapped(q, head, tail);
    }
  }

  lemma TakeStraight(q: seq<Event>, head: nat, tail: nat)
    requires RingOk(q, head, tail) && head < tail
    ensures After(head) == head + 1 && Ring(q, head, tail)[0] == q[head]
    ensures Ring(q, head + 1, tail) == Ring(q, head, tail)[1..]
  {
  }

  lemma TakeLast(q: seq<Event>, tail: nat)
    requires RingOk(q, QUEUE_SIZE - 1, tail) && tail < QUEUE_SIZE - 1
    ensures var r := Ring(q, QUEUE_SIZE - 1, tail);
            After(QUEUE_SIZE - 1) == 0 && |r| > 0 && r[0] == q[QUEUE_SIZE - 1] && Ring(q, 0, tail) == r[1..]
  {
    assert q[QUEUE_SIZE - 1..] == [q[QUEUE_SIZE - 1]];
    assert q[0..tail] == q[..tail];
    assert ([q[QUEUE_SIZE - 1]] + q[..tail])[1..] == q[..tail];
  }

  lemma TakeWrapped(q: seq<Event>, head: nat, tail: nat)
    requires RingOk(q, head, tail) && tail < head < QUEUE_SIZE - 1
    ensures var r := Ring(q, head, tail);
            After(head) == head + 1 && |r| > 0 && r[0] == q[head] && Ring(q, head + 1, tail) == r[1..]
  {
    assert q[head..] == [q[head]] + q[head + 1..];
    assert ([q[head]] + q[head + 1..]) + q[..tail] == [q[head]] + (q[head + 1..] + q[..tail]);
    assert ([q[head]] + (q[head + 1..] + q[..tail]))[1..] == q[head + 1..] + q[..tail];
  }

  // --- Raw reads ---

  /** What one read of the touch device gives: up to 16 events, or the end of the stream or an error (a code of at most 0). */
  datatype RawRead = Batch(events: seq<Event>) | Ended(code: int)

  ghost predicate Plausible(r: RawRead) {
    match r
    case Batch(events) => |events| <= RAW_BATCH
    case Ended(code) => code <= 0
  }

  ghost function EventsOf(reads_: seq<RawRead>): seq<Event> {
    if reads_ == [] then []
    else
      var r := reads_[|reads_| - 1];
      EventsOf(reads_[..|reads_| - 1]) + if r.Batch? then r.events else []
  }

  /** The outcome of a read by the application. Blocked: the device has nothing more to give yet. */
  datatype Outcome = Delivered(events: seq<Event>) | Failed(code: int) | Blocked

  const EVENT_BYTES: nat := 16
  const MOST_QUEUED: nat := 80

  lemma NoEvents(incoming: seq<RawRead>, had: seq<Event>)
    ensures had + EventsOf(incoming[..0]) == had
  {
    assert incoming[..0] == [];
  }

  lemma EventsSnoc(incoming: seq<RawRead>, used: nat, had: seq<Event>)
    requires used < |incoming|
    ensures had + EventsOf(incoming[..used + 1]) ==
            if incoming[used].Batch? then (had + EventsOf(incoming[..used])) + incoming[used].events
            else had + EventsOf(incoming[..used])
  {
    var now := incoming[..used + 1];
    assert now[..|now| - 1] == incoming[..used];
    if !incoming[used].Batch? {
      assert EventsOf(incoming[..used]) + [] == EventsOf(incoming[..used]);
    }
  }

  lemma Shift(a: seq<Event>, b: seq<Event>, e: Event, c: seq<Event>)
    ensures b + ([e] + c) == (b + [e]) + c
    ensures (a + b) + ([e] + c) == (a + (b + [e])) + c
  {
  }

  class Shim {
    var queue: array<Event>
    var qhead: nat
    var qtail: nat
    var isDown: bool
    var newDown: bool
    var trackingId: i32
    var lastX: i32
    var lastY: i32
    ghost var start: Touch
    ghost var raw: seq<Event>
    ghost var delivered: seq<Event>

    ghost predicate Sound()
      reads this, queue
    {
      RingOk(queue[..], qhead, qtail)
    }

    ghost function Contents(): seq<Event>
      requires Sound()
      reads this, queue
    {
      Ring(queue[..], qhead, qtail)
    }

    ghost function State(): Touch
      reads this
    {
      Touch(isDown, newDown, trackingId, lastX, lastY)
    }

    /** Holds between reads: what has been handed out, followed by what is queued, is what the transducer makes of all raw
        events since the device was opened; and at most 80 events are queued. */
    ghost predicate Valid()
      reads this, queue
    {
      && Sound() && Lifted(start)
      && Run(start, raw) == (State(), delivered + Contents())
      && |Contents()| <= MOST_QUEUED
    }

    constructor ()
      ensures Valid() && raw == [] && delivered == [] && fresh(queue)
    {
      queue := new Event[QUEUE_SIZE](_ => Event(0, 0, 0, 0, 0));
      qhead, qtail, isDown, newDown, trackingId, lastX, lastY := 0, 0, false, false, 0, 0, 0;
      start, raw, delivered := Touch(false, false, 0, 0, 0), [], [];
      new;
      assert Contents() == [] && delivered + Contents() == [];
    }

    /** Appends an event. A ring holding 127 events gives up its oldest one for it. */
    method Enqueue(e: Event)
      requires Sound()
      modifies this`qhead, this`qtail, queue
      ensures Sound()
      ensures Contents() == (if |old(Contents())| < 127 then old(Contents()) else old(Contents())[1..]) + [e]
      ensures |old(Contents())| < 127 ==> qhead == old(qhead)
    {
      ghost var q, head, tail := queue[..], qhead, qtail;
      hide Ring;
      var next := (qtail + 1) % QUEUE_SIZE;
      if next == qhead {
        RingFull(q, head, tail);
        RingTake(q, head, tail);
        qhead := (qhead + 1) % QUEUE_SIZE;
      }
      RingPut(q, qhead, tail, e);
      queue[qtail] := e;
      qtail := next;
      assert queue[..] == q[tail := e];
    }

    /** Takes the oldest event. */
    method Dequeue() returns (e: Event)
      requires Sound() && qhead != qtail
      modifies this`qhead
      ensures Sound()
      ensures old(Contents()) == [e] + Contents()
    {
      RingTake(queue[..], qhead, qtail);
      e := queue[qhead];
      qhead := (qhead + 1) % QUEUE_SIZE;
    }

    /** The head stays where it was: nothing queued is overwritten. */
    method SendFrame(major: i32, sec: u32, usec: u32)
      requires Sound() && |Contents()| + FRAME < QUEUE_SIZE
      modifies this`qhead, this`qtail, queue
      ensures Sound() && qhead == old(qhead)
      ensures Contents() == old(Contents()) + FrameOf(State(), major, Event(sec, usec, EV_SYN, SYN_REPORT, 0))
    {
      hide Ring;
      ghost var c := Contents();
      Enqueue(Event(sec, usec, EV_ABS, ABS_MT_TRACKING_ID, trackingId));
      Enqueue(Event(sec, usec, EV_ABS, ABS_MT_POSITION_X, lastX));
      Enqueue(Event(sec, usec, EV_ABS, ABS_MT_POSITION_Y, lastY));
      Enqueue(Event(sec, usec, EV_ABS, ABS_MT_TOUCH_MAJOR, major));
      Enqueue(Event(sec, usec, EV_SYN, SYN_REPORT, 0));
      assert Contents() == c + FrameOf(State(), major, Event(sec, usec, EV_SYN, SYN_REPORT, 0));
    }

    /** One raw event does to the fields and the ring what the transducer does. */
    method Take(e: Event)
      requires Sound() && |Contents()| + FRAME < QUEUE_SIZE
      modifies this`qhead, this`qtail, queue, this`isDown, this`newDown, this`trackingId, this`lastX, this`lastY
      ensures Sound() && qhead == old(qhead)
      ensures (State(), Contents()) == (var (t, more) := Step(old(State()), e); (t, old(Contents()) + more))
    {
      hide Ring;
      ghost var c := Contents();
      assert c + [] == c;
      if e.kind == EV_ABS {
        if e.code == ABS_MT_TRACKING_ID {
          if e.value >= 0 {
            trackingId := e.value;
          }
        } else if e.code == ABS_MT_POSITION_X {
          lastX := e.value;
        } else if e.code == ABS_MT_POSITION_Y {
          lastY := e.value;
        }
      } else if e.kind == EV_KEY {
        if e.code == BTN_TOUCH {
          newDown := e.value != 0;
        }
      } else if e.kind == EV_SYN && e.code == SYN_REPORT {
        if !isDown && newDown {
          isDown := true;
          SendFrame(CONTACT, e.sec, e.usec);
        } else if isDown && newDown {
          SendFrame(CONTACT, e.sec, e.usec);
        } else if isDown && !newDown {
          isDown := false;
          SendFrame(0, e.sec, e.usec);
        }
      }
    }

    /** Feeds one raw batch into an empty ring: at most 80 events come out, and none overwrites another. */
    method TakeBatch(events: seq<Event>)
      requires Sound() && Contents() == [] && |events| <= RAW_BATCH
      modifies this`qhead, this`qtail, queue, this`isDown, this`newDown, this`trackingId, this`lastX, this`lastY
      ensures Sound() && (State(), Contents()) == Run(old(State()), events) && qhead == old(qhead)
      ensures |Contents()| <= MOST_QUEUED
    {
      hide Ring;
      ghost var t := State();
      var i := 0;
      assert events[..0] == [];
      while i < |events|
        invariant 0 <= i <= |events| && Sound() && qhead == old(qhead)
        invariant (State(), Contents()) == Run(t, events[..i])
        invariant |Contents()| <= FRAME * i
      {
        assert events[..i + 1] == events[..i] + [events[i]];
        RunAppendOne(t, events[..i], events[i]);
        Take(events[i]);
        i := i + 1;
      }
      assert events[..i] == events;
    }

    lemma EmptyRing()
      requires Sound()
      ensures qhead == qtail <==> Contents() == []
    {
    }

    /** A raw batch arriving while the ring is empty keeps the shim valid. */
    method Absorbed(events: seq<Event>)
      requires Valid() && Contents() == [] && |events| <= RAW_BATCH
      modifies this, queue
      ensures Valid() && queue == old(queue) && start == old(start)
      ensures raw == old(raw) + events && delivered == old(delivered)
    {
      hide Run, Step, Ring;
      RunAppend(start, raw, events);
      assert delivered + [] == delivered;
      TakeBatch(events);
      raw := raw + events;
    }

    /** Waits for output: reads raw batches until something is queued. */
    method Fill(incoming: seq<RawRead>) returns (used: nat, ended: Outcome)
      requires Valid() && forall r :: r in incoming ==> Plausible(r)
      modifies this, queue
      ensures Valid() && queue == old(queue) && start == old(start) && delivered == old(delivered)
      ensures used <= |incoming| && raw == old(raw) + EventsOf(incoming[..used])
      ensures old(Contents()) != [] ==> used == 0 && ended.Delivered?
      ensures ended.Delivered? ==> Contents() != []
      ensures ended.Failed? ==> Contents() == [] && used > 0 && incoming[used - 1] == Ended(ended.code)
      ensures ended.Blocked? ==> Contents() == [] && used == |incoming|
    {
      hide Run, Step, Ring, EventsOf;
      used := 0;
      ghost var had := raw;
      NoEvents(incoming, had);
      EmptyRing();
      while qhead == qtail
        invariant Valid() && queue == old(queue) && start == old(start) && delivered == old(delivered)
        invariant used <= |incoming| && raw == had + EventsOf(incoming[..used])
        invariant old(Contents()) != [] ==> used == 0 && qhead != qtail
        invariant qhead == qtail <==> Contents() == []
        decreases |incoming| - used
      {
        if used == |incoming| {
          return used, Blocked;
        }
        var r := incoming[used];
        assert Plausible(r);
        EventsSnoc(incoming, used, had);
        used := used + 1;
        match r {
          case Ended(code) =>
            return used, Failed(code);
          case Batch(events) =>
            Absorbed(events);
            EmptyRing();
        }
      }
      ended := Delivered([]);
    }

    /** Copies the oldest events out, as many as fit. */
    method Drain(maxOut: nat) returns (out: seq<Event>)
      requires Valid()
      modifies this`qhead, this`delivered
      ensures Valid() && delivered == old(delivered) + out && old(Contents()) == out + Contents()
      ensures |out| <= maxOut && (Contents() != [] ==> |out| == maxOut)
    {
      hide Run, Ring;
      out := [];
      ghost var had, c := delivered, Contents();
      assert had + [] == had && [] + c == c;
      while |out| < maxOut && qhead != qtail
        invariant Valid() && delivered == had + out && out + Contents() == c && |out| <= maxOut
        decreases |c| - |out|
      {
        var e := Dequeue();
        Shift(had, out, e, Contents());
        out := out + [e];
        delivered := had + out;
      }
      EmptyRing();
    }

    /** The shim's read: nothing is reordered, lost or repeated, whatever the raw batches and whatever the buffer size. */
    method Read(incoming: seq<RawRead>, count: u32) returns (used: nat, outcome: Outcome)
      requires Valid() && forall r :: r in incoming ==> Plausible(r)
      modifies this, queue
      ensures Valid() && queue == old(queue) && start == old(start)
      ensures used <= |incoming| && raw == old(raw) + EventsOf(incoming[..used])
      ensures |Contents()| <= 80
      ensures old(Contents()) != [] ==> used == 0 && outcome.Delivered?
      ensures outcome.Delivered? ==>
                && delivered == old(delivered) + outcome.events && 16 * |outcome.events| <= count
                && (Contents() != [] ==> |outcome.events| == count / 16)
                && (outcome.events != [] || count < 16)
      ensures !outcome.Delivered? ==> delivered == old(delivered) && Contents() == []
      ensures outcome.Failed? ==> used > 0 && incoming[used - 1] == Ended(outcome.code)
      ensures outcome.Blocked? ==> used == |incoming|
    {
      hide Run, Ring, EventsOf;
      used, outcome := Fill(incoming);
      if !outcome.Delivered? {
        return;
      }
      var out := Drain(count / EVENT_BYTES);
      outcome := Delivered(out);
    }

    /** Closing the touch device forgets what is queued and lifts the finger, but keeps the last coordinates. */
    method Close()
      requires Valid()
      modifies this
      ensures Valid() && queue == old(queue) && raw == [] && delivered == []
      ensures start == old(State()).(isDown := false, newDown := false) && Contents() == []
    {
      qhead, qtail, isDown, newDown := 0, 0, false, false;
      start, raw, delivered := State(), [], [];
      assert Contents() == [] && delivered + Contents() == [];
    }
  }
}
