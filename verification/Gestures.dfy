// The button supervisor: taps, double taps, holds and chords of the physical buttons become virtual key
// events, shell commands and overlays.
module Gestures {
  import opened Overlays

  const EV_SYN: nat := 0
  const EV_KEY: nat := 1
  const EV_SW: nat := 5
  const KEY_HOME: nat := 102
  const KEY_POWER: nat := 116
  const TOP_LEFT: nat := 191
  const BOTTOM_LEFT: nat := 192
  const TOP_RIGHT: nat := 193
  const BOTTOM_RIGHT: nat := 194
  const SW_LID: nat := 0

  const POWER_DOUBLE_CLICK_MS := 400
  const HOME_LONG_PRESS_MS := 500

  type u64 = x: int | 0 <= x < 0x1_0000_0000_0000_0000

  datatype Event = Event(kind: nat, code: nat, value: int)

  datatype Command =
    ToggleFrontlight | AudioPause | AudioPrevious | AudioNext | AudioShuffle | TapPlatoFrontlight | KillAllBut(app: string) |
    KillNetSurf | Suspend

  /** What the supervisor does to the outside: writes to the virtual device, runs a command, names the active application. */
  datatype Effect = Emit(kind: nat, code: nat, value: int) | Shell(command: Command) | SetApp(name: string)

  const SYN: Effect := Emit(EV_SYN, 0, 0)

  function KeyClick(code: nat): seq<Effect> {
    [Emit(EV_KEY, code, 1), SYN, Emit(EV_KEY, code, 0), SYN]
  }

  // --- Time ---

  /** The difference of two 64-bit times, truncated to a signed 32-bit number. */
  function Remaining(deadline: int, now: int): int {
    var d := (deadline - now) % 0x1_0000_0000;
    if d >= 0x8000_0000 then d - 0x1_0000_0000 else d
  }

  /** The difference of two times as a 64-bit number. */
  function Elapsed(now: u64, since: u64): u64 {
    (now - since) % 0x1_0000_0000_0000_0000
  }

  // --- The supervisor as a state machine ---

  datatype State = State(
    powerPending: bool, powerDownTime: u64,
    homeDown: bool, homeComboConsumed: bool, homePendingSingle: bool, homeLongSent: bool,
    homeDownTime: u64, homeSingleTime: u64, homeDoubleConsumed: bool, mediaMode: bool)

  const IDLE: State := State(false, 0, false, false, false, false, 0, 0, false, false)

  function TickPower(s: State, now: u64): (State, seq<Effect>) {
    if s.powerPending && Remaining(s.powerDownTime + POWER_DOUBLE_CLICK_MS, now) <= 0 then
      (s.(powerPending := false), KeyClick(KEY_POWER))
    else (s, [])
  }

  function TickHold(s: State, now: u64): (State, seq<Effect>) {
    if s.homeDown && !s.homeComboConsumed && !s.homeLongSent
       && Remaining(s.homeDownTime + HOME_LONG_PRESS_MS, now) <= 0
    then
      (s.(homeLongSent := true, homePendingSingle := false), [Emit(EV_KEY, KEY_HOME, 1), SYN])
    else (s, [])
  }

  function TickSingle(s: State, now: u64): (State, seq<Effect>) {
    if s.homePendingSingle && Remaining(s.homeSingleTime + POWER_DOUBLE_CLICK_MS, now) <= 0 then
      (s.(homePendingSingle := false), KeyClick(KEY_HOME))
    else (s, [])
  }

  function Tick(s: State, now: u64): (State, seq<Effect>) {
    var (a, x) := TickPower(s, now);
    var (b, y) := TickHold(a, now);
    var (c, z) := TickSingle(b, now);
    (c, x + y + z)
  }

  function PowerKey(s: State, value: int, now: u64): (State, seq<Effect>) {
    if value != 1 then (s, [])
    else if s.powerPending && Elapsed(now, s.powerDownTime) <= POWER_DOUBLE_CLICK_MS then
      (s.(powerPending := false), [Shell(ToggleFrontlight)])
    else (s.(powerPending := true, powerDownTime := now), [])
  }

  predicate IsDoubleTap(s: State, now: u64) {
    s.homePendingSingle && !s.homeDoubleConsumed && Elapsed(now, s.homeSingleTime) <= POWER_DOUBLE_CLICK_MS
  }

  function HomeDown(s: State, now: u64): (State, seq<Effect>) {
    var twice := IsDoubleTap(s, now);
    (s.(homeDown := true, homeDownTime := now, homeComboConsumed := false, homeLongSent := false,
        homePendingSingle := false, homeDoubleConsumed := s.homeDoubleConsumed || twice),
     if twice then [Shell(AudioPause)] else [])
  }

  function HomeUp(s: State, now: u64): (State, seq<Effect>) {
    var up := s.(homeDown := false);
    if s.homeComboConsumed then (up.(homeComboConsumed := false), [])
    else if s.homeLongSent then (up.(homeLongSent := false), [Emit(EV_KEY, KEY_HOME, 0), SYN])
    else if s.homeDoubleConsumed then (up.(homeDoubleConsumed := false), [])
    else if s.mediaMode then (up, [Shell(AudioPause)])
    else (up.(homePendingSingle := true, homeSingleTime := now), [])
  }

  predicate IsPageKey(code: nat) {
    TOP_LEFT <= code <= BOTTOM_RIGHT
  }

  /** A side button pressed while Home is held. */
  function Chord(s: State, code: nat, app: string): (State, seq<Effect>) {
    var t := s.(homeComboConsumed := true, homePendingSingle := false);
    if code == TOP_LEFT then
      if app == "koreader" then
        (t.(mediaMode := false, homeComboConsumed := false), KeyClick(KEY_HOME))
      else (t.(mediaMode := false), [SetApp("koreader"), Shell(KillAllBut("koreader"))])
    else if code == BOTTOM_LEFT then
      if app == "plato" then (t.(mediaMode := false), [Shell(TapPlatoFrontlight)])
      else (t.(mediaMode := false), [SetApp("plato"), Shell(KillAllBut("plato"))])
    else if code == TOP_RIGHT then
      if app == "netsurf" then (t.(mediaMode := false), [SetApp("koreader"), Shell(KillNetSurf)])
      else (t.(mediaMode := false), [SetApp("netsurf"), Shell(KillAllBut("netsurf"))])
    else (t.(mediaMode := !s.mediaMode), [])
  }

  function MediaCommand(code: nat): Command {
    if code == TOP_LEFT then AudioPrevious
    else if code == BOTTOM_LEFT then AudioShuffle
    else if code == TOP_RIGHT then AudioNext
    else AudioPause
  }

  function PageKey(s: State, e: Event, app: string): (State, seq<Effect>) {
    if e.value == 1 then
      if s.homeDown then Chord(s, e.code, app)
      else if s.mediaMode then (s, [Shell(MediaCommand(e.code))])
      else (s, [Emit(e.kind, e.code, e.value)])
    else if e.value == 0 && !s.homeComboConsumed && !s.mediaMode then (s, [Emit(e.kind, e.code, e.value)])
    else (s, [])
  }

  function React(s: State, e: Event, now: u64, app: string): (State, seq<Effect>) {
    if e.kind == EV_KEY && e.code == KEY_POWER then PowerKey(s, e.value, now)
    else if e.kind == EV_KEY && e.code == KEY_HOME then
      if e.value == 1 then HomeDown(s, now)
      else if e.value == 0 then HomeUp(s, now)
      else (s, [])
    else if e.kind == EV_KEY && IsPageKey(e.code) then PageKey(s, e, app)
    else if e.kind == EV_SW && e.code == SW_LID then
      (s, (if e.value == 1 && app != "koreader" then [Shell(Suspend)] else []) + [Emit(e.kind, e.code, e.value)])
    else if e.kind == EV_SW || e.kind == EV_SYN then (s, [Emit(e.kind, e.code, e.value)])
    else (s, [])
  }

  /** One turn of the event loop: the timers at one time, then perhaps an event read at a later time. */
  datatype Input = Quiet | Got(e: Event, now: u64, app: string)
  datatype Turn = Turn(tick: u64, input: Input)

  function Take(s: State, i: Input): (State, seq<Effect>) {
    match i
    case Quiet => (s, [])
    case Got(e, now, app) => React(s, e, now, app)
  }

  function Step(s: State, t: Turn): (State, seq<Effect>) {
    var (u, x) := Tick(s, t.tick);
    var (v, y) := Take(u, t.input);
    (v, x + y)
  }

  function Run(turns: seq<Turn>): (State, seq<Effect>) {
    if turns == [] then (IDLE, [])
    else
      var (s, out) := Run(turns[..|turns| - 1]);
      var (t, more) := Step(s, turns[|turns| - 1]);
      (t, out + more)
  }

  // --- The power button ---

  datatype PowerOut = Sleep | Frontlight

  /** What a sequence of effects looks like to an observer of single effects. */
  function Project<T>(out: seq<Effect>, view: Effect -> seq<T>): seq<T> {
    if out == [] then [] else Project(out[..|out| - 1], view) + view(out[|out| - 1])
  }

  lemma {:induction false} ProjectAppend<T>(a: seq<Effect>, b: seq<Effect>, view: Effect -> seq<T>)
    ensures Project(a + b, view) == Project(a, view) + Project(b, view)
  {
    if b == [] {
      assert a + b == a;
    } else {
      var c, e := b[..|b| - 1], b[|b| - 1];
      ProjectAppend(a, c, view);
      assert (a + b)[..|a + b| - 1] == a + c;
      assert (Project(a, view) + Project(c, view)) + view(e) == Project(a, view) + (Project(c, view) + view(e));
    }
  }

  lemma {:induction false} ProjectSilent<T>(out: seq<Effect>, view: Effect -> seq<T>)
    requires forall e :: e in out ==> view(e) == []
    ensures Project(out, view) == []
  {
    if out != [] {
      ProjectSilent(out[..|out| - 1], view);
    }
  }

  lemma ProjectFew<T>(a: Effect, b: Effect, view: Effect -> seq<T>)
    ensures Project([], view) == [] && Project([a], view) == view(a) && Project([a, b], view) == view(a) + view(b)
  {
    assert [a][..0] == [] && [a, b][..1] == [a];
  }

  lemma ProjectClick<T>(code: nat, view: Effect -> seq<T>)
    requires view(SYN) == []
    ensures Project(KeyClick(code), view) == view(Emit(EV_KEY, code, 1)) + view(Emit(EV_KEY, code, 0))
  {
    var a, b := Emit(EV_KEY, code, 1), Emit(EV_KEY, code, 0);
    assert KeyClick(code) == [a, SYN] + [b, SYN];
    ProjectAppend([a, SYN], [b, SYN], view);
    ProjectFew(a, SYN, view);
    ProjectFew(b, SYN, view);
  }

  function PowerOf(e: Effect): seq<PowerOut> {
    if e == Emit(EV_KEY, KEY_POWER, 1) then [Sleep] else if e == Shell(ToggleFrontlight) then [Frontlight] else []
  }

  /** What reaches the power channel: virtual power presses and front light toggles. */
  function PowerStream(out: seq<Effect>): seq<PowerOut> {
    Project(out, PowerOf)
  }

  lemma PowerStreamAppend(a: seq<Effect>, b: seq<Effect>)
    ensures PowerStream(a + b) == PowerStream(a) + PowerStream(b)
  {
    ProjectAppend(a, b, PowerOf);
  }

  predicate IsPowerPress(i: Input) {
    i.Got? && i.e.kind == EV_KEY && i.e.code == KEY_POWER && i.e.value == 1
  }

  /** The times of the physical power presses, in order. */
  function PressTimes(turns: seq<Turn>): seq<u64> {
    if turns == [] then []
    else
      var i := turns[|turns| - 1].input;
      PressTimes(turns[..|turns| - 1]) + if IsPowerPress(i) then [i.now] else []
  }

  /** Pairs presses from left to right: two at most 400 ms apart toggle the front light, any other one is a click. */
  function Greedy(times: seq<u64>): seq<PowerOut> {
    if times == [] then []
    else if |times| > 1 && times[1] as int - times[0] as int <= 400 then [Frontlight] + Greedy(times[2..])
    else [Sleep] + Greedy(times[1..])
  }

  datatype Pairing = Pairing(done: seq<PowerOut>, open: seq<u64>)

  function PairOne(p: Pairing, t: u64): Pairing {
    if p.open == [] then Pairing(p.done, [t])
    else if t as int - p.open[0] as int <= 400 then Pairing(p.done + [Frontlight], [])
    else Pairing(p.done + [Sleep], [t])
  }

  /** The same pairing computed press by press: what is decided, and the press still waiting for a partner. */
  function Fold(times: seq<u64>): (p: Pairing)
    ensures |p.open| <= 1
  {
    if times == [] then Pairing([], []) else PairOne(Fold(times[..|times| - 1]), times[|times| - 1])
  }

  lemma PairOneIsGreedy(p: Pairing, t: u64, rest: seq<u64>)
    requires |p.open| <= 1
    ensures p.done + Greedy(p.open + ([t] + rest)) == PairOne(p, t).done + Greedy(PairOne(p, t).open + rest)
  {
    var all := p.open + ([t] + rest);
    if p.open == [] {
      assert all == [t] + rest;
    } else if t as int - p.open[0] as int <= 400 {
      assert all[2..] == rest && [] + rest == rest;
      assert Greedy(all) == [Frontlight] + Greedy(rest);
      assert p.done + ([Frontlight] + Greedy(rest)) == (p.done + [Frontlight]) + Greedy(rest);
    } else {
      assert all[1..] == [t] + rest;
      assert Greedy(all) == [Sleep] + Greedy([t] + rest);
      assert p.done + ([Sleep] + Greedy([t] + rest)) == (p.done + [Sleep]) + Greedy([t] + rest);
    }
  }

  lemma {:induction false} GreedySplits(times: seq<u64>, k: nat)
    requires k <= |times|
    ensures Greedy(times) == Fold(times[..k]).done + Greedy(Fold(times[..k]).open + times[k..])
  {
    hide Greedy, PairOne;
    if k == 0 {
      assert [] + times[0..] == times;
      assert [] + Greedy(times) == Greedy(times);
    } else {
      GreedySplits(times, k - 1);
      assert times[..k][..k - 1] == times[..k - 1];
      PairOneIsGreedy(Fold(times[..k - 1]), times[k - 1], times[k..]);
      assert times[k - 1..] == [times[k - 1]] + times[k..];
    }
  }

  lemma FoldIsGreedy(times: seq<u64>)
    ensures Greedy(times) == Fold(times).done + if Fold(times).open == [] then [] else [Sleep]
  {
    GreedySplits(times, |times|);
    assert times[..|times|] == times && Fold(times).open + [] == Fold(times).open;
  }

  /** The clock never goes back: each turn's times follow the ones before. */
  predicate Clocked(turns: seq<Turn>) {
    turns == [] ||
    (Clocked(turns[..|turns| - 1]) && Latest(turns[..|turns| - 1]) <= turns[|turns| - 1].tick <= Latest(turns))
  }

  function Latest(turns: seq<Turn>): u64 {
    if turns == [] then 0
    else
      var t := turns[|turns| - 1];
      if t.input.Got? then t.input.now else t.tick
  }

  /** Deadlines are served before later presses: no press finds an expired tap still waiting, and none comes within the
      window of a tap whose timer has already fired. */
  predicate Timely(turns: seq<Turn>) {
    turns == [] ||
    (var before, t := turns[..|turns| - 1], turns[|turns| - 1];
     var (s, out) := Run(before);
     var (u, x) := Tick(s, t.tick);
     Timely(before) && InTime(u, PowerStream(out + x), t.input))
  }

  lemma PowerStreamOne(e: Effect)
    ensures PowerStream([e]) == PowerOf(e)
  {
    ProjectFew(e, e, PowerOf);
  }

  lemma ClickStream(code: nat)
    ensures PowerStream(KeyClick(code)) == if code == KEY_POWER then [Sleep] else []
  {
    ProjectClick(code, PowerOf);
  }

  lemma SilentStream(out: seq<Effect>)
    requires forall e :: e in out ==> PowerOf(e) == []
    ensures PowerStream(out) == []
  {
    ProjectSilent(out, PowerOf);
  }

  /** A step that leaves the power channel alone. */
  ghost predicate PowerIdle(s: State, r: (State, seq<Effect>)) {
    && r.0.powerPending == s.powerPending && r.0.powerDownTime == s.powerDownTime
    && forall e :: e in r.1 ==> PowerOf(e) == []
  }

  lemma TimersPowerIdle(s: State, now: u64)
    ensures PowerIdle(s, TickHold(s, now)) && PowerIdle(s, TickSingle(s, now))
  {
    hide Remaining;
  }

  lemma HomePowerIdle(s: State, now: u64)
    ensures PowerIdle(s, HomeDown(s, now)) && PowerIdle(s, HomeUp(s, now))
  {
    hide IsDoubleTap;
  }

  lemma ChordPowerIdle(s: State, code: nat, app: string)
    ensures PowerIdle(s, Chord(s, code, app))
  {
  }

  lemma PageKeyPowerIdle(s: State, e: Event, app: string)
    requires IsPageKey(e.code)
    ensures PowerIdle(s, PageKey(s, e, app))
  {
    ChordPowerIdle(s, e.code, app);
    hide Chord;
  }

  /** The timers touch the power channel only to send the click of an expired tap. */
  lemma TickPowerPart(s: State, now: u64)
    ensures var (u, x) := Tick(s, now);
            && u.powerPending == TickPower(s, now).0.powerPending && u.powerDownTime == s.powerDownTime
            && PowerStream(x) == if s.powerPending && !u.powerPending then [Sleep] else []
  {
    var (a, x) := TickPower(s, now);
    var (b, y) := TickHold(a, now);
    var (c, z) := TickSingle(b, now);
    TimersPowerIdle(a, now);
    TimersPowerIdle(b, now);
    hide PowerStream, Remaining, TickHold, TickSingle;
    ClickStream(KEY_POWER);
    SilentStream(y);
    SilentStream(z);
    SilentStream([]);
    PowerStreamAppend(x + y, z);
    PowerStreamAppend(x, y);
  }

  lemma ReactPowerIdle(s: State, e: Event, now: u64, app: string)
    requires !(e.kind == EV_KEY && e.code == KEY_POWER && e.value == 1)
    ensures PowerIdle(s, React(s, e, now, app))
  {
    hide HomeDown, HomeUp, PageKey, PowerIdle;
    if e.kind == EV_KEY && e.code == KEY_POWER {
      NothingIsIdle(s, e);
    } else if e.kind == EV_KEY && e.code == KEY_HOME {
      HomePowerIdle(s, now);
      NothingIsIdle(s, e);
    } else if e.kind == EV_KEY && IsPageKey(e.code) {
      PageKeyPowerIdle(s, e, app);
    } else {
      NothingIsIdle(s, e);
    }
  }

  lemma NothingIsIdle(s: State, e: Event)
    ensures PowerIdle(s, (s, []))
    ensures e.kind != EV_KEY ==> PowerIdle(s, (s, [Emit(e.kind, e.code, e.value)]))
    ensures e.kind != EV_KEY ==> PowerIdle(s, (s, [] + [Emit(e.kind, e.code, e.value)]))
    ensures e.kind != EV_KEY ==> PowerIdle(s, (s, [Shell(Suspend)] + [Emit(e.kind, e.code, e.value)]))
  {
  }

  /** Only a press of the power button touches the power channel. */
  lemma TakePowerPart(s: State, i: Input)
    ensures var (u, y) := Take(s, i);
            if IsPowerPress(i) then (u, y) == PowerKey(s, 1, i.now)
            else u.powerPending == s.powerPending && u.powerDownTime == s.powerDownTime && PowerStream(y) == []
  {
    hide PowerStream;
    if i.Got? && !IsPowerPress(i) {
      ReactPowerIdle(s, i.e, i.now, i.app);
      hide React;
      SilentStream(React(s, i.e, i.now, i.app).1);
    } else if i.Got? {
      assert React(s, i.e, i.now, i.app) == PowerKey(s, 1, i.now);
    } else {
      SilentStream([]);
    }
  }

  // --- Power: every press is accounted for ---

  /** Presses that find an expired tap still waiting: the waiting tap is forgotten. */
  function Lost(turns: seq<Turn>): nat {
    if turns == [] then 0
    else
      var before, t := turns[..|turns| - 1], turns[|turns| - 1];
      var u := Tick(Run(before).0, t.tick).0;
      Lost(before)
      + if IsPowerPress(t.input) && u.powerPending && Elapsed(t.input.now, u.powerDownTime) > POWER_DOUBLE_CLICK_MS then 1 else 0
  }

  function Waiting(s: State): nat {
    if s.powerPending then 1 else 0
  }

  /** The two halves of a turn, seen from the power channel. */
  lemma StepPowerPart(out: seq<Effect>, s: State, t: Turn)
    ensures var (u, x) := Tick(s, t.tick); var (v, y) := Take(u, t.input);
            PowerStream(out + Step(s, t).1) == PowerStream(out + x) + PowerStream(y)
  {
    var (u, x) := Tick(s, t.tick);
    var (v, y) := Take(u, t.input);
    hide *;
    PowerStreamAppend(out + x, y);
    assert out + (x + y) == (out + x) + y;
    assert Step(s, t).1 == x + y by { StepOutput(s, t); }
  }

  lemma StepOutput(s: State, t: Turn)
    ensures var (u, x) := Tick(s, t.tick); var (v, y) := Take(u, t.input); Step(s, t) == (v, x + y)
  {
  }

  lemma RunOneMore(turns: seq<Turn>)
    requires turns != []
    ensures var before, t := turns[..|turns| - 1], turns[|turns| - 1];
            var (s, out) := Run(before);
            Run(turns) == (Step(s, t).0, out + Step(s, t).1)
  {
  }

  function Count(sent: seq<PowerOut>, kind: PowerOut): nat {
    multiset(sent)[kind]
  }

  lemma CountAppend(a: seq<PowerOut>, b: seq<PowerOut>, kind: PowerOut)
    ensures Count(a + b, kind) == Count(a, kind) + Count(b, kind)
  {
  }

  lemma CountOne(kind: PowerOut)
    ensures Count([Sleep], kind) == (if kind == Sleep then 1 else 0)
    ensures Count([Frontlight], kind) == if kind == Frontlight then 1 else 0
    ensures Count([], kind) == 0
  {
  }

  /** Clicks sent and toggles, counted in presses. */
  function Settled(sent: seq<PowerOut>): nat {
    Count(sent, Sleep) + 2 * Count(sent, Frontlight)
  }

  lemma SettledAppend(a: seq<PowerOut>, b: seq<PowerOut>)
    ensures Settled(a + b) == Settled(a) + Settled(b)
    ensures Settled([Sleep]) == 1 && Settled([Frontlight]) == 2 && Settled([]) == 0
  {
    CountAppend(a, b, Sleep);
    CountAppend(a, b, Frontlight);
    CountOne(Sleep);
    CountOne(Frontlight);
  }

  lemma TickSettled(s: State, now: u64, out: seq<Effect>)
    ensures var (u, x) := Tick(s, now);
            Settled(PowerStream(out + x)) + Waiting(u) == Settled(PowerStream(out)) + Waiting(s)
  {
    var (u, x) := Tick(s, now);
    TickPowerPart(s, now);
    TickPowerMonotone(s, now);
    hide Tick, TickPower, PowerStream;
    PowerStreamAppend(out, x);
    SettledAppend(PowerStream(out), PowerStream(x));
    hide Settled;
  }

  /** What an input adds to the account: one for a press, one less again if it makes a waiting tap forgotten. */
  function Credit(u: State, i: Input): int {
    if !IsPowerPress(i) then 0
    else if u.powerPending && Elapsed(i.now, u.powerDownTime) > POWER_DOUBLE_CLICK_MS then 0
    else 1
  }

  lemma TakeSettled(u: State, i: Input, sent: seq<PowerOut>)
    ensures var (v, y) := Take(u, i);
            Settled(sent + PowerStream(y)) + Waiting(v) == Settled(sent) + Waiting(u) + Credit(u, i)
  {
    var (v, y) := Take(u, i);
    TakePowerPart(u, i);
    hide Take, PowerStream;
    PowerStreamOne(Shell(ToggleFrontlight));
    SilentStream([]);
    SettledAppend(sent, PowerStream(y));
    hide Settled;
  }

  /** Every press is a click sent, half of a toggle, still waiting, or forgotten. */
  lemma {:induction false} PressesAccounted(turns: seq<Turn>)
    ensures var (s, out) := Run(turns);
            |PressTimes(turns)| == Count(PowerStream(out), Sleep) + 2 * Count(PowerStream(out), Frontlight) + Waiting(s) + Lost(turns)
  {
    hide Count;
    if turns != [] {
      var before, t := turns[..|turns| - 1], turns[|turns| - 1];
      PressesAccounted(before);
      RunOneMore(turns);
      var (s, out) := Run(before);
      var (u, x) := Tick(s, t.tick);
      hide Tick, Take, PowerStream, Run, Step, Elapsed, Waiting;
      TickSettled(s, t.tick, out);
      TakeSettled(u, t.input, PowerStream(out + x));
      StepOutput(s, t);
      StepPowerPart(out, s, t);
    } else {
      SettledAppend([], []);
    }
  }

  /** The timers never start a wait. */
  lemma TickPowerMonotone(s: State, now: u64)
    ensures TickPower(s, now).0.powerPending ==> s.powerPending
  {
  }

  // --- Power: the greedy pairing ---

  /** How the power channel stands to the pairing of the presses so far. */
  ghost predicate Paired(pending: bool, downTime: u64, sent: seq<PowerOut>, p: Pairing) {
    if pending then p.open == [downTime] && sent == p.done
    else if p.open == [] then sent == p.done && (sent != [] ==> sent[|sent| - 1] == Frontlight)
    else p.open == [downTime] && sent == p.done + [Sleep]
  }

  lemma PairedPress(u: State, sent: seq<PowerOut>, p: Pairing, now: u64)
    requires Paired(u.powerPending, u.powerDownTime, sent, p) && u.powerDownTime <= now
    requires u.powerPending ==> now - u.powerDownTime <= POWER_DOUBLE_CLICK_MS
    requires !u.powerPending && sent != [] && sent[|sent| - 1] == Sleep ==> now - u.powerDownTime > POWER_DOUBLE_CLICK_MS
    ensures var (v, y) := PowerKey(u, 1, now);
            Paired(v.powerPending, v.powerDownTime, sent + PowerStream(y), PairOne(p, now))
  {
    hide PowerStream;
    PowerStreamOne(Shell(ToggleFrontlight));
    SilentStream([]);
    assert sent + [] == sent;
  }

  /** A press in time, given the power channel before it and the state after the timers. */
  predicate InTime(u: State, sent: seq<PowerOut>, i: Input) {
    IsPowerPress(i) ==>
      && (u.powerPending ==> i.now - u.powerDownTime <= POWER_DOUBLE_CLICK_MS)
      && (!u.powerPending && sent != [] && sent[|sent| - 1] == Sleep ==> i.now - u.powerDownTime > POWER_DOUBLE_CLICK_MS)
  }

  lemma TickPaired(s: State, now: u64, out: seq<Effect>, p: Pairing)
    requires Paired(s.powerPending, s.powerDownTime, PowerStream(out), p)
    ensures var (u, x) := Tick(s, now);
            Paired(u.powerPending, u.powerDownTime, PowerStream(out + x), p) && u.powerDownTime == s.powerDownTime
  {
    hide Tick, PowerStream;
    TickPowerPart(s, now);
    TickPowerMonotone(s, now);
    hide TickPower;
    PowerStreamAppend(out, Tick(s, now).1);
  }

  lemma TakePaired(u: State, i: Input, sent: seq<PowerOut>, p: Pairing)
    requires Paired(u.powerPending, u.powerDownTime, sent, p) && InTime(u, sent, i)
    requires i.Got? ==> u.powerDownTime <= i.now
    ensures var (v, y) := Take(u, i);
            && Paired(v.powerPending, v.powerDownTime, sent + PowerStream(y), if IsPowerPress(i) then PairOne(p, i.now) else p)
            && v.powerDownTime <= if i.Got? then i.now else u.powerDownTime
  {
    hide Take, PowerStream;
    TakePowerPart(u, i);
    if IsPowerPress(i) {
      PairedPress(u, sent, p, i.now);
      PowerKeyTime(u, i.now);
    } else {
      assert sent + [] == sent;
    }
  }

  lemma {:induction false} TimelyIsPaired(turns: seq<Turn>)
    requires Clocked(turns) && Timely(turns)
    ensures var (s, out) := Run(turns);
            && Paired(s.powerPending, s.powerDownTime, PowerStream(out), Fold(PressTimes(turns)))
            && s.powerDownTime <= Latest(turns)
  {
    if turns != [] {
      var before, t := turns[..|turns| - 1], turns[|turns| - 1];
      TimelyIsPaired(before);
      RunOneMore(turns);
      var (s, out) := Run(before);
      var (u, x) := Tick(s, t.tick);
      var sent := PowerStream(out + x);
      assert InTime(u, sent, t.input);
      hide Tick, Take, Fold, PowerStream, Run, Step, Timely, Paired;
      TickPaired(s, t.tick, out, Fold(PressTimes(before)));
      TakePaired(u, t.input, sent, Fold(PressTimes(before)));
      StepOutput(s, t);
      StepPowerPart(out, s, t);
      if IsPowerPress(t.input) {
        FoldOneMore(PressTimes(before), t.input.now);
      } else {
        assert PressTimes(before) + [] == PressTimes(before);
      }
    }
  }

  lemma PowerKeyTime(u: State, now: u64)
    requires u.powerDownTime <= now
    ensures PowerKey(u, 1, now).0.powerDownTime <= now
  {
  }

  lemma FoldOneMore(times: seq<u64>, t: u64)
    ensures Fold(times + [t]) == PairOne(Fold(times), t)
  {
    assert (times + [t])[..|times|] == times;
  }

  /** The clicks and toggles sent, with the click a waiting tap stands for. */
  function Promised(s: State, sent: seq<PowerOut>): seq<PowerOut> {
    sent + if s.powerPending then [Sleep] else []
  }

  /** With deadlines served in time the power channel is the greedy pairing of the presses; a tap still waiting stands for
      the click it will become. */
  lemma PowerIsGreedy(turns: seq<Turn>)
    requires Clocked(turns) && Timely(turns)
    ensures var (s, out) := Run(turns);
            Promised(s, PowerStream(out)) == Greedy(PressTimes(turns))
  {
    TimelyIsPaired(turns);
    FoldIsGreedy(PressTimes(turns));
  }

  /** The power channel was the greedy pairing after every turn. */
  predicate AlwaysGreedy(turns: seq<Turn>) {
    var (s, out) := Run(turns);
    Promised(s, PowerStream(out)) == Greedy(PressTimes(turns)) && (turns != [] ==> AlwaysGreedy(turns[..|turns| - 1]))
  }

  /** A press out of time breaks the pairing at once. */
  lemma LatePressBreaks(u: State, sent: seq<PowerOut>, p: Pairing, now: u64)
    requires Paired(u.powerPending, u.powerDownTime, sent, p) && u.powerDownTime <= now && |p.open| <= 1
    requires u.powerPending ==> now - u.powerDownTime > POWER_DOUBLE_CLICK_MS
    requires !u.powerPending ==>
               sent != [] && sent[|sent| - 1] == Sleep && now - u.powerDownTime <= POWER_DOUBLE_CLICK_MS
    ensures var (v, y) := PowerKey(u, 1, now);
            var q := PairOne(p, now);
            Promised(v, sent + PowerStream(y)) != q.done + if q.open == [] then [] else [Sleep]
  {
    hide PowerStream;
    SilentStream([]);
    var (v, y) := PowerKey(u, 1, now);
    var q := PairOne(p, now);
    assert sent + [] == sent;
    if u.powerPending {
      assert |Promised(v, sent)| == |p.done| + 1;
    } else {
      assert Promised(v, sent)[|p.done|] == Sleep;
      assert (q.done + [])[|p.done|] == Frontlight;
    }
  }

  lemma OutOfTimeBreaks(turns: seq<Turn>)
    requires turns != [] && Clocked(turns) && Timely(turns[..|turns| - 1]) && !Timely(turns)
    ensures Promised(Run(turns).0, PowerStream(Run(turns).1)) != Greedy(PressTimes(turns))
  {
    var before, t := turns[..|turns| - 1], turns[|turns| - 1];
    TimelyIsPaired(before);
    RunOneMore(turns);
    var (s, out) := Run(before);
    var (u, x) := Tick(s, t.tick);
    var sent := PowerStream(out + x);
    var p := Fold(PressTimes(before));
    assert !InTime(u, sent, t.input);
    hide Tick, Take, Fold, PowerStream, Run, Step, Timely, Paired, Greedy;
    TickPaired(s, t.tick, out, p);
    TakePowerPart(u, t.input);
    LatePressBreaks(u, sent, p, t.input.now);
    StepOutput(s, t);
    StepPowerPart(out, s, t);
    FoldOneMore(PressTimes(before), t.input.now);
    FoldIsGreedy(PressTimes(turns));
  }

  /** The power channel is the greedy pairing after every turn if and only if deadlines are served in time. */
  lemma {:induction false} GreedyIffTimely(turns: seq<Turn>)
    requires Clocked(turns)
    ensures AlwaysGreedy(turns) <==> Timely(turns)
  {
    hide Run, Greedy, PowerStream, Promised;
    if turns == [] {
      PowerIsGreedy(turns);
    } else {
      var before := turns[..|turns| - 1];
      GreedyIffTimely(before);
      if Timely(turns) {
        PowerIsGreedy(turns);
      } else if Timely(before) {
        OutOfTimeBreaks(turns);
      }
    }
  }

  /** A press read after its partner's deadline, before the timer could serve it, swallows the partner's click. */
  lemma LatePressLosesClick()
    ensures var press := Event(EV_KEY, KEY_POWER, 1);
            var turns := [Turn(1000, Got(press, 1000, "")), Turn(1399, Got(press, 1401, ""))];
            var (s, out) := Run(turns);
            Clocked(turns) && |PressTimes(turns)| == 2 && out == [] && s.powerPending && Lost(turns) == 1
  {
    var press := Event(EV_KEY, KEY_POWER, 1);
    var a, b := Turn(1000, Got(press, 1000, "")), Turn(1399, Got(press, 1401, ""));
    assert [a][..|[a]| - 1] == [] && [a, b][..|[a, b]| - 1] == [a];
    assert Tick(IDLE, 1000).1 == [] && Step(IDLE, a).1 == [];
    assert Step(IDLE, a) == (IDLE.(powerPending := true, powerDownTime := 1000), []);
    assert Run([]) == (IDLE, []);
    assert Run([a]).1 == [] && Run([a]).0 == IDLE.(powerPending := true, powerDownTime := 1000);
    assert PressTimes([a]) == [1000] && Latest([a]) == 1000 && Latest([]) == 0 && Clocked([]) && Lost([]) == 0;
    assert Lost([a]) == 0;
    assert Tick(Run([a]).0, 1399).0 == Run([a]).0 && Tick(Run([a]).0, 1399).1 == [];
  }

  // --- The Home button ---

  function HomeOf(e: Effect): seq<int> {
    if e.Emit? && e.kind == EV_KEY && e.code == KEY_HOME then [e.value] else []
  }

  /** The values of the virtual Home key, in the order written: 1 for a press, 0 for a release. */
  function HomeStream(out: seq<Effect>): seq<int> {
    Project(out, HomeOf)
  }

  /** Press, release, press, ... */
  predicate Alternates(keys: seq<int>) {
    forall k :: 0 <= k < |keys| ==> keys[k] == if k % 2 == 0 then 1 else 0
  }

  predicate IsKey(i: Input, code: nat, value: int) {
    i.Got? && i.e.kind == EV_KEY && i.e.code == code && i.e.value == value
  }

  predicate IsPagePress(i: Input) {
    i.Got? && i.e.kind == EV_KEY && IsPageKey(i.e.code) && i.e.value == 1
  }

  /** What the timers write to the Home key. */
  function HomeTicked(s: State, u: State): seq<int> {
    (if u.homeLongSent && !s.homeLongSent then [1] else []) + if s.homePendingSingle && !s.homeDown && !u.homePendingSingle then [1, 0] else []
  }

  /** A tap is pending only while Home is up. */
  predicate PendingIsUp(s: State) {
    s.homePendingSingle ==> !s.homeDown
  }

  lemma TimersHomePart(s: State, now: u64)
    ensures var (u, x) := TickPower(s, now);
            HomeStream(x) == [] && u == s.(powerPending := u.powerPending)
    ensures var (u, y) := TickHold(s, now);
            && HomeStream(y) == (if u.homeLongSent && !s.homeLongSent then [1] else [])
            && u == s.(homeLongSent := u.homeLongSent, homePendingSingle := u.homePendingSingle)
            && (s.homeLongSent ==> u.homeLongSent) && (u.homePendingSingle ==> s.homePendingSingle)
            && (u.homeLongSent ==> s.homeLongSent || (s.homeDown && !s.homeComboConsumed))
            && (u.homePendingSingle != s.homePendingSingle ==> s.homeDown)
    ensures var (u, z) := TickSingle(s, now);
            && HomeStream(z) == (if s.homePendingSingle && !u.homePendingSingle then [1, 0] else [])
            && u == s.(homePendingSingle := u.homePendingSingle) && (u.homePendingSingle ==> s.homePendingSingle)
  {
    hide Remaining;
    ProjectClick(KEY_POWER, HomeOf);
    ProjectClick(KEY_HOME, HomeOf);
    ProjectFew(Emit(EV_KEY, KEY_HOME, 1), SYN, HomeOf);
    hide Project, KeyClick;
  }

  lemma TickHomePart(s: State, now: u64)
    requires PendingIsUp(s)
    ensures var (u, x) := Tick(s, now);
            && HomeStream(x) == HomeTicked(s, u) && PendingIsUp(u)
            && u.homeDown == s.homeDown && u.homeComboConsumed == s.homeComboConsumed
            && (s.homeLongSent ==> u.homeLongSent)
            && (u.homeLongSent ==> s.homeLongSent || (s.homeDown && !s.homeComboConsumed))
            && (u.homePendingSingle ==> s.homePendingSingle)
  {
    var (a, x) := TickPower(s, now);
    var (b, y) := TickHold(a, now);
    var (c, z) := TickSingle(b, now);
    TimersHomePart(s, now);
    TimersHomePart(a, now);
    TimersHomePart(b, now);
    ProjectAppend(x + y, z, HomeOf);
    ProjectAppend(x, y, HomeOf);
    hide Project, TickPower, TickHold, TickSingle;
  }

  /** What an input makes the supervisor write to the Home key. */
  function HomeTaken(s: State, i: Input): seq<int> {
    if IsKey(i, KEY_HOME, 0) && !s.homeComboConsumed && s.homeLongSent then [0]
    else if IsPagePress(i) && s.homeDown && i.e.code == TOP_LEFT && i.app == "koreader" then [1, 0]
    else []
  }

  lemma ChordSilent(s: State, code: nat, app: string)
    requires !(code == TOP_LEFT && app == "koreader")
    ensures forall e :: e in Chord(s, code, app).1 ==> HomeOf(e) == []
  {
  }

  lemma ChordHomePart(s: State, code: nat, app: string)
    ensures var (u, y) := Chord(s, code, app);
            && HomeStream(y) == (if code == TOP_LEFT && app == "koreader" then [1, 0] else [])
            && u.homeDown == s.homeDown && u.homeLongSent == s.homeLongSent && !u.homePendingSingle
            && u.homeComboConsumed == !(code == TOP_LEFT && app == "koreader")
  {
    var y := Chord(s, code, app).1;
    if code == TOP_LEFT && app == "koreader" {
      ProjectClick(KEY_HOME, HomeOf);
      hide Project, KeyClick;
    } else {
      hide Project;
      ChordSilent(s, code, app);
      ProjectSilent(y, HomeOf);
    }
  }

  lemma PageKeyHomePart(s: State, e: Event, app: string)
    requires IsPageKey(e.code)
    ensures var (u, y) := PageKey(s, e, app);
            if e.value == 1 && s.homeDown then (u, y) == Chord(s, e.code, app) else u == s && HomeStream(y) == []
  {
    hide Project, Chord;
    if !(e.value == 1 && s.homeDown) {
      ProjectSilent(PageKey(s, e, app).1, HomeOf);
    }
  }

  /** What the supervisor does to the Home key and to its own Home state when it takes an input. */
  predicate HomeMoves(s: State, i: Input, u: State, sent: seq<int>) {
    && sent == HomeTaken(s, i)
    && if IsKey(i, KEY_HOME, 1) then u.homeDown && !u.homeComboConsumed && !u.homeLongSent && !u.homePendingSingle
       else if IsKey(i, KEY_HOME, 0) then
         !u.homeDown && !u.homeComboConsumed && u.homeLongSent == (s.homeComboConsumed && s.homeLongSent)
       else if IsPagePress(i) && s.homeDown then
         && u.homeDown && u.homeLongSent == s.homeLongSent && !u.homePendingSingle
         && u.homeComboConsumed == !(i.e.code == TOP_LEFT && i.app == "koreader")
       else
         && u.homeDown == s.homeDown && u.homeLongSent == s.homeLongSent
         && u.homeComboConsumed == s.homeComboConsumed && u.homePendingSingle == s.homePendingSingle
  }

  lemma HomeKeyMoves(s: State, i: Input)
    requires i.Got? && i.e.kind == EV_KEY && i.e.code == KEY_HOME
    ensures HomeMoves(s, i, Take(s, i).0, HomeStream(Take(s, i).1))
  {
    ProjectFew(Emit(EV_KEY, KEY_HOME, 0), SYN, HomeOf);
    ProjectFew(Shell(AudioPause), SYN, HomeOf);
    hide Project, IsDoubleTap;
  }

  lemma PageKeyMoves(s: State, i: Input)
    requires i.Got? && i.e.kind == EV_KEY && IsPageKey(i.e.code)
    ensures HomeMoves(s, i, Take(s, i).0, HomeStream(Take(s, i).1))
  {
    PageKeyHomePart(s, i.e, i.app);
    ChordHomePart(s, i.e.code, i.app);
    assert Take(s, i) == PageKey(s, i.e, i.app);
    hide Chord, PageKey, HomeStream, Take;
  }

  lemma OtherMoves(s: State, i: Input)
    requires i.Got? ==> !(i.e.kind == EV_KEY && (i.e.code == KEY_HOME || IsPageKey(i.e.code)))
    ensures HomeMoves(s, i, Take(s, i).0, HomeStream(Take(s, i).1))
  {
    hide Project, Elapsed;
    var y := Take(s, i).1;
    forall x | x in y
      ensures HomeOf(x) == []
    {
    }
    ProjectSilent(y, HomeOf);
  }

  lemma TakeHomePart(s: State, i: Input)
    ensures HomeMoves(s, i, Take(s, i).0, HomeStream(Take(s, i).1))
  {
    hide HomeMoves, Take, HomeStream;
    if i.Got? && i.e.kind == EV_KEY && i.e.code == KEY_HOME {
      HomeKeyMoves(s, i);
    } else if i.Got? && i.e.kind == EV_KEY && IsPageKey(i.e.code) {
      PageKeyMoves(s, i);
    } else {
      OtherMoves(s, i);
    }
  }

  /** In every reachable state a tap is pending only while Home is up, whatever the buttons do. */
  lemma {:induction false} PendingTapMeansHomeUp(turns: seq<Turn>)
    ensures PendingIsUp(Run(turns).0)
  {
    if turns != [] {
      var before, t := turns[..|turns| - 1], turns[|turns| - 1];
      PendingTapMeansHomeUp(before);
      var s := Run(before).0;
      TickHomePart(s, t.tick);
      TakeHomePart(Tick(s, t.tick).0, t.input);
      hide Tick, Take, HomeStream, Project;
    }
  }

  // --- Home: the virtual key alternates ---

  /** The physical button goes down only when it is up and up only when it is down. */
  predicate Physical(turns: seq<Turn>) {
    turns == [] ||
    (var before, i := turns[..|turns| - 1], turns[|turns| - 1].input;
     && Physical(before)
     && (IsKey(i, KEY_HOME, 1) ==> !Run(before).0.homeDown)
     && (IsKey(i, KEY_HOME, 0) ==> Run(before).0.homeDown))
  }

  /** A side button pressed while Home is held and its hold has been reported. */
  predicate IsLateChord(turns: seq<Turn>) {
    turns != [] &&
    var u := Tick(Run(turns[..|turns| - 1]).0, turns[|turns| - 1].tick).0;
    IsPagePress(turns[|turns| - 1].input) && u.homeDown && u.homeLongSent
  }

  predicate NoLateChord(turns: seq<Turn>) {
    turns == [] || (NoLateChord(turns[..|turns| - 1]) && !IsLateChord(turns))
  }

  /** The virtual key alternates, and is released whenever Home is up. */
  predicate KeySound(turns: seq<Turn>) {
    var (s, out) := Run(turns);
    Alternates(HomeStream(out)) && (!s.homeDown ==> |HomeStream(out)| % 2 == 0)
  }

  predicate AlwaysSound(turns: seq<Turn>) {
    KeySound(turns) && (turns != [] ==> AlwaysSound(turns[..|turns| - 1]))
  }

  /** How the virtual key stands to the supervisor's state on a good run. */
  predicate KeyHeld(s: State, keys: seq<int>) {
    && Alternates(keys)
    && (|keys| % 2 == 1 <==> s.homeLongSent)
    && (s.homeLongSent ==> s.homeDown && !s.homeComboConsumed)
    && (s.homeComboConsumed ==> s.homeDown)
    && PendingIsUp(s)
  }

  /** A chord came after the hold was reported: the virtual key is down and the release of Home will not lift it. */
  predicate KeyStuck(s: State, keys: seq<int>) {
    s.homeDown && s.homeComboConsumed && s.homeLongSent && PendingIsUp(s) && |keys| % 2 == 1
  }

  lemma AlternatesOn(keys: seq<int>, more: seq<int>)
    requires Alternates(keys)
    ensures |keys| % 2 == 0 && (more == [] || more == [1] || more == [1, 0]) ==> Alternates(keys + more)
    ensures |keys| % 2 == 1 && (more == [] || more == [0]) ==> Alternates(keys + more)
    ensures |keys| % 2 == 1 && more == [1, 0] ==> !Alternates(keys + more)
  {
    if |keys| % 2 == 1 && more == [1, 0] {
      assert (keys + more)[|keys|] == 1;
    }
  }

  lemma StepHomeStream(out: seq<Effect>, s: State, t: Turn)
    ensures var (u, x) := Tick(s, t.tick); var (v, y) := Take(u, t.input);
            HomeStream(out + Step(s, t).1) == (HomeStream(out) + HomeStream(x)) + HomeStream(y)
  {
    var (u, x) := Tick(s, t.tick);
    var (v, y) := Take(u, t.input);
    StepOutput(s, t);
    hide *;
    ProjectAppend(out + x, y, HomeOf);
    ProjectAppend(out, x, HomeOf);
    assert out + (x + y) == (out + x) + y;
    HomeStreamIs(out + (x + y));
    HomeStreamIs(out);
    HomeStreamIs(x);
    HomeStreamIs(y);
  }

  lemma HomeStreamIs(out: seq<Effect>)
    ensures HomeStream(out) == Project(out, HomeOf)
  {
  }

  lemma TickKeeps(s: State, now: u64, keys: seq<int>)
    ensures KeyHeld(s, keys) ==> KeyHeld(Tick(s, now).0, keys + HomeStream(Tick(s, now).1))
    ensures KeyStuck(s, keys) ==> KeyStuck(Tick(s, now).0, keys + HomeStream(Tick(s, now).1))
  {
    if PendingIsUp(s) {
      TickHomePart(s, now);
      var u := Tick(s, now).0;
      hide Tick, HomeStream, Alternates;
      if KeyHeld(s, keys) {
        AlternatesOn(keys, HomeTicked(s, u));
      }
      assert keys + [] == keys;
    }
  }

  lemma TakeKeeps(u: State, i: Input, keys: seq<int>)
    requires KeyHeld(u, keys)
    requires IsKey(i, KEY_HOME, 1) ==> !u.homeDown
    ensures var (v, y) := Take(u, i);
            if IsPagePress(i) && u.homeDown && u.homeLongSent then KeyStuck(v, keys + HomeStream(y)) || !Alternates(keys + HomeStream(y))
            else KeyHeld(v, keys + HomeStream(y))
  {
    TakeHomePart(u, i);
    hide Take, HomeStream, Alternates;
    AlternatesOn(keys, HomeTaken(u, i));
    assert keys + [] == keys;
  }

  lemma StuckStays(u: State, i: Input, keys: seq<int>)
    requires KeyStuck(u, keys) && !IsKey(i, KEY_HOME, 1)
    ensures var (v, y) := Take(u, i);
            KeyStuck(v, keys + HomeStream(y)) || !Alternates(keys + HomeStream(y)) || (!v.homeDown && |keys + HomeStream(y)| % 2 == 1)
  {
    TakeHomePart(u, i);
    hide Take, HomeStream;
    assert keys + [] == keys;
    assert (keys + [1, 0])[|keys|] == 1;
  }

  lemma {:induction false} RunsKeepKey(turns: seq<Turn>)
    requires Physical(turns)
    ensures var (s, out) := Run(turns);
            if NoLateChord(turns) then KeyHeld(s, HomeStream(out)) && AlwaysSound(turns)
            else KeyStuck(s, HomeStream(out)) || !AlwaysSound(turns)
  {
    hide Tick, Take, Project, Alternates, HomeStream;
    if turns == [] {
      HomeStreamEmpty();
    } else {
      var before, t := turns[..|turns| - 1], turns[|turns| - 1];
      RunsKeepKey(before);
      RunOneMore(turns);
      var (s, out) := Run(before);
      var (u, x) := Tick(s, t.tick);
      StepOutput(s, t);
      StepHomeStream(out, s, t);
      hide Run, Step;
      TickKeeps(s, t.tick, HomeStream(out));
      TickHomeDown(s, t.tick);
      if KeyHeld(s, HomeStream(out)) {
        TakeKeeps(u, t.input, HomeStream(out) + HomeStream(x));
      }
      if KeyStuck(s, HomeStream(out)) {
        StuckStays(u, t.input, HomeStream(out) + HomeStream(x));
      }
    }
  }

  lemma HomeStreamEmpty()
    ensures HomeStream([]) == [] && Alternates([])
  {
  }

  lemma TickHomeDown(s: State, now: u64)
    ensures Tick(s, now).0.homeDown == s.homeDown
  {
  }

  /** On a run that ends with Home up, the virtual key always alternated and was always released while Home was up, if and
      only if no side button went down after a hold was reported. */
  lemma HomeKeyAlternates(turns: seq<Turn>)
    requires Physical(turns) && !Run(turns).0.homeDown
    ensures AlwaysSound(turns) <==> NoLateChord(turns)
  {
    RunsKeepKey(turns);
  }

  const HOME_HELD: State := IDLE.(homeDown := true, homeDownTime := 1000)
  const HOME_REPORTED: State := HOME_HELD.(homeLongSent := true)
  const HOME_CHORDED: State := HOME_REPORTED.(homeComboConsumed := true)

  lemma StepOfQuietState(s: State, t: Turn, now: u64)
    requires !s.powerPending && !s.homePendingSingle && (!s.homeDown || s.homeLongSent) && t.tick == now
    ensures Tick(s, now) == (s, []) && Step(s, t) == Take(s, t.input)
  {
    var none: seq<Effect> := [];
    assert none + none + none == none;
    assert none + Take(s, t.input).1 == Take(s, t.input).1;
  }

  lemma HoldIsReported()
    ensures Tick(HOME_HELD, 1500) == (HOME_REPORTED, [Emit(EV_KEY, KEY_HOME, 1), SYN])
  {
    var x := [Emit(EV_KEY, KEY_HOME, 1), SYN];
    assert TickHold(HOME_HELD, 1500) == (HOME_REPORTED, x);
    assert [] + x + [] == x;
  }

  /** Home is held until the hold is reported, a side button is pressed, and Home is released: the virtual Home key stays down. */
  lemma LateChordLeavesKeyDown()
    ensures var turns := [Turn(1000, Got(Event(EV_KEY, KEY_HOME, 1), 1000, "")), Turn(1500, Quiet),
                          Turn(1500, Got(Event(EV_KEY, BOTTOM_LEFT, 1), 1500, "plato")),
                          Turn(1600, Got(Event(EV_KEY, KEY_HOME, 0), 1600, ""))];
            var (s, out) := Run(turns);
            Physical(turns) && !s.homeDown && HomeStream(out) == [1] && !NoLateChord(turns) && !AlwaysSound(turns)
  {
    var a, b := Turn(1000, Got(Event(EV_KEY, KEY_HOME, 1), 1000, "")), Turn(1500, Quiet);
    var c := Turn(1500, Got(Event(EV_KEY, BOTTOM_LEFT, 1), 1500, "plato"));
    var d := Turn(1600, Got(Event(EV_KEY, KEY_HOME, 0), 1600, ""));
    var press := [Emit(EV_KEY, KEY_HOME, 1), SYN];
    var four := [a, b, c, d];
    assert [a][..|[a]| - 1] == [] && [a, b][..|[a, b]| - 1] == [a] && [a, b, c][..|[a, b, c]| - 1] == [a, b];
    assert four[..|four| - 1] == [a, b, c];
    StepOfQuietState(IDLE, a, 1000);
    assert Step(IDLE, a) == (HOME_HELD, []);
    HoldIsReported();
    StepOutput(HOME_HELD, b);
    assert Step(HOME_HELD, b).1 == press + [];
    StepOfQuietState(HOME_REPORTED, c, 1500);
    StepOfQuietState(HOME_CHORDED, d, 1600);
    assert Take(HOME_REPORTED, c.input) == (HOME_CHORDED, [Shell(TapPlatoFrontlight)]);
    assert Take(HOME_CHORDED, d.input).1 == [];
    hide Step, Tick, Take;
    assert Run([]) == (IDLE, []);
    assert Run([a]).0 == HOME_HELD && Run([a]).1 == [];
    assert Run([a, b]).0 == HOME_REPORTED && Run([a, b]).1 == press;
    assert Run([a, b, c]).0 == HOME_CHORDED && Run([a, b, c]).1 == press + [Shell(TapPlatoFrontlight)];
    assert Run(four).1 == press + [Shell(TapPlatoFrontlight)];
    assert Physical([]) && Physical([a]) && Physical([a, b]) && Physical([a, b, c]);
    assert IsLateChord([a, b, c]);
    ProjectAppend(press, [Shell(TapPlatoFrontlight)], HomeOf);
    ProjectFew(Emit(EV_KEY, KEY_HOME, 1), SYN, HomeOf);
    ProjectFew(Shell(TapPlatoFrontlight), SYN, HomeOf);
    HomeKeyAlternates(four);
  }
}
