// What the buttons come to, read off the history of button events alone, and that the supervisor's outputs are just that: the
// virtual side buttons, the virtual Home key, the player commands, the applications and the switches.
module ButtonHistory {
  import opened Gestures

  // --- What the events say ---

  predicate Pressed(i: Input, code: nat) {
    i.Got? && i.e == Event(1, code, 1)
  }

  predicate Released(i: Input, code: nat) {
    i.Got? && i.e == Event(1, code, 0)
  }

  predicate SidePressed(i: Input) {
    i.Got? && i.e.kind == 1 && 191 <= i.e.code <= 194 && i.e.value == 1
  }

  predicate SideReleased(i: Input) {
    i.Got? && i.e.kind == 1 && 191 <= i.e.code <= 194 && i.e.value == 0
  }

  /** So many milliseconds have gone by, as a signed 32-bit difference shows it. */
  predicate Over(since: u64, ms: nat, now: u64) {
    var left := (since + ms - now) % 0x1_0000_0000;
    left == 0 || left >= 0x8000_0000
  }

  /** At most so many milliseconds have gone by, as a 64-bit difference shows it. */
  predicate SoonAfter(since: u64, ms: nat, now: u64) {
    (now - since) % 0x1_0000_0000_0000_0000 <= ms
  }

  /** Home was pressed last, not released. */
  predicate HomeIsDown(turns: seq<Turn>) {
    turns != [] &&
    var before, i := turns[..|turns| - 1], turns[|turns| - 1].input;
    Pressed(i, 102) || (!Released(i, 102) && HomeIsDown(before))
  }

  /** The time of the latest Home press. */
  function PressedAt(turns: seq<Turn>): u64 {
    if turns == [] then 0
    else
      var before, i := turns[..|turns| - 1], turns[|turns| - 1].input;
      if Pressed(i, 102) then i.now else PressedAt(before)
  }

  /** A side button goes down while Home is held. */
  predicate IsChord(turns: seq<Turn>) {
    turns != [] && SidePressed(turns[|turns| - 1].input) && HomeIsDown(turns[..|turns| - 1])
  }

  /** The chord that opens the light dialog of the reader, which Home is free again after. */
  predicate IsLightDialog(turns: seq<Turn>) {
    IsChord(turns) && turns[|turns| - 1].input.e.code == 191 && turns[|turns| - 1].input.app == "koreader"
  }

  /** A chord has used up this holding of Home. */
  predicate ChordUsed(turns: seq<Turn>) {
    turns != [] &&
    var before, i := turns[..|turns| - 1], turns[|turns| - 1].input;
    !Pressed(i, 102) && !Released(i, 102) && if IsChord(turns) then !IsLightDialog(turns) else ChordUsed(before)
  }

  /** Home and the bottom right button turn media mode on and off; any other chord turns it off. */
  predicate MediaOn(turns: seq<Turn>) {
    turns != [] &&
    var before, i := turns[..|turns| - 1], turns[|turns| - 1].input;
    if IsChord(turns) then i.e.code == 194 && !MediaOn(before) else MediaOn(before)
  }

  /** At this time the holding of Home, not used by a chord, has lasted for half a second and is reported. */
  predicate HoldDue(turns: seq<Turn>, tick: u64)
    decreases |turns|, 1
  {
    HomeIsDown(turns) && !ChordUsed(turns) && !HoldSent(turns) && Over(PressedAt(turns), 500, tick)
  }

  predicate HoldBy(turns: seq<Turn>, tick: u64)
    decreases |turns|, 2
  {
    HoldSent(turns) || HoldDue(turns, tick)
  }

  /** The hold has been reported and its release has not. */
  predicate HoldSent(turns: seq<Turn>)
    decreases |turns|, 0
  {
    turns != [] &&
    var before, t := turns[..|turns| - 1], turns[|turns| - 1];
    !Pressed(t.input, 102) && HoldBy(before, t.tick) && (Released(t.input, 102) ==> ChordUsed(before))
  }

  /** Home is let go with nothing to show for it yet: no chord, no hold. */
  predicate PlainRelease(turns: seq<Turn>) {
    turns != [] &&
    var before, t := turns[..|turns| - 1], turns[|turns| - 1];
    Released(t.input, 102) && !ChordUsed(before) && !HoldBy(before, t.tick)
  }

  /** A tap waits for its partner, since this time. */
  datatype Waiting = Nothing | Since(at: u64)

  /** The tap that still waits when the timers of a turn have been served. */
  function WaitingBy(turns: seq<Turn>, tick: u64): Waiting
    decreases |turns|, 2
  {
    var w := TapWaiting(turns);
    if w.Since? && Over(w.at, 400, tick) then Nothing else w
  }

  function TapWaiting(turns: seq<Turn>): Waiting
    decreases |turns|, 0
  {
    if turns == [] then Nothing
    else
      var before, t := turns[..|turns| - 1], turns[|turns| - 1];
      if Pressed(t.input, 102) || IsChord(turns) then Nothing
      else if PlainRelease(turns) && !DoubleUsed(before) && !MediaOn(before) then Since(t.input.now)
      else WaitingBy(before, t.tick)
  }

  /** Home is pressed again within 400 ms of a tap that still waits. */
  predicate DoubleTapped(turns: seq<Turn>)
    decreases |turns|, 0
  {
    turns != [] &&
    var before, t := turns[..|turns| - 1], turns[|turns| - 1];
    Pressed(t.input, 102) && !DoubleUsed(before)
    && var w := WaitingBy(before, t.tick); w.Since? && SoonAfter(w.at, 400, t.input.now)
  }

  /** A double tap has been made whose second press has not been let go. */
  predicate DoubleUsed(turns: seq<Turn>)
    decreases |turns|, 1
  {
    turns != [] && (DoubleTapped(turns) || (!PlainRelease(turns) && DoubleUsed(turns[..|turns| - 1])))
  }

  // --- The supervisor's flags are this history ---

  predicate Remembers(s: State, turns: seq<Turn>) {
    && s.homeDown == HomeIsDown(turns) && s.homeDownTime == PressedAt(turns)
    && s.homeComboConsumed == ChordUsed(turns) && s.mediaMode == MediaOn(turns)
    && s.homeLongSent == HoldSent(turns) && s.homeDoubleConsumed == DoubleUsed(turns)
    && TapWaiting(turns) == (if s.homePendingSingle then Since(s.homeSingleTime) else Nothing)
    && PendingIsUp(s)
  }

  /** The flags when the timers of the next turn have been served. */
  predicate RemembersBy(u: State, turns: seq<Turn>, tick: u64) {
    && u.homeDown == HomeIsDown(turns) && u.homeDownTime == PressedAt(turns)
    && u.homeComboConsumed == ChordUsed(turns) && u.mediaMode == MediaOn(turns)
    && u.homeLongSent == HoldBy(turns, tick) && u.homeDoubleConsumed == DoubleUsed(turns)
    && WaitingBy(turns, tick) == (if u.homePendingSingle then Since(u.homeSingleTime) else Nothing)
    && PendingIsUp(u)
  }

  lemma OverIsRemaining(since: u64, ms: nat, now: u64)
    ensures Over(since, ms, now) <==> Remaining(since + ms, now) <= 0
  {
  }

  /** What the timers do to the flags. */
  lemma TimersDo(s: State, tick: u64)
    requires PendingIsUp(s)
    ensures var u := Tick(s, tick).0;
            && u.homeLongSent == (s.homeLongSent || (s.homeDown && !s.homeComboConsumed && Over(s.homeDownTime, 500, tick)))
            && u.homePendingSingle == (s.homePendingSingle && !Over(s.homeSingleTime, 400, tick))
            && u == s.(powerPending := u.powerPending, homeLongSent := u.homeLongSent, homePendingSingle := u.homePendingSingle)
  {
    OverIsRemaining(s.homeDownTime, 500, tick);
    OverIsRemaining(s.homeSingleTime, 400, tick);
    hide Remaining, Over, KeyClick;
  }

  lemma TimersRemember(s: State, turns: seq<Turn>, tick: u64)
    requires Remembers(s, turns)
    ensures RemembersBy(Tick(s, tick).0, turns, tick)
  {
    TimersDo(s, tick);
    hide Tick, HomeIsDown, PressedAt, ChordUsed, MediaOn, HoldSent, DoubleUsed, TapWaiting, Over;
    var u := Tick(s, tick).0;
    assert u.homeLongSent == HoldBy(turns, tick);
    assert WaitingBy(turns, tick) == (if u.homePendingSingle then Since(u.homeSingleTime) else Nothing);
  }

  lemma HomePressRemembers(u: State, turns: seq<Turn>)
    requires turns != [] && RemembersBy(u, turns[..|turns| - 1], turns[|turns| - 1].tick)
    requires Pressed(turns[|turns| - 1].input, 102)
    ensures Remembers(Take(u, turns[|turns| - 1].input).0, turns)
  {
    var before, t := turns[..|turns| - 1], turns[|turns| - 1];
    assert Take(u, t.input).0 == HomeDown(u, t.input.now).0;
    assert !IsChord(turns) && !PlainRelease(turns);
    hide Take, React, WaitingBy, HoldBy, MediaOn, ChordUsed, HoldDue;
    PressChanges(turns);
    var v := Take(u, t.input).0;
    assert v.homeLongSent == HoldSent(turns) && v.homeDoubleConsumed == DoubleUsed(turns);
  }

  lemma PressChanges(turns: seq<Turn>)
    requires turns != [] && Pressed(turns[|turns| - 1].input, 102)
    ensures !ChordUsed(turns) && MediaOn(turns) == MediaOn(turns[..|turns| - 1])
  {
  }

  lemma HomeReleaseRemembers(u: State, turns: seq<Turn>)
    requires turns != [] && RemembersBy(u, turns[..|turns| - 1], turns[|turns| - 1].tick)
    requires Released(turns[|turns| - 1].input, 102)
    ensures Remembers(Take(u, turns[|turns| - 1].input).0, turns)
  {
    var before, t := turns[..|turns| - 1], turns[|turns| - 1];
    assert Take(u, t.input).0 == HomeUp(u, t.input.now).0;
    assert !IsChord(turns) && !DoubleTapped(turns);
    ReleaseChanges(turns);
    hide Take, React, WaitingBy, HoldBy, MediaOn, ChordUsed, HoldDue;
  }

  lemma ReleaseChanges(turns: seq<Turn>)
    requires turns != [] && Released(turns[|turns| - 1].input, 102)
    ensures !ChordUsed(turns) && MediaOn(turns) == MediaOn(turns[..|turns| - 1])
  {
  }

  lemma ChordRemembers(u: State, turns: seq<Turn>)
    requires turns != [] && RemembersBy(u, turns[..|turns| - 1], turns[|turns| - 1].tick)
    requires IsChord(turns)
    ensures Remembers(Take(u, turns[|turns| - 1].input).0, turns)
  {
    var before, t := turns[..|turns| - 1], turns[|turns| - 1];
    assert Take(u, t.input).0 == Chord(u, t.input.e.code, t.input.app).0;
    assert !PlainRelease(turns) && !DoubleTapped(turns);
    hide Take, React, WaitingBy, HoldBy, HoldDue, KeyClick;
  }

  /** An event that is neither a Home key nor a chord changes nothing. */
  lemma OtherRemembers(u: State, turns: seq<Turn>)
    requires turns != [] && RemembersBy(u, turns[..|turns| - 1], turns[|turns| - 1].tick)
    requires !Pressed(turns[|turns| - 1].input, 102) && !Released(turns[|turns| - 1].input, 102) && !IsChord(turns)
    ensures Remembers(Take(u, turns[|turns| - 1].input).0, turns)
  {
    var before, t := turns[..|turns| - 1], turns[|turns| - 1];
    OtherFlags(u, t.input);
    assert !PlainRelease(turns) && !DoubleTapped(turns);
    hide Take, WaitingBy, HoldBy, HoldDue;
  }

  lemma PowerFlags(u: State, value: int, now: u64)
    ensures var v := PowerKey(u, value, now).0; v == u.(powerPending := v.powerPending, powerDownTime := v.powerDownTime)
  {
    hide Elapsed;
  }

  lemma PageFlags(u: State, e: Event, app: string)
    requires !(e.value == 1 && u.homeDown)
    ensures PageKey(u, e, app).0 == u
  {
    hide Chord, MediaCommand;
  }

  lemma OtherFlags(u: State, i: Input)
    requires !Pressed(i, 102) && !Released(i, 102) && !(SidePressed(i) && u.homeDown)
    ensures var v := Take(u, i).0; v == u.(powerPending := v.powerPending, powerDownTime := v.powerDownTime)
  {
    if i.Got? {
      hide PowerKey, PageKey, HomeDown, HomeUp;
      PowerFlags(u, i.e.value, i.now);
      if !(i.e.value == 1 && u.homeDown) {
        PageFlags(u, i.e, i.app);
      }
    }
  }

  lemma EventRemembers(u: State, turns: seq<Turn>)
    requires turns != [] && RemembersBy(u, turns[..|turns| - 1], turns[|turns| - 1].tick)
    ensures Remembers(Take(u, turns[|turns| - 1].input).0, turns)
  {
    hide Take, Remembers, RemembersBy, IsChord;
    if Pressed(turns[|turns| - 1].input, 102) {
      HomePressRemembers(u, turns);
    } else if Released(turns[|turns| - 1].input, 102) {
      HomeReleaseRemembers(u, turns);
    } else if IsChord(turns) {
      ChordRemembers(u, turns);
    } else {
      OtherRemembers(u, turns);
    }
  }

  /** After every run the supervisor's Home and media flags say what the history of the buttons says. */
  lemma {:induction false} FlagsAreHistory(turns: seq<Turn>)
    ensures Remembers(Run(turns).0, turns)
  {
    if turns == [] {
    } else {
      var before, t := turns[..|turns| - 1], turns[|turns| - 1];
      FlagsAreHistory(before);
      RunOneMore(turns);
      var s := Run(before).0;
      StepOutput(s, t);
      TimersRemember(s, before, t.tick);
      hide Run, Tick, Take, Step;
      EventRemembers(Tick(s, t.tick).0, turns);
    }
  }

  // --- What is sent ---

  /** What each turn of a run comes to, one after the other. */
  function Told<T>(turns: seq<Turn>, now: seq<Turn> -> seq<T>): seq<T> {
    if turns == [] then [] else Told(turns[..|turns| - 1], now) + now(turns)
  }

  /** What the supervisor does in the last turn of a run. */
  function LastOut(turns: seq<Turn>): seq<Effect>
    requires turns != []
  {
    Step(Run(turns[..|turns| - 1]).0, turns[|turns| - 1]).1
  }

  lemma {:induction false} RunTells<T>(turns: seq<Turn>, view: Effect -> seq<T>, now: seq<Turn> -> seq<T>)
    requires forall ts: seq<Turn> :: ts != [] ==> Project(LastOut(ts), view) == now(ts)
    ensures Project(Run(turns).1, view) == Told(turns, now)
  {
    hide LastOut, Step, Project;
    if turns == [] {
      ProjectFew(SYN, SYN, view);
    } else {
      RunTells(turns[..|turns| - 1], view, now);
      RunOneMore(turns);
      LastOutIs(turns);
      ProjectAppend(Run(turns[..|turns| - 1]).1, LastOut(turns), view);
    }
  }

  lemma LastOutIs(turns: seq<Turn>)
    requires turns != []
    ensures LastOut(turns) == Step(Run(turns[..|turns| - 1]).0, turns[|turns| - 1]).1
  {
  }

  /** The timers write nothing but the Home and the power key. */
  lemma TimersWrite(s: State, now: u64)
    ensures forall e :: e in Tick(s, now).1 ==> e == SYN || (e.Emit? && e.kind == 1 && (e.code == 102 || e.code == 116))
  {
    hide Remaining;
  }

  /** An output that the timers do not write is decided by the event, which finds the flags of the history. */
  lemma EventTells<T>(turns: seq<Turn>, view: Effect -> seq<T>) returns (u: State)
    requires turns != [] && view(SYN) == []
    requires forall code, value :: code == 102 || code == 116 ==> view(Emit(1, code, value)) == []
    ensures RemembersBy(u, turns[..|turns| - 1], turns[|turns| - 1].tick)
    ensures Project(LastOut(turns), view) == Project(Take(u, turns[|turns| - 1].input).1, view)
  {
    var before, t := turns[..|turns| - 1], turns[|turns| - 1];
    var s := Run(before).0;
    FlagsAreHistory(before);
    TimersRemember(s, before, t.tick);
    TimersWrite(s, t.tick);
    StepOutput(s, t);
    u := Tick(s, t.tick).0;
    var x, y := Tick(s, t.tick).1, Take(u, t.input).1;
    hide Tick, Take, Step, Remembers, RemembersBy, Project, Run;
    forall e | e in x
      ensures view(e) == []
    {
    }
    ProjectSilent(x, view);
    ProjectAppend(x, y, view);
    assert [] + Project(y, view) == Project(y, view);
  }

  // --- The side buttons ---

  function SideOf(e: Effect): seq<(nat, int)> {
    if e.Emit? && e.kind == 1 && 191 <= e.code <= 194 then [(e.code, e.value)] else []
  }

  function SideBy(i: Input, down: bool, used: bool, media: bool): seq<(nat, int)> {
    if (SidePressed(i) && !down && !media) || (SideReleased(i) && !used && !media) then [(i.e.code, i.e.value)] else []
  }

  /** A side button that goes down with Home up outside media mode, or comes up outside media mode with no chord in use. */
  function SideNow(turns: seq<Turn>): seq<(nat, int)> {
    if turns == [] then []
    else
      var before, i := turns[..|turns| - 1], turns[|turns| - 1].input;
      SideBy(i, HomeIsDown(before), ChordUsed(before), MediaOn(before))
  }

  lemma SideTaken(u: State, i: Input)
    ensures Project(Take(u, i).1, SideOf) == SideBy(i, u.homeDown, u.homeComboConsumed, u.mediaMode)
  {
    var y := Take(u, i).1;
    if SideBy(i, u.homeDown, u.homeComboConsumed, u.mediaMode) != [] {
      var e := Emit(1, i.e.code, i.e.value);
      assert y == [e];
      hide Project, Take;
      ProjectFew(e, SYN, SideOf);
    } else {
      hide Project, Elapsed;
      ProjectSilent(y, SideOf);
    }
  }

  /** The side buttons of the virtual device do exactly this, in order and once each, on every run. */
  lemma SideButtons(turns: seq<Turn>)
    ensures Project(Run(turns).1, SideOf) == Told(turns, SideNow)
  {
    forall ts: seq<Turn> | ts != []
      ensures Project(LastOut(ts), SideOf) == SideNow(ts)
    {
      var u := EventTells(ts, SideOf);
      SideTaken(u, ts[|ts| - 1].input);
      hide Project, LastOut, Take, HomeIsDown, ChordUsed, MediaOn;
    }
    RunTells(turns, SideOf, SideNow);
  }

  // --- The player ---

  function PlayerOf(e: Effect): seq<Command> {
    if e.Shell? && (e.command.AudioPause? || e.command.AudioPrevious? || e.command.AudioNext? || e.command.AudioShuffle?)
    then [e.command] else []
  }

  /** What a side button asks of the player in media mode. */
  function PlayerKey(code: nat): Command {
    if code == 191 then AudioPrevious else if code == 192 then AudioShuffle else if code == 193 then AudioNext else AudioPause
  }

  /** A double tap of Home toggles playback, and so does a single one in media mode; there the side buttons are player controls. */
  function PlayerNow(turns: seq<Turn>): seq<Command> {
    if turns == [] then []
    else
      var before, i := turns[..|turns| - 1], turns[|turns| - 1].input;
      if DoubleTapped(turns) then [AudioPause]
      else if PlainRelease(turns) && !DoubleUsed(before) && MediaOn(before) then [AudioPause]
      else if SidePressed(i) && !HomeIsDown(before) && MediaOn(before) then [PlayerKey(i.e.code)]
      else []
  }

  lemma HomeAsks(turns: seq<Turn>, u: State)
    requires turns != [] && RemembersBy(u, turns[..|turns| - 1], turns[|turns| - 1].tick)
    requires Pressed(turns[|turns| - 1].input, 102) || Released(turns[|turns| - 1].input, 102)
    ensures Project(Take(u, turns[|turns| - 1].input).1, PlayerOf) == PlayerNow(turns)
  {
    var i := turns[|turns| - 1].input;
    ProjectFew(Shell(AudioPause), SYN, PlayerOf);
    ProjectFew(Emit(1, 102, 0), SYN, PlayerOf);
    hide Project, HomeIsDown, ChordUsed, MediaOn, HoldBy, WaitingBy, DoubleUsed;
  }

  lemma ButtonAsks(u: State, i: Input)
    requires !Pressed(i, 102) && !Released(i, 102)
    ensures Project(Take(u, i).1, PlayerOf) ==
            if SidePressed(i) && !u.homeDown && u.mediaMode then [PlayerKey(i.e.code)] else []
  {
    var y := Take(u, i).1;
    if SidePressed(i) && !u.homeDown && u.mediaMode {
      var e := Shell(PlayerKey(i.e.code));
      assert y == [e];
      hide Project, Take;
      ProjectFew(e, SYN, PlayerOf);
    } else {
      hide Project, Elapsed, MediaCommand;
      ProjectSilent(y, PlayerOf);
    }
  }

  /** The player commands are exactly these, on every run. */
  lemma PlayerCommands(turns: seq<Turn>)
    ensures Project(Run(turns).1, PlayerOf) == Told(turns, PlayerNow)
  {
    forall ts: seq<Turn> | ts != []
      ensures Project(LastOut(ts), PlayerOf) == PlayerNow(ts)
    {
      var u := EventTells(ts, PlayerOf);
      var i := ts[|ts| - 1].input;
      hide Project, LastOut, Take, HomeIsDown, ChordUsed, MediaOn, DoubleUsed;
      if Pressed(i, 102) || Released(i, 102) {
        HomeAsks(ts, u);
      } else {
        ButtonAsks(u, i);
      }
    }
    RunTells(turns, PlayerOf, PlayerNow);
  }

  // --- The applications ---

  function AppOf(e: Effect): seq<Effect> {
    if e.SetApp? || (e.Shell? && (e.command.KillAllBut? || e.command.KillNetSurf? || e.command.TapPlatoFrontlight?)) then [e] else []
  }

  /** A chord names the application it switches to and spares it; one that finds its application active does something else. */
  function AppNow(turns: seq<Turn>): seq<Effect> {
    if !IsChord(turns) then [] else AppBy(turns[|turns| - 1].input.e.code, turns[|turns| - 1].input.app)
  }

  function AppBy(code: nat, app: string): seq<Effect> {
    if code == 191 then if app == "koreader" then [] else [SetApp("koreader"), Shell(KillAllBut("koreader"))]
    else if code == 192 then if app == "plato" then [Shell(TapPlatoFrontlight)] else [SetApp("plato"), Shell(KillAllBut("plato"))]
    else if code == 193 then
      if app == "netsurf" then [SetApp("koreader"), Shell(KillNetSurf)] else [SetApp("netsurf"), Shell(KillAllBut("netsurf"))]
    else []
  }

  /** What a chord does to the applications it does as its only output; the light dialog of the reader is a click of Home. */
  lemma ChordSays(u: State, code: nat, app: string)
    requires 191 <= code <= 194
    ensures Chord(u, code, app).1 == if code == 191 && app == "koreader" then KeyClick(102) else AppBy(code, app)
  {
    hide KeyClick;
  }

  lemma {:induction false} ProjectSame(out: seq<Effect>, view: Effect -> seq<Effect>)
    requires forall e :: e in out ==> view(e) == [e]
    ensures Project(out, view) == out
  {
    if out != [] {
      ProjectSame(out[..|out| - 1], view);
    }
  }

  lemma AppsShow(code: nat, app: string)
    ensures Project(AppBy(code, app), AppOf) == AppBy(code, app)
  {
    assert forall e :: e in AppBy(code, app) ==> AppOf(e) == [e];
    hide Project, AppBy, AppOf;
    ProjectSame(AppBy(code, app), AppOf);
  }

  lemma ChordSwitches(u: State, code: nat, app: string)
    requires 191 <= code <= 194
    ensures Project(Chord(u, code, app).1, AppOf) == AppBy(code, app)
  {
    ChordSays(u, code, app);
    if code == 191 && app == "koreader" {
      hide Project, Chord;
      ProjectSilent(KeyClick(102), AppOf);
    } else {
      hide Project, Chord, AppBy;
      AppsShow(code, app);
    }
  }

  lemma OthersSwitchNothing(u: State, i: Input)
    requires !(SidePressed(i) && u.homeDown)
    ensures Project(Take(u, i).1, AppOf) == []
  {
    hide Project, Elapsed;
    ProjectSilent(Take(u, i).1, AppOf);
  }

  /** The applications named, stopped and tapped are exactly these, on every run. */
  lemma Applications(turns: seq<Turn>)
    ensures Project(Run(turns).1, AppOf) == Told(turns, AppNow)
  {
    forall ts: seq<Turn> | ts != []
      ensures Project(LastOut(ts), AppOf) == AppNow(ts)
    {
      var u := EventTells(ts, AppOf);
      var i := ts[|ts| - 1].input;
      if IsChord(ts) {
        assert Take(u, i) == Chord(u, i.e.code, i.app);
        ChordSwitches(u, i.e.code, i.app);
      } else {
        OthersSwitchNothing(u, i);
      }
      hide Project, LastOut, Take, HomeIsDown;
    }
    RunTells(turns, AppOf, AppNow);
  }

  // --- The lid and other switches ---

  function SwitchOf(e: Effect): seq<Effect> {
    if (e.Emit? && e.kind == 5) || e == Shell(Suspend) then [e] else []
  }

  /** Every switch is passed on; a closing lid first suspends the device unless the reader is active. */
  function SwitchNow(turns: seq<Turn>): seq<Effect> {
    if turns == [] || !turns[|turns| - 1].input.Got? || turns[|turns| - 1].input.e.kind != 5 then []
    else
      var i := turns[|turns| - 1].input;
      (if i.e.code == 0 && i.e.value == 1 && i.app != "koreader" then [Shell(Suspend)] else []) + [Emit(5, i.e.code, i.e.value)]
  }

  lemma SwitchPassed(u: State, i: Input)
    requires i.Got? && i.e.kind == 5
    ensures Take(u, i).1 ==
            (if i.e.code == 0 && i.e.value == 1 && i.app != "koreader" then [Shell(Suspend)] else []) + [Emit(5, i.e.code, i.e.value)]
  {
    var none: seq<Effect> := [];
    assert none + [Emit(5, i.e.code, i.e.value)] == [Emit(5, i.e.code, i.e.value)];
    hide PowerKey, HomeDown, HomeUp, PageKey;
  }

  lemma NoSwitch(u: State, i: Input)
    requires i.Got? ==> i.e.kind != 5
    ensures Project(Take(u, i).1, SwitchOf) == []
  {
    hide Project, Elapsed;
    ProjectSilent(Take(u, i).1, SwitchOf);
  }

  lemma SwitchTaken(turns: seq<Turn>, u: State)
    requires turns != []
    ensures Project(Take(u, turns[|turns| - 1].input).1, SwitchOf) == SwitchNow(turns)
  {
    var i := turns[|turns| - 1].input;
    hide Project, Take;
    if i.Got? && i.e.kind == 5 {
      var e := Emit(5, i.e.code, i.e.value);
      SwitchPassed(u, i);
      assert [] + [e] == [e] && [Shell(Suspend)] + [e] == [Shell(Suspend), e];
      ProjectFew(e, SYN, SwitchOf);
      ProjectFew(Shell(Suspend), e, SwitchOf);
    } else {
      NoSwitch(u, i);
    }
  }

  /** The switches and suspensions are exactly these, on every run. */
  lemma Switches(turns: seq<Turn>)
    ensures Project(Run(turns).1, SwitchOf) == Told(turns, SwitchNow)
  {
    forall ts: seq<Turn> | ts != []
      ensures Project(LastOut(ts), SwitchOf) == SwitchNow(ts)
    {
      var u := EventTells(ts, SwitchOf);
      SwitchTaken(ts, u);
      hide Project, LastOut, Take, SwitchNow;
    }
    RunTells(turns, SwitchOf, SwitchNow);
  }

  // --- The virtual Home key ---

  /** The report of a hold, the click of a tap whose time is over; then the release of a hold, or the click that opens the light
      dialog. */
  function HomeNow(turns: seq<Turn>): seq<int> {
    if turns == [] then []
    else
      var before, t := turns[..|turns| - 1], turns[|turns| - 1];
      (if HoldDue(before, t.tick) then [1] else []) +
      (if TapWaiting(before).Since? && WaitingBy(before, t.tick).Nothing? then [1, 0] else []) +
      (if Released(t.input, 102) && !ChordUsed(before) && HoldBy(before, t.tick) then [0]
       else if IsLightDialog(turns) then [1, 0] else [])
  }

  lemma HomeWritten(ts: seq<Turn>)
    requires ts != []
    ensures HomeStream(LastOut(ts)) == HomeNow(ts)
  {
    var before, t := ts[..|ts| - 1], ts[|ts| - 1];
    var s := Run(before).0;
    FlagsAreHistory(before);
    TimersRemember(s, before, t.tick);
    TickHomePart(s, t.tick);
    var u := Tick(s, t.tick).0;
    TakeHomePart(u, t.input);
    StepOutput(s, t);
    ProjectAppend(Tick(s, t.tick).1, Take(u, t.input).1, HomeOf);
    hide Remembers, RemembersBy, HomeTicked, HomeTaken, HoldDue, HoldBy, WaitingBy, IsLightDialog, PendingIsUp;
    hide Tick, Take, Step, Project, Run, HomeIsDown, ChordUsed, HoldSent, TapWaiting, DoubleUsed, MediaOn, PressedAt, Over;
    HomeTickedIs(before, t.tick, s, u);
    HomeTakenIs(ts, u);
  }

  lemma HomeTickedIs(turns: seq<Turn>, tick: u64, s: State, u: State)
    requires Remembers(s, turns) && RemembersBy(u, turns, tick)
    ensures HomeTicked(s, u) == (if HoldDue(turns, tick) then [1] else []) +
              (if TapWaiting(turns).Since? && WaitingBy(turns, tick).Nothing? then [1, 0] else [])
  {
    hide HomeIsDown, ChordUsed, HoldSent, TapWaiting, DoubleUsed, MediaOn, PressedAt, Over;
  }

  lemma HomeTakenIs(turns: seq<Turn>, u: State)
    requires turns != [] && RemembersBy(u, turns[..|turns| - 1], turns[|turns| - 1].tick)
    ensures var before, t := turns[..|turns| - 1], turns[|turns| - 1];
            HomeTaken(u, t.input) ==
            if Released(t.input, 102) && !ChordUsed(before) && HoldBy(before, t.tick) then [0]
            else if IsLightDialog(turns) then [1, 0] else []
  {
    hide HomeIsDown, ChordUsed, HoldBy, WaitingBy, DoubleUsed, MediaOn, PressedAt;
  }

  /** The virtual Home key does exactly this, on every run. */
  lemma HomeKey(turns: seq<Turn>)
    ensures HomeStream(Run(turns).1) == Told(turns, HomeNow)
  {
    forall ts: seq<Turn> | ts != []
      ensures Project(LastOut(ts), HomeOf) == HomeNow(ts)
    {
      HomeWritten(ts);
      hide Project, LastOut, HomeNow;
    }
    RunTells(turns, HomeOf, HomeNow);
  }

  // --- Nothing else ---

  /** An output is a key, a switch or a synchronisation, or one of the commands; a Home or power key is followed at once by a
      synchronisation. */
  predicate Orderly(out: seq<Effect>) {
    forall k :: 0 <= k < |out| ==> OrderlyAt(out, k)
  }

  predicate OrderlyAt(out: seq<Effect>, k: nat)
    requires k < |out|
  {
    var e := out[k];
    && (e.Emit? ==> e.kind == 0 || e.kind == 5 || (e.kind == 1 && IsKeyCode(e.code)))
    && (e.Emit? && e.kind == 1 && (e.code == 102 || e.code == 116) ==> k + 1 < |out| && out[k + 1] == Emit(0, 0, 0))
  }

  predicate IsKeyCode(code: nat) {
    code == 102 || code == 116 || 191 <= code <= 194
  }

  lemma OrderlyAppend(a: seq<Effect>, b: seq<Effect>)
    requires Orderly(a) && Orderly(b)
    ensures Orderly(a + b)
  {
    var c := a + b;
    forall k | 0 <= k < |c|
      ensures OrderlyAt(c, k)
    {
      if k >= |a| {
        assert OrderlyAt(b, k - |a|);
      } else {
        assert OrderlyAt(a, k);
      }
    }
  }

  lemma StepIsOrderly(s: State, t: Turn)
    ensures Orderly(Step(s, t).1)
  {
    var (a, x) := TickPower(s, t.tick);
    var (b, y) := TickHold(a, t.tick);
    var (u, z) := TickSingle(b, t.tick);
    assert Orderly(x) && Orderly(y) && Orderly(z);
    TakeIsOrderly(u, t.input);
    var w := Take(u, t.input).1;
    hide TickPower, TickHold, TickSingle, Take, Orderly;
    OrderlyAppend(x, y);
    OrderlyAppend(x + y, z);
    OrderlyAppend(x + y + z, w);
  }

  lemma TakeIsOrderly(u: State, i: Input)
    ensures Orderly(Take(u, i).1)
  {
    hide Elapsed;
  }

  lemma {:induction false} RunsAreOrderly(turns: seq<Turn>)
    ensures Orderly(Run(turns).1)
  {
    if turns != [] {
      var before, t := turns[..|turns| - 1], turns[|turns| - 1];
      RunsAreOrderly(before);
      RunOneMore(turns);
      StepIsOrderly(Run(before).0, t);
      hide Orderly, Step;
      OrderlyAppend(Run(before).1, Step(Run(before).0, t).1);
    }
  }
}
