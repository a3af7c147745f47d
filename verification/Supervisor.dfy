// The supervisor's event loop over its mutable flags and the screen it draws its overlays on.
module Supervisor {
  import opened Overlays
  import opened Gestures
  import opened ButtonHistory

  const LONGEST_WAIT_MS := 1000

  /** A pixel the reader application sets. */
  datatype Write = Write(pixel: nat, color: Color)

  ghost predicate OnScreen(writes: seq<Write>) {
    forall k :: 0 <= k < |writes| ==> writes[k].pixel < FB_SIZE
  }

  /** A picture after writes to it. */
  function Painted(picture: seq<Color>, writes: seq<Write>): (p: seq<Color>)
    ensures |p| == |picture|
  {
    if writes == [] then picture
    else
      var before := Painted(picture, writes[..|writes| - 1]);
      var w := writes[|writes| - 1];
      if w.pixel < |before| then before[w.pixel := w.color] else before
  }

  predicate Wrote(writes: seq<Write>, pixel: nat) {
    exists k :: 0 <= k < |writes| && writes[k].pixel == pixel
  }

  lemma WroteOn(a: seq<Write>, b: seq<Write>, pixel: nat)
    ensures Wrote(a + b, pixel) <==> Wrote(a, pixel) || Wrote(b, pixel)
  {
    if Wrote(a, pixel) {
      var k :| 0 <= k < |a| && a[k].pixel == pixel;
      assert (a + b)[k].pixel == pixel;
    }
    if Wrote(b, pixel) {
      var k :| 0 <= k < |b| && b[k].pixel == pixel;
      assert (a + b)[|a| + k].pixel == pixel;
    }
  }

  lemma WroteOne(writes: seq<Write>, k: nat)
    requires k < |writes|
    ensures Wrote(writes[..k + 1], writes[k].pixel)
    ensures forall i: nat :: Wrote(writes[..k], i) ==> Wrote(writes[..k + 1], i)
  {
    assert writes[..k + 1] == writes[..k] + [writes[k]];
    assert writes[..k + 1][k] == writes[k];
    forall i: nat | Wrote(writes[..k], i)
      ensures Wrote(writes[..k + 1], i)
    {
      WroteOn(writes[..k], [writes[k]], i);
    }
  }

  /** All the writes made during a run. */
  function Together(writes: seq<seq<Write>>): seq<Write> {
    if writes == [] then [] else Together(writes[..|writes| - 1]) + writes[|writes| - 1]
  }

  lemma {:induction false} PaintedOn(picture: seq<Color>, a: seq<Write>, b: seq<Write>)
    ensures Painted(picture, a + b) == Painted(Painted(picture, a), b)
  {
    if b == [] {
      assert a + b == a;
    } else {
      PaintedOn(picture, a, b[..|b| - 1]);
      assert (a + b)[..|a + b| - 1] == a + b[..|b| - 1];
    }
  }

  lemma TogetherOn(writes: seq<seq<Write>>, k: nat)
    requires k < |writes|
    ensures Together(writes[..k + 1]) == Together(writes[..k]) + writes[k]
  {
    assert writes[..k + 1][..k] == writes[..k];
  }

  class Supervisor {
    const screen: Screen
    var powerPending: bool
    var powerDownTime: u64
    var homeDown: bool
    var homeComboConsumed: bool
    var homePendingSingle: bool
    var homeLongSent: bool
    var homeDownTime: u64
    var homeSingleTime: u64
    var homeDoubleConsumed: bool
    var mediaMode: bool
    var out: seq<Effect>

    ghost function Flags(): State
      reads this
    {
      State(powerPending, powerDownTime, homeDown, homeComboConsumed, homePendingSingle, homeLongSent,
            homeDownTime, homeSingleTime, homeDoubleConsumed, mediaMode)
    }

    /** Media mode is on only while the media card is on the screen, and the screen can be put back as it was. */
    ghost predicate Valid()
      reads this, screen, screen.fb, screen.toastBackup, screen.cardBackup
    {
      screen.Valid() && (mediaMode ==> screen.cardActive)
    }

    /** Media mode shows its card; outside it a chord shows a toast. */
    ghost predicate Announced(now: u64)
      reads this, screen
    {
      if mediaMode then screen.cardActive else screen.toastActive && screen.toastExpireTime == now + 2200
    }

    /** The flags moved and the effects were sent as the state machine says. */
    twostate predicate Did(r: (State, seq<Effect>))
      reads this
    {
      Flags() == r.0 && out == old(out) + r.1
    }

    constructor (screen: Screen)
      requires screen.Valid()
      ensures Valid() && this.screen == screen && Flags() == IDLE && out == []
    {
      this.screen := screen;
      powerPending, powerDownTime := false, 0;
      homeDown, homeComboConsumed, homePendingSingle, homeLongSent := false, false, false, false;
      homeDownTime, homeSingleTime, homeDoubleConsumed, mediaMode := 0, 0, false, false;
      out := [];
    }

    method Click(code: nat)
      modifies this`out
      ensures out == old(out) + KeyClick(code)
    {
      out := out + [Emit(EV_KEY, code, 1)] + [SYN] + [Emit(EV_KEY, code, 0)] + [SYN];
    }

    /** Hides a toast whose time is over. */
    method ExpireToast(now: u64, longest: int) returns (timeout: int)
      requires Valid() && longest > 0
      modifies screen`toastActive, screen.fb
      ensures Valid() && 0 < timeout <= longest
      ensures screen.toastActive && screen.toastBackup != null ==>
                old(screen.toastActive) && timeout <= Remaining(screen.toastExpireTime, now)
    {
      timeout := longest;
      if screen.toastActive {
        var rem := Remaining(screen.toastExpireTime, now);
        if rem <= 0 {
          screen.HideToast();
        } else if rem < timeout {
          timeout := rem;
        }
      }
    }

    method PowerTimer(now: u64, longest: int) returns (timeout: int)
      requires longest > 0
      modifies this`powerPending, this`out
      ensures Did(TickPower(old(Flags()), now))
      ensures 0 < timeout <= longest && (powerPending ==> timeout <= Remaining(powerDownTime + POWER_DOUBLE_CLICK_MS, now))
    {
      hide Remaining;
      timeout := longest;
      if powerPending {
        var rem := Remaining(powerDownTime + POWER_DOUBLE_CLICK_MS, now);
        if rem <= 0 {
          Click(KEY_POWER);
          powerPending := false;
        } else if rem < timeout {
          timeout := rem;
        }
      }
    }

    method HoldTimer(now: u64, longest: int) returns (timeout: int)
      requires longest > 0
      modifies this`homeLongSent, this`homePendingSingle, this`out
      ensures Did(TickHold(old(Flags()), now))
      ensures 0 < timeout <= longest
      ensures homeDown && !homeComboConsumed && !homeLongSent ==> timeout <= Remaining(homeDownTime + HOME_LONG_PRESS_MS, now)
    {
      hide Remaining;
      timeout := longest;
      if homeDown && !homeComboConsumed && !homeLongSent {
        var rem := Remaining(homeDownTime + HOME_LONG_PRESS_MS, now);
        if rem <= 0 {
          out := out + [Emit(EV_KEY, KEY_HOME, 1), SYN];
          homeLongSent := true;
          homePendingSingle := false;
        } else if rem < timeout {
          timeout := rem;
        }
      }
    }

    method SingleTimer(now: u64, longest: int) returns (timeout: int)
      requires longest > 0
      modifies this`homePendingSingle, this`out
      ensures Did(TickSingle(old(Flags()), now))
      ensures 0 < timeout <= longest
      ensures homePendingSingle ==> timeout <= Remaining(homeSingleTime + POWER_DOUBLE_CLICK_MS, now)
    {
      hide Remaining;
      timeout := longest;
      if homePendingSingle {
        var rem := Remaining(homeSingleTime + POWER_DOUBLE_CLICK_MS, now);
        if rem <= 0 {
          Click(KEY_HOME);
          homePendingSingle := false;
        } else if rem < timeout {
          timeout := rem;
        }
      }
    }

    /** Serves every deadline that is over. The wait that follows ends no later than the next deadline. */
    method Timers(now: u64) returns (timeout: int)
      requires Valid()
      modifies this`powerPending, this`homeLongSent, this`homePendingSingle, this`out, screen`toastActive, screen.fb
      ensures Valid() && Did(Tick(old(Flags()), now))
      ensures 0 < timeout <= 1000
      ensures powerPending ==> timeout <= Remaining(powerDownTime + 400, now)
      ensures homeDown && !homeComboConsumed && !homeLongSent ==> timeout <= Remaining(homeDownTime + 500, now)
      ensures homePendingSingle ==> timeout <= Remaining(homeSingleTime + 400, now)
      ensures screen.toastActive && screen.toastBackup != null ==> timeout <= Remaining(screen.toastExpireTime, now)
    {
      hide Remaining, TickPower, TickHold, TickSingle, Screen.Valid;
      timeout := ExpireToast(now, LONGEST_WAIT_MS);
      timeout := PowerTimer(now, timeout);
      timeout := HoldTimer(now, timeout);
      timeout := SingleTimer(now, timeout);
    }

    method OnPower(value: int, now: u64)
      requires Valid()
      modifies this
      ensures Valid() && Did(PowerKey(old(Flags()), value, now))
    {
      if value == 1 {
        if powerPending && Elapsed(now, powerDownTime) <= POWER_DOUBLE_CLICK_MS {
          powerPending := false;
          out := out + [Shell(ToggleFrontlight)];
        } else {
          powerPending := true;
          powerDownTime := now;
        }
      }
    }

    method OnHomeDown(now: u64)
      requires Valid()
      modifies this, screen`cardActive, screen.fb, screen.cardBackup
      ensures Valid() && Did(HomeDown(old(Flags()), now))
      ensures IsDoubleTap(old(Flags()), now) ==> screen.cardActive
    {
      hide Screen.Valid, Elapsed;
      if homePendingSingle && !homeDoubleConsumed && Elapsed(now, homeSingleTime) <= POWER_DOUBLE_CLICK_MS {
        homePendingSingle := false;
        homeDoubleConsumed := true;
        out := out + [Shell(AudioPause)];
        screen.ShowMediaCard("PLAYBACK: PLAY / PAUSE TOGGLED  >||");
      }
      homeDown := true;
      homeDownTime := now;
      homeComboConsumed := false;
      homeLongSent := false;
      homePendingSingle := false;
    }

    method OnHomeUp(now: u64)
      requires Valid()
      modifies this, screen`cardActive, screen.fb, screen.cardBackup
      ensures Valid() && Did(HomeUp(old(Flags()), now))
    {
      hide Screen.Valid, Elapsed;
      homeDown := false;
      if homeComboConsumed {
        homeComboConsumed := false;
      } else if homeLongSent {
        out := out + [Emit(EV_KEY, KEY_HOME, 0), SYN];
        homeLongSent := false;
      } else if homeDoubleConsumed {
        homeDoubleConsumed := false;
      } else if mediaMode {
        out := out + [Shell(AudioPause)];
        screen.ShowMediaCard("PLAYBACK: PLAY / PAUSE TOGGLED  >||");
      } else {
        homePendingSingle := true;
        homeSingleTime := now;
      }
    }

    method LeaveMediaMode()
      requires Valid()
      modifies this`mediaMode, screen`cardActive, screen.fb
      ensures Valid() && !mediaMode
      ensures old(mediaMode) && screen.cardBackup != null ==> !screen.cardActive
    {
      if mediaMode {
        screen.HideMediaCard();
        mediaMode := false;
      }
    }

    /** A chord that switches or configures an application leaves media mode and tells so in a toast. */
    method Announce(title: string, subtitle: string, now: u64)
      requires Valid() && ToastFits(title, subtitle)
      modifies this`homeComboConsumed, this`homePendingSingle, this`mediaMode,
               screen`toastActive, screen`toastExpireTime, screen`cardActive, screen.fb, screen.toastBackup, screen.cardBackup
      ensures Valid() && homeComboConsumed && !homePendingSingle && !mediaMode && Announced(now)
      ensures old(mediaMode) && screen.cardBackup != null ==> !screen.cardActive
    {
      hide Screen.Valid, ToastFits;
      homeComboConsumed := true;
      homePendingSingle := false;
      LeaveMediaMode();
      screen.ShowToast(title, subtitle, now);
    }

    method OnReaderChord(app: string, now: u64)
      requires Valid()
      modifies this, screen`toastActive, screen`toastExpireTime, screen`cardActive, screen.fb, screen.toastBackup, screen.cardBackup
      ensures Valid() && Did(Chord(old(Flags()), TOP_LEFT, app))
      ensures Announced(now) && (old(mediaMode) && !mediaMode && screen.cardBackup != null ==> !screen.cardActive)
    {
      hide Screen.Valid;
      if app == "koreader" {
        Announce("FRONTLIGHT DIALOG", "KOReader Warmth & Brightness", now);
        Click(KEY_HOME);
        homeComboConsumed := false;
      } else {
        Announce("SWITCHING TO KOREADER...", "Document & Book Reader", now);
        out := out + [SetApp("koreader"), Shell(KillAllBut("koreader"))];
      }
    }

    method OnPlatoChord(app: string, now: u64)
      requires Valid()
      modifies this, screen`toastActive, screen`toastExpireTime, screen`cardActive, screen.fb, screen.toastBackup, screen.cardBackup
      ensures Valid() && Did(Chord(old(Flags()), BOTTOM_LEFT, app))
      ensures Announced(now) && (old(mediaMode) && !mediaMode && screen.cardBackup != null ==> !screen.cardActive)
    {
      hide Screen.Valid;
      if app == "plato" {
        Announce("FRONTLIGHT DIALOG", "Opening Plato Warmth & Brightness", now);
        out := out + [Shell(TapPlatoFrontlight)];
      } else {
        Announce("SWITCHING TO PLATO...", "Fast Touch-Driven Rust Reader", now);
        out := out + [SetApp("plato"), Shell(KillAllBut("plato"))];
      }
    }

    method OnBrowserChord(app: string, now: u64)
      requires Valid()
      modifies this, screen`toastActive, screen`toastExpireTime, screen`cardActive, screen.fb, screen.toastBackup, screen.cardBackup
      ensures Valid() && Did(Chord(old(Flags()), TOP_RIGHT, app))
      ensures Announced(now) && (old(mediaMode) && !mediaMode && screen.cardBackup != null ==> !screen.cardActive)
    {
      hide Screen.Valid;
      if app == "netsurf" {
        Announce("CLOSING NETSURF...", "Returning to Document Reader", now);
        out := out + [SetApp("koreader"), Shell(KillNetSurf)];
      } else {
        Announce("LAUNCHING NETSURF...", "E-Ink Optimized Web Browser", now);
        out := out + [SetApp("netsurf"), Shell(KillAllBut("netsurf"))];
      }
    }

    method OnMediaChord(app: string, now: u64)
      requires Valid()
      modifies this, screen`toastActive, screen`toastExpireTime, screen`cardActive, screen.fb, screen.toastBackup, screen.cardBackup
      ensures Valid() && Did(Chord(old(Flags()), BOTTOM_RIGHT, app))
      ensures Announced(now) && (old(mediaMode) && !mediaMode && screen.cardBackup != null ==> !screen.cardActive)
    {
      hide Screen.Valid;
      homeComboConsumed := true;
      homePendingSingle := false;
      ToggleMediaMode(now);
      assert out == old(out) + [];
    }

    /** A side button pressed while Home is held. */
    method OnChord(code: nat, app: string, now: u64)
      requires Valid() && IsPageKey(code)
      modifies this, screen`toastActive, screen`toastExpireTime, screen`cardActive, screen.fb, screen.toastBackup, screen.cardBackup
      ensures Valid() && Did(Chord(old(Flags()), code, app))
      ensures Announced(now) && (old(mediaMode) && !mediaMode && screen.cardBackup != null ==> !screen.cardActive)
    {
      hide Valid, Chord;
      if code == TOP_LEFT {
        OnReaderChord(app, now);
      } else if code == BOTTOM_LEFT {
        OnPlatoChord(app, now);
      } else if code == TOP_RIGHT {
        OnBrowserChord(app, now);
      } else {
        OnMediaChord(app, now);
      }
    }

    method ToggleMediaMode(now: u64)
      requires Valid()
      modifies this`mediaMode, screen`toastActive, screen`toastExpireTime, screen`cardActive, screen.fb, screen.toastBackup, screen.cardBackup
      ensures Valid() && mediaMode == !old(mediaMode)
      ensures Announced(now) && (old(mediaMode) && !mediaMode && screen.cardBackup != null ==> !screen.cardActive)
    {
      hide Screen.Valid;
      mediaMode := !mediaMode;
      if mediaMode {
        screen.ShowMediaCard("PLAYBACK ACTIVE: CONTROLS READY");
      } else {
        screen.HideMediaCard();
        screen.ShowToast("READING MODE RESTORED", "Audio running in background (Side buttons = Page turns)", now);
      }
    }

    method OnMediaKey(code: nat)
      requires Valid() && IsPageKey(code)
      modifies this`out, screen`cardActive, screen.fb, screen.cardBackup
      ensures Valid() && out == old(out) + [Shell(MediaCommand(code))] && screen.cardActive
    {
      if code == TOP_LEFT {
        out := out + [Shell(AudioPrevious)];
        screen.ShowMediaCard("TRACK SKIPPED: PREVIOUS  |<<");
      } else if code == BOTTOM_LEFT {
        out := out + [Shell(AudioShuffle)];
        screen.ShowMediaCard("PLAYLIST: SHUFFLE TOGGLED");
      } else if code == TOP_RIGHT {
        out := out + [Shell(AudioNext)];
        screen.ShowMediaCard("TRACK SKIPPED: NEXT  >>|");
      } else {
        out := out + [Shell(AudioPause)];
        screen.ShowMediaCard("PLAYBACK: PLAY / PAUSE TOGGLED  >||");
      }
    }

    method OnPageKey(e: Event, app: string, now: u64)
      requires Valid() && IsPageKey(e.code)
      modifies this, screen`toastActive, screen`toastExpireTime, screen`cardActive, screen.fb, screen.toastBackup, screen.cardBackup
      ensures Valid() && Did(PageKey(old(Flags()), e, app))
      ensures e.value == 1 && old(homeDown) ==>
                Announced(now) && (old(mediaMode) && !mediaMode && screen.cardBackup != null ==> !screen.cardActive)
    {
      if e.value == 1 {
        if homeDown {
          OnChord(e.code, app, now);
        } else if mediaMode {
          OnMediaKey(e.code);
        } else {
          out := out + [Emit(e.kind, e.code, e.value)];
        }
      } else if e.value == 0 {
        if !(homeComboConsumed || mediaMode) {
          out := out + [Emit(e.kind, e.code, e.value)];
        }
      }
    }

    method Handle(e: Event, now: u64, app: string)
      requires Valid()
      modifies this, screen`toastActive, screen`toastExpireTime, screen`cardActive, screen.fb, screen.toastBackup, screen.cardBackup
      ensures Valid() && Did(React(old(Flags()), e, now, app))
    {
      hide Screen.Valid, PowerKey, HomeDown, HomeUp, PageKey;
      if e.kind == EV_KEY && e.code == KEY_POWER {
        OnPower(e.value, now);
      } else if e.kind == EV_KEY && e.code == KEY_HOME {
        if e.value == 1 {
          OnHomeDown(now);
        } else if e.value == 0 {
          OnHomeUp(now);
        }
      } else if e.kind == EV_KEY && IsPageKey(e.code) {
        OnPageKey(e, app, now);
      } else if e.kind == EV_SW && e.code == SW_LID {
        ghost var sent, emitted := out, Emit(e.kind, e.code, e.value);
        if e.value == 1 && app != "koreader" {
          out := out + [Shell(Suspend)];
        }
        out := out + [Emit(e.kind, e.code, e.value)];
        assert (sent + [Shell(Suspend)]) + [emitted] == sent + ([Shell(Suspend)] + [emitted]);
        assert sent + ([] + [emitted]) == sent + [emitted];
      } else if e.kind == EV_SW || e.kind == EV_SYN {
        out := out + [Emit(e.kind, e.code, e.value)];
      }
    }

    /** The reader application draws while the supervisor waits. */
    method ReaderWrites(writes: seq<Write>)
      requires Valid() && OnScreen(writes)
      modifies screen`plain, screen`bare, screen`lost, screen.fb
      ensures Valid() && screen.bare == Painted(old(screen.bare), writes)
      ensures forall i: nat :: i in screen.lost ==> i in old(screen.lost) || Wrote(writes, i)
      ensures writes == [] ==> screen.plain == old(screen.plain)
    {
      hide Screen.Valid, Wrote;
      ghost var start := screen.bare;
      var k := 0;
      assert writes[..0] == [];
      while k < |writes|
        invariant 0 <= k <= |writes| && Valid() && screen.bare == Painted(start, writes[..k])
        invariant forall i: nat :: i in screen.lost ==> i in old(screen.lost) || Wrote(writes[..k], i)
        invariant k == 0 ==> screen.plain == old(screen.plain)
      {
        assert writes[..k + 1][..k] == writes[..k];
        BareIsScreen();
        screen.ReaderDraws(writes[k].pixel, writes[k].color);
        WroteOne(writes, k);
        k := k + 1;
      }
      assert writes[..k] == writes;
    }

    lemma BareIsScreen()
      requires Valid()
      ensures |screen.bare| == FB_SIZE
    {
    }

    /** One turn of the loop: the timers, the wait, in which the reader draws, and the event if one has come. */
    method OneTurn(t: Turn, writes: seq<Write>)
      requires Valid() && OnScreen(writes)
      modifies this, screen`toastActive, screen`toastExpireTime, screen`cardActive, screen`plain, screen`bare, screen`lost,
               screen.fb, screen.toastBackup, screen.cardBackup
      ensures Valid() && Did(Step(old(Flags()), t))
      ensures screen.bare == Painted(old(screen.bare), writes)
      ensures forall i: nat :: i in screen.lost ==> i in old(screen.lost) || Wrote(writes, i)
      ensures writes == [] ==> screen.plain == old(screen.plain)
    {
      hide Tick, React, Valid, Painted, Wrote, OnScreen;
      ghost var s, sent := Flags(), out;
      var timeout := Timers(t.tick);
      ghost var u, x := Flags(), Tick(s, t.tick).1;
      ReaderWrites(writes);
      match t.input {
        case Quiet =>
          assert sent + (x + []) == sent + x;
        case Got(e, now, app) =>
          Handle(e, now, app);
          assert sent + (x + React(u, e, now, app).1) == (sent + x) + React(u, e, now, app).1;
      }
    }

    /** The event loop, with the reader drawing during each wait: it behaves as the state machine, keeps media mode under a shown
        card, and leaves it to the reader alone what the screen would show without overlays. Only pixels the reader wrote can differ
        from that once the overlays are hidden. */
    method EventLoop(turns: seq<Turn>, writes: seq<seq<Write>>)
      requires Valid() && Flags() == IDLE && out == []
      requires |writes| == |turns| && forall k :: 0 <= k < |writes| ==> OnScreen(writes[k])
      modifies this, screen`toastActive, screen`toastExpireTime, screen`cardActive, screen`plain, screen`bare, screen`lost,
               screen.fb, screen.toastBackup, screen.cardBackup
      ensures Valid() && (Flags(), out) == Run(turns)
      ensures Project(out, SideOf) == Told(turns, SideNow) && HomeStream(out) == Told(turns, HomeNow)
      ensures Project(out, PlayerOf) == Told(turns, PlayerNow) && Project(out, AppOf) == Told(turns, AppNow)
      ensures Project(out, SwitchOf) == Told(turns, SwitchNow) && Orderly(out)
      ensures screen.bare == Painted(old(screen.bare), Together(writes))
      ensures forall i: nat :: i in screen.lost ==> i in old(screen.lost) || Wrote(Together(writes), i)
      ensures (forall k :: 0 <= k < |writes| ==> writes[k] == []) ==> screen.plain == old(screen.plain)
    {
      hide Step, Valid, Flags, OnScreen, Wrote, Project, HomeStream, Told, Orderly;
      ghost var start := screen.bare;
      ghost var still := forall k :: 0 <= k < |writes| ==> writes[k] == [];
      var i := 0;
      assert turns[..0] == [] && writes[..0] == [];
      while i < |turns|
        invariant 0 <= i <= |turns|
        invariant Valid() && (Flags(), out) == Run(turns[..i])
        invariant screen.bare == Painted(start, Together(writes[..i]))
        invariant still ==> screen.plain == old(screen.plain)
        invariant forall j: nat :: j in screen.lost ==> j in old(screen.lost) || Wrote(Together(writes[..i]), j)
      {
        forall j: nat
          ensures Wrote(Together(writes[..i]) + writes[i], j) <==> Wrote(Together(writes[..i]), j) || Wrote(writes[i], j)
        {
          WroteOn(Together(writes[..i]), writes[i], j);
        }
        TogetherOn(writes, i);
        PaintedOn(start, Together(writes[..i]), writes[i]);
        assert turns[..i + 1][..|turns[..i + 1]| - 1] == turns[..i];
        RunOneMore(turns[..i + 1]);
        OneTurn(turns[i], writes[i]);
        i := i + 1;
      }
      assert turns[..i] == turns && writes[..i] == writes;
      SideButtons(turns);
      HomeKey(turns);
      PlayerCommands(turns);
      Applications(turns);
      Switches(turns);
      RunsAreOrderly(turns);
    }
  }
}
