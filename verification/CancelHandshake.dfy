// The cancel handshake: the control endpoint's thread and the thread moving file data share a cancel
// request and a transfer flag. Each action below is one access to them by one thread, in any interleaving.
module CancelHandshake {
  /** What the control thread is asked for: a cancel or a device status by the host, or a suspension of the bus, which cancels too. */
  datatype Request = Cancel | GetDeviceStatus | Suspend

  /** Where the control thread is: between requests, in a cancel, waiting in a suspension, or in a device status request. */
  datatype Control =
    Ready
  | SuspendTest | CancelLock(cause: Request) | CancelTest(cause: Request) | CancelWrite(value: int, cause: Request) | SuspendWait(cnt: nat)
  | StatusTest | OkTest | OkClear | OkReply
  | BusyLock | BusyTest | BusyWrite | BusyReply(locked: bool)

  /** Where the data thread is: between transfers, in the packet loop, or after it. */
  datatype Data = Idle | Looping(full: bool) | Reading | Ending | Testing | Resetting

  datatype Response = Ok | NoResponse

  datatype State = State(
    cancelReq: int, transferring: bool, control: Control, data: Data,
    accepted: nat, busyReplies: nat, statusReplies: nat, failedLocks: nat, responses: seq<Response>)

  const INITIAL: State := State(0, false, Ready, Idle, 0, 0, 0, 0, [])

  /** The result of a packet read: a full packet, a short one that ends the data, or an error, as when interrupted. */
  datatype Packet = Full | Short | Failed

  datatype Action = Receive(request: Request) | ControlStep(lockOk: bool) | StartTransfer(full: bool) | DataStep(packet: Packet)

  const MOST_WAITS := 250

  /** A suspension waits for the transfer to end; a cancel of the host does not. */
  function AfterCancel(cause: Request): Control {
    if cause == Suspend then SuspendWait(0) else Ready
  }

  function NextControl(s: State, lockOk: bool): State {
    match s.control
    case Ready => s
    case SuspendTest => s.(control := if s.transferring then CancelLock(Suspend) else Ready)
    case CancelLock(cause) => s.(control := if lockOk then CancelTest(cause) else AfterCancel(cause))
    case CancelTest(cause) => s.(control := CancelWrite(if s.transferring then 2 else 0, cause))
    case CancelWrite(value, cause) =>
      s.(control := AfterCancel(cause), cancelReq := value, accepted := if value == 2 then s.accepted + 1 else s.accepted)
    case SuspendWait(cnt) => s.(control := if s.cancelReq == 0 || cnt > MOST_WAITS then Ready else SuspendWait(cnt + 1))
    case StatusTest => s.(control := if s.cancelReq != 2 then OkTest else BusyLock)
    case OkTest => s.(control := if !s.transferring then OkClear else OkReply)
    case OkClear => s.(control := OkReply, cancelReq := 0)
    case OkReply => s.(control := Ready, statusReplies := s.statusReplies + 1)
    case BusyLock => if lockOk then s.(control := BusyTest) else s.(control := BusyReply(false), failedLocks := s.failedLocks + 1)
    case BusyTest => s.(control := if s.cancelReq == 2 then BusyWrite else BusyReply(true))
    case BusyWrite => s.(control := BusyReply(true), cancelReq := 1)
    case BusyReply(_) => s.(control := Ready, statusReplies := s.statusReplies + 1, busyReplies := s.busyReplies + 1)
  }

  function NextData(s: State, packet: Packet): State {
    match s.data
    case Idle => s
    case Looping(full) => s.(data := if full && s.cancelReq == 0 then Reading else Ending)
    case Reading => s.(data := Looping(packet == Full))
    case Ending => s.(data := Testing, transferring := false)
    case Testing => if s.cancelReq != 0 then s.(data := Resetting) else s.(data := Idle, responses := s.responses + [Ok])
    case Resetting => s.(data := Idle, cancelReq := 0, responses := s.responses + [NoResponse])
  }

  /** An action that is not possible changes nothing. */
  function Next(s: State, a: Action): State {
    match a
    case Receive(request) =>
      if s.control != Ready then s else s.(control := match request
                                                case Cancel => CancelLock(Cancel)
                                                case GetDeviceStatus => StatusTest
                                                case Suspend => SuspendTest)
    case ControlStep(lockOk) => NextControl(s, lockOk)
    case StartTransfer(full) => if s.data != Idle then s else s.(data := Looping(full), transferring := true)
    case DataStep(packet) => NextData(s, packet)
  }

  function RunFrom(s: State, actions: seq<Action>): State {
    if actions == [] then s else Next(RunFrom(s, actions[..|actions| - 1]), actions[|actions| - 1])
  }

  // --- Every interleaving ---

  predicate InBusy(c: Control) {
    c.BusyLock? || c.BusyTest? || c.BusyWrite? || c.BusyReply?
  }

  /** Busy replies already promised: the one being made, and the one a waiting request will still get. */
  function Owed(s: State): nat {
    if InBusy(s.control) then (if s.control == BusyReply(false) && s.cancelReq == 2 then 2 else 1)
    else if s.cancelReq == 2 then 1 else 0
  }

  predicate Sound(s: State) {
    && s.cancelReq in {0, 1, 2}
    && (s.control.CancelWrite? ==> s.control.value in {0, 2})
    && (s.control.OkTest? || s.control.OkClear? || s.control.OkReply? || s.control == BusyReply(true) ==> s.cancelReq != 2)
    && (s.transferring <==> s.data.Looping? || s.data.Reading? || s.data.Ending?)
  }

  predicate Counted(s: State) {
    s.busyReplies + Owed(s) <= s.accepted + s.failedLocks && (s.accepted == 0 ==> Unasked(s))
  }

  /** Nothing shows a cancel. */
  predicate Unasked(s: State) {
    s.cancelReq == 0 && !InBusy(s.control) && s.data != Resetting && NoResponse !in s.responses
  }

  lemma ControlKeepsSound(s: State, lockOk: bool)
    requires Sound(s)
    ensures Sound(NextControl(s, lockOk))
  {
  }

  lemma DataKeepsSound(s: State, packet: Packet)
    requires Sound(s)
    ensures Sound(NextData(s, packet))
  {
  }

  lemma StepKeepsSound(s: State, a: Action)
    requires Sound(s)
    ensures Sound(Next(s, a))
  {
    match a {
      case ControlStep(lockOk) => ControlKeepsSound(s, lockOk);
      case DataStep(packet) => DataKeepsSound(s, packet);
      case _ =>
    }
    hide NextControl, NextData;
  }

  lemma BusyStepCounts(s: State, lockOk: bool)
    requires Sound(s) && Counted(s) && InBusy(s.control)
    ensures Counted(NextControl(s, lockOk))
  {
  }

  lemma OtherStepCounts(s: State, lockOk: bool)
    requires Sound(s) && Counted(s) && !InBusy(s.control)
    ensures Counted(NextControl(s, lockOk))
  {
  }

  lemma StepCounts(s: State, a: Action)
    requires Sound(s) && Counted(s)
    ensures Counted(Next(s, a))
  {
    if a.ControlStep? {
      if InBusy(s.control) {
        BusyStepCounts(s, a.lockOk);
      } else {
        OtherStepCounts(s, a.lockOk);
      }
    }
    hide NextControl;
  }

  lemma {:induction false} RunsAreSound(s: State, actions: seq<Action>)
    requires Sound(s)
    ensures Sound(RunFrom(s, actions))
  {
    hide Next, Sound;
    if actions != [] {
      RunsAreSound(s, actions[..|actions| - 1]);
      StepKeepsSound(RunFrom(s, actions[..|actions| - 1]), actions[|actions| - 1]);
    }
  }

  lemma {:induction false} RunsAreCounted(actions: seq<Action>)
    ensures Counted(RunFrom(INITIAL, actions))
  {
    if actions != [] {
      RunsAreCounted(actions[..|actions| - 1]);
      RunsAreSound(INITIAL, actions[..|actions| - 1]);
      hide Next, Sound, Counted;
      StepCounts(RunFrom(INITIAL, actions[..|actions| - 1]), actions[|actions| - 1]);
    }
  }

  /** In every interleaving the request is 0, 1 or 2, and the host is told that the device is busy at most once for each cancel
      that was granted, unless taking the mutex fails. As long as no cancel was granted, no request is pending and every transfer
      has answered OK. */
  lemma BusyRepliesAreGranted(actions: seq<Action>)
    ensures var s := RunFrom(INITIAL, actions);
            && s.cancelReq in {0, 1, 2} && s.busyReplies <= s.accepted + s.failedLocks
            && (s.accepted == 0 ==> s.cancelReq == 0 && forall r :: r in s.responses ==> r == Ok)
  {
    RunsAreSound(INITIAL, actions);
    RunsAreCounted(actions);
  }

  // --- The data of a transfer ---

  /** What the latest read of a transfer gave; the data that came with the request counts as the first. */
  function LastRead(actions: seq<Action>): Packet {
    if actions == [] then Short
    else
      var before, a := actions[..|actions| - 1], actions[|actions| - 1];
      var s := RunFrom(INITIAL, before);
      if a.StartTransfer? && s.data == Idle then (if a.full then Full else Short)
      else if a.DataStep? && s.data == Reading then a.packet
      else LastRead(before)
  }

  /** The packet loop was last left, or passed, with a request pending. */
  function Interrupted(actions: seq<Action>): bool {
    if actions == [] then false
    else
      var before, a := actions[..|actions| - 1], actions[|actions| - 1];
      var s := RunFrom(INITIAL, before);
      if a.DataStep? && s.data.Looping? then s.cancelReq != 0 else Interrupted(before)
  }

  predicate LoopSound(s: State, last: Packet, interrupted: bool) {
    match s.data
    case Idle => true
    case Looping(full) => full <==> last == Full
    case Reading => last == Full && !interrupted
    case _ => last != Full || interrupted
  }

  lemma StepKeepsLoop(s: State, a: Action, last: Packet, interrupted: bool)
    requires LoopSound(s, last, interrupted)
    ensures LoopSound(Next(s, a),
                      if a.StartTransfer? && s.data == Idle then (if a.full then Full else Short)
                      else if a.DataStep? && s.data == Reading then a.packet else last,
                      if a.DataStep? && s.data.Looping? then s.cancelReq != 0 else interrupted)
  {
    if a.ControlStep? {
      ControlLeavesData(s, a.lockOk);
      hide NextControl;
    }
  }

  lemma ControlLeavesData(s: State, lockOk: bool)
    ensures NextControl(s, lockOk).data == s.data
  {
  }

  /** In every interleaving the data thread reads on exactly while full packets come and no request is pending: it has left the
      loop only after a short or failed packet, or interrupted by a request. */
  lemma {:induction false} LoopFollowsPackets(actions: seq<Action>)
    ensures var s := RunFrom(INITIAL, actions);
      && (s.data.Looping? ==> (s.data.full <==> LastRead(actions) == Full))
      && (s.data == Reading ==> LastRead(actions) == Full && !Interrupted(actions))
      && (s.data == Ending || s.data == Testing || s.data == Resetting ==> LastRead(actions) != Full || Interrupted(actions))
  {
    if actions != [] {
      var before, a := actions[..|actions| - 1], actions[|actions| - 1];
      LoopFollowsPackets(before);
      StepKeepsLoop(RunFrom(INITIAL, before), a, LastRead(before), Interrupted(before));
      hide Next;
    }
  }

  /** One look at the loop's condition. */
  lemma LoopDecides(actions: seq<Action>, p: Packet)
    requires RunFrom(INITIAL, actions).data.Looping?
    ensures var s := RunFrom(INITIAL, actions);
      var t := Next(s, DataStep(p));
      t.data == (if LastRead(actions) != Full || s.cancelReq != 0 then Ending else Reading)
  {
    LoopFollowsPackets(actions);
  }

  // --- The wait of a suspension ---

  /** So many steps of the control thread alone. */
  function Waits(n: nat): seq<Action> {
    if n == 0 then [] else Waits(n - 1) + [STEP]
  }

  lemma OneWait(s: State, cnt: nat)
    requires s.control == SuspendWait(cnt) && s.cancelReq != 0
    ensures Next(s, STEP) == s.(control := if cnt > 250 then Ready else SuspendWait(cnt + 1))
  {
  }

  /** While the request stays pending, a suspension waits for 251 rounds and gives up at the next look. */
  lemma {:induction false} SuspensionGivesUp(s: State, n: nat)
    requires s.control == AfterCancel(Suspend) && s.cancelReq != 0 && n <= 252
    ensures RunFrom(s, Waits(n)) == s.(control := if n <= 251 then SuspendWait(n) else Ready)
  {
    if n > 0 {
      SuspensionGivesUp(s, n - 1);
      assert Waits(n)[..|Waits(n)| - 1] == Waits(n - 1);
      hide Next, Waits;
      assert RunFrom(s, Waits(n)) == Next(RunFrom(s, Waits(n - 1)), STEP);
      hide RunFrom;
      OneWait(s.(control := SuspendWait(n - 1)), n - 1);
    }
  }

  // --- With no transfer running ---

  /** The state after a number of status replies counted from a moment without a transfer. */
  predicate Draining(s: State, replies: nat) {
    && !s.transferring
    && s.cancelReq in {0, 1, 2}
    && (s.control.CancelWrite? ==> s.control.value == 0 || (s.control.value == 2 && replies == 0))
    && (s.control.OkTest? || s.control.OkClear? || s.control.OkReply? || s.control == BusyReply(true) ==> s.cancelReq != 2)
    && (s.control.OkReply? && replies >= 1 ==> s.cancelReq == 0)
    && (replies >= 1 ==> s.cancelReq != 2 && !InBusy(s.control))
    && (replies >= 2 ==> s.cancelReq == 0)
    && (s.control == BusyReply(false) ==> s.cancelReq != 2)
  }

  /** A request is still waiting although its busy reply, for which the mutex could not be taken, is being made. */
  predicate Missed(s: State) {
    s.control == BusyReply(false) && s.cancelReq == 2
  }

  lemma StepDrains(s: State, a: Action, replies: nat)
    requires Draining(s, replies) && !a.StartTransfer? && Next(s, a).failedLocks == s.failedLocks
    requires s.data.Idle? || s.data.Testing? || s.data.Resetting?
    ensures var t := Next(s, a);
            && Draining(t, replies + (t.statusReplies - s.statusReplies))
            && t.statusReplies >= s.statusReplies && (t.data.Idle? || t.data.Testing? || t.data.Resetting?)
  {
  }

  predicate NoStart(actions: seq<Action>) {
    forall a :: a in actions ==> !a.StartTransfer?
  }

  lemma {:induction false} RunDrains(s: State, actions: seq<Action>)
    requires Sound(s) && !Missed(s) && !s.transferring
    requires NoStart(actions) && RunFrom(s, actions).failedLocks == s.failedLocks
    ensures var t := RunFrom(s, actions);
            && t.statusReplies >= s.statusReplies && Draining(t, t.statusReplies - s.statusReplies)
            && (t.data.Idle? || t.data.Testing? || t.data.Resetting?)
  {
    hide Next, Draining;
    if actions != [] {
      var before, a := actions[..|actions| - 1], actions[|actions| - 1];
      FailuresStay(RunFrom(s, before), a);
      FailuresStayOnRuns(s, before);
      RunDrains(s, before);
      StepDrains(RunFrom(s, before), a, RunFrom(s, before).statusReplies - s.statusReplies);
    } else {
      StartsDraining(s);
    }
  }

  lemma StartsDraining(s: State)
    requires Sound(s) && !Missed(s) && !s.transferring
    ensures Draining(s, 0)
  {
  }

  lemma FailuresStay(s: State, a: Action)
    ensures Next(s, a).failedLocks >= s.failedLocks
  {
  }

  /** Two more status replies clear the request, however the threads interleave, as long as no transfer starts and the mutex can be
      taken meanwhile. */
  ghost predicate TwoClear(s: State) {
    forall actions ::
      NoStart(actions) && RunFrom(s, actions).failedLocks == s.failedLocks && RunFrom(s, actions).statusReplies >= s.statusReplies + 2 ==>
        RunFrom(s, actions).cancelReq == 0
  }

  /** From any reachable moment with no transfer running, two device status replies clear the cancel request if and only if the reply
      under way is not one that has missed the request because the mutex could not be taken. */
  lemma TwoStatusRepliesClear(past: seq<Action>)
    requires !RunFrom(INITIAL, past).transferring
    ensures TwoClear(RunFrom(INITIAL, past)) <==> !Missed(RunFrom(INITIAL, past))
  {
    RunsAreSound(INITIAL, past);
    var s := RunFrom(INITIAL, past);
    if Missed(s) {
      MissedTakesThree(s);
    } else {
      forall actions |
        NoStart(actions) && RunFrom(s, actions).failedLocks == s.failedLocks && RunFrom(s, actions).statusReplies >= s.statusReplies + 2
        ensures RunFrom(s, actions).cancelReq == 0
      {
        RunDrains(s, actions);
      }
    }
  }

  /** The first reply leaves a missed request as it is, the second acknowledges it. */
  lemma MissedTakesThree(s: State)
    requires Missed(s)
    ensures !TwoClear(s)
  {
    var a, b := [STEP, Receive(GetDeviceStatus), STEP], [STEP, STEP, STEP] + [STEP];
    var t := s.(control := BusyLock, statusReplies := s.statusReplies + 1, busyReplies := s.busyReplies + 1);
    MissedReplies(s, t);
    BusyAcknowledges(t);
    RunJoins(s, a, b);
    hide RunFrom;
    assert NoStart(a + b);
  }

  lemma MissedReplies(s: State, t: State)
    requires Missed(s) && t == s.(control := BusyLock, statusReplies := s.statusReplies + 1, busyReplies := s.busyReplies + 1)
    ensures RunFrom(s, [STEP, Receive(GetDeviceStatus), STEP]) == t
  {
    RunThree(s, STEP, Receive(GetDeviceStatus), STEP);
    hide RunFrom;
  }

  lemma BusyAcknowledges(s: State)
    requires s.control == BusyLock && s.cancelReq == 2
    ensures RunFrom(s, [STEP, STEP, STEP] + [STEP]) ==
            s.(control := Ready, cancelReq := 1, statusReplies := s.statusReplies + 1, busyReplies := s.busyReplies + 1)
  {
    RunJoins(s, [STEP, STEP, STEP], [STEP]);
    RunThree(s, STEP, STEP, STEP);
    RunOne(s.(control := BusyReply(true), cancelReq := 1), STEP);
    hide RunFrom;
  }

  /** A request is missed when a transfer that was granted a cancel ends and the mutex cannot be taken for the busy reply. */
  lemma RequestCanBeMissed()
    ensures exists past :: Missed(RunFrom(INITIAL, past)) && !RunFrom(INITIAL, past).transferring
  {
    var a := [StartTransfer(true), Receive(Cancel), STEP] + [STEP, STEP, STEP];
    var b := [DATA, DATA, Receive(GetDeviceStatus)] + [STEP, ControlStep(false)];
    CancelGranted();
    CancelMissed();
    RunJoins(INITIAL, a, b);
    hide RunFrom;
    assert Missed(RunFrom(INITIAL, a + b));
  }

  lemma CancelMissed()
    ensures var t := RunFrom(GRANTED, [DATA, DATA, Receive(GetDeviceStatus)] + [STEP, ControlStep(false)]);
            Missed(t) && !t.transferring
  {
    var t := GRANTED.(data := Testing, transferring := false, control := StatusTest);
    RunJoins(GRANTED, [DATA, DATA, Receive(GetDeviceStatus)], [STEP, ControlStep(false)]);
    RunThree(GRANTED, DATA, DATA, Receive(GetDeviceStatus));
    RunJoins(t, [STEP], [ControlStep(false)]);
    RunOne(t, STEP);
    RunOne(t.(control := BusyLock), ControlStep(false));
    assert [STEP] + [ControlStep(false)] == [STEP, ControlStep(false)];
  }

  lemma {:induction false} FailuresStayOnRuns(s: State, actions: seq<Action>)
    ensures RunFrom(s, actions).failedLocks >= s.failedLocks
  {
    hide Next;
    if actions != [] {
      FailuresStayOnRuns(s, actions[..|actions| - 1]);
      FailuresStay(RunFrom(s, actions[..|actions| - 1]), actions[|actions| - 1]);
    }
  }

  // --- When a granted cancel is lost ---

  /** A step by which the control thread withdraws a request. */
  predicate Withdraws(s: State, a: Action) {
    a.ControlStep? && (s.control == OkClear || (s.control.CancelWrite? && s.control.value == 0))
  }

  /** A step by which the control thread grants a cancel. */
  predicate Grants(s: State, a: Action) {
    a.ControlStep? && s.control.CancelWrite? && s.control.value == 2
  }

  /** A step by which the control thread raises a request: it grants a cancel, or acknowledges one by a busy reply. */
  predicate Raises(s: State, a: Action) {
    Grants(s, a) || (a.ControlStep? && s.control == BusyWrite)
  }

  /** A cancel has been granted since the running transfer started. */
  function GrantedNow(actions: seq<Action>): bool {
    if actions == [] then false
    else
      var before, a := actions[..|actions| - 1], actions[|actions| - 1];
      var s := RunFrom(INITIAL, before);
      if Grants(s, a) then true
      else if a.StartTransfer? && s.data == Idle then false
      else GrantedNow(before)
  }

  /** The request is pending and nothing under way will withdraw it. */
  predicate Firm(s: State) {
    s.cancelReq != 0 && s.control != OkClear && !(s.control.CancelWrite? && s.control.value == 0)
  }

  lemma ControlKeepsFirm(s: State, lockOk: bool)
    requires Sound(s) && s.transferring
    requires Firm(s) || Grants(s, ControlStep(lockOk))
    ensures Firm(NextControl(s, lockOk))
  {
  }

  lemma StepKeepsFirm(s: State, a: Action)
    requires Sound(s) && s.transferring
    requires Firm(s) || Grants(s, a)
    ensures Next(s, a).transferring ==> Firm(Next(s, a))
    ensures Firm(s) ==> Firm(Next(s, a))
  {
    if a.ControlStep? {
      ControlKeepsFirm(s, a.lockOk);
      hide NextControl;
    }
  }

  /** A cancel granted during a transfer stays pending as long as that transfer is running. */
  lemma {:induction false} GrantedStaysPending(actions: seq<Action>)
    requires RunFrom(INITIAL, actions).transferring && GrantedNow(actions)
    ensures Firm(RunFrom(INITIAL, actions))
  {
    var before, a := actions[..|actions| - 1], actions[|actions| - 1];
    var s := RunFrom(INITIAL, before);
    RunsAreSound(INITIAL, before);
    if s.transferring {
      if !Grants(s, a) {
        GrantedStaysPending(before);
      }
      StepKeepsFirm(s, a);
    } else {
      GrantOutside(s, a);
    }
  }

  /** A transfer that starts has no grant yet. */
  lemma GrantOutside(s: State, a: Action)
    requires Sound(s) && !s.transferring && Next(s, a).transferring
    ensures a.StartTransfer? && s.data == Idle && !Grants(s, a)
  {
  }

  predicate NoData(actions: seq<Action>) {
    forall a :: a in actions ==> !a.DataStep?
  }

  /** Of the withdrawals and raises the last one is a withdrawal. */
  function Withdrawn(s: State, actions: seq<Action>): bool {
    if actions == [] then false
    else
      var before, a := actions[..|actions| - 1], actions[|actions| - 1];
      var t := RunFrom(s, before);
      if Withdraws(t, a) then true else if Raises(t, a) then false else Withdrawn(s, before)
  }

  lemma TestingStep(s: State, a: Action)
    requires Sound(s) && s.data == Testing && !a.DataStep?
    ensures var t := Next(s, a);
            && t.data == Testing && t.responses == s.responses
            && (t.cancelReq == 0 <==> Withdraws(s, a) || (s.cancelReq == 0 && !Raises(s, a)))
  {
  }

  lemma {:induction false} TestingRun(s: State, actions: seq<Action>)
    requires Sound(s) && s.data == Testing && s.cancelReq != 0 && NoData(actions)
    ensures var t := RunFrom(s, actions);
            t.data == Testing && t.responses == s.responses && (t.cancelReq == 0 <==> Withdrawn(s, actions))
  {
    if actions != [] {
      var before, a := actions[..|actions| - 1], actions[|actions| - 1];
      TestingRun(s, before);
      RunsAreSound(s, before);
      hide Next, Sound, Withdraws, Raises;
      TestingStep(RunFrom(s, before), a);
    }
  }

  /** A transfer that was granted a cancel answers OK if and only if, between the end of its data and the data thread's test, the
      request is withdrawn and not raised again. */
  lemma GrantedTransferAnswers(past: seq<Action>, between: seq<Action>, p: Packet, q: Packet)
    requires RunFrom(INITIAL, past).data == Ending && GrantedNow(past) && NoData(between)
    ensures var ended := Next(RunFrom(INITIAL, past), DataStep(p));
            var tested := RunFrom(ended, between);
            var t := Next(tested, DataStep(q));
            && tested.data == Testing
            && (t.responses == tested.responses + [Ok] <==> Withdrawn(ended, between))
            && (t.data == Resetting <==> !Withdrawn(ended, between))
  {
    RunsAreSound(INITIAL, past);
    GrantedStaysPending(past);
    var s := RunFrom(INITIAL, past);
    var ended := Next(s, DataStep(p));
    StepKeepsSound(s, DataStep(p));
    TestingRun(ended, between);
    var tested := RunFrom(ended, between);
    TestAnswers(tested, q);
  }

  lemma TestAnswers(s: State, q: Packet)
    requires s.data == Testing
    ensures var t := Next(s, DataStep(q));
            && (t.responses == s.responses + [Ok] <==> s.cancelReq == 0) && (t.data == Resetting <==> s.cancelReq != 0)
  {
    assert |s.responses + [Ok]| == |s.responses| + 1;
  }

  // --- When an answered cancel comes back ---

  /** A request that is already being served and can raise the cancel request after the data thread has answered. */
  predicate WillRaise(c: Control) {
    c.SuspendTest? || c.CancelLock? || c.CancelTest? || (c.CancelWrite? && c.value == 2) || c == BusyWrite
  }

  predicate NoCancel(actions: seq<Action>) {
    forall a :: a in actions ==> a != Receive(Cancel) && a != Receive(Suspend)
  }

  lemma CalmStep(s: State, a: Action)
    requires Sound(s) && s.cancelReq == 0 && !WillRaise(s.control) && a != Receive(Cancel) && a != Receive(Suspend)
    ensures Next(s, a).cancelReq == 0 && !WillRaise(Next(s, a).control)
  {
  }

  lemma {:induction false} CalmRun(s: State, actions: seq<Action>)
    requires Sound(s) && s.cancelReq == 0 && !WillRaise(s.control)
    requires NoCancel(actions)
    ensures RunFrom(s, actions).cancelReq == 0 && !WillRaise(RunFrom(s, actions).control)
  {
    hide Next;
    if actions != [] {
      var before, a := actions[..|actions| - 1], actions[|actions| - 1];
      assert a in actions && forall b :: b in before ==> b in actions;
      assert NoCancel(before);
      CalmRun(s, before);
      RunsAreSound(s, before);
      CalmStep(RunFrom(s, before), a);
    }
  }

  ghost predicate StaysAnswered(s: State) {
    forall later :: NoCancel(later) ==> RunFrom(s, later).cancelReq == 0
  }

  /** From a test or lock a cancel goes on to be granted if a transfer starts meanwhile. */
  lemma RaisesInNext(s: State)
    requires s.data == Idle && (s.control.SuspendTest? || s.control.CancelLock? || s.control.CancelTest?)
    ensures exists later :: NoCancel(later) && RunFrom(s, later).cancelReq != 0
  {
    var start := [StartTransfer(true), STEP, STEP];
    RunThree(s, StartTransfer(true), STEP, STEP);
    var t := RunFrom(s, start);
    if s.control.SuspendTest? {
      assert t == s.(data := Looping(true), transferring := true, control := CancelTest(Suspend));
      RunThree(t, STEP, STEP, STEP);
      RunJoins(s, start, [STEP, STEP, STEP]);
      assert NoCancel(start + [STEP, STEP, STEP]) && RunFrom(s, start + [STEP, STEP, STEP]).cancelReq != 0;
    } else if s.control.CancelLock? {
      assert t == s.(data := Looping(true), transferring := true, control := CancelWrite(2, s.control.cause));
      RunJoins(s, start, [STEP]);
      RunOne(t, STEP);
      assert NoCancel(start + [STEP]) && RunFrom(s, start + [STEP]).cancelReq != 0;
    } else {
      assert NoCancel(start) && RunFrom(s, start).cancelReq == 2;
    }
  }

  lemma RaisesLater(s: State)
    requires s.data == Idle && WillRaise(s.control)
    ensures exists later :: NoCancel(later) && RunFrom(s, later).cancelReq != 0
  {
    if s.control == BusyWrite || s.control.CancelWrite? {
      RunOne(s, STEP);
      assert NoCancel([STEP]) && RunFrom(s, [STEP]).cancelReq != 0;
    } else {
      RaisesInNext(s);
    }
  }

  /** Once the data thread has answered a cancel, the request stays cleared until the next cancel or suspension arrives if and only
      if at that moment the control thread was neither inside one nor about to acknowledge the answered one. */
  lemma AnsweredRequestComesBack(past: seq<Action>, p: Packet)
    requires RunFrom(INITIAL, past).data == Resetting
    ensures var s := RunFrom(INITIAL, past);
            StaysAnswered(Next(s, DataStep(p))) <==> !WillRaise(s.control)
  {
    RunsAreSound(INITIAL, past);
    var s := RunFrom(INITIAL, past);
    var t := Next(s, DataStep(p));
    StepKeepsSound(s, DataStep(p));
    assert t == s.(data := Idle, cancelReq := 0, responses := s.responses + [NoResponse]);
    if WillRaise(s.control) {
      RaisesLater(t);
    } else {
      forall later | NoCancel(later)
        ensures RunFrom(t, later).cancelReq == 0
      {
        CalmRun(t, later);
      }
    }
  }

  // --- Runs step by step ---

  lemma {:induction false} RunJoins(s: State, a: seq<Action>, b: seq<Action>)
    ensures RunFrom(s, a + b) == RunFrom(RunFrom(s, a), b)
  {
    hide Next;
    if b == [] {
      assert a + b == a;
    } else {
      RunJoins(s, a, b[..|b| - 1]);
      assert (a + b)[..|a + b| - 1] == a + b[..|b| - 1];
    }
  }

  lemma RunThree(s: State, a: Action, b: Action, c: Action)
    ensures RunFrom(s, [a, b, c]) == Next(Next(Next(s, a), b), c)
  {
    hide Next;
    assert [a, b, c][..2] == [a, b] && [a, b][..1] == [a] && [a][..0] == [];
    assert RunFrom(s, []) == s && RunFrom(s, [a]) == Next(s, a) && RunFrom(s, [a, b]) == Next(Next(s, a), b);
  }

  const STEP: Action := ControlStep(true)
  const DATA: Action := DataStep(Full)
  const GRANTED: State := INITIAL.(data := Looping(true), transferring := true, cancelReq := 2, accepted := 1)
  const ACKNOWLEDGED: State := GRANTED.(cancelReq := 1, busyReplies := 1, statusReplies := 1)
  const WITHDRAWN: State := ACKNOWLEDGED.(cancelReq := 0, statusReplies := 2, transferring := false, data := Testing)

  lemma CancelGranted()
    ensures RunFrom(INITIAL, [StartTransfer(true), Receive(Cancel), STEP] + [STEP, STEP, STEP]) == GRANTED
  {
    RunJoins(INITIAL, [StartTransfer(true), Receive(Cancel), STEP], [STEP, STEP, STEP]);
    RunThree(INITIAL, StartTransfer(true), Receive(Cancel), STEP);
    RunThree(INITIAL.(data := Looping(true), transferring := true, control := CancelTest(Cancel)), STEP, STEP, STEP);
  }

  lemma CancelAcknowledged()
    ensures RunFrom(GRANTED, [Receive(GetDeviceStatus), STEP, STEP] + [STEP, STEP, STEP]) == ACKNOWLEDGED
  {
    RunJoins(GRANTED, [Receive(GetDeviceStatus), STEP, STEP], [STEP, STEP, STEP]);
    RunThree(GRANTED, Receive(GetDeviceStatus), STEP, STEP);
    RunThree(GRANTED.(control := BusyTest), STEP, STEP, STEP);
  }

  lemma CancelWithdrawn()
    ensures RunFrom(ACKNOWLEDGED, [DATA, DATA, Receive(GetDeviceStatus)] + [STEP, STEP, STEP]) ==
            WITHDRAWN.(control := OkReply, statusReplies := 1)
  {
    RunJoins(ACKNOWLEDGED, [DATA, DATA, Receive(GetDeviceStatus)], [STEP, STEP, STEP]);
    RunThree(ACKNOWLEDGED, DATA, DATA, Receive(GetDeviceStatus));
    RunThree(ACKNOWLEDGED.(data := Testing, transferring := false, control := StatusTest), STEP, STEP, STEP);
  }

  /** Two status replies, the second between the end of the data and the data thread's test, withdraw a granted cancel: the
      cancelled transfer is answered OK. */
  lemma CancelledTransferCanAnswerOk()
    ensures exists actions :: RunFrom(INITIAL, actions).accepted == 1 && RunFrom(INITIAL, actions).responses == [Ok]
  {
    var a := [StartTransfer(true), Receive(Cancel), STEP] + [STEP, STEP, STEP];
    var b := [Receive(GetDeviceStatus), STEP, STEP] + [STEP, STEP, STEP];
    var c := [DATA, DATA, Receive(GetDeviceStatus)] + [STEP, STEP, STEP];
    var d := [STEP, DATA, DATA];
    CancelGranted();
    CancelAcknowledged();
    CancelWithdrawn();
    RunJoins(INITIAL, a, b);
    RunJoins(INITIAL, a + b, c);
    RunJoins(INITIAL, a + b + c, d);
    RunThree(WITHDRAWN.(control := OkReply, statusReplies := 1), STEP, DATA, DATA);
    hide RunFrom;
    assert RunFrom(INITIAL, a + b + c + d).responses == [Ok];
  }

  /** The data thread does not take the mutex: it can answer a cancel between the control thread's test and write of a busy
      reply, and the answered request comes back. */
  lemma AnsweredRequestCanComeBack()
    ensures exists actions ::
              var s := RunFrom(INITIAL, actions);
              s.accepted == 1 && s.responses == [NoResponse] && s.data == Idle && s.control == Ready && s.cancelReq == 1
  {
    var a := [StartTransfer(true), Receive(Cancel), STEP] + [STEP, STEP, STEP];
    var b := [DATA, DATA, DATA] + [Receive(GetDeviceStatus), STEP, STEP];
    var c := [STEP, DATA, STEP] + [STEP];
    CancelGranted();
    CancelBeingAnswered();
    CancelComesBack();
    RunJoins(INITIAL, a, b);
    RunJoins(INITIAL, a + b, c);
    hide RunFrom;
    assert RunFrom(INITIAL, a + b + c).cancelReq == 1;
  }

  const ANSWERING: State := GRANTED.(data := Resetting, transferring := false, control := BusyTest)

  lemma CancelBeingAnswered()
    ensures RunFrom(GRANTED, [DATA, DATA, DATA] + [Receive(GetDeviceStatus), STEP, STEP]) == ANSWERING
  {
    RunJoins(GRANTED, [DATA, DATA, DATA], [Receive(GetDeviceStatus), STEP, STEP]);
    RunThree(GRANTED, DATA, DATA, DATA);
    RunThree(GRANTED.(data := Resetting, transferring := false), Receive(GetDeviceStatus), STEP, STEP);
  }

  lemma CancelComesBack()
    ensures RunFrom(ANSWERING, [STEP, DATA, STEP] + [STEP]) ==
            ANSWERING.(control := Ready, data := Idle, cancelReq := 1, responses := [NoResponse], busyReplies := 1, statusReplies := 1)
  {
    RunJoins(ANSWERING, [STEP, DATA, STEP], [STEP]);
    RunThree(ANSWERING, STEP, DATA, STEP);
    RunOne(RunFrom(ANSWERING, [STEP, DATA, STEP]), STEP);
  }

  lemma RunOne(s: State, a: Action)
    ensures RunFrom(s, [a]) == Next(s, a)
  {
    assert [a][..0] == [];
  }
}
