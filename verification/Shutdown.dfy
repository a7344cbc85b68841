/** Bringing the interface up and down while a receive task and a work-queue job use its socket.
    Every step below is one indivisible action of one of the three; the network lock is a step-level
    mutex.  Sends happen inside the states that hold it. */
module Shutdown {

  datatype Owner = Free | ByRx | ByWork | ByControl

  /** wg_rx_task: Gone is also the state before the first task. */
  datatype Rx = Gone | Check | Poll | Receive | WantPacket | Packet | WantTimers | Timers | Leaving

  /** wg_txavail_work on the work-queue thread. */
  datatype Work = NoJob | WantLock | Test | Send

  /** Whoever runs wg_initialize and wg_down. */
  datatype Control =
    | Idle
    // wg_initialize
    | Begin | Clear | OpenSocket | Bind | BindFailed | Register | RegisterFailed
    | Announce | Spawn | SpawnFailed | WantUp | Up | Enable
    // wg_down
    | Ask | Wait(polls: nat) | Decide | GiveUp | Cancel | WantDown | Down | Unregister | Close | Wipe | Disable

  datatype Net = Net(
    open: bool,        // the UDP socket
    known: bool,       // the network device is registered with the stack
    registered: bool,
    running: bool,
    rxDone: bool,
    ifUp: bool)

  datatype State = State(
    net: Net,
    lock: Owner,
    rx: Rx,
    queued: bool,      // a transmit job waits in the work queue
    work: Work,
    control: Control,
    maxPolls: nat)     // how often wg_down looks before it gives up

  datatype Event =
    | RxTurn(data: bool)     // data: psock_recvfrom returned a datagram
    | WorkTurn
    | TxAvail                // any sender: queue the transmit job
    | CallUp | CallDown
    | ControlTurn(ok: bool)  // ok: the system call of this step succeeded
    | IfConfig(up: bool)     // the interface flag changed by someone else

  function Initial(maxPolls: nat): State {
    State(Net(false, false, false, false, false, false), Free, Gone, false, NoJob, Idle, maxPolls)
  }

  // ---- steps; the turn of a blocked actor changes nothing ----

  function RxStep(s: State, data: bool): State {
    match s.rx
    case Gone => s
    case Check => s.(rx := if s.net.running then Poll else Leaving)
    case Poll => s.(rx := Receive)
    case Receive => s.(rx := if data then WantPacket else WantTimers)
    case WantPacket => if s.lock == Free then s.(lock := ByRx, rx := Packet) else s
    case Packet => s.(lock := Free, rx := Receive)
    case WantTimers => if s.lock == Free then s.(lock := ByRx, rx := Timers) else s
    case Timers => s.(lock := Free, rx := Check)
    case Leaving => s.(net := s.net.(rxDone := true), rx := Gone)
  }

  function WorkStep(s: State): State {
    match s.work
    case NoJob => if s.queued then s.(queued := false, work := WantLock) else s
    case WantLock => if s.lock == Free then s.(lock := ByWork, work := Test) else s
    case Test => if s.net.ifUp then s.(work := Send) else s.(lock := Free, work := NoJob)
    case Send => s.(lock := Free, work := NoJob)
  }

  function UpStep(s: State, ok: bool): State
    requires !s.control.Idle?
  {
    match s.control
    case Begin => if s.net.registered || !ok then s.(control := Idle) else s.(control := Clear)
    case Clear =>
      s.(net := s.net.(running := false, rxDone := false, ifUp := false, registered := false), control := OpenSocket)
    case OpenSocket => if ok then s.(net := s.net.(open := true), control := Bind) else s.(control := Idle)
    case Bind => if ok then s.(control := Register) else s.(control := BindFailed)
    case BindFailed => s.(net := s.net.(open := false), control := Idle)
    case Register =>
      if ok then s.(net := s.net.(known := true), control := Announce) else s.(control := RegisterFailed)
    case RegisterFailed => s.(net := s.net.(open := false), control := Idle)
    case Announce => s.(net := s.net.(running := true), control := Spawn)
    case Spawn =>
      if ok then s.(rx := Check, control := WantUp) else s.(net := s.net.(known := false), control := SpawnFailed)
    case SpawnFailed => s.(net := s.net.(open := false), control := Idle)
    case WantUp => if s.lock == Free then s.(lock := ByControl, control := Up) else s
    case Up => s.(net := s.net.(ifUp := true), lock := Free, control := Enable)
    case Enable => s.(net := s.net.(registered := true), control := Idle)
    case _ => s
  }

  function DownStep(s: State): State
    requires !s.control.Idle?
  {
    match s.control
    case Ask =>
      if s.net.registered then s.(net := s.net.(running := false), control := Wait(0)) else s.(control := Idle)
    case Wait(i) => if i == s.maxPolls || s.net.rxDone then s.(control := Decide) else s.(control := Wait(i + 1))
    case Decide => if s.net.rxDone then s.(control := Cancel) else s.(control := GiveUp)
    case GiveUp => s.(net := s.net.(running := true), control := Idle)
    case Cancel => s.(queued := false, control := WantDown)
    case WantDown => if s.lock == Free then s.(lock := ByControl, control := Down) else s
    case Down => s.(net := s.net.(ifUp := false), lock := Free, control := Unregister)
    case Unregister => s.(net := s.net.(known := false), control := Close)
    case Close => s.(net := s.net.(open := false), control := Wipe)
    case Wipe => s.(control := Disable)
    case Disable => s.(net := s.net.(registered := false), control := Idle)
    case _ => s
  }

  predicate GoingDown(c: Control) {
    || c.Ask? || c.Wait? || c.Decide? || c.GiveUp? || c.Cancel? || c.WantDown? || c.Down? || c.Unregister?
    || c.Close? || c.Wipe? || c.Disable?
  }

  function Step(s: State, e: Event): State {
    match e
    case RxTurn(data) => RxStep(s, data)
    case WorkTurn => WorkStep(s)
    case TxAvail => if s.net.known then s.(queued := true) else s
    case CallUp => if s.control.Idle? then s.(control := Begin) else s
    case CallDown => if s.control.Idle? then s.(control := Ask) else s
    case ControlTurn(ok) =>
      if s.control.Idle? then s else if GoingDown(s.control) then DownStep(s) else UpStep(s, ok)
    case IfConfig(up) => if s.net.known && s.lock == Free then s.(net := s.net.(ifUp := up)) else s
  }

  function Run(s: State, es: seq<Event>): State
    decreases |es|
  {
    if es == [] then s else Run(Step(s, es[0]), es[1..])
  }

  // ---- what must never happen ----

  /** The next action of the receive task or the transmit job touches the socket. */
  predicate UsesSocket(s: State) {
    s.rx.Poll? || s.rx.Receive? || s.rx.Packet? || s.rx.Timers? || s.work.Send?
  }

  /** The states whose next action closes the socket. */
  predicate AboutToClose(s: State) {
    s.control.Close? || s.control.BindFailed? || s.control.RegisterFailed? || s.control.SpawnFailed?
  }

  /** The socket is only used while open, and closed only after the receive loop has ended and with
      the interface down; keys are wiped with nobody left to use them. */
  predicate Safe(s: State) {
    && (UsesSocket(s) ==> s.net.open)
    && (AboutToClose(s) || s.control.Wipe? ==> s.rx.Gone? && !s.net.ifUp && !s.work.Send?)
  }

  /** What the invariant rules out: the socket is used and is not open. */
  predicate OnClosed(s: State) { UsesSocket(s) && !s.net.open }

  /** Setting the interface flag here, from outside, can outlive the socket. */
  predicate TooLateForUp(s: State) {
    s.net.known && s.lock == Free && (s.control.Unregister? || s.control.Announce? || s.control.Spawn?)
  }

  /** Nobody else brings the interface up in the two windows around unregistering. */
  predicate NoLateUp(s: State, es: seq<Event>)
    decreases |es|
  {
    es == [] || (!(es[0] == IfConfig(true) && TooLateForUp(s)) && NoLateUp(Step(s, es[0]), es[1..]))
  }

  // ---- the invariant ----

  predicate RxHolds(rx: Rx) { rx.Packet? || rx.Timers? }
  predicate WorkHolds(work: Work) { work.Test? || work.Send? }
  predicate ControlHolds(c: Control) { c.Up? || c.Down? }

  predicate LockHeld(s: State) {
    && (s.lock == ByRx <==> RxHolds(s.rx))
    && (s.lock == ByWork <==> WorkHolds(s.work))
    && (s.lock == ByControl <==> ControlHolds(s.control))
  }

  /** Down to nothing: no task, no socket, no device. */
  predicate Off(s: State) { !s.net.open && !s.net.known && !s.net.ifUp && s.rx.Gone? && !s.net.registered }

  /** A socket with nobody on it yet. */
  predicate Raw(s: State) { s.net.open && !s.net.ifUp && s.rx.Gone? && !s.net.registered && !s.net.rxDone }

  predicate On(s: State) { s.net.open && s.net.known && s.net.registered && (s.rx.Gone? ==> s.net.rxDone) }

  /** The receive task is at work, the interface not yet up. */
  predicate Spawned(s: State) {
    s.net.open && s.net.known && s.net.running && !s.net.registered && !s.rx.Gone? && !s.rx.Leaving?
  }

  predicate Placed(s: State) {
    match s.control
    case Idle => if s.net.registered then On(s) && s.net.running else Off(s)
    case Begin => if s.net.registered then On(s) && s.net.running else Off(s)
    case Clear => Off(s)
    case OpenSocket => Off(s) && !s.net.rxDone
    case Bind => Raw(s) && !s.net.known
    case BindFailed => Raw(s) && !s.net.known
    case Register => Raw(s) && !s.net.known
    case RegisterFailed => Raw(s) && !s.net.known
    case Announce => Raw(s) && s.net.known
    case Spawn => Raw(s) && s.net.known && s.net.running
    case SpawnFailed => Raw(s) && !s.net.known
    case WantUp => Spawned(s)
    case Up => Spawned(s)
    case Enable => Spawned(s)
    case Ask => if s.net.registered then On(s) else Off(s)
    case Wait(i) => On(s) && !s.net.running && i <= s.maxPolls
    case Decide => On(s) && !s.net.running
    case GiveUp => On(s) && !s.net.running
    case Cancel => On(s) && s.net.rxDone
    case WantDown => On(s) && s.net.rxDone
    case Down => On(s) && s.net.rxDone
    case Unregister => On(s) && s.net.rxDone && !s.net.ifUp
    case Close => s.net.open && !s.net.known && s.net.registered && s.net.rxDone && !s.net.ifUp
    case Wipe => !s.net.open && !s.net.known && s.net.registered && s.net.rxDone && !s.net.ifUp
    case Disable => !s.net.open && !s.net.known && s.net.registered && s.net.rxDone && !s.net.ifUp
  }

  predicate Inv(s: State) {
    && LockHeld(s) && Placed(s)
    && (s.net.rxDone ==> s.rx.Gone?)
    && (!s.rx.Gone? ==> s.net.open)
    && (s.net.ifUp ==> s.net.open)
    && (s.work.Send? ==> s.net.ifUp)
  }

  lemma InitialInv(maxPolls: nat)
    ensures Inv(Initial(maxPolls))
  {
  }

  lemma InvIsSafe(s: State)
    requires Inv(s)
    ensures Safe(s)
  {
  }

  /** Where the control task stands does not depend on the lock, the queue or the transmit job. */
  lemma PlacedAside(s: State, s': State)
    requires Placed(s) && s'.net == s.net && s'.control == s.control && s'.maxPolls == s.maxPolls
    requires (s'.rx.Gone? <==> s.rx.Gone?) && (s'.rx.Leaving? ==> s.rx.Leaving? || !s.net.running)
    ensures Placed(s')
  {
  }

  lemma PlacedGone(s: State, s': State)
    requires Placed(s) && s.rx.Leaving? && s'.net == s.net.(rxDone := true) && s'.rx.Gone?
    requires s'.control == s.control && s'.maxPolls == s.maxPolls
    ensures Placed(s')
  {
  }

  lemma RxKeeps(s: State, data: bool)
    requires Inv(s)
    ensures Inv(RxStep(s, data))
  {
    RxPlaced(s, data);
    RxLocks(s, data);
    hide Placed, LockHeld;
  }

  lemma {:induction false} RxPlaced(s: State, data: bool)
    requires Placed(s)
    ensures Placed(RxStep(s, data))
  {
    hide Placed;
    var s' := RxStep(s, data);
    if s.rx.Leaving? {
      PlacedGone(s, s');
    } else {
      PlacedAside(s, s');
    }
  }

  lemma {:induction false} RxLocks(s: State, data: bool)
    requires LockHeld(s)
    ensures LockHeld(RxStep(s, data))
  {
    hide WorkHolds, ControlHolds;
  }

  lemma {:induction false} WorkKeeps(s: State)
    requires Inv(s)
    ensures Inv(WorkStep(s))
  {
    hide Placed;
    PlacedAside(s, WorkStep(s));
  }

  lemma UpKeeps(s: State, ok: bool)
    requires Inv(s) && !s.control.Idle? && !GoingDown(s.control)
    ensures Inv(UpStep(s, ok))
  {
    UpPlaced(s, ok);
    hide Placed, RxHolds, WorkHolds;
  }

  lemma UpPlaced(s: State, ok: bool)
    requires Inv(s) && !s.control.Idle? && !GoingDown(s.control)
    ensures Placed(UpStep(s, ok))
  {
    hide LockHeld;
  }

  lemma DownKeeps(s: State)
    requires Inv(s) && GoingDown(s.control)
    ensures Inv(DownStep(s))
  {
    if s.control.Ask? || s.control.Wait? || s.control.Decide? || s.control.GiveUp? {
      WaitingPlaced(s);
    } else {
      LeavingPlaced(s);
    }
    hide Placed, RxHolds, WorkHolds;
  }

  /** Up to the decision nothing but running is touched. */
  lemma WaitingPlaced(s: State)
    requires Placed(s) && (s.control.Ask? || s.control.Wait? || s.control.Decide? || s.control.GiveUp?)
    ensures Placed(DownStep(s))
    ensures DownStep(s).net == s.net.(running := DownStep(s).net.running)
  {
    hide Raw;
  }

  /** After it everything is taken apart, with nobody left to use it. */
  lemma LeavingPlaced(s: State)
    requires Inv(s) && GoingDown(s.control)
    requires !s.control.Ask? && !s.control.Wait? && !s.control.Decide? && !s.control.GiveUp?
    ensures Placed(DownStep(s))
    ensures DownStep(s).net.ifUp ==> s.net.ifUp && DownStep(s).net.open
    ensures s.work.Send? ==> DownStep(s).net.ifUp
    ensures DownStep(s).net.rxDone == s.net.rxDone
  {
  }

  /** Only the flag set from outside in a late window can break the invariant. */
  lemma StepKeeps(s: State, e: Event)
    requires Inv(s) && !(e == IfConfig(true) && TooLateForUp(s))
    ensures Inv(Step(s, e))
  {
    match e
    case RxTurn(data) => RxKeeps(s, data);
    case WorkTurn => WorkKeeps(s);
    case ControlTurn(ok) =>
      if GoingDown(s.control) {
        DownKeeps(s);
      } else if !s.control.Idle? {
        UpKeeps(s, ok);
      }
    case _ =>
  }

  /** Safety of every interleaving, any number of ups, downs, timeouts and retries. */
  lemma {:induction false} EveryRunIsSafe(s: State, es: seq<Event>)
    requires Inv(s) && NoLateUp(s, es)
    ensures Inv(Run(s, es)) && Safe(Run(s, es))
    decreases |es|
  {
    if es == [] {
      InvIsSafe(s);
    } else {
      StepKeeps(s, es[0]);
      EveryRunIsSafe(Step(s, es[0]), es[1..]);
    }
  }

  /** wg_down reports success only over a closed socket, an interface that is down and no task. */
  lemma DownLeavesNothing(s: State, e: Event)
    requires Inv(s) && s.control.Disable? && e.ControlTurn?
    ensures Off(Step(s, e)) && !UsesSocket(Step(s, e)) && Step(s, e).control.Idle?
  {
  }

  /** A transmit job that is still queued when the socket goes away finds the interface down. */
  lemma LateJobDoesNothing(s: State, es: seq<Event>)
    requires Inv(s) && s.control.Idle? && !s.net.registered
    requires forall i :: 0 <= i < |es| ==> es[i] == WorkTurn || es[i] == TxAvail
    ensures !UsesSocket(Run(s, es)) && !Run(s, es).net.open
    decreases |es|
  {
    if es != [] {
      StepKeeps(s, es[0]);
      LateJobDoesNothing(Step(s, es[0]), es[1..]);
    }
  }

  // ---- the windows are real ----

  /** One more event at the end of a run. */
  lemma {:induction false} RunThen(s: State, es: seq<Event>, e: Event)
    ensures Run(s, es + [e]) == Step(Run(s, es), e)
    decreases |es|
  {
    hide Step;
    if es == [] {
      assert Run(s, [e]) == Run(Step(s, e), []);
    } else {
      assert (es + [e])[1..] == es[1..] + [e];
      RunThen(Step(s, es[0]), es[1..], e);
    }
  }

  lemma {:induction false} RunAppend(s: State, a: seq<Event>, b: seq<Event>)
    ensures Run(s, a + b) == Run(Run(s, a), b)
    decreases |a|
  {
    hide Step;
    if a == [] {
      assert a + b == b;
    } else {
      assert (a + b)[1..] == a[1..] + b;
      RunAppend(Step(s, a[0]), a[1..], b);
    }
  }

  /** More events from nobody outside: the run goes on and stays free of late flags. */
  lemma {:induction false} More(s0: State, es: seq<Event>, s: State, e: Event) returns (es': seq<Event>, s': State)
    requires Run(s0, es) == s && NoLateUp(s0, es) && !e.IfConfig?
    ensures es' == es + [e] && s' == Step(s, e) && Run(s0, es') == s' && NoLateUp(s0, es')
  {
    hide Step;
    es', s' := es + [e], Step(s, e);
    RunThen(s0, es, e);
    NoLateThen(s0, es, e);
  }

  lemma {:induction false} NoLateThen(s: State, es: seq<Event>, e: Event)
    requires NoLateUp(s, es) && !e.IfConfig?
    ensures NoLateUp(s, es + [e])
    decreases |es|
  {
    hide Step;
    if es == [] {
      assert NoLateUp(Step(s, e), []);
    } else {
      assert (es + [e])[1..] == es[1..] + [e];
      NoLateThen(Step(s, es[0]), es[1..], e);
    }
  }

  /** The control task unregisters the device and closes the socket, the flag still set. */
  lemma ClosesUnderneath(s0: State) returns (es: seq<Event>, t: State)
    requires s0.net.known && s0.lock == Free && s0.net.ifUp
    requires s0.control.Unregister? || s0.control.Announce? || s0.control.Spawn?
    ensures Run(s0, es) == t && NoLateUp(s0, es)
    ensures !t.net.open && t.net.ifUp && t.lock == Free && t.queued && t.work == s0.work
  {
    hide Run, NoLateUp;
    NoEvents(s0);
    es, t := More(s0, [], s0, TxAvail);
    if t.control.Announce? {
      es, t := More(s0, es, t, ControlTurn(true));
    }
    assert t.net.ifUp && t.lock == Free && t.queued && t.work == s0.work;
    assert t.control.Unregister? || t.control.Spawn?;
    es, t := More(s0, es, t, ControlTurn(false));
    assert t.net.ifUp && t.lock == Free && t.queued && t.work == s0.work;
    assert t.control.Close? || t.control.SpawnFailed?;
    es, t := More(s0, es, t, ControlTurn(true));
  }

  /** From a state in a late window, with the flag now set, to a send on the closed socket. */
  lemma SendsOnClosed(s: State) returns (es: seq<Event>)
    requires Inv(s) && TooLateForUp(s)
    ensures NoLateUp(Step(s, IfConfig(true)), es)
    ensures OnClosed(Run(Step(s, IfConfig(true)), es)) && !Safe(Run(Step(s, IfConfig(true)), es))
  {
    hide Run, NoLateUp, Placed;
    var s0 := s.(net := s.net.(ifUp := true));
    assert s0 == Step(s, IfConfig(true)) && (s0.work.NoJob? || s0.work.WantLock?);
    var t;
    es, t := ClosesUnderneath(s0);
    if t.work.NoJob? {
      es, t := More(s0, es, t, WorkTurn);
    }
    assert !t.net.open && t.net.ifUp && t.lock == Free && t.work.WantLock?;
    es, t := More(s0, es, t, WorkTurn);
    es, t := More(s0, es, t, WorkTurn);
    assert t.work.Send? && !t.net.open;
  }

  lemma NoEvents(s: State)
    ensures Run(s, []) == s && NoLateUp(s, [])
  {
  }

  /** A state in a late window and a run of the program that leads there, with no late flag before. */
  predicate Reaches(maxPolls: nat, es: seq<Event>, s: State) {
    Run(Initial(maxPolls), es) == s && NoLateUp(Initial(maxPolls), es) && TooLateForUp(s)
  }

  /** From a late window that the program reaches, one flag from outside leads to a send on the closed socket. */
  lemma OneFlagSuffices(maxPolls: nat, es: seq<Event>, s: State) returns (post: seq<Event>)
    requires Reaches(maxPolls, es, s)
    ensures NoLateUp(Step(s, IfConfig(true)), post)
    ensures OnClosed(Run(Initial(maxPolls), es + ([IfConfig(true)] + post)))
  {
    InitialInv(maxPolls);
    hide Inv, Step, Safe, OnClosed, TooLateForUp, NoLateUp;
    EveryRunIsSafe(Initial(maxPolls), es);
    post := SendsOnClosed(s);
    RunAppend(Initial(maxPolls), es, [IfConfig(true)] + post);
    assert ([IfConfig(true)] + post)[1..] == post;
  }

  /** An interface flag set from outside is harmless in exactly the states that are not too late. */
  lemma ExactlyTheWindows(s: State)
    requires Inv(s)
    ensures (forall es :: NoLateUp(Step(s, IfConfig(true)), es) ==> Safe(Run(Step(s, IfConfig(true)), es)))
            <==> !TooLateForUp(s)
  {
    hide Safe;
    if TooLateForUp(s) {
      var es := SendsOnClosed(s);
    } else {
      var s' := Step(s, IfConfig(true));
      StepKeeps(s, IfConfig(true));
      forall es | NoLateUp(s', es) ensures Safe(Run(s', es)) {
        EveryRunIsSafe(s', es);
      }
    }
  }

  // ---- the timeout of wg_down ----

  /** The receive task is there and will keep going. */
  predicate Serving(s: State) { s.net.running && !s.rx.Gone? && !s.rx.Leaving? }

  predicate LeftUp(s: State) {
    s.net.open && s.net.known && s.net.registered && s.net.running && (s.control.Idle? || s.control.Begin?)
  }

  predicate NoDown(es: seq<Event>) { forall i :: 0 <= i < |es| ==> !es[i].CallDown? }

  /** The store at the end of the wait: the interface is left up, and served by whatever is left of the receive
      task. */
  lemma StoreLeavesUp(s: State, ok: bool)
    requires Inv(s) && s.control.GiveUp?
    ensures LeftUp(Step(s, ControlTurn(ok))) && Inv(Step(s, ControlTurn(ok)))
    ensures Serving(Step(s, ControlTurn(ok))) <==> !Lost(s)
  {
    DownKeeps(s);
    hide Inv;
    assert On(s) by { Parts(s); }
  }

  lemma Parts(s: State)
    requires Inv(s) && InWait(s)
    ensures On(s) && !s.net.running && !TooLateForUp(s)
  {
  }

  predicate InWait(s: State) { s.control.Wait? || s.control.Decide? || s.control.GiveUp? }

  /** The receive loop has been left. */
  predicate Lost(s: State) { s.rx.Gone? || s.rx.Leaving? }

  /** wg_down has not come to the store, or to taking the interface down. */
  predicate StaysInWait(s: State, es: seq<Event>)
    decreases |es|
  {
    InWait(s) && (es == [] || StaysInWait(Step(s, es[0]), es[1..]))
  }

  /** The receive task looks at running in the course of these events. */
  predicate Looks(s: State, es: seq<Event>) {
    exists i :: 0 <= i < |es| && LooksAt(s, es, i)
  }

  predicate LooksAt(s: State, es: seq<Event>, i: nat)
    requires i < |es|
  {
    es[i].RxTurn? && Run(s, es[..i]).rx.Check?
  }

  lemma LooksFirst(s: State, es: seq<Event>)
    requires es != []
    ensures Looks(s, es) <==> (es[0].RxTurn? && s.rx.Check?) || Looks(Step(s, es[0]), es[1..])
  {
    hide Step;
    assert LooksAt(s, es, 0) == (es[0].RxTurn? && s.rx.Check?) by { assert es[..0] == []; }
    forall i | 0 < i < |es| ensures LooksAt(s, es, i) == LooksAt(Step(s, es[0]), es[1..], i - 1) {
      assert es[..i][1..] == es[1..][..i - 1];
    }
    if Looks(Step(s, es[0]), es[1..]) {
      var j :| 0 <= j < |es[1..]| && LooksAt(Step(s, es[0]), es[1..], j);
      assert LooksAt(s, es, j + 1);
    }
  }

  lemma WaitStep(s: State, e: Event)
    requires Inv(s) && InWait(s) && InWait(Step(s, e))
    ensures Inv(Step(s, e)) && (Lost(Step(s, e)) <==> Lost(s) || (e.RxTurn? && s.rx.Check?))
  {
    Parts(s);
    StepKeeps(s, e);
    hide Inv, Placed, LockHeld;
  }

  /** While wg_down waits, the task is lost exactly if it looks at running, and never found again. */
  lemma {:induction false} LostIfItLooks(s: State, es: seq<Event>)
    requires Inv(s) && StaysInWait(s, es)
    ensures Inv(Run(s, es)) && InWait(Run(s, es))
    ensures Lost(Run(s, es)) <==> Lost(s) || Looks(s, es)
    decreases |es|
  {
    hide Inv, Step, Lost, Looks;
    if es == [] {
      NoLooks(s);
    } else {
      WaitStep(s, es[0]);
      LooksFirst(s, es);
      LostIfItLooks(Step(s, es[0]), es[1..]);
    }
  }

  lemma NoLooks(s: State)
    ensures !Looks(s, [])
  {
  }

  /** Until the next wg_down nothing changes about that: a task that was leaving is not replaced. */
  lemma {:induction false} ServingIsSettled(s: State, es: seq<Event>)
    requires Inv(s) && LeftUp(s) && NoDown(es) && NoLateUp(s, es)
    ensures LeftUp(Run(s, es)) && (Serving(Run(s, es)) <==> Serving(s))
    decreases |es|
  {
    if es != [] {
      ServingStep(s, es[0]);
      StepKeeps(s, es[0]);
      ServingIsSettled(Step(s, es[0]), es[1..]);
    }
  }

  lemma ServingStep(s: State, e: Event)
    requires Inv(s) && LeftUp(s) && !e.CallDown?
    ensures LeftUp(Step(s, e)) && (Serving(Step(s, e)) <==> Serving(s))
  {
  }

  /** A wg_down that times out, from the wait to whatever happens before the next one: the interface is left up,
      and it is served exactly if the receive task did not look at running while wg_down waited. */
  lemma TimeoutOutcome(s: State, wait: seq<Event>, ok: bool, after: seq<Event>)
    requires Inv(s) && s.control.Wait? && !Lost(s) && StaysInWait(s, wait) && Run(s, wait).control.GiveUp?
    requires NoDown(after) && NoLateUp(Step(Run(s, wait), ControlTurn(ok)), after)
    ensures var t := Run(s, wait + ([ControlTurn(ok)] + after));
            LeftUp(t) && (Serving(t) <==> !Looks(s, wait))
  {
    var u := Run(s, wait);
    hide Inv, Step, Lost, Looks, LeftUp, Serving, StaysInWait, NoDown, NoLateUp;
    LostIfItLooks(s, wait);
    StoreLeavesUp(u, ok);
    ServingIsSettled(Step(u, ControlTurn(ok)), after);
    RunAppend(s, wait, [ControlTurn(ok)] + after);
    assert ([ControlTurn(ok)] + after)[1..] == after;
  }

  /** wg_initialize with every call succeeding, up to the registration of the device. */
  lemma Registers(maxPolls: nat) returns (es: seq<Event>, s: State)
    ensures s == State(Net(true, true, false, false, false, false), Free, Gone, false, NoJob, Announce, maxPolls)
    ensures s == Run(Initial(maxPolls), es) && NoLateUp(Initial(maxPolls), es)
  {
    hide Run, NoLateUp;
    var s0 := Initial(maxPolls);
    es, s := [], s0;
    NoEvents(s0);
    es, s := More(s0, es, s, CallUp);
    es, s := More(s0, es, s, ControlTurn(true));
    es, s := More(s0, es, s, ControlTurn(true));
    assert s == s0.(control := OpenSocket);
    es, s := More(s0, es, s, ControlTurn(true));
    es, s := More(s0, es, s, ControlTurn(true));
    assert s == s0.(net := s0.net.(open := true), control := Register);
    es, s := More(s0, es, s, ControlTurn(true));
  }

  lemma ComesUp(maxPolls: nat) returns (es: seq<Event>, s: State)
    ensures s == State(Net(true, true, true, true, false, true), Free, Check, false, NoJob, Idle, maxPolls)
    ensures s == Run(Initial(maxPolls), es) && NoLateUp(Initial(maxPolls), es)
  {
    hide Run, NoLateUp;
    var s0 := Initial(maxPolls);
    es, s := Registers(maxPolls);
    es, s := More(s0, es, s, ControlTurn(true));
    es, s := More(s0, es, s, ControlTurn(true));
    es, s := More(s0, es, s, ControlTurn(true));
    assert s == State(Net(true, true, false, true, false, false), ByControl, Check, false, NoJob, Up, maxPolls);
    es, s := More(s0, es, s, ControlTurn(true));
    es, s := More(s0, es, s, ControlTurn(true));
  }

  /** wg_down with the receive task stopping at once, up to the interface being down. */
  lemma TakenDown(maxPolls: nat) returns (es: seq<Event>, s: State)
    ensures s == State(Net(true, true, true, false, true, false), Free, Gone, false, NoJob, Unregister, maxPolls)
    ensures s == Run(Initial(maxPolls), es) && NoLateUp(Initial(maxPolls), es)
  {
    hide Run, NoLateUp;
    var s0 := Initial(maxPolls);
    es, s := ComesUp(maxPolls);
    es, s := More(s0, es, s, CallDown);
    es, s := More(s0, es, s, ControlTurn(true));
    es, s := More(s0, es, s, RxTurn(false));
    es, s := More(s0, es, s, RxTurn(false));
    assert s == State(Net(true, true, true, false, true, true), Free, Gone, false, NoJob, Wait(0), maxPolls);
    es, s := More(s0, es, s, ControlTurn(true));
    es, s := More(s0, es, s, ControlTurn(true));
    es, s := More(s0, es, s, ControlTurn(true));
    es, s := More(s0, es, s, ControlTurn(true));
    es, s := More(s0, es, s, ControlTurn(true));
  }

  predicate Enters(maxPolls: nat, es: seq<Event>, c: Control) {
    var s := Run(Initial(maxPolls), es);
    s.control == c && Reaches(maxPolls, es, s)
  }

  /** Each of the windows is reached from the start: between registering the device and a task creation that
      fails, and between ifdown and unregistering. */
  lemma WindowsAreReached(maxPolls: nat) returns (announce: seq<Event>, spawn: seq<Event>, unregister: seq<Event>)
    ensures Enters(maxPolls, announce, Announce)
    ensures Enters(maxPolls, spawn, Spawn)
    ensures Enters(maxPolls, unregister, Unregister)
  {
    hide Run, NoLateUp;
    var s0 := Initial(maxPolls);
    var s;
    announce, s := Registers(maxPolls);
    spawn, s := More(s0, announce, s, ControlTurn(true));
    unregister, s := TakenDown(maxPolls);
  }

  /** The run pre from the start, with no flag set in a window, ends in the window c; one flag set then, and
      events post without another, make it send on the closed socket. */
  ghost predicate BreaksSafety(maxPolls: nat, c: Control, pre: seq<Event>, post: seq<Event>) {
    var s := Run(Initial(maxPolls), pre);
    && s.control == c && NoLateUp(Initial(maxPolls), pre) && NoLateUp(Step(s, IfConfig(true)), post)
    && OnClosed(Run(Initial(maxPolls), pre + ([IfConfig(true)] + post)))
  }

  /** So for each of them there is a run of the program that sends on the closed socket. */
  lemma EachWindowBreaksSafety(maxPolls: nat, c: Control) returns (pre: seq<Event>, post: seq<Event>)
    requires c.Announce? || c.Spawn? || c.Unregister?
    ensures BreaksSafety(maxPolls, c, pre, post)
  {
    hide OnClosed, TooLateForUp, Run, NoLateUp;
    var announce, spawn, unregister := WindowsAreReached(maxPolls);
    pre := if c.Announce? then announce else if c.Spawn? then spawn else unregister;
    post := OneFlagSuffices(maxPolls, pre, Run(Initial(maxPolls), pre));
  }

  /** wg_down polls to the end without seeing rxtask_done. */
  lemma {:induction false} PollsOut(s0: State, es: seq<Event>, s: State) returns (es': seq<Event>)
    requires s.control.Wait? && s.control.polls <= s.maxPolls && !s.net.rxDone
    requires Run(s0, es) == s && NoLateUp(s0, es)
    ensures Run(s0, es') == s.(control := Decide) && NoLateUp(s0, es')
    decreases s.maxPolls - s.control.polls
  {
    hide Run, NoLateUp;
    var s';
    es', s' := More(s0, es, s, ControlTurn(true));
    if s.control.polls < s.maxPolls {
      es' := PollsOut(s0, es', s');
    }
  }

  /** The interface can be "left up" with its receive task gone for good: leaving, or gone between the last look
      at rxtask_done and the store. */
  lemma TimeoutCanLoseTask(maxPolls: nat) returns (es: seq<Event>)
    ensures NoLateUp(Initial(maxPolls), es)
    ensures LeftUp(Run(Initial(maxPolls), es)) && !Serving(Run(Initial(maxPolls), es))
  {
    hide Run, NoLateUp;
    var s0, s := Initial(maxPolls), Initial(maxPolls);
    es, s := ComesUp(maxPolls);
    es, s := More(s0, es, s, CallDown);
    es, s := More(s0, es, s, ControlTurn(true));
    es, s := More(s0, es, s, RxTurn(false));
    es := PollsOut(s0, es, s);
    s := s.(control := Decide);
    es, s := More(s0, es, s, ControlTurn(true));
    assert s.control.GiveUp? && s.rx.Leaving?;
    es, s := More(s0, es, s, RxTurn(false));
    assert s.rx.Gone? && s.net.rxDone;
    es, s := More(s0, es, s, ControlTurn(true));
  }

  /** How often the control task has its turn. */
  function Turns(es: seq<Event>): nat {
    if es == [] then 0 else (if es[0].ControlTurn? then 1 else 0) + Turns(es[1..])
  }

  /** The wait is bounded: whatever else happens, after one turn more than there are looks left, wg_down has
      come to its decision. */
  lemma {:induction false} WaitEnds(s: State, es: seq<Event>) returns (n: nat)
    requires s.control.Wait? && s.control.polls <= s.maxPolls
    requires Turns(es) > s.maxPolls - s.control.polls
    ensures n <= |es| && Run(s, es[..n]).control.Decide?
    decreases |es|
  {
    hide RxStep, WorkStep;
    var s' := Step(s, es[0]);
    Turn(s, es[0]);
    if s'.control.Decide? {
      n := 1;
      assert Run(s, es[..1]) == Run(s', es[..1][1..]);
    } else {
      n := WaitEnds(s', es[1..]);
      assert es[..n + 1][1..] == es[1..][..n];
      n := n + 1;
    }
  }

  /** No other event touches what the control task is doing. */
  lemma Turn(s: State, e: Event)
    requires s.control.Wait?
    ensures Step(s, e).maxPolls == s.maxPolls
    ensures !e.ControlTurn? ==> Step(s, e).control == s.control
  {
  }
}
