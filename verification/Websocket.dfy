/** A websocket connection (pkg/agent/ws/websocket.go) as interleaved steps: callers of WsWrite and WsRead share the
    lock, callers of WsClose hold it alone, one goroutine drains the outgoing channel and one fills the incoming one. */
module Websocket {
  import opened Wrappers

  type Message(==, !new) = string
  type Thread = nat

  const LOOP: Thread := 0
  const READER: Thread := 1
  const CALLER: Thread := 2   // one of any number
  const CAPACITY := 1000
  const EXIT: Message := "exit"

  /** Where a thread stands. Idle is "outside any call"; for the write loop it is "at the select", for the read loop "in
      ReadMessage". */
  datatype Pc =
    | Idle
    | WriteEntered(msg: Message)     // holds the read lock, stop flag not read yet
    | WriteChecked(msg: Message)     // holds the read lock, saw the flag down
    | ReadEntered                    // the same inside WsRead
    | ReadChecked
    | Leaving                        // holds the read lock, about to release it
    | CloseEntered                   // holds the lock, stop flag not read yet
    | CloseMarked                    // stop flag raised
    | CloseCancelled                 // context cancelled
    | CloseHungUp                    // connection closed
    | CloseHalf                      // inChan closed
    | CloseLeaving                   // about to release the lock
    | LoopWriting(msg: Message)      // message taken, write under way
    | LoopFailed                     // the write failed, WsClose is next
    | LoopDone
    | Pushing(left: seq<Message>)    // a message was read, these go to inChan
    | Selecting                      // all pushed, context not looked at yet
    | ReaderFailed                   // the read failed, WsClose is next
    | ReaderDone

  /** The RWMutex. */
  datatype Locks = Locks(readers: set<Thread>, writer: Option<Thread>)

  /** The stop flag, the context, how often each channel was closed, whether a WsWrite or WsClose panicked, and whether
      the read loop did, which ends the process. */
  datatype Gate = Gate(stopped: bool, cancelled: bool, outCloses: nat, inCloses: nat, panicked: bool, crashed: bool)

  /** The outgoing messages: what WsWrite callers put on the channel, what the loop took off it, what the connection
      wrote. */
  datatype Flow = Flow(
    outChan: seq<Message>,
    connClosed: bool,
    connBroken: bool,
    accepted: seq<Message>,
    taken: seq<Message>,
    delivered: seq<Message>)

  /** The incoming ones: what the read loop put on the channel and what WsRead callers were handed. */
  datatype Inflow = Inflow(inChan: seq<Message>, pushed: seq<Message>, handed: seq<Message>)

  datatype State = State(pcs: map<Thread, Pc>, locks: Locks, gate: Gate, flow: Flow, inflow: Inflow) {
    function Pc(t: Thread): Pc {
      if t in pcs then pcs[t] else Idle
    }

    function At(t: Thread, pc: Pc): State {
      this.(pcs := pcs[t := pc])
    }
  }

  const OPEN_GATE := Gate(false, false, 0, 0, false, false)

  const INITIAL := State(map[], Locks({}, None), OPEN_GATE, Flow([], false, false, [], [], []), Inflow([], [], []))

  datatype Step =
    | RLock(t: Thread, msg: Message)
    | CheckWrite(t: Thread)
    | Send(t: Thread)
    | RLockRead(t: Thread)
    | CheckRead(t: Thread)
    | Take(t: Thread)
    | RUnlock(t: Thread)
    | Lock(t: Thread)
    | CheckClose(t: Thread)
    | Cancel(t: Thread)
    | HangUp(t: Thread)
    | CloseIn(t: Thread)
    | CloseOut(t: Thread)
    | Unlock(t: Thread)
    | Receive
    | ReceiveNil
    | Deliver
    | Fail
    | Finish
    | Read(msg: Message, closing: bool)
    | ReadFail
    | Push
    | Select

  predicate IsCaller(t: Thread) {
    t != LOOP && t != READER
  }

  /** Who may call WsClose: any caller, a loop once its connection failed it. */
  ghost predicate Closes(t: Thread, pc: Pc) {
    if t == LOOP then pc.LoopFailed? else if t == READER then pc.ReaderFailed? else pc.Idle?
  }

  /** When a step may be taken. A send blocks while its channel is full, but goes ahead (and panics) on a closed one; a
      receive blocks while the channel is empty and open. The connection refuses every write after a failed one or after
      it was closed; it may still read what it had buffered. After a crash there are no steps. */
  ghost predicate Enabled(s: State, step: Step) {
    !s.gate.crashed &&
    match step
    case RLock(t, _) => IsCaller(t) && s.Pc(t).Idle? && s.locks.writer.None?
    case CheckWrite(t) => s.Pc(t).WriteEntered?
    case Send(t) => s.Pc(t).WriteChecked? && (|s.flow.outChan| < CAPACITY || s.gate.outCloses > 0)
    case RLockRead(t) => IsCaller(t) && s.Pc(t).Idle? && s.locks.writer.None?
    case CheckRead(t) => s.Pc(t).ReadEntered?
    case Take(t) => s.Pc(t).ReadChecked? && (s.inflow.inChan != [] || s.gate.inCloses > 0)
    case RUnlock(t) => s.Pc(t).Leaving?
    case Lock(t) => s.locks == Locks({}, None) && Closes(t, s.Pc(t))
    case CheckClose(t) => s.Pc(t).CloseEntered?
    case Cancel(t) => s.Pc(t).CloseMarked?
    case HangUp(t) => s.Pc(t).CloseCancelled?
    case CloseIn(t) => s.Pc(t).CloseHungUp?
    case CloseOut(t) => s.Pc(t).CloseHalf?
    case Unlock(t) => s.Pc(t).CloseLeaving?
    case Receive => s.Pc(LOOP).Idle? && s.flow.outChan != []
    case ReceiveNil => s.Pc(LOOP).Idle? && s.flow.outChan == [] && s.gate.outCloses > 0
    case Deliver => s.Pc(LOOP).LoopWriting? && !s.flow.connClosed && !s.flow.connBroken
    case Fail => s.Pc(LOOP).LoopWriting?
    case Finish => s.Pc(LOOP).Idle? && s.gate.cancelled
    case Read(_, _) => s.Pc(READER).Idle?
    case ReadFail => s.Pc(READER).Idle?
    case Push =>
      s.Pc(READER).Pushing? && s.Pc(READER).left != [] && (|s.inflow.inChan| < CAPACITY || s.gate.inCloses > 0)
    case Select => s.Pc(READER).Selecting?
  }

  /** The acting thread's next place. */
  ghost function Next(s: State, step: Step): State
    requires Enabled(s, step)
  {
    match step
    case RLock(t, msg) => s.At(t, WriteEntered(msg))
    case CheckWrite(t) => s.At(t, if s.gate.stopped then Leaving else WriteChecked(s.Pc(t).msg))
    case Send(t) => s.At(t, Leaving)
    case RLockRead(t) => s.At(t, ReadEntered)
    case CheckRead(t) => s.At(t, if s.gate.stopped then Leaving else ReadChecked)
    case Take(t) => s.At(t, Leaving)
    case RUnlock(t) => s.At(t, Idle)
    case Lock(t) => s.At(t, CloseEntered)
    case CheckClose(t) => s.At(t, if s.gate.stopped then CloseLeaving else CloseMarked)
    case Cancel(t) => s.At(t, CloseCancelled)
    case HangUp(t) => s.At(t, CloseHungUp)
    case CloseIn(t) => s.At(t, CloseHalf)
    case CloseOut(t) => s.At(t, CloseLeaving)
    case Unlock(t) => s.At(t, if t == READER then ReaderDone else Idle)
    case Receive => s.At(LOOP, LoopWriting(s.flow.outChan[0]))
    case ReceiveNil => s
    case Deliver => s.At(LOOP, Idle)
    case Fail => s.At(LOOP, LoopFailed)
    case Finish => s.At(LOOP, LoopDone)
    case Read(msg, closing) => s.At(READER, Pushing(if closing then [EXIT, msg] else [msg]))
    case ReadFail => s.At(READER, ReaderFailed)
    case Push => s.At(READER, if |s.Pc(READER).left| > 1 then Pushing(s.Pc(READER).left[1..]) else Selecting)
    case Select => s.At(READER, if s.gate.cancelled then ReaderDone else Idle)
  }

  ghost function NextLocks(l: Locks, step: Step): Locks {
    match step
    case RLock(t, _) => l.(readers := l.readers + {t})
    case RLockRead(t) => l.(readers := l.readers + {t})
    case RUnlock(t) => l.(readers := l.readers - {t})
    case Lock(t) => l.(writer := Some(t))
    case Unlock(t) => l.(writer := None)
    case _ => l
  }

  ghost function NextGate(g: Gate, step: Step): Gate {
    match step
    case Send(_) => g.(panicked := g.panicked || g.outCloses > 0)
    case CheckClose(_) => g.(stopped := true)
    case Cancel(_) => g.(cancelled := true)
    case CloseIn(_) => g.(inCloses := g.inCloses + 1, panicked := g.panicked || g.inCloses > 0)
    case CloseOut(_) => g.(outCloses := g.outCloses + 1, panicked := g.panicked || g.outCloses > 0)
    case Push => g.(crashed := g.crashed || g.inCloses > 0)
    case _ => g
  }

  ghost function NextFlow(s: State, step: Step): Flow
    requires Enabled(s, step)
  {
    var f := s.flow;
    match step
    case Send(t) =>
      if s.gate.outCloses > 0 then f
      else f.(outChan := f.outChan + [s.Pc(t).msg], accepted := f.accepted + [s.Pc(t).msg])
    case HangUp(_) => f.(connClosed := true)
    case Receive => f.(outChan := f.outChan[1..], taken := f.taken + [f.outChan[0]])
    case Deliver => f.(delivered := f.delivered + [s.Pc(LOOP).msg])
    case Fail => f.(connBroken := true)
    case _ => f
  }

  ghost function NextInflow(s: State, step: Step): Inflow
    requires Enabled(s, step)
  {
    var f := s.inflow;
    match step
    case Push =>
      if s.gate.inCloses > 0 then f
      else f.(inChan := f.inChan + [s.Pc(READER).left[0]], pushed := f.pushed + [s.Pc(READER).left[0]])
    case Take(_) =>
      if f.inChan == [] then f else f.(inChan := f.inChan[1..], handed := f.handed + [f.inChan[0]])
    case _ => f
  }

  ghost function Do(s: State, step: Step): State
    requires Enabled(s, step)
  {
    State(Next(s, step).pcs, NextLocks(s.locks, step), NextGate(s.gate, step), NextFlow(s, step), NextInflow(s, step))
  }

  /** Threads take their steps one at a time, in any order the guards allow. */
  ghost predicate IsRun(s: State, steps: seq<Step>, s': State)
    decreases |steps|
  {
    if steps == [] then s == s'
    else Enabled(s, steps[0]) && IsRun(Do(s, steps[0]), steps[1..], s')
  }

  lemma {:induction false} RunAppend(s: State, steps: seq<Step>, s': State, more: seq<Step>, s'': State)
    requires IsRun(s, steps, s') && IsRun(s', more, s'')
    ensures IsRun(s, steps + more, s'')
    decreases |steps|
  {
    if steps == [] {
      assert steps + more == more;
    } else {
      assert (steps + more)[0] == steps[0] && (steps + more)[1..] == steps[1..] + more;
      RunAppend(Do(s, steps[0]), steps[1..], s', more, s'');
    }
  }

  lemma OneStepRun(s: State, a: Step)
    requires Enabled(s, a)
    ensures IsRun(s, [a], Do(s, a))
  {
    assert IsRun(Do(s, a), [], Do(s, a));
    assert [a][1..] == [];
  }

  lemma TwoStepRun(s: State, a: Step, b: Step)
    requires Enabled(s, a) && Enabled(Do(s, a), b)
    ensures IsRun(s, [a, b], Do(Do(s, a), b))
  {
    OneStepRun(Do(s, a), b);
    assert [a, b][1..] == [b];
  }

  lemma ThreeStepRun(s: State, a: Step, b: Step, c: Step)
    requires Enabled(s, a) && Enabled(Do(s, a), b) && Enabled(Do(Do(s, a), b), c)
    ensures IsRun(s, [a, b, c], Do(Do(Do(s, a), b), c))
  {
    TwoStepRun(Do(s, a), b, c);
    assert [a, b, c][1..] == [b, c];
  }

  // ---- What every step keeps ----

  /** Inside WsWrite or WsRead. */
  ghost predicate Reading(pc: Pc) {
    pc.WriteEntered? || pc.WriteChecked? || pc.ReadEntered? || pc.ReadChecked? || pc.Leaving?
  }

  /** How far through WsClose a thread is: 1 before the flag is read, 2 to 5 while closing, 6 on the way out. */
  ghost function Stage(pc: Pc): nat {
    match pc
    case CloseEntered => 1
    case CloseMarked => 2
    case CloseCancelled => 3
    case CloseHungUp => 4
    case CloseHalf => 5
    case CloseLeaving => 6
    case _ => 0
  }

  /** A thread is only ever where its own code can take it. */
  ghost predicate InPlace(t: Thread, pc: Pc) {
    pc.Idle? || Stage(pc) > 0 ||
    if t == LOOP then pc.LoopWriting? || pc.LoopFailed? || pc.LoopDone?
    else if t == READER then (pc.Pushing? && pc.left != []) || pc.Selecting? || pc.ReaderFailed? || pc.ReaderDone?
    else Reading(pc)
  }

  ghost predicate PlaceInv(s: State) {
    forall t: Thread :: InPlace(t, s.Pc(t))
  }

  /** The lock admits either readers or one writer, and each thread's place agrees with what it holds. */
  ghost predicate LockInv(s: State) {
    && (s.locks.writer.Some? ==> s.locks.readers == {})
    && (forall t: Thread :: t in s.locks.readers <==> Reading(s.Pc(t)))
    && (forall t: Thread :: s.locks.writer == Some(t) <==> Stage(s.Pc(t)) > 0)
  }

  ghost function Closing(s: State): nat {
    if s.locks.writer.Some? then Stage(s.Pc(s.locks.writer.value)) else 0
  }

  /** Stopping happens once: exactly the thread holding the lock is between raising the flag and closing outChan. */
  ghost predicate StopInv(g: Gate, stage: nat, connClosed: bool) {
    && !g.panicked
    && (!g.stopped ==> g == OPEN_GATE && !connClosed && stage <= 1)
    && (g.stopped ==> if 2 <= stage <= 5 then g.outCloses == 0 && g.inCloses == (if stage == 5 then 1 else 0)
                      else g.outCloses == 1 && g.inCloses == 1)
    && (g.inCloses > 0 ==> g.cancelled)
    && (g.stopped && stage != 2 ==> g.cancelled)
  }

  /** A caller that saw the flag down still does when it sends or waits. */
  ghost predicate CheckedInv(s: State) {
    forall t: Thread :: s.Pc(t).WriteChecked? || s.Pc(t).ReadChecked? ==> !s.gate.stopped
  }

  ghost predicate FlowInv(f: Flow, loop: Pc) {
    && |f.outChan| <= CAPACITY
    && f.accepted == f.taken + f.outChan
    && f.delivered <= f.taken
    && (!f.connBroken && !f.connClosed ==> f.taken == f.delivered + if loop.LoopWriting? then [loop.msg] else [])
  }

  ghost predicate InflowInv(f: Inflow) {
    |f.inChan| <= CAPACITY && f.pushed == f.handed + f.inChan
  }

  /** As long as nobody raised the flag both loops run, and a broken connection has the write loop on its way to raise
      it. */
  ghost predicate LoopInv(s: State) {
    !s.gate.stopped ==>
      && !s.Pc(LOOP).LoopDone? && !s.Pc(READER).ReaderDone?
      && (s.flow.connBroken ==> s.Pc(LOOP).LoopFailed? || Stage(s.Pc(LOOP)) > 0)
  }

  ghost predicate Inv(s: State) {
    && PlaceInv(s)
    && LockInv(s)
    && CheckedInv(s)
    && StopInv(s.gate, Closing(s), s.flow.connClosed)
    && FlowInv(s.flow, s.Pc(LOOP))
    && InflowInv(s.inflow)
    && LoopInv(s)
  }

  lemma PlaceStep(s: State, step: Step)
    requires PlaceInv(s) && Enabled(s, step)
    ensures PlaceInv(Do(s, step))
  {
    forall t: Thread
      ensures InPlace(t, Do(s, step).Pc(t))
    {
      assert InPlace(t, s.Pc(t));
    }
  }

  lemma ReadersStep(s: State, step: Step)
    requires LockInv(s) && Enabled(s, step)
    ensures forall t: Thread :: t in Do(s, step).locks.readers <==> Reading(Do(s, step).Pc(t))
  {
    var s' := Do(s, step);
    forall t: Thread
      ensures t in s'.locks.readers <==> Reading(s'.Pc(t))
    {
      assert t in s.locks.readers <==> Reading(s.Pc(t));
    }
  }

  lemma WriterStep(s: State, step: Step)
    requires LockInv(s) && Enabled(s, step)
    ensures var s' := Do(s, step);
            && (s'.locks.writer.Some? ==> s'.locks.readers == {})
            && forall t: Thread :: s'.locks.writer == Some(t) <==> Stage(s'.Pc(t)) > 0
  {
    var s' := Do(s, step);
    forall t: Thread
      ensures s'.locks.writer == Some(t) <==> Stage(s'.Pc(t)) > 0
    {
      assert s.locks.writer == Some(t) <==> Stage(s.Pc(t)) > 0;
    }
  }

  lemma LockStep(s: State, step: Step)
    requires LockInv(s) && Enabled(s, step)
    ensures LockInv(Do(s, step))
  {
    ReadersStep(s, step);
    WriterStep(s, step);
  }

  lemma CheckedStep(s: State, step: Step)
    requires LockInv(s) && CheckedInv(s) && Enabled(s, step)
    ensures CheckedInv(Do(s, step))
  {
    var s' := Do(s, step);
    forall t: Thread | s'.Pc(t).WriteChecked? || s'.Pc(t).ReadChecked?
      ensures !s'.gate.stopped
    {
      assert t in s.locks.readers <==> Reading(s.Pc(t));
    }
  }

  /** Where the holder of the lock stands when a step of WsClose is taken. */
  lemma ClosingBefore(s: State, step: Step)
    requires LockInv(s) && Enabled(s, step)
    ensures match step
            case Lock(_) => Closing(s) == 0
            case CheckClose(_) => Closing(s) == 1
            case Cancel(_) => Closing(s) == 2
            case HangUp(_) => Closing(s) == 3
            case CloseIn(_) => Closing(s) == 4
            case CloseOut(_) => Closing(s) == 5
            case Unlock(_) => Closing(s) == 6
            case _ => true
  {
  }

  lemma ClosingStep(s: State, step: Step)
    requires LockInv(s) && Enabled(s, step)
    ensures Closing(Do(s, step)) ==
            match step
            case Lock(_) => 1
            case CheckClose(_) => if s.gate.stopped then 6 else 2
            case Cancel(_) => 3
            case HangUp(_) => 4
            case CloseIn(_) => 5
            case CloseOut(_) => 6
            case Unlock(_) => 0
            case _ => Closing(s)
  {
    match step
    case Lock(_) =>
    case CheckClose(_) =>
    case Cancel(_) =>
    case HangUp(_) =>
    case CloseIn(_) =>
    case CloseOut(_) =>
    case Unlock(_) =>
    case _ => assert Do(s, step).locks.writer == s.locks.writer;
  }

  lemma StopStep(s: State, step: Step)
    requires LockInv(s) && CheckedInv(s) && Enabled(s, step)
    requires StopInv(s.gate, Closing(s), s.flow.connClosed)
    ensures var s' := Do(s, step); StopInv(s'.gate, Closing(s'), s'.flow.connClosed)
  {
    ClosingBefore(s, step);
    ClosingStep(s, step);
  }

  lemma OutChanStep(s: State, step: Step)
    requires Enabled(s, step) && FlowInv(s.flow, s.Pc(LOOP))
    ensures var f := Do(s, step).flow; |f.outChan| <= CAPACITY && f.accepted == f.taken + f.outChan
  {
  }

  lemma DeliveredStep(s: State, step: Step)
    requires LockInv(s) && PlaceInv(s) && Enabled(s, step) && FlowInv(s.flow, s.Pc(LOOP))
    ensures var f, loop := Do(s, step).flow, Do(s, step).Pc(LOOP);
            && f.delivered <= f.taken
            && (!f.connBroken && !f.connClosed ==>
                  f.taken == f.delivered + if loop.LoopWriting? then [loop.msg] else [])
  {
    assert InPlace(LOOP, s.Pc(LOOP));
    if !step.Receive? && !step.Deliver? && !step.Fail? {
      LoopStays(s, step);
    }
  }

  /** Only the write loop's own steps change whether it is writing. */
  lemma LoopStays(s: State, step: Step)
    requires LockInv(s) && InPlace(LOOP, s.Pc(LOOP)) && Enabled(s, step)
    requires !step.Receive? && !step.Deliver? && !step.Fail?
    ensures Do(s, step).Pc(LOOP).LoopWriting? <==> s.Pc(LOOP).LoopWriting?
    ensures s.Pc(LOOP).LoopWriting? ==> Do(s, step).Pc(LOOP) == s.Pc(LOOP)
    ensures Do(s, step).flow.taken == s.flow.taken && Do(s, step).flow.delivered == s.flow.delivered
  {
  }

  lemma FlowStep(s: State, step: Step)
    requires LockInv(s) && PlaceInv(s) && Enabled(s, step)
    requires FlowInv(s.flow, s.Pc(LOOP))
    ensures FlowInv(Do(s, step).flow, Do(s, step).Pc(LOOP))
  {
    OutChanStep(s, step);
    DeliveredStep(s, step);
  }

  lemma InflowStep(s: State, step: Step)
    requires InflowInv(s.inflow) && Enabled(s, step)
    ensures InflowInv(Do(s, step).inflow)
  {
  }

  lemma LoopStep(s: State, step: Step)
    requires Inv(s) && Enabled(s, step)
    ensures LoopInv(Do(s, step))
  {
    ClosingStep(s, step);
  }

  lemma StepKeepsInv(s: State, step: Step)
    requires Inv(s) && Enabled(s, step)
    ensures Inv(Do(s, step))
  {
    PlaceStep(s, step);
    LockStep(s, step);
    CheckedStep(s, step);
    StopStep(s, step);
    FlowStep(s, step);
    InflowStep(s, step);
    LoopStep(s, step);
  }

  lemma {:induction false} RunKeepsInv(s: State, steps: seq<Step>, s': State)
    requires Inv(s) && IsRun(s, steps, s')
    ensures Inv(s')
    decreases |steps|
  {
    if steps != [] {
      StepKeepsInv(s, steps[0]);
      RunKeepsInv(Do(s, steps[0]), steps[1..], s');
    }
  }

  lemma InitialInv()
    ensures Inv(INITIAL)
  {
  }

  /** Under every interleaving: no WsWrite sends on a closed channel and no WsClose closes one twice, what reached the
      connection is a prefix of what WsWrite accepted, and what WsRead handed out is a prefix of what was pushed. */
  lemma Safety(steps: seq<Step>, s: State)
    requires IsRun(INITIAL, steps, s)
    ensures !s.gate.panicked && s.gate.inCloses <= 1 && s.gate.outCloses <= 1
    ensures s.flow.delivered <= s.flow.accepted
    ensures !s.flow.connBroken && !s.flow.connClosed && !s.Pc(LOOP).LoopWriting? ==>
              s.flow.accepted == s.flow.delivered + s.flow.outChan
    ensures s.inflow.pushed == s.inflow.handed + s.inflow.inChan
  {
    InitialInv();
    RunKeepsInv(INITIAL, steps, s);
  }

  // ---- What the callers passed is what arrives ----

  ghost predicate Writes(pc: Pc) {
    pc.WriteEntered? || pc.WriteChecked?
  }

  lemma {:induction false} LastOfRun(s: State, steps: seq<Step>, s': State) returns (mid: State)
    requires steps != [] && IsRun(s, steps, s')
    ensures var less, last := steps[..|steps| - 1], steps[|steps| - 1];
            IsRun(s, less, mid) && Enabled(mid, last) && Do(mid, last) == s'
    decreases |steps|
  {
    if |steps| == 1 {
      assert IsRun(Do(s, steps[0]), [], s') && steps[1..] == [];
      mid := s;
    } else {
      var less, last := steps[..|steps| - 1], steps[|steps| - 1];
      mid := LastOfRun(Do(s, steps[0]), steps[1..], s');
      assert steps[1..][..|steps[1..]| - 1] == less[1..] && steps[1..][|steps[1..]| - 1] == last;
    }
  }

  /** The message the thread passed to its last call of WsWrite. */
  ghost function Passed(steps: seq<Step>, t: Thread): Option<Message> {
    if steps == [] then None
    else
      var last := steps[|steps| - 1];
      if last.RLock? && last.t == t then Some(last.msg) else Passed(steps[..|steps| - 1], t)
  }

  /** The messages passed to WsWrite, in the order in which they were sent. */
  ghost function Sent(steps: seq<Step>): seq<Message> {
    if steps == [] then []
    else
      var less, last := steps[..|steps| - 1], steps[|steps| - 1];
      Sent(less) + if last.Send? && Passed(less, last.t).Some? then [Passed(less, last.t).value] else []
  }

  /** The messages read from the connection, in order, the exit command before every one that says "close". */
  ghost function Incoming(steps: seq<Step>): seq<Message> {
    if steps == [] then []
    else
      var less, last := steps[..|steps| - 1], steps[|steps| - 1];
      Incoming(less) + if last.Read? then (if last.closing then ["exit", last.msg] else [last.msg]) else []
  }

  /** A caller inside WsWrite still has the message it passed. */
  ghost predicate Carrying(s: State, steps: seq<Step>) {
    forall t: Thread :: Writes(s.Pc(t)) ==> Passed(steps, t) == Some(s.Pc(t).msg)
  }

  /** What was read is on the channel, was handed out, or is still with the read loop. */
  ghost predicate Conveyed(s: State, steps: seq<Step>) {
    if s.gate.crashed then s.inflow.pushed <= Incoming(steps)
    else Incoming(steps) == s.inflow.pushed + if s.Pc(READER).Pushing? then s.Pc(READER).left else []
  }

  lemma CarryingStep(s: State, less: seq<Step>, step: Step)
    requires Enabled(s, step) && Carrying(s, less)
    ensures Carrying(Do(s, step), less + [step])
  {
    var steps := less + [step];
    assert steps[..|steps| - 1] == less;
    forall t: Thread | Writes(Do(s, step).Pc(t))
      ensures Passed(steps, t) == Some(Do(s, step).Pc(t).msg)
    {
      assert Writes(s.Pc(t)) ==> Passed(less, t) == Some(s.Pc(t).msg);
    }
  }

  lemma SentStep(s: State, less: seq<Step>, step: Step)
    requires Inv(s) && Enabled(s, step) && Carrying(s, less) && s.flow.accepted == Sent(less)
    ensures Do(s, step).flow.accepted == Sent(less + [step])
  {
    var steps := less + [step];
    assert steps[..|steps| - 1] == less;
    if step.Send? {
      assert Writes(s.Pc(step.t)) && !s.gate.stopped;
    }
  }

  lemma ConveyedStep(s: State, less: seq<Step>, step: Step)
    requires PlaceInv(s) && Enabled(s, step) && Conveyed(s, less)
    ensures Conveyed(Do(s, step), less + [step])
  {
    var steps := less + [step];
    assert steps[..|steps| - 1] == less;
    assert InPlace(READER, s.Pc(READER));
    if step.Push? {
      var left := s.Pc(READER).left;
      assert left == [left[0]] + left[1..];
    } else if !step.Read? {
      ReaderStays(s, step);
    }
  }

  /** Nothing but reads and pushes changes what the read loop has left to push. */
  lemma ReaderStays(s: State, step: Step)
    requires InPlace(READER, s.Pc(READER)) && Enabled(s, step) && !step.Push? && !step.Read?
    ensures Do(s, step).Pc(READER).Pushing? <==> s.Pc(READER).Pushing?
    ensures s.Pc(READER).Pushing? ==> Do(s, step).Pc(READER) == s.Pc(READER)
    ensures Do(s, step).inflow.pushed == s.inflow.pushed && Do(s, step).gate.crashed == s.gate.crashed
  {
  }

  /** In every run the connection is handed what callers passed to WsWrite, message by message in the order of their
      sends, and WsRead hands out what was read from the connection, in order. */
  lemma {:induction false} Delivery(steps: seq<Step>, s: State)
    requires IsRun(INITIAL, steps, s)
    ensures s.flow.accepted == Sent(steps) && s.flow.delivered <= Sent(steps)
    ensures s.inflow.handed <= Incoming(steps) && Conveyed(s, steps) && Carrying(s, steps)
    decreases |steps|
  {
    InitialInv();
    RunKeepsInv(INITIAL, steps, s);
    if steps != [] {
      var less, last := steps[..|steps| - 1], steps[|steps| - 1];
      var mid := LastOfRun(INITIAL, steps, s);
      assert steps == less + [last];
      Delivery(less, mid);
      RunKeepsInv(INITIAL, less, mid);
      CarryingStep(mid, less, last);
      SentStep(mid, less, last);
      ConveyedStep(mid, less, last);
    }
  }

  /** Once the flag is up, no WsWrite is accepted any more and no WsRead handed anything, whoever was already inside. */
  lemma {:induction false} StopIsFinal(s: State, steps: seq<Step>, s': State)
    requires Inv(s) && s.gate.stopped && IsRun(s, steps, s')
    ensures s'.gate.stopped && s'.flow.accepted == s.flow.accepted && s'.inflow.handed == s.inflow.handed
    decreases |steps|
  {
    if steps != [] {
      StepKeepsInv(s, steps[0]);
      StopIsFinal(Do(s, steps[0]), steps[1..], s');
    }
  }

  ghost predicate Finishes(steps: seq<Step>) {
    exists i :: 0 <= i < |steps| && steps[i].Finish?
  }

  lemma DoneStep(s: State, step: Step)
    requires InPlace(LOOP, s.Pc(LOOP)) && Enabled(s, step)
    ensures Do(s, step).Pc(LOOP).LoopDone? <==> s.Pc(LOOP).LoopDone? || step.Finish?
  {
  }

  /** The write loop ends exactly when it finds its context cancelled: not over a nil message from the closed channel,
      and not over a failed write. */
  lemma {:induction false} LoopEndsExactlyWhen(steps: seq<Step>, s: State)
    requires IsRun(INITIAL, steps, s)
    ensures s.Pc(LOOP).LoopDone? <==> Finishes(steps)
    decreases |steps|
  {
    if steps != [] {
      var less, last := steps[..|steps| - 1], steps[|steps| - 1];
      var mid := LastOfRun(INITIAL, steps, s);
      LoopEndsExactlyWhen(less, mid);
      InitialInv();
      RunKeepsInv(INITIAL, less, mid);
      assert InPlace(LOOP, mid.Pc(LOOP));
      DoneStep(mid, last);
      FinishesMore(steps);
    }
  }

  lemma FinishesMore(steps: seq<Step>)
    requires steps != []
    ensures Finishes(steps) <==> Finishes(steps[..|steps| - 1]) || steps[|steps| - 1].Finish?
  {
    var less := steps[..|steps| - 1];
    if i :| 0 <= i < |less| && less[i].Finish? {
      assert steps[i].Finish?;
    }
    if i :| 0 <= i < |steps| && steps[i].Finish? {
      assert i < |less| ==> less[i].Finish?;
    }
  }

  // ---- When the read loop brings the process down ----

  /** Some push comes after inChan was closed. */
  ghost predicate PushAfterClose(steps: seq<Step>) {
    exists i, j :: 0 <= i < j < |steps| && steps[i].CloseIn? && steps[j].Push?
  }

  ghost predicate Pushes(steps: seq<Step>) {
    exists j :: 0 <= j < |steps| && steps[j].Push?
  }

  lemma FirstOrLater(steps: seq<Step>)
    requires steps != []
    ensures Pushes(steps) <==> steps[0].Push? || Pushes(steps[1..])
    ensures PushAfterClose(steps) <==> (steps[0].CloseIn? && Pushes(steps[1..])) || PushAfterClose(steps[1..])
  {
    if j :| 0 <= j < |steps[1..]| && steps[1..][j].Push? {
      assert steps[j + 1].Push?;
    }
    if j :| 0 < j < |steps| && steps[j].Push? {
      assert steps[1..][j - 1].Push?;
    }
    if i, j :| 0 <= i < j < |steps[1..]| && steps[1..][i].CloseIn? && steps[1..][j].Push? {
      assert steps[i + 1].CloseIn? && steps[j + 1].Push?;
    }
    if i, j :| 0 < i < j < |steps| && steps[i].CloseIn? && steps[j].Push? {
      assert steps[1..][i - 1].CloseIn? && steps[1..][j - 1].Push?;
    }
  }

  lemma {:induction false} CrashesWhen(s: State, steps: seq<Step>, s': State)
    requires IsRun(s, steps, s')
    ensures s'.gate.crashed <==>
            s.gate.crashed || PushAfterClose(steps) || (s.gate.inCloses > 0 && Pushes(steps))
    decreases |steps|
  {
    if steps != [] {
      FirstOrLater(steps);
      CrashesWhen(Do(s, steps[0]), steps[1..], s');
    }
  }

  /** The read loop sends without the lock. A run panics in it if and only if it pushes a message after inChan was
      closed. */
  lemma CrashesExactlyWhen(steps: seq<Step>, s: State)
    requires IsRun(INITIAL, steps, s)
    ensures s.gate.crashed <==> PushAfterClose(steps)
  {
    CrashesWhen(INITIAL, steps, s);
  }

  /** The read loop is between two reads, or has a message to push. */
  ghost predicate MayPush(pc: Pc) {
    pc.Idle? || pc.Pushing?
  }

  lemma NoPushStep(s: State, step: Step)
    requires Inv(s) && s.gate.inCloses > 0 && !MayPush(s.Pc(READER)) && Enabled(s, step)
    ensures !step.Push? && Do(s, step).gate.inCloses > 0 && !MayPush(Do(s, step).Pc(READER))
  {
    assert InPlace(READER, s.Pc(READER)) && s.gate.cancelled;
    ReaderEnds(s, step);
  }

  lemma ReaderEnds(s: State, step: Step)
    requires InPlace(READER, s.Pc(READER)) && s.gate.cancelled && !MayPush(s.Pc(READER)) && Enabled(s, step)
    ensures !step.Push? && !MayPush(Do(s, step).Pc(READER))
  {
  }

  lemma {:induction false} NoMorePushes(s: State, steps: seq<Step>, s': State)
    requires Inv(s) && s.gate.inCloses > 0 && !s.gate.crashed && !MayPush(s.Pc(READER)) && IsRun(s, steps, s')
    ensures !s'.gate.crashed
    decreases |steps|
  {
    if steps != [] {
      StepKeepsInv(s, steps[0]);
      NoPushStep(s, steps[0]);
      NoMorePushes(Do(s, steps[0]), steps[1..], s');
    }
  }

  ghost predicate CanCrash(s: State) {
    exists steps, s' :: IsRun(s, steps, s') && s'.gate.crashed
  }

  /** Once inChan is closed a crash is still possible if and only if the read loop is in a read or has read a message
      that is not pushed yet; after that it looks at the context and ends. */
  lemma CrashPossibleExactlyWhen(s: State)
    requires Inv(s) && s.gate.inCloses > 0 && !s.gate.crashed
    ensures CanCrash(s) <==> MayPush(s.Pc(READER))
  {
    assert InPlace(READER, s.Pc(READER));
    if s.Pc(READER).Pushing? {
      OneStepRun(s, Push);
      assert Do(s, Push).gate.crashed;
    } else if s.Pc(READER).Idle? {
      var read := Read("m", false);
      TwoStepRun(s, read, Push);
      assert Do(Do(s, read), Push).gate.crashed;
    } else {
      forall steps, s' | IsRun(s, steps, s')
        ensures !s'.gate.crashed
      {
        NoMorePushes(s, steps, s');
      }
    }
  }

  lemma OneStep(s: State, step: Step)
    requires Inv(s) && Enabled(s, step)
    ensures Inv(Do(s, step)) && IsRun(s, [step], Do(s, step))
  {
    StepKeepsInv(s, step);
    OneStepRun(s, step);
  }

  /** A caller gets the lock and raises the flag. */
  lemma CloseBegins(s: State) returns (steps: seq<Step>, s': State)
    requires s.locks == Locks({}, None) && s.Pc(CALLER).Idle? && s.gate == OPEN_GATE
    ensures IsRun(s, steps, s') && s'.Pc(CALLER).CloseMarked? && s'.Pc(READER) == s.Pc(READER)
    ensures s'.gate == OPEN_GATE.(stopped := true)
  {
    steps := [Lock(CALLER), CheckClose(CALLER)];
    s' := Do(Do(s, Lock(CALLER)), CheckClose(CALLER));
    TwoStepRun(s, Lock(CALLER), CheckClose(CALLER));
  }

  lemma CloseGoesOn(s: State) returns (steps: seq<Step>, s': State)
    requires s.Pc(CALLER).CloseMarked? && s.gate == OPEN_GATE.(stopped := true)
    ensures IsRun(s, steps, s') && s'.gate.inCloses > 0 && !s'.gate.crashed && s'.Pc(READER) == s.Pc(READER)
  {
    steps := [Cancel(CALLER), HangUp(CALLER), CloseIn(CALLER)];
    s' := Do(Do(Do(s, Cancel(CALLER)), HangUp(CALLER)), CloseIn(CALLER));
    ThreeStepRun(s, Cancel(CALLER), HangUp(CALLER), CloseIn(CALLER));
  }

  /** And it happens: a caller closes the connection while a message is on its way in. */
  lemma CrashReachable() returns (steps: seq<Step>, s: State)
    ensures IsRun(INITIAL, steps, s) && s.gate.crashed
  {
    var begun, half := CloseBegins(INITIAL);
    var gone, mid := CloseGoesOn(half);
    RunAppend(INITIAL, begun, half, gone, mid);
    var first := begun + gone;
    InitialInv();
    RunKeepsInv(INITIAL, first, mid);
    CrashPossibleExactlyWhen(mid);
    var rest: seq<Step>;
    rest, s :| IsRun(mid, rest, s) && s.gate.crashed;
    RunAppend(INITIAL, first, mid, rest, s);
    steps := first + rest;
  }

  // ---- When a connection can still be stopped ----

  ghost predicate Reads(pc: Pc) {
    pc.ReadEntered? || pc.ReadChecked?
  }

  /** Inside WsWrite, with the message not on the channel yet. */
  ghost function Sending(s: State): set<Thread> {
    set t | t in s.locks.readers && Writes(s.Pc(t))
  }

  /** Inside WsRead, without a message yet. */
  ghost function Taking(s: State): set<Thread> {
    set t | t in s.locks.readers && Reads(s.Pc(t))
  }

  /** The write loop failed and wants the lock, and the callers that hold it need more room in the channel than there
      is; only the write loop could make any. */
  ghost predicate WriteWedged(s: State) {
    s.Pc(LOOP).LoopFailed? && |Sending(s)| + |s.flow.outChan| > CAPACITY
  }

  /** The read loop failed and wants the lock, and the callers that hold it wait for more messages than there are; only
      the read loop could bring any. */
  ghost predicate ReadWedged(s: State) {
    s.Pc(READER).ReaderFailed? && |Taking(s)| > |s.inflow.inChan|
  }

  ghost predicate Wedged(s: State) {
    !s.gate.stopped && (WriteWedged(s) || ReadWedged(s))
  }

  lemma InsideReads(s: State, x: Thread)
    requires LockInv(s)
    ensures (x in Sending(s) <==> Writes(s.Pc(x))) && (x in Taking(s) <==> Reads(s.Pc(x)))
  {
    assert x in s.locks.readers <==> Reading(s.Pc(x));
  }

  lemma SendingSame(s: State, step: Step, x: Thread)
    requires LockInv(s) && Enabled(s, step) && !step.RLock? && !step.CheckWrite? && !step.Send?
    ensures Writes(Do(s, step).Pc(x)) <==> Writes(s.Pc(x))
  {
    assert Do(s, step).Pc(x) == Next(s, step).Pc(x);
  }

  lemma SendingAt(s: State, step: Step, x: Thread)
    requires LockInv(s) && Enabled(s, step) && !s.gate.stopped
    ensures x in Sending(Do(s, step)) <==>
            match step
            case RLock(t, _) => x in Sending(s) || x == t
            case Send(t) => x in Sending(s) && x != t
            case _ => x in Sending(s)
  {
    InsideReads(s, x);
    LockStep(s, step);
    InsideReads(Do(s, step), x);
    match step
    case RLock(_, _) =>
    case CheckWrite(_) =>
    case Send(_) =>
    case _ => SendingSame(s, step, x);
  }

  lemma SendingStep(s: State, step: Step)
    requires LockInv(s) && Enabled(s, step) && !s.gate.stopped
    ensures Sending(Do(s, step)) ==
            match step
            case RLock(t, _) => Sending(s) + {t}
            case Send(t) => Sending(s) - {t}
            case _ => Sending(s)
    ensures step.RLock? ==> step.t !in Sending(s)
    ensures step.Send? ==> step.t in Sending(s)
  {
    forall x: Thread
      ensures x in Sending(Do(s, step)) <==>
              match step
              case RLock(t, _) => x in Sending(s) || x == t
              case Send(t) => x in Sending(s) && x != t
              case _ => x in Sending(s)
    {
      SendingAt(s, step, x);
    }
  }

  lemma TakingSame(s: State, step: Step, x: Thread)
    requires LockInv(s) && Enabled(s, step) && !step.RLockRead? && !step.CheckRead? && !step.Take?
    ensures Reads(Do(s, step).Pc(x)) <==> Reads(s.Pc(x))
  {
    assert Do(s, step).Pc(x) == Next(s, step).Pc(x);
  }

  lemma TakingAt(s: State, step: Step, x: Thread)
    requires LockInv(s) && Enabled(s, step) && !s.gate.stopped
    ensures x in Taking(Do(s, step)) <==>
            match step
            case RLockRead(t) => x in Taking(s) || x == t
            case Take(t) => x in Taking(s) && x != t
            case _ => x in Taking(s)
  {
    InsideReads(s, x);
    LockStep(s, step);
    InsideReads(Do(s, step), x);
    match step
    case RLockRead(_) =>
    case CheckRead(_) =>
    case Take(_) =>
    case _ => TakingSame(s, step, x);
  }

  lemma TakingStep(s: State, step: Step)
    requires LockInv(s) && Enabled(s, step) && !s.gate.stopped
    ensures Taking(Do(s, step)) ==
            match step
            case RLockRead(t) => Taking(s) + {t}
            case Take(t) => Taking(s) - {t}
            case _ => Taking(s)
    ensures step.RLockRead? ==> step.t !in Taking(s)
    ensures step.Take? ==> step.t in Taking(s)
  {
    forall x: Thread
      ensures x in Taking(Do(s, step)) <==>
              match step
              case RLockRead(t) => x in Taking(s) || x == t
              case Take(t) => x in Taking(s) && x != t
              case _ => x in Taking(s)
    {
      TakingAt(s, step, x);
    }
  }

  /** Somebody holds the read lock in a wedge, so nobody gets the lock. */
  lemma HeldForReading(s: State)
    requires Inv(s) && Wedged(s)
    ensures s.locks.readers != {} && s.locks.writer.None?
  {
    if WriteWedged(s) {
      assert |Sending(s)| > 0;
      var t :| t in Sending(s);
      assert t in s.locks.readers;
    } else {
      assert |Taking(s)| > 0;
      var t :| t in Taking(s);
      assert t in s.locks.readers;
    }
  }

  lemma NotStopping(s: State, step: Step)
    requires Inv(s) && Wedged(s) && Enabled(s, step)
    ensures !step.Lock? && !Do(s, step).gate.stopped
  {
    HeldForReading(s);
  }

  lemma WriteWedgedStep(s: State, step: Step)
    requires Inv(s) && !s.gate.stopped && WriteWedged(s) && Enabled(s, step)
    ensures WriteWedged(Do(s, step)) && Do(s, step).flow.delivered == s.flow.delivered
  {
    NotStopping(s, step);
    SendingStep(s, step);
  }

  lemma ReadWedgedStep(s: State, step: Step)
    requires Inv(s) && !s.gate.stopped && ReadWedged(s) && Enabled(s, step)
    ensures ReadWedged(Do(s, step)) && Do(s, step).inflow.pushed == s.inflow.pushed
  {
    NotStopping(s, step);
    TakingStep(s, step);
  }

  /** No run of any threads ever undoes either: the connection is not stopped; after a failed write nothing is written
      to it again, after a failed read nothing comes in. */
  lemma {:induction false} WedgedForever(s: State, steps: seq<Step>, s': State)
    requires Inv(s) && Wedged(s) && IsRun(s, steps, s')
    ensures Wedged(s')
    ensures WriteWedged(s) ==> WriteWedged(s') && s'.flow.delivered == s.flow.delivered
    ensures ReadWedged(s) ==> ReadWedged(s') && s'.inflow.pushed == s.inflow.pushed
    decreases |steps|
  {
    if steps != [] {
      var next := Do(s, steps[0]);
      StepKeepsInv(s, steps[0]);
      NotStopping(s, steps[0]);
      if WriteWedged(s) {
        WriteWedgedStep(s, steps[0]);
      }
      if ReadWedged(s) {
        ReadWedgedStep(s, steps[0]);
      }
      WedgedForever(next, steps[1..], s');
    }
  }

  /** Nobody raised the flag, and whichever loop failed is not needed by more callers than it can still serve. */
  ghost predicate Fitting(s: State) {
    Inv(s) && !s.gate.stopped && !WriteWedged(s) && !ReadWedged(s)
  }

  /** How far a caller inside is from the way out. */
  ghost function Left(pc: Pc): nat {
    match pc
    case WriteEntered(_) => 3
    case WriteChecked(_) => 2
    case ReadEntered => 3
    case ReadChecked => 2
    case Leaving => 1
    case _ => 0
  }

  /** How many steps the loop the caller waits for needs at most to let it go on. */
  ghost function Delay(s: State, pc: Pc): nat {
    match pc
    case WriteChecked(_) =>
      if |s.flow.outChan| < CAPACITY then 0 else if s.Pc(LOOP).LoopWriting? then 2 else 1
    case ReadChecked =>
      if s.inflow.inChan != [] then 0
      else if s.Pc(READER).Selecting? then 3 else if s.Pc(READER).Idle? then 2 else 1
    case _ => 0
  }

  /** The step that brings a caller inside closer to the way out: its own, or that of the loop it waits for. */
  ghost function Helping(s: State, t: Thread): Step {
    match s.Pc(t)
    case WriteEntered(_) => CheckWrite(t)
    case WriteChecked(_) =>
      if |s.flow.outChan| < CAPACITY then Send(t) else if s.Pc(LOOP).LoopWriting? then Deliver else Receive
    case ReadEntered => CheckRead(t)
    case ReadChecked =>
      if s.inflow.inChan != [] then Take(t)
      else if s.Pc(READER).Selecting? then Select
      else if s.Pc(READER).Idle? then Read("m", false) else Push
    case _ => RUnlock(t)
  }

  lemma HelpingEnabled(s: State, t: Thread)
    requires Fitting(s) && t in s.locks.readers
    ensures Enabled(s, Helping(s, t))
  {
    assert Reading(s.Pc(t)) && InPlace(LOOP, s.Pc(LOOP)) && InPlace(READER, s.Pc(READER));
    assert s.locks.writer.None? && Stage(s.Pc(LOOP)) == 0 && Stage(s.Pc(READER)) == 0;
    if s.Pc(t).WriteChecked? {
      assert t in Sending(s);
    }
    if s.Pc(t).ReadChecked? {
      assert t in Taking(s);
    }
  }

  lemma HelpingKeepsSending(s: State, t: Thread)
    requires Fitting(s) && t in s.locks.readers && Enabled(s, Helping(s, t))
    ensures !WriteWedged(Do(s, Helping(s, t)))
  {
    var step := Helping(s, t);
    SendingStep(s, step);
    assert Do(s, step).Pc(LOOP).LoopFailed? ==> s.Pc(LOOP).LoopFailed?;
    if step.Send? {
      assert |Sending(s) - {t}| == |Sending(s)| - 1;
    } else if s.Pc(LOOP).LoopFailed? {
      assert Do(s, step).flow == s.flow && Sending(Do(s, step)) == Sending(s);
    }
  }

  lemma HelpingKeepsTaking(s: State, t: Thread)
    requires Fitting(s) && t in s.locks.readers && Enabled(s, Helping(s, t))
    ensures !ReadWedged(Do(s, Helping(s, t)))
  {
    var step := Helping(s, t);
    TakingStep(s, step);
    assert Do(s, step).Pc(READER).ReaderFailed? ==> s.Pc(READER).ReaderFailed?;
    if step.Take? {
      assert |Taking(s) - {t}| == |Taking(s)| - 1;
    } else if s.Pc(READER).ReaderFailed? {
      assert Do(s, step).inflow == s.inflow && Taking(Do(s, step)) == Taking(s);
    }
  }

  lemma HelpingFits(s: State, t: Thread)
    requires Fitting(s) && t in s.locks.readers && Enabled(s, Helping(s, t))
    ensures Fitting(Do(s, Helping(s, t)))
  {
    StepKeepsInv(s, Helping(s, t));
    HelpingKeepsSending(s, t);
    HelpingKeepsTaking(s, t);
    assert !Helping(s, t).CheckClose?;
  }

  lemma HelpingHelps(s: State, t: Thread)
    requires Fitting(s) && t in s.locks.readers && Enabled(s, Helping(s, t))
    ensures var step, s' := Helping(s, t), Do(s, Helping(s, t));
            if step.RUnlock? then s'.locks.readers == s.locks.readers - {t}
            else
              && s'.locks.readers == s.locks.readers
              && (Left(s'.Pc(t)) < Left(s.Pc(t)) ||
                  (Left(s'.Pc(t)) == Left(s.Pc(t)) && Delay(s', s'.Pc(t)) < Delay(s, s.Pc(t))))
  {
    assert Reading(s.Pc(t)) && InPlace(t, s.Pc(t));
  }

  /** A caller inside gets out again. */
  lemma {:induction false} Leave(s: State, t: Thread) returns (steps: seq<Step>, s': State)
    requires Fitting(s) && t in s.locks.readers
    ensures IsRun(s, steps, s') && Fitting(s') && s'.locks.readers == s.locks.readers - {t}
    decreases Left(s.Pc(t)), Delay(s, s.Pc(t))
  {
    var step := Helping(s, t);
    HelpingEnabled(s, t);
    HelpingFits(s, t);
    HelpingHelps(s, t);
    OneStep(s, step);
    steps, s' := [step], Do(s, step);
    if !step.RUnlock? {
      var rest;
      rest, s' := Leave(s', t);
      RunAppend(s, steps, Do(s, step), rest, s');
      steps := steps + rest;
    }
  }

  lemma {:induction false} AllLeave(s: State) returns (steps: seq<Step>, s': State)
    requires Fitting(s)
    ensures IsRun(s, steps, s') && Fitting(s') && s'.locks.readers == {}
    decreases |s.locks.readers|
  {
    if s.locks.readers == {} {
      steps, s' := [], s;
    } else {
      var t :| t in s.locks.readers;
      var mid, rest;
      steps, mid := Leave(s, t);
      rest, s' := AllLeave(mid);
      RunAppend(s, steps, mid, rest, s');
      steps := steps + rest;
    }
  }

  /** With nobody inside, a closer that holds the lock goes on, or some caller takes it. */
  lemma StopFromQuiet(s: State) returns (steps: seq<Step>, s': State)
    requires Fitting(s) && s.locks.readers == {}
    ensures IsRun(s, steps, s') && s'.gate.stopped
  {
    match s.locks.writer
    case Some(t) =>
      assert Stage(s.Pc(t)) > 0 && Closing(s) == 1;
      OneStep(s, CheckClose(t));
      steps, s' := [CheckClose(t)], Do(s, CheckClose(t));
    case None =>
      assert InPlace(CALLER, s.Pc(CALLER)) && !Reading(s.Pc(CALLER));
      OneStep(s, Lock(CALLER));
      var held := Do(s, Lock(CALLER));
      OneStep(held, CheckClose(CALLER));
      s' := Do(held, CheckClose(CALLER));
      RunAppend(s, [Lock(CALLER)], held, [CheckClose(CALLER)], s');
      steps := [Lock(CALLER)] + [CheckClose(CALLER)];
  }

  ghost predicate CanStop(s: State) {
    exists steps, s' :: IsRun(s, steps, s') && s'.gate.stopped
  }

  /** A connection whose flag is down can still be stopped if and only if neither loop has failed in a way that leaves
      the callers inside waiting for it: after a failed write those inside WsWrite fit into the channel, after a failed
      read those inside WsRead find enough messages on theirs. */
  lemma StopsExactlyWhen(s: State)
    requires Inv(s) && !s.gate.stopped
    ensures CanStop(s) <==>
            && (s.Pc(LOOP).LoopFailed? ==> |Sending(s)| + |s.flow.outChan| <= 1000)
            && (s.Pc(READER).ReaderFailed? ==> |Taking(s)| <= |s.inflow.inChan|)
  {
    if Fitting(s) {
      var first, mid := AllLeave(s);
      var rest, s' := StopFromQuiet(mid);
      RunAppend(s, first, mid, rest, s');
    } else {
      forall steps, s' | IsRun(s, steps, s')
        ensures !s'.gate.stopped
      {
        WedgedForever(s, steps, s');
      }
    }
  }

  // ---- Both wedges happen ----

  /** An ordinary disconnect is enough: somebody waits in WsRead, as every terminal session does for its input, and the
      read fails. */
  lemma DisconnectWedges() returns (steps: seq<Step>, s: State)
    ensures IsRun(INITIAL, steps, s) && Wedged(s) && s.flow == INITIAL.flow && Sending(s) == {}
  {
    steps := [RLockRead(CALLER), CheckRead(CALLER), ReadFail];
    s := Do(Do(Do(INITIAL, RLockRead(CALLER)), CheckRead(CALLER)), ReadFail);
    ThreeStepRun(INITIAL, RLockRead(CALLER), CheckRead(CALLER), ReadFail);
    assert CALLER in Taking(s);
  }

  /** The caller `t` is outside any call, nobody holds the lock and nothing was ever stopped. */
  ghost predicate Open(s: State, t: Thread) {
    IsCaller(t) && s.Pc(t).Idle? && s.locks == Locks({}, None) && s.gate == OPEN_GATE
  }

  /** One whole WsWrite call, with room in the channel. */
  lemma WriteOnce(s: State, t: Thread, msg: Message) returns (steps: seq<Step>, s': State)
    requires Open(s, t) && |s.flow.outChan| < CAPACITY
    ensures IsRun(s, steps, s') && Open(s', t) && s'.Pc(LOOP) == s.Pc(LOOP)
    ensures |s'.flow.outChan| == |s.flow.outChan| + 1
  {
    var mid := Do(Do(s, RLock(t, msg)), CheckWrite(t));
    s' := Do(Do(mid, Send(t)), RUnlock(t));
    TwoStepRun(s, RLock(t, msg), CheckWrite(t));
    TwoStepRun(mid, Send(t), RUnlock(t));
    RunAppend(s, [RLock(t, msg), CheckWrite(t)], mid, [Send(t), RUnlock(t)], s');
    steps := [RLock(t, msg), CheckWrite(t)] + [Send(t), RUnlock(t)];
  }

  lemma {:induction false} FillUp(s: State, t: Thread, msg: Message) returns (steps: seq<Step>, s': State)
    requires Open(s, t) && |s.flow.outChan| <= CAPACITY
    ensures IsRun(s, steps, s') && Open(s', t) && s'.Pc(LOOP) == s.Pc(LOOP) && |s'.flow.outChan| == CAPACITY
    decreases CAPACITY - |s.flow.outChan|
  {
    if |s.flow.outChan| == CAPACITY {
      steps, s' := [], s;
    } else {
      var first, mid := WriteOnce(s, t, msg);
      var rest: seq<Step>;
      rest, s' := FillUp(mid, t, msg);
      RunAppend(s, first, mid, rest, s');
      steps := first + rest;
    }
  }

  /** A channel that is full, one more caller past the flag, and only then the failing write. */
  lemma WedgeFromFull(s: State) returns (steps: seq<Step>, s': State)
    requires Open(s, CALLER) && |s.flow.outChan| == CAPACITY && s.Pc(LOOP).LoopWriting?
    ensures IsRun(s, steps, s') && Wedged(s') && WriteWedged(s')
  {
    steps := [RLock(CALLER, "m"), CheckWrite(CALLER), Fail];
    s' := Do(Do(Do(s, RLock(CALLER, "m")), CheckWrite(CALLER)), Fail);
    ThreeStepRun(s, RLock(CALLER, "m"), CheckWrite(CALLER), Fail);
    assert CALLER in Sending(s');
  }

  /** The other wedge is reachable as well: the loop takes a message, the channel fills up, the write fails. */
  lemma WedgeReachable() returns (steps: seq<Step>, s: State)
    ensures IsRun(INITIAL, steps, s) && Wedged(s) && WriteWedged(s)
  {
    var first, s1 := WriteOnce(INITIAL, CALLER, "m");
    var s2 := Do(s1, Receive);
    var fill, s3 := FillUp(s2, CALLER, "m");
    var tail;
    tail, s := WedgeFromFull(s3);
    RunAppend(s2, fill, s3, tail, s);
    var mid := [Receive] + (fill + tail);
    assert mid[0] == Receive && mid[1..] == fill + tail;
    assert IsRun(s1, mid, s);
    RunAppend(INITIAL, first, s1, mid, s);
    steps := first + mid;
  }
}
