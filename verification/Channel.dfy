/**
 The bounded FIFO channel: one mutex, two condition variables, any number of senders and receivers.

 Every critical section is one atomic step. A thread inside a call is `ready` (it holds no lock and
 will run its section), `asleep` (parked on its condition variable), or about to re-check its wait
 condition because it was `notified` or is a `stray` that woke spuriously. The history fields record
 what was pushed, popped and thrown away, so that safety can be stated over a whole run.
 */
module Channel {
  import opened Common

  /** The threads inside one kind of call, by what they are doing there. */
  datatype Waiters = Waiters(ready: set<nat>, asleep: set<nat>, notified: set<nat>, stray: set<nat>) {

    ghost predicate Inside(t: nat) { t in ready || t in asleep || t in notified || t in stray }

    ghost predicate Empty() { ready == {} && asleep == {} && notified == {} && stray == {} }

    ghost predicate Valid() { asleep !! notified }

    /** Threads that will run their critical section without being notified first. */
    ghost predicate Runnable(t: nat) { t in ready || t in notified || t in stray }

    ghost function Enter(t: nat): Waiters { this.(ready := ready + {t}) }

    ghost function Leave(t: nat): Waiters { Waiters(ready - {t}, asleep - {t}, notified - {t}, stray - {t}) }

    ghost function Sleep(t: nat): Waiters { Waiters(ready - {t}, asleep + {t}, notified - {t}, stray - {t}) }

    ghost function Wake(who: set<nat>): Waiters { this.(asleep := asleep - who, notified := notified + who) }

    /** A spurious wakeup pays nobody's debt: the thread is not counted among the notified. */
    ghost function Stir(t: nat): Waiters { this.(asleep := asleep - {t}, stray := stray + {t}) }

    /** `notify_one` wakes some sleeper when there is one and is lost otherwise. */
    ghost predicate Notifies(wake: Option<nat>) {
      match wake
      case None => asleep == {}
      case Some(t) => t in asleep
    }

    /** Sleepers are owed nothing: `need` notified others are already on their way. */
    ghost predicate Covers(need: int) { asleep != {} ==> |notified| >= need }
  }

  function Nobody(): Waiters { Waiters({}, {}, {}, {}) }

  ghost function Chosen(wake: Option<nat>): set<nat> {
    match wake
    case None => {}
    case Some(t) => {t}
  }

  datatype State<T> = State(
    capacity: nat,
    queue: seq<T>,
    sendersOpen: bool,
    receiversOpen: bool,
    senders: Waiters,
    carried: map<nat, T>,
    receivers: Waiters,
    timed: set<nat>,
    sent: seq<T>,
    received: seq<T>,
    discarded: seq<T>)

  /** `wake` is the sleeping thread that `notify_one` happens to choose, if any sleeps. */
  datatype Step<T> =
    | CallSend(thread: nat, value: T)
    | RunSend(thread: nat, wake: Option<nat>)
    | CallRecv(thread: nat, hasDeadline: bool)
    | RunRecv(thread: nat, wake: Option<nat>)
    | Expire(thread: nat, wake: Option<nat>)
    | SpuriousSend(thread: nat)
    | SpuriousRecv(thread: nat)
    | DropLastSender
    | DropLastReceiver

  /** `bounded`: rendezvous channels are refused. */
  function Bounded<T>(capacity: nat): (r: Result<State<T>>) {
    if capacity == 0 then Err(InvalidInput)
    else Ok(State(capacity, [], true, true, Nobody(), map[], Nobody(), {}, [], [], []))
  }

  ghost predicate MustWaitToSend<T>(s: State<T>) { s.receiversOpen && |s.queue| == s.capacity }

  ghost predicate MustWaitToRecv<T>(s: State<T>) { s.sendersOpen && s.queue == [] }

  /** `push_back` and `notify_one` on `readable`. */
  ghost function Push<T>(s: State<T>, value: T, wake: Option<nat>): State<T> {
    s.(queue := s.queue + [value], sent := s.sent + [value], receivers := s.receivers.Wake(Chosen(wake)))
  }

  /** `pop_front` and `notify_one` on `writable`; an empty queue notifies nobody. */
  ghost function Pop<T>(s: State<T>, wake: Option<nat>): State<T> {
    if s.queue == [] then s
    else s.(
         queue := s.queue[1..],
         received := s.received + [s.queue[0]],
         senders := s.senders.Wake(Chosen(wake)))
  }

  ghost predicate PopNotifies<T>(s: State<T>, wake: Option<nat>) {
    if s.queue == [] then wake == None else s.senders.Notifies(wake)
  }

  ghost predicate Enabled<T>(s: State<T>, step: Step<T>) {
    match step
    case CallSend(t, _) => s.sendersOpen && !s.senders.Inside(t)
    case RunSend(t, wake) =>
      && s.senders.Runnable(t)
      && (if MustWaitToSend(s) || !s.receiversOpen then wake == None else s.receivers.Notifies(wake))
    case CallRecv(t, _) => s.receiversOpen && !s.receivers.Inside(t)
    case RunRecv(t, wake) =>
      && s.receivers.Runnable(t)
      && (if MustWaitToRecv(s) then wake == None else PopNotifies(s, wake))
    case Expire(t, wake) => s.receivers.Inside(t) && t in s.timed && PopNotifies(s, wake)
    case SpuriousSend(t) => t in s.senders.asleep
    case SpuriousRecv(t) => t in s.receivers.asleep
    // A thread inside a call borrows its handle, so the last handle cannot be dropped meanwhile.
    case DropLastSender => s.sendersOpen && s.senders.Empty()
    case DropLastReceiver => s.receiversOpen && s.receivers.Empty()
  }

  ghost function SendSection<T>(s: State<T>, t: nat, wake: Option<nat>): State<T> {
    if MustWaitToSend(s) then s.(senders := s.senders.Sleep(t))
    else
      var out := s.(senders := s.senders.Leave(t));
      if !s.receiversOpen || t !in s.carried then out else Push(out, s.carried[t], wake)
  }

  ghost function RecvSection<T>(s: State<T>, t: nat, wake: Option<nat>): State<T> {
    Pop(s.(receivers := s.receivers.Leave(t)), wake)
  }

  ghost function Apply<T>(s: State<T>, step: Step<T>): State<T> {
    match step
    case CallSend(t, v) => s.(senders := s.senders.Enter(t), carried := s.carried[t := v])
    case RunSend(t, wake) => SendSection(s, t, wake)
    case CallRecv(t, hasDeadline) =>
      s.(receivers := s.receivers.Enter(t),
         timed := if hasDeadline then s.timed + {t} else s.timed - {t})
    case RunRecv(t, wake) =>
      if MustWaitToRecv(s) then s.(receivers := s.receivers.Sleep(t)) else RecvSection(s, t, wake)
    case Expire(t, wake) => RecvSection(s, t, wake)
    case SpuriousSend(t) => s.(senders := s.senders.Stir(t))
    case SpuriousRecv(t) => s.(receivers := s.receivers.Stir(t))
    case DropLastSender => s.(sendersOpen := false, receivers := s.receivers.Wake(s.receivers.asleep))
    case DropLastReceiver =>
      s.(receiversOpen := false, queue := [], discarded := s.discarded + s.queue,
         senders := s.senders.Wake(s.senders.asleep))
  }

  /** Every finite interleaving: each step is enabled where it is taken. */
  ghost predicate Run<T>(s: State<T>, steps: seq<Step<T>>, end: State<T>)
    decreases |steps|
  {
    if steps == [] then s == end
    else Enabled(s, steps[0]) && Run(Apply(s, steps[0]), steps[1..], end)
  }

  /** Nothing is lost, duplicated or reordered, and the bound is never exceeded. */
  ghost predicate Conserves<T>(s: State<T>) {
    && s.sent == s.received + s.discarded + s.queue
    && |s.queue| <= s.capacity
    && (if s.receiversOpen then s.discarded == [] else s.queue == [])
  }

  /** No lost wakeup, on both condition variables. */
  ghost predicate Awake<T>(s: State<T>) {
    && (s.receivers.asleep != {} ==> s.sendersOpen)
    && (s.senders.asleep != {} ==> s.receiversOpen)
    && s.receivers.Covers(|s.queue|)
    && s.senders.Covers(s.capacity - |s.queue|)
  }

  ghost predicate WellFormed<T>(s: State<T>) {
    && s.capacity > 0
    && s.senders.Valid()
    && s.receivers.Valid()
    && (forall t :: s.senders.Inside(t) ==> t in s.carried)
  }

  ghost predicate Inv<T>(s: State<T>) { WellFormed(s) && Conserves(s) && Awake(s) }

  lemma NotifyCovers(w: Waiters, wake: Option<nat>, need: int)
    requires w.Valid() && w.Covers(need) && w.Notifies(wake)
    ensures w.Wake(Chosen(wake)).Covers(need + 1)
    ensures w.Wake(Chosen(wake)).Valid()
    ensures forall t :: w.Wake(Chosen(wake)).Inside(t) ==> w.Inside(t)
  {
    if wake.Some? {
      assert w.Wake(Chosen(wake)).notified == w.notified + {wake.value};
    }
  }

  lemma LeaveCovers(w: Waiters, t: nat, need: int)
    requires w.Valid() && w.Covers(need)
    ensures w.Leave(t).Covers(need - 1)
    ensures t !in w.notified ==> w.Leave(t).Covers(need)
    ensures w.Leave(t).Valid()
  {
    if t in w.notified {
      assert w.notified == w.Leave(t).notified + {t};
    } else {
      assert w.notified == w.Leave(t).notified;
    }
  }

  /** A push spends one free slot and owes the receivers one wakeup, which `notify_one` pays. */
  lemma PushKeepsInv<T>(s: State<T>, value: T, wake: Option<nat>, s': State<T>)
    requires WellFormed(s) && Conserves(s) && s' == Push(s, value, wake)
    requires s.receiversOpen && |s.queue| < s.capacity && s.receivers.Notifies(wake)
    requires s.receivers.asleep != {} ==> s.sendersOpen
    requires s.receivers.Covers(|s.queue|) && s.senders.Covers(s.capacity - |s.queue| - 1)
    ensures Inv(s')
  {
    NotifyCovers(s.receivers, wake, |s.queue|);
    assert s'.sent == s'.received + s'.discarded + s'.queue;
  }

  lemma SendLeavesReady<T>(s: State<T>, t: nat, out: State<T>)
    requires Inv(s) && !MustWaitToSend(s) && out == s.(senders := s.senders.Leave(t))
    ensures WellFormed(out) && Conserves(out)
    ensures out.senders.asleep != {} ==> out.receiversOpen
    ensures out.senders.Covers(s.capacity - |s.queue| - 1)
  {
    LeaveCovers(s.senders, t, s.capacity - |s.queue|);
  }

  lemma SendKeepsInv<T>(s: State<T>, t: nat, wake: Option<nat>, s': State<T>)
    requires Inv(s) && Enabled(s, RunSend(t, wake)) && s' == SendSection(s, t, wake)
    ensures Inv(s')
  {
    if !MustWaitToSend(s) {
      var out := s.(senders := s.senders.Leave(t));
      SendLeavesReady(s, t, out);
      if s.receiversOpen {
        PushKeepsInv(out, s.carried[t], wake, s');
      }
    }
  }

  lemma RecvKeepsInv<T>(s: State<T>, t: nat, wake: Option<nat>, s': State<T>)
    requires Inv(s) && PopNotifies(s, wake) && s' == RecvSection(s, t, wake)
    ensures Inv(s')
  {
    LeaveCovers(s.receivers, t, |s.queue|);
    if s.queue != [] {
      NotifyCovers(s.senders, wake, s.capacity - |s.queue|);
      assert s.queue == [s.queue[0]] + s.queue[1..];
    }
  }

  lemma BookkeepingKeepsInv<T>(s: State<T>, step: Step<T>, s': State<T>)
    requires Inv(s) && Enabled(s, step) && s' == Apply(s, step)
    requires !step.RunSend? && !step.Expire? && (step.RunRecv? ==> MustWaitToRecv(s))
    ensures Inv(s')
  {
    match step {
      case SpuriousSend(t) => assert s'.senders.notified == s.senders.notified;
      case SpuriousRecv(t) => assert s'.receivers.notified == s.receivers.notified;
      case _ =>
    }
  }

  lemma StepKeepsInv<T>(s: State<T>, step: Step<T>, s': State<T>)
    requires Inv(s) && Enabled(s, step) && s' == Apply(s, step)
    ensures Inv(s') && s'.capacity == s.capacity
  {
    if step.RunSend? {
      SendKeepsInv(s, step.thread, step.wake, s');
    } else if step.Expire? || (step.RunRecv? && !MustWaitToRecv(s)) {
      RecvKeepsInv(s, step.thread, step.wake, s');
    } else {
      BookkeepingKeepsInv(s, step, s');
    }
  }

  lemma {:induction false} RunKeepsInv<T>(s: State<T>, steps: seq<Step<T>>, end: State<T>)
    requires Inv(s) && Run(s, steps, end)
    ensures Inv(end) && end.capacity == s.capacity
    decreases |steps|
  {
    if steps != [] {
      var next := Apply(s, steps[0]);
      StepKeepsInv(s, steps[0], next);
      RunKeepsInv(next, steps[1..], end);
    }
  }

  // ---------------------------------------------------------------- what each call does

  /** The critical section of a send: it waits, gives up on a closed channel, or puts its own value at the end. */
  lemma SendStep<T>(s: State<T>, t: nat, wake: Option<nat>, s': State<T>)
    requires Inv(s) && Enabled(s, RunSend(t, wake)) && s' == Apply(s, RunSend(t, wake))
    ensures s.receiversOpen && |s.queue| == s.capacity ==>
      s' == s.(senders := s.senders.Sleep(t))
    ensures !s.receiversOpen ==>
      s' == s.(senders := s.senders.Leave(t))
    ensures s.receiversOpen && |s.queue| < s.capacity ==>
      && s'.queue == s.queue + [s.carried[t]] && s'.sent == s.sent + [s.carried[t]]
      && s'.senders == s.senders.Leave(t) && !s'.senders.Inside(t)
      && s'.received == s.received && s'.discarded == s.discarded
      && (s.receivers.asleep != {} ==> wake.Some? && wake.value in s'.receivers.notified - s'.receivers.asleep)
  {
  }

  /** The critical section of a receive: it waits, finds the closed channel empty, or takes the oldest value. */
  lemma RecvStep<T>(s: State<T>, t: nat, wake: Option<nat>, s': State<T>)
    requires Inv(s) && Enabled(s, RunRecv(t, wake)) && s' == Apply(s, RunRecv(t, wake))
    ensures s.sendersOpen && s.queue == [] ==> s' == s.(receivers := s.receivers.Sleep(t))
    ensures !s.sendersOpen && s.queue == [] ==> s' == s.(receivers := s.receivers.Leave(t))
    ensures s.queue != [] ==> TakesOldest(s, t, wake, s')
  {
  }

  ghost predicate TakesOldest<T>(s: State<T>, t: nat, wake: Option<nat>, s': State<T>)
    requires s.queue != []
  {
    && s'.received == s.received + [s.queue[0]] && s'.queue == s.queue[1..]
    && s'.receivers == s.receivers.Leave(t) && !s'.receivers.Inside(t)
    && s'.sent == s.sent && s'.discarded == s.discarded
    && (s.senders.asleep != {} ==> wake.Some? && wake.value in s.senders.asleep && wake.value in s'.senders.notified)
  }

  /** A receive that runs out of time still takes a value that is there. */
  lemma ExpireStep<T>(s: State<T>, t: nat, wake: Option<nat>, s': State<T>)
    requires Inv(s) && Enabled(s, Expire(t, wake)) && s' == Apply(s, Expire(t, wake))
    ensures s.queue == [] ==> s' == s.(receivers := s.receivers.Leave(t))
    ensures s.queue != [] ==> TakesOldest(s, t, wake, s')
  {
  }

  /** A call enters with its own value or deadline and changes nothing else. */
  lemma CallStep<T>(s: State<T>, t: nat, v: T, hasDeadline: bool)
    requires Inv(s)
    ensures Enabled(s, CallSend(t, v)) <==> s.sendersOpen && !s.senders.Inside(t)
    ensures var sending := Apply(s, CallSend(t, v));
            && sending.senders == s.senders.Enter(t) && t in sending.senders.ready
            && sending.carried == s.carried[t := v]
            && sending == s.(senders := sending.senders, carried := sending.carried)
    ensures Enabled(s, CallRecv(t, hasDeadline)) <==> s.receiversOpen && !s.receivers.Inside(t)
    ensures var receiving := Apply(s, CallRecv(t, hasDeadline));
            && t in receiving.receivers.ready && (t in receiving.timed <==> hasDeadline)
            && receiving.queue == s.queue && receiving.senders == s.senders
  {
  }

  /** A new channel is open, empty and unused; one without capacity is refused. */
  lemma BoundedStarts<T>(capacity: nat)
    ensures Bounded<T>(capacity).Ok? <==> capacity > 0
    ensures capacity > 0 ==>
      var s := Bounded<T>(capacity).value;
      && s.capacity == capacity && s.queue == [] && s.sendersOpen && s.receiversOpen
      && s.senders.Empty() && s.receivers.Empty() && s.sent == s.received == s.discarded == []
  {
  }

  /** Dropping the last handle of a side closes it for good and wakes the whole other side. */
  lemma DropStep<T>(s: State<T>, s': State<T>)
    requires Inv(s)
    ensures Enabled(s, DropLastSender) && s' == Apply(s, DropLastSender) ==>
      && !s'.sendersOpen && s'.receivers.asleep == {} && s.receivers.asleep <= s'.receivers.notified
      && s'.queue == s.queue && s'.receiversOpen == s.receiversOpen
    ensures Enabled(s, DropLastReceiver) && s' == Apply(s, DropLastReceiver) ==>
      && !s'.receiversOpen && s'.senders.asleep == {} && s.senders.asleep <= s'.senders.notified
      && s'.queue == [] && s'.discarded == s.discarded + s.queue && s'.sendersOpen == s.sendersOpen
  {
  }

  /** The value of the last send call of each thread, read off the steps alone. */
  ghost function Called<T>(calls: map<nat, T>, step: Step<T>): map<nat, T> {
    if step.CallSend? then calls[step.thread := step.value] else calls
  }

  /** A send completes where there is room on an open channel. */
  ghost predicate Completes<T>(s: State<T>, step: Step<T>) {
    step.RunSend? && s.receiversOpen && |s.queue| < s.capacity
  }

  ghost function SentBy<T>(s: State<T>, calls: map<nat, T>, step: Step<T>): seq<T> {
    if Completes(s, step) && step.thread in calls then [calls[step.thread]] else []
  }

  ghost function TakenBy<T>(s: State<T>, step: Step<T>): seq<T> {
    if (step.RunRecv? || step.Expire?) && s.queue != [] then [s.queue[0]] else []
  }

  /** The values of the completed sends of a run, each as its own call gave it. */
  ghost function Completed<T>(s: State<T>, calls: map<nat, T>, steps: seq<Step<T>>): seq<T>
    decreases |steps|
  {
    if steps == [] then []
    else SentBy(s, calls, steps[0]) + Completed(Apply(s, steps[0]), Called(calls, steps[0]), steps[1..])
  }

  /** The values handed out by the receives of a run: at each, the oldest one there was. */
  ghost function HandedOut<T>(s: State<T>, steps: seq<Step<T>>): seq<T>
    decreases |steps|
  {
    if steps == [] then [] else TakenBy(s, steps[0]) + HandedOut(Apply(s, steps[0]), steps[1..])
  }

  /** Threads inside a send carry the value of their own call. */
  ghost predicate CarriesCalls<T>(s: State<T>, calls: map<nat, T>) {
    forall t :: s.senders.Inside(t) ==> t in calls && t in s.carried && s.carried[t] == calls[t]
  }

  lemma StepCarries<T>(s: State<T>, calls: map<nat, T>, step: Step<T>, s': State<T>)
    requires Inv(s) && CarriesCalls(s, calls) && Enabled(s, step) && s' == Apply(s, step)
    ensures CarriesCalls(s', Called(calls, step))
  {
    assert forall t :: s'.senders.Inside(t) ==> s.senders.Inside(t) || (step.CallSend? && t == step.thread);
  }

  lemma StepSends<T>(s: State<T>, calls: map<nat, T>, step: Step<T>, s': State<T>)
    requires Inv(s) && CarriesCalls(s, calls) && Enabled(s, step) && s' == Apply(s, step)
    ensures s'.sent == s.sent + SentBy(s, calls, step) && s'.received == s.received + TakenBy(s, step)
  {
    if step.RunSend? {
      assert s.senders.Inside(step.thread);
    }
  }

  lemma {:induction false} RunSends<T>(s: State<T>, calls: map<nat, T>, steps: seq<Step<T>>, end: State<T>)
    requires Inv(s) && CarriesCalls(s, calls) && Run(s, steps, end)
    ensures end.sent == s.sent + Completed(s, calls, steps)
    decreases |steps|
  {
    if steps != [] {
      var step, rest, next := steps[0], steps[1..], Apply(s, steps[0]);
      StepKeepsInv(s, step, next);
      StepCarries(s, calls, step, next);
      StepSends(s, calls, step, next);
      RunSends(next, Called(calls, step), rest, end);
      InThree(s.sent, SentBy(s, calls, step), Completed(next, Called(calls, step), rest));
    }
  }

  lemma {:induction false} RunReceives<T>(s: State<T>, calls: map<nat, T>, steps: seq<Step<T>>, end: State<T>)
    requires Inv(s) && CarriesCalls(s, calls) && Run(s, steps, end)
    ensures end.received == s.received + HandedOut(s, steps)
    decreases |steps|
  {
    if steps != [] {
      var step, rest, next := steps[0], steps[1..], Apply(s, steps[0]);
      StepKeepsInv(s, step, next);
      StepCarries(s, calls, step, next);
      StepSends(s, calls, step, next);
      RunReceives(next, Called(calls, step), rest, end);
      InThree(s.received, TakenBy(s, step), HandedOut(next, rest));
    }
  }

  lemma InThree<T>(a: seq<T>, b: seq<T>, c: seq<T>)
    ensures (a + b) + c == a + (b + c)
  {
  }

  /**
   Channel safety: in every interleaving from a fresh channel, what was sent are the values of the completed
   sends, each its own call's; what was received are the oldest values in turn; FIFO conservation and the
   bound hold.
   */
  lemma ChannelSafety<T>(capacity: nat, steps: seq<Step<T>>, end: State<T>)
    requires capacity > 0 && Run(Bounded<T>(capacity).value, steps, end)
    ensures end.sent == end.received + end.discarded + end.queue
    ensures |end.queue| <= capacity
    ensures if end.receiversOpen then end.discarded == [] else end.queue == []
    ensures end.sent == Completed(Bounded<T>(capacity).value, map[], steps)
    ensures end.received == HandedOut(Bounded<T>(capacity).value, steps)
  {
    RunKeepsInv(Bounded<T>(capacity).value, steps, end);
    RunSends(Bounded<T>(capacity).value, map[], steps, end);
    RunReceives(Bounded<T>(capacity).value, map[], steps, end);
  }

  /** No lost wakeup, in counting form: sleepers are covered by threads that were notified and have
   yet to run. Threads that woke by themselves do not count. */
  lemma NoLostWakeup<T>(capacity: nat, steps: seq<Step<T>>, end: State<T>)
    requires capacity > 0 && Run(Bounded<T>(capacity).value, steps, end)
    ensures end.receivers.asleep != {} ==> end.sendersOpen && |end.receivers.notified| >= |end.queue|
    ensures end.senders.asleep != {} ==> end.receiversOpen && |end.senders.notified| >= capacity - |end.queue|
  {
    RunKeepsInv(Bounded<T>(capacity).value, steps, end);
  }

  /** Some thread inside the channel can take its critical section. */
  ghost predicate SomeoneCanRun<T>(s: State<T>) {
    || (exists t, wake :: Enabled(s, RunSend(t, wake)))
    || (exists t, wake :: Enabled(s, RunRecv(t, wake)))
  }

  lemma RunnableCanRun<T>(s: State<T>, t: nat)
    requires s.receivers.Runnable(t) || s.senders.Runnable(t)
    ensures SomeoneCanRun(s)
  {
    var send := s.senders.Runnable(t);
    var sleepers := if send then s.receivers.asleep else s.senders.asleep;
    var quiet := if send then MustWaitToSend(s) || !s.receiversOpen else MustWaitToRecv(s) || s.queue == [];
    var wake: Option<nat> := None;
    if !quiet && sleepers != {} {
      var w :| w in sleepers;
      wake := Some(w);
    }
    assert Enabled(s, if send then RunSend(t, wake) else RunRecv(t, wake));
  }

  /**
   The channel never wedges itself: whenever every thread inside it is asleep, the wait is genuine
   (receivers face an empty open queue, senders a full open one), and a sender and a receiver are
   never both stranded.
   */
  lemma NoStrandedThreads<T>(capacity: nat, steps: seq<Step<T>>, end: State<T>)
    requires capacity > 0 && Run(Bounded<T>(capacity).value, steps, end)
    ensures !end.receivers.Empty() && (end.queue != [] || !end.sendersOpen) ==> SomeoneCanRun(end)
    ensures !end.senders.Empty() && (|end.queue| < capacity || !end.receiversOpen) ==> SomeoneCanRun(end)
    ensures !end.senders.Empty() && !end.receivers.Empty() ==> SomeoneCanRun(end)
  {
    RunKeepsInv(Bounded<T>(capacity).value, steps, end);
    if t :| end.receivers.Runnable(t) || end.senders.Runnable(t) {
      RunnableCanRun(end, t);
    } else {
      NobodyRunnable(end.receivers);
      NobodyRunnable(end.senders);
    }
  }

  lemma NobodyRunnable(w: Waiters)
    requires forall t :: !w.Runnable(t)
    ensures w.ready == {} && w.notified == {} && w.stray == {}
  {
    if t :| t in w.ready || t in w.notified || t in w.stray {
      assert w.Runnable(t);
    }
  }
}
