/**
 The parallel source supervisor: one parent polls child writer processes, gives each idle child one
 source at a time and collects one outcome per source.

 The parent's view of a child is its `state`; the `link` is the rest: the one-slot mailbox, what the
 child itself is doing, and the messages it has sent. Children move on their own between any two
 actions of the parent, may die or be interrupted at any moment, and only ever touch the temporary
 cache of the source they were given. What the outside does with a source (whether it can be pickled,
 whether its destination can be checked, what the native writer reports) is part of the source. In a
 `calm` run no child dies, is interrupted or misses its deadline, and all can be started and stopped.
 */
module Supervisor {
  import opened Common

  type Name = nat

  /** What an outcome is labelled with: a source name, or a position when the name cannot be used. */
  datatype Label = Named(name: Name) | Position(index: nat)

  /** Why the pool as a whole cannot go on. */
  datatype Cause = Unstarted | ChildFailed | Exited | TimedOut | ProtocolViolation

  datatype Why =
    | Unusable
    | Duplicate
    | Unserializable
    | Unreachable
    | Unowned
    | FromWriter(text: nat)
    | PoolStopped(cause: Cause)

  /** `base` is the directory a success reports. */
  datatype CacheResult = Success(subject: Label, base: nat) | Failure(subject: Label, why: Why)

  /** What the native writer says about a source it was given. */
  datatype Verdict = Wrote(base: nat) | Rejected(text: nat)

  /** A source, with what becomes of it outside the supervisor. */
  datatype Source = Source(name: Name, serializes: bool, reachable: bool, verdict: Verdict)

  /** A source job, or the error that stands in its place. */
  datatype Job = Job(source: Source) | Refused(error: CacheResult)

  /** The result a child reports for a source: the native writer's own. */
  function WriterResult(source: Source): CacheResult {
    match source.verdict
    case Wrote(base) => Success(Named(source.name), base)
    case Rejected(text) => Failure(Named(source.name), FromWriter(text))
  }

  /** A source that can be handed to a child: nobody else's temporary stands in its way. */
  predicate Dispatchable(source: Source, foreign: set<Name>) {
    source.serializes && source.reachable && source.name !in foreign
  }

  /** What a job must come to in a run that reaches it, stated without workers, order or time. */
  function Expected(job: Job, foreign: set<Name>): CacheResult {
    match job
    case Refused(error) => error
    case Job(source) =>
      if !source.serializes then Failure(Named(source.name), Unserializable)
      else if !source.reachable then Failure(Named(source.name), Unreachable)
      else if source.name in foreign then Failure(Named(source.name), Unowned)
      else WriterResult(source)
  }

  datatype Message = Ready | Finished(result: CacheResult) | Interrupted | Failed

  datatype State = Starting(deadline: nat) | Idle | Active(index: nat, deadline: nat)

  datatype Child = Booting | Waiting | Working(index: nat) | Dead

  datatype Link = Link(mailbox: Option<nat>, child: Child, pipe: seq<Message>)

  /** Why supervision stopped early: a failed pool, or an interrupt that propagates. */
  datatype Stop = PoolFailed(cause: Cause) | Raised

  // ---------------------------------------------------------------- one worker

  /** Only a child's last words: it sends nothing after them. */
  ghost predicate LastWords(pipe: seq<Message>) {
    forall k :: 0 <= k < |pipe| ==> pipe[k].Interrupted? || pipe[k].Failed?
  }

  ghost predicate IsResultOf(jobs: seq<Job>, i: nat, m: Message) {
    i < |jobs| && jobs[i].Job? && m == Finished(WriterResult(jobs[i].source))
  }

  ghost predicate StartingInv(link: Link) {
    && link.mailbox.None?
    && match link.child
       case Booting => link.pipe == []
       case Waiting => link.pipe == [Ready]
       case Working(_) => false
       case Dead => LastWords(link.pipe) || (link.pipe[0] == Ready && LastWords(link.pipe[1..]))
  }

  /** An idle worker has an empty mailbox and no result on the way. */
  ghost predicate IdleInv(link: Link) {
    && link.mailbox.None?
    && (link.child.Waiting? || link.child.Dead?)
    && (link.child.Waiting? ==> link.pipe == [])
    && LastWords(link.pipe)
  }

  /** The one job of an active worker is in its mailbox, at work, finished, or lost with the child. */
  ghost predicate ActiveInv(jobs: seq<Job>, i: nat, link: Link) {
    && i < |jobs| && jobs[i].Job?
    && (link.mailbox.Some? ==> link.mailbox.value == i && LastWords(link.pipe))
    && match link.child
       case Booting => false
       case Waiting =>
         if link.mailbox.Some? then link.pipe == [] else |link.pipe| == 1 && IsResultOf(jobs, i, link.pipe[0])
       case Working(j) => j == i && link.mailbox.None? && link.pipe == []
       case Dead => LastWords(link.pipe) || (IsResultOf(jobs, i, link.pipe[0]) && LastWords(link.pipe[1..]))
  }

  ghost predicate LinkInv(jobs: seq<Job>, state: State, link: Link) {
    match state
    case Starting(_) => StartingInv(link)
    case Idle => IdleInv(link)
    case Active(i, _) => ActiveInv(jobs, i, link)
  }

  /** A live child that has, or is about to take, job `i`. */
  ghost predicate Writes(link: Link, i: nat) {
    link.child == Working(i) || (link.mailbox == Some(i) && !link.child.Dead?)
  }

  // ---------------------------------------------------------------- what a child may do next

  datatype ChildStep = Boot | Take | Finish | Interrupt | Reject | Die

  predicate ChildCan(jobs: seq<Job>, link: Link, step: ChildStep) {
    match step
    case Boot => link.child.Booting?
    case Take => link.child.Waiting? && link.mailbox.Some?
    case Finish => link.child.Working? && link.child.index < |jobs| && jobs[link.child.index].Job?
    case Reject => link.child.Waiting? && link.mailbox.Some?
    case Interrupt => !link.child.Dead?
    case Die => !link.child.Dead?
  }

  function ChildDoes(jobs: seq<Job>, link: Link, step: ChildStep): Link
    requires ChildCan(jobs, link, step)
  {
    match step
    case Boot => link.(child := Waiting, pipe := link.pipe + [Ready])
    case Take => link.(child := Working(link.mailbox.value), mailbox := None)
    case Finish =>
      link.(child := Waiting, pipe := link.pipe + [Finished(WriterResult(jobs[link.child.index].source))])
    case Reject => Link(None, Dead, link.pipe + [Failed])
    case Interrupt => link.(child := Dead, pipe := link.pipe + [Message.Interrupted])
    case Die => link.(child := Dead)
  }

  lemma ChildKeepsInv(jobs: seq<Job>, state: State, link: Link, step: ChildStep)
    requires LinkInv(jobs, state, link) && ChildCan(jobs, link, step)
    ensures LinkInv(jobs, state, ChildDoes(jobs, link, step))
    ensures forall i :: Writes(ChildDoes(jobs, link, step), i) ==> Writes(link, i)
  {
  }

  lemma WritesIsActive(jobs: seq<Job>, state: State, link: Link, i: nat)
    requires LinkInv(jobs, state, link) && Writes(link, i)
    ensures state.Active? && state.index == i
  {
  }

  // ---------------------------------------------------------------- all workers

  ghost predicate DistinctNames(jobs: seq<Job>) {
    forall i, j :: 0 <= i < j < |jobs| && jobs[i].Job? && jobs[j].Job? ==> jobs[i].source.name != jobs[j].source.name
  }

  ghost predicate Holds(states: seq<State>, w: int, i: int) {
    0 <= w < |states| && states[w].Active? && states[w].index == i
  }

  /** Every link fits its worker's state, and no job is held twice. */
  ghost predicate Exclusive(jobs: seq<Job>, states: seq<State>, links: seq<Link>) {
    && |states| == |links|
    && (forall w :: 0 <= w < |states| ==> LinkInv(jobs, states[w], links[w]))
    && (forall v, w, i :: Holds(states, v, i) && Holds(states, w, i) ==> v == w)
  }

  /**
   Job indices are split between recorded outcomes, active workers and those not taken yet; and each
   recorded outcome is the one its job must come to.
   */
  ghost predicate Ledger(
    jobs: seq<Job>, foreign: set<Name>, states: seq<State>, outcomes: map<nat, CacheResult>, next: nat) {
    && next <= |jobs|
    && (forall i :: i in outcomes ==> i < next && outcomes[i] == Expected(jobs[i], foreign))
    && (forall w, i :: Holds(states, w, i) ==> i < next && i !in outcomes)
    && (forall i :: 0 <= i < next ==> i in outcomes || exists w :: Holds(states, w, i))
  }

  /** Temporary caches are either foreign, and then left alone, or belong to an active worker's source. */
  ghost predicate Temporaries(jobs: seq<Job>, states: seq<State>, temps: set<Name>, foreign: set<Name>) {
    && foreign <= temps
    && (forall w, i :: Holds(states, w, i) ==> i < |jobs| && jobs[i].Job? && Dispatchable(jobs[i].source, foreign))
    && (forall t :: t in temps && t !in foreign ==> exists w, i :: OwnsTemp(jobs, states, w, i, t))
  }

  ghost predicate OwnsTemp(jobs: seq<Job>, states: seq<State>, w: int, i: int, t: Name) {
    Holds(states, w, i) && i < |jobs| && jobs[i].Job? && jobs[i].source.name == t
  }

  /** No two active workers write to the same temporary. */
  lemma TemporariesDisjoint(
    jobs: seq<Job>, states: seq<State>, links: seq<Link>, v: nat, w: nat, i: nat, j: nat, t: Name)
    requires DistinctNames(jobs) && Exclusive(jobs, states, links)
    requires OwnsTemp(jobs, states, v, i, t) && OwnsTemp(jobs, states, w, j, t)
    ensures v == w && i == j
  {
    assert i < j || j < i || i == j;
  }

  /** Once a worker's child no longer writes its job, nobody does. */
  lemma NobodyWrites(jobs: seq<Job>, states: seq<State>, links: seq<Link>, w: nat, i: nat)
    requires Exclusive(jobs, states, links) && Holds(states, w, i) && !Writes(links[w], i)
    ensures forall v :: 0 <= v < |links| ==> !Writes(links[v], i)
  {
    forall v | 0 <= v < |links|
      ensures !Writes(links[v], i)
    {
      if Writes(links[v], i) {
        WritesIsActive(jobs, states[v], links[v], i);
        assert Holds(states, v, i);
      }
    }
  }

  /** A worker goes idle: its link must fit, and exclusivity survives. */
  lemma ReleaseKeepsExclusive(jobs: seq<Job>, states: seq<State>, links: seq<Link>, w: nat, link: Link)
    requires Exclusive(jobs, states, links) && w < |states| && IdleInv(link)
    ensures Exclusive(jobs, states[w := Idle], links[w := link])
  {
    var states' := states[w := Idle];
    assert forall v, i :: Holds(states', v, i) ==> Holds(states, v, i);
  }

  lemma FinishKeepsLedger(
    jobs: seq<Job>, foreign: set<Name>, states: seq<State>, links: seq<Link>, outcomes: map<nat, CacheResult>,
    next: nat, w: nat, i: nat, result: CacheResult)
    requires Exclusive(jobs, states, links) && Ledger(jobs, foreign, states, outcomes, next) && Holds(states, w, i)
    requires result == Expected(jobs[i], foreign)
    ensures Ledger(jobs, foreign, states[w := Idle], outcomes[i := result], next)
  {
    var states', outcomes' := states[w := Idle], outcomes[i := result];
    forall v, j | Holds(states', v, j)
      ensures j < next && j !in outcomes'
    {
      assert Holds(states, v, j);
    }
    forall j | 0 <= j < next
      ensures j in outcomes' || exists v :: Holds(states', v, j)
    {
      if j !in outcomes' {
        var v :| Holds(states, v, j);
        assert Holds(states', v, j);
      }
    }
  }

  lemma ReadyKeepsLedger(
    jobs: seq<Job>, foreign: set<Name>, states: seq<State>, outcomes: map<nat, CacheResult>, next: nat, w: nat)
    requires Ledger(jobs, foreign, states, outcomes, next) && w < |states| && !states[w].Active?
    ensures Ledger(jobs, foreign, states[w := Idle], outcomes, next)
  {
    var states' := states[w := Idle];
    forall j | 0 <= j < next
      ensures j in outcomes || exists v :: Holds(states', v, j)
    {
      if j !in outcomes {
        var v :| Holds(states, v, j);
        assert Holds(states', v, j);
      }
    }
    assert forall v, i :: Holds(states', v, i) ==> Holds(states, v, i);
  }

  /** Cleaning up the temporary of a worker that goes idle. */
  lemma CleanupKeepsTemporaries(
    jobs: seq<Job>, states: seq<State>, temps: set<Name>, foreign: set<Name>, w: nat, i: nat)
    requires DistinctNames(jobs) && Temporaries(jobs, states, temps, foreign) && Holds(states, w, i)
    ensures Temporaries(jobs, states[w := Idle], temps - {jobs[i].source.name}, foreign)
  {
    var states', temps' := states[w := Idle], temps - {jobs[i].source.name};
    forall v, j | Holds(states', v, j)
      ensures j < |jobs| && jobs[j].Job? && Dispatchable(jobs[j].source, foreign)
    {
      assert Holds(states, v, j);
    }
    forall t | t in temps' && t !in foreign
      ensures exists v, j :: OwnsTemp(jobs, states', v, j, t)
    {
      var v, j :| OwnsTemp(jobs, states, v, j, t);
      assert OwnsTemp(jobs, states', v, j, t);
    }
  }

  lemma ReadyKeepsTemporaries(jobs: seq<Job>, states: seq<State>, temps: set<Name>, foreign: set<Name>, w: nat)
    requires Temporaries(jobs, states, temps, foreign) && w < |states| && !states[w].Active?
    ensures Temporaries(jobs, states[w := Idle], temps, foreign)
  {
    var states' := states[w := Idle];
    forall t | t in temps && t !in foreign
      ensures exists v, j :: OwnsTemp(jobs, states', v, j, t)
    {
      var v, j :| OwnsTemp(jobs, states, v, j, t);
      assert OwnsTemp(jobs, states', v, j, t);
    }
    assert forall v, i :: Holds(states', v, i) ==> Holds(states, v, i);
  }

  /** Taking the next index: recorded at once, or handed to an idle worker with its temporary path free. */
  lemma RecordKeepsLedger(
    jobs: seq<Job>, foreign: set<Name>, states: seq<State>, outcomes: map<nat, CacheResult>, next: nat,
    result: CacheResult)
    requires Ledger(jobs, foreign, states, outcomes, next) && next < |jobs| && result == Expected(jobs[next], foreign)
    ensures Ledger(jobs, foreign, states, outcomes[next := result], next + 1)
  {
  }

  lemma DispatchKeepsLedger(
    jobs: seq<Job>, foreign: set<Name>, states: seq<State>, outcomes: map<nat, CacheResult>, next: nat, w: nat,
    deadline: nat)
    requires Ledger(jobs, foreign, states, outcomes, next) && next < |jobs| && w < |states| && states[w].Idle?
    ensures Ledger(jobs, foreign, states[w := Active(next, deadline)], outcomes, next + 1)
  {
    var states' := states[w := Active(next, deadline)];
    forall v, j | Holds(states', v, j)
      ensures j < next + 1 && j !in outcomes
    {
      assert v == w || Holds(states, v, j);
    }
    forall j | 0 <= j < next + 1
      ensures j in outcomes || exists v :: Holds(states', v, j)
    {
      if j == next {
        assert Holds(states', w, j);
      } else if j !in outcomes {
        var v :| Holds(states, v, j);
        assert Holds(states', v, j);
      }
    }
  }

  lemma DispatchKeepsExclusive(
    jobs: seq<Job>, foreign: set<Name>, states: seq<State>, links: seq<Link>, outcomes: map<nat, CacheResult>,
    next: nat, w: nat, deadline: nat)
    requires Exclusive(jobs, states, links) && Ledger(jobs, foreign, states, outcomes, next)
    requires next < |jobs| && jobs[next].Job? && w < |states| && states[w].Idle?
    ensures links[w].mailbox.None?
    ensures Exclusive(jobs, states[w := Active(next, deadline)], links[w := links[w].(mailbox := Some(next))])
  {
    var states' := states[w := Active(next, deadline)];
    assert LinkInv(jobs, states[w], links[w]);
    forall v, j | Holds(states', v, j)
      ensures if v == w then j == next else Holds(states, v, j) && j < next
    {
      assert v == w || Holds(states, v, j);
    }
  }

  lemma DispatchKeepsTemporaries(
    jobs: seq<Job>, states: seq<State>, temps: set<Name>, foreign: set<Name>, i: nat, w: nat, deadline: nat)
    requires Temporaries(jobs, states, temps, foreign) && i < |jobs| && jobs[i].Job?
      && Dispatchable(jobs[i].source, foreign)
    requires w < |states| && states[w].Idle?
    ensures Temporaries(jobs, states[w := Active(i, deadline)], temps, foreign)
  {
    var states' := states[w := Active(i, deadline)];
    forall v, j | Holds(states', v, j)
      ensures j < |jobs| && jobs[j].Job? && Dispatchable(jobs[j].source, foreign)
    {
      assert v == w || Holds(states, v, j);
    }
    forall t | t in temps && t !in foreign
      ensures exists v, j :: OwnsTemp(jobs, states', v, j, t)
    {
      var v, j :| OwnsTemp(jobs, states, v, j, t);
      assert OwnsTemp(jobs, states', v, j, t);
    }
  }

  /** A temporary in the way of the next job is always foreign. */
  lemma InTheWay(
    jobs: seq<Job>, foreign: set<Name>, states: seq<State>, outcomes: map<nat, CacheResult>, next: nat,
    temps: set<Name>)
    requires DistinctNames(jobs) && Ledger(jobs, foreign, states, outcomes, next)
    requires Temporaries(jobs, states, temps, foreign) && next < |jobs| && jobs[next].Job?
    ensures jobs[next].source.name in temps <==> jobs[next].source.name in foreign
  {
    var t := jobs[next].source.name;
    assert forall w, i :: Holds(states, w, i) ==> i < next;
    assert forall w, i :: !OwnsTemp(jobs, states, w, i, t);
  }

  /** A child writes its own temporary. */
  lemma WritingKeepsTemporaries(
    jobs: seq<Job>, states: seq<State>, temps: set<Name>, foreign: set<Name>, w: nat, i: nat)
    requires DistinctNames(jobs) && Temporaries(jobs, states, temps, foreign) && Holds(states, w, i)
    ensures Temporaries(jobs, states, temps + {jobs[i].source.name}, foreign)
    ensures Temporaries(jobs, states, temps - {jobs[i].source.name}, foreign)
  {
    assert OwnsTemp(jobs, states, w, i, jobs[i].source.name);
  }

  // ---------------------------------------------------------------- progress

  ghost function Busy(states: seq<State>): set<int> {
    set w | 0 <= w < |states| && !states[w].Idle? :: w
  }

  /** The latest deadline any worker is held to. */
  ghost function Horizon(states: seq<State>): (r: nat)
    ensures forall w :: 0 <= w < |states| && !states[w].Idle? ==> states[w].deadline <= r
  {
    if states == [] then 0
    else
      var last := states[|states| - 1];
      var rest := Horizon(states[..|states| - 1]);
      if last.Idle? || last.deadline <= rest then rest else last.deadline
  }

  ghost function Slack(states: seq<State>, now: nat): nat {
    if Horizon(states) <= now then 0 else Horizon(states) - now
  }

  /** Polling only ever sends workers to idle. */
  ghost predicate Relaxed(before: seq<State>, after: seq<State>) {
    |before| == |after| && forall w :: 0 <= w < |before| ==> after[w] == before[w] || after[w].Idle?
  }

  lemma RelaxedBusy(before: seq<State>, after: seq<State>)
    requires Relaxed(before, after)
    ensures after == before || |Busy(after)| < |Busy(before)|
  {
    if after != before {
      var w :| 0 <= w < |before| && after[w] != before[w];
      assert w in Busy(before) && w !in Busy(after);
      assert Busy(after) <= Busy(before);
      SubsetSize(Busy(after), Busy(before));
    }
  }

  /** With every index taken and nobody active, every outcome is there. */
  lemma NothingLeft(jobs: seq<Job>, foreign: set<Name>, states: seq<State>, outcomes: map<nat, CacheResult>)
    requires Ledger(jobs, foreign, states, outcomes, |jobs|) && Busy(states) == {}
    ensures |outcomes| == |jobs|
  {
    assert forall w :: 0 <= w < |states| && !states[w].Idle? ==> w in Busy(states);
    assert outcomes.Keys == Interval(0, |jobs|);
  }

  lemma EveryOutcome(jobs: seq<Job>, foreign: set<Name>, states: seq<State>, outcomes: map<nat, CacheResult>, next: nat)
    requires Ledger(jobs, foreign, states, outcomes, next) && |outcomes| >= |jobs|
    ensures forall i :: 0 <= i < |jobs| ==> i in outcomes
  {
    assert outcomes.Keys <= Interval(0, |jobs|);
    SubsetSize(outcomes.Keys, Interval(0, |jobs|));
  }

  /** A worker past its deadline has its child's message waiting. */
  ghost predicate OnTime(state: State, link: Link, now: nat) {
    !state.Idle? && state.deadline <= now ==> link.pipe != []
  }

  /** A step that a calm run allows. */
  predicate Harmless(step: ChildStep) { step.Boot? || step.Take? || step.Finish? }

  class SourceSupervisor {
    const jobs: seq<Job>
    const timeout: nat
    const calm: bool
    ghost const foreign: set<Name>
    var states: seq<State>
    var links: seq<Link>
    var outcomes: map<nat, CacheResult>
    var nextIndex: nat
    var now: nat
    var temps: set<Name>

    /** What must hold for a temporary to be removed safely; it outlives the ledger during shutdown. */
    ghost predicate Owned()
      reads this`states, this`links, this`temps
    {
      && DistinctNames(jobs)
      && Exclusive(jobs, states, links)
      && Temporaries(jobs, states, temps, foreign)
    }

    ghost predicate Valid()
      reads this`states, this`links, this`temps, this`outcomes, this`nextIndex
    {
      Owned() && Ledger(jobs, foreign, states, outcomes, nextIndex)
    }

    /** In a calm run every child lives. */
    ghost predicate Healthy()
      reads this`links
    {
      calm ==> forall w :: 0 <= w < |links| ==> !links[w].child.Dead?
    }

    /** In a calm run no child is late. */
    ghost predicate Punctual()
      reads this`states, this`links, this`now
    {
      calm ==> forall w :: 0 <= w < |states| && w < |links| ==> OnTime(states[w], links[w], now)
    }

    /** All children are started before supervision begins (`_start`). */
    constructor (jobs: seq<Job>, processes: nat, timeout: nat, now: nat, temps: set<Name>, calm: bool)
      requires DistinctNames(jobs)
      ensures Valid() && Healthy() && this.jobs == jobs && this.calm == calm
      ensures foreign == temps && this.temps == temps && |states| == processes
      ensures forall w :: 0 <= w < processes ==> states[w] == Starting(now + timeout)
      ensures outcomes == map[] && nextIndex == 0 && fresh(this)
    {
      this.jobs, this.timeout, this.calm, this.now, this.temps, foreign := jobs, timeout, calm, now, temps, temps;
      states := seq(processes, _ => Starting(now + timeout));
      links := seq(processes, _ => Link(None, Booting, []));
      outcomes, nextIndex := map[], 0;
    }

    /** One child does one thing, or its writer touches its own temporary. */
    method ChildMoves(w: nat, step: ChildStep, writes: bool, leaves: bool)
      requires Owned() && w < |links|
      modifies this`links, this`temps
      ensures Owned() && |links| == old(|links|)
      ensures forall v :: 0 <= v < |links| && v != w ==> links[v] == old(links)[v]
      ensures old(links)[w].child.Dead? ==> links[w].child.Dead?
      ensures Harmless(step) && !old(links)[w].child.Dead? ==> !links[w].child.Dead?
      ensures !writes && ChildCan(jobs, old(links)[w], step) ==> links[w] == ChildDoes(jobs, old(links)[w], step)
    {
      var link := links[w];
      if writes && link.child.Working? {
        assert LinkInv(jobs, states[w], link);
        assert Holds(states, w, link.child.index);
        WritingKeepsTemporaries(jobs, states, temps, foreign, w, link.child.index);
        var name := jobs[link.child.index].source.name;
        temps := if leaves then temps + {name} else temps - {name};
      } else if ChildCan(jobs, link, step) {
        ChildKeepsInv(jobs, states[w], link, step);
        links := links[w := ChildDoes(jobs, link, step)];
      }
    }

    /** No child comes back to life, and in a calm run none dies. */
    ghost predicate LivesKept(before: seq<Link>)
      reads this`links
    {
      && |links| == |before|
      && (forall v :: 0 <= v < |links| && before[v].child.Dead? ==> links[v].child.Dead?)
      && (calm ==> forall v :: 0 <= v < |links| && !before[v].child.Dead? ==> !links[v].child.Dead?)
    }

    /** The parent's own actions leave the children as they are. */
    ghost predicate SameChildren(before: seq<Link>)
      reads this`links
    {
      |links| == |before| && forall v :: 0 <= v < |links| ==> links[v].child == before[v].child
    }

    /** The children do what they like. */
    method ChildrenMove()
      requires Owned()
      modifies this`links, this`temps
      ensures Owned() && LivesKept(old(links))
    {
      var moves: nat :| moves >= 0;
      for k := 0 to moves
        invariant Owned() && LivesKept(old(links))
      {
        var w: nat, step: ChildStep, writes: bool, leaves: bool := *, *, *, *;
        if w < |links| && (Harmless(step) || !calm) {
          ChildMoves(w, step, writes, leaves);
        }
      }
    }

    /** A child that must not be late does what is left of its work. */
    method Hurry(w: nat)
      requires Owned() && w < |links| && !links[w].child.Dead? && !states[w].Idle? && links[w].pipe == []
      modifies this`links, this`temps
      ensures Owned() && |links| == old(|links|)
      ensures !links[w].child.Dead? && links[w].pipe != []
      ensures forall v :: 0 <= v < |links| && v != w ==> links[v] == old(links)[v]
    {
      assert LinkInv(jobs, states[w], links[w]);
      if links[w].child.Booting? {
        ChildMoves(w, Boot, false, false);
      } else {
        if links[w].child.Waiting? {
          ChildMoves(w, Take, false, false);
        }
        assert LinkInv(jobs, states[w], links[w]);
        ChildMoves(w, Finish, false, false);
      }
    }

    /** In a calm run whoever has reached the deadline has answered by now. */
    method KeepDeadlines()
      requires Owned() && Healthy()
      modifies this`links, this`temps
      ensures Owned() && Healthy() && |links| == old(|links|) && Punctual()
    {
      var w := 0;
      while w < |links|
        invariant Owned() && Healthy() && w <= |links| == old(|links|)
        invariant calm ==> forall v :: 0 <= v < w ==> OnTime(states[v], links[v], now)
      {
        if calm && !states[w].Idle? && states[w].deadline <= now && links[w].pipe == [] {
          Hurry(w);
        }
        w := w + 1;
      }
    }

    /** Time passes and the children move. */
    method ChildrenRun()
      requires Owned()
      modifies this`links, this`temps, this`now
      ensures Owned() && |links| == old(|links|) && now >= old(now)
      ensures old(Healthy()) ==> Healthy() && Punctual()
      ensures forall v :: 0 <= v < |links| && old(links)[v].child.Dead? ==> links[v].child.Dead?
    {
      ChildrenMove();
      var elapsed: nat :| elapsed >= 0;
      now := now + elapsed;
      if calm && forall w :: 0 <= w < |links| ==> !links[w].child.Dead? {
        KeepDeadlines();
      }
    }

    /** `TemporaryDestination.cleanup`: allowed only while no live child has the job. */
    method CleanUp(ghost i: nat, name: Name)
      requires i < |jobs| && jobs[i].Job? && jobs[i].source.name == name
      requires forall v :: 0 <= v < |links| ==> !Writes(links[v], i)
      modifies this`temps
      ensures temps == old(temps) - {name}
    {
      temps := temps - {name};
    }

    /** A finished source: record it under the worker's own index, release the worker, then clean up. */
    method Complete(w: nat, result: CacheResult)
      requires Valid() && w < |states| && states[w].Active? && links[w].pipe != []
      requires links[w].pipe[0] == Finished(result)
      modifies this`states, this`links, this`outcomes, this`temps
      ensures Valid() && states == old(states)[w := Idle] && SameChildren(old(links))
      ensures outcomes == old(outcomes)[old(states)[w].index := result]
    {
      var i := states[w].index;
      assert LinkInv(jobs, states[w], links[w]);
      assert Holds(states, w, i);
      var link := links[w].(pipe := links[w].pipe[1..]);
      NobodyWrites(jobs, states, links, w, i);
      FinishKeepsLedger(jobs, foreign, states, links, outcomes, nextIndex, w, i, result);
      ReleaseKeepsExclusive(jobs, states, links, w, link);
      CleanupKeepsTemporaries(jobs, states, temps, foreign, w, i);
      outcomes := outcomes[i := result];
      CleanUp(i, jobs[i].source.name);
      links := links[w := link];
      states := states[w := Idle];
    }

    /** The first message of a child makes its worker idle; it can come only while starting. */
    method Enlist(w: nat)
      requires Valid() && w < |states| && links[w].pipe != [] && links[w].pipe[0] == Ready
      modifies this`states, this`links
      ensures Valid() && states == old(states)[w := Idle] && old(states)[w].Starting? && SameChildren(old(links))
    {
      assert LinkInv(jobs, states[w], links[w]);
      var link := links[w].(pipe := links[w].pipe[1..]);
      ReadyKeepsLedger(jobs, foreign, states, outcomes, nextIndex, w);
      ReadyKeepsTemporaries(jobs, states, temps, foreign, w);
      ReleaseKeepsExclusive(jobs, states, links, w, link);
      links := links[w := link];
      states := states[w := Idle];
    }

    /** Take a child's last words off the pipe. */
    method Drop(w: nat)
      requires Valid() && w < |states| && links[w].pipe != []
      requires links[w].pipe[0].Interrupted? || links[w].pipe[0].Failed?
      modifies this`links
      ensures Valid() && SameChildren(old(links))
    {
      assert LinkInv(jobs, states[w], links[w]);
      var link := links[w].(pipe := links[w].pipe[1..]);
      assert LinkInv(jobs, states[w], link);
      links := links[w := link];
    }

    /** What a message does: a result is recorded even if its child has died since; last words stop the pool. */
    ghost predicate Heard(message: Message, state: State, before: map<nat, CacheResult>, w: nat, r: Option<Stop>)
      reads this`states, this`outcomes
    {
      match message
      case Ready => w < |states| && states[w].Idle? && outcomes == before
      case Finished(result) =>
        w < |states| && states[w].Idle? && state.Active? && outcomes == before[state.index := result]
      case Interrupted => r == Some(Raised)
      case Failed => r == Some(PoolFailed(ChildFailed))
    }

    /** `_poll`: a waiting message first, then the child's death, then its deadline. */
    method Poll(w: nat) returns (r: Option<Stop>)
      requires Valid() && w < |states|
      modifies this`states, this`links, this`outcomes, this`temps
      ensures Valid() && |states| == old(|states|)
      ensures if states[w] == old(states)[w] then states == old(states) && outcomes == old(outcomes)
              else states == old(states)[w := Idle]
      ensures r.None? && !states[w].Idle? ==> now < states[w].deadline
      ensures SameChildren(old(links))
      ensures old(links)[w].pipe != [] ==> Heard(old(links)[w].pipe[0], old(states)[w], old(outcomes), w, r)
      ensures old(links)[w].pipe == [] && old(links)[w].child.Dead? ==> r == Some(PoolFailed(Exited))
      ensures old(links)[w].pipe == [] && !old(links)[w].child.Dead? ==>
        r == if !old(states)[w].Idle? && now >= old(states)[w].deadline then Some(PoolFailed(TimedOut)) else None
      ensures old(!links[w].child.Dead? && OnTime(states[w], links[w], now)) ==> r.None?
      ensures r != Some(PoolFailed(ProtocolViolation)) && r != Some(PoolFailed(Unstarted))
    {
      if links[w].pipe != [] {
        assert LinkInv(jobs, states[w], links[w]);
        match links[w].pipe[0]
        case Ready => Enlist(w);
        case Finished(result) =>
          if !states[w].Active? {
            return Some(PoolFailed(ProtocolViolation));
          }
          Complete(w, result);
        case Interrupted =>
          Drop(w);
          return Some(Raised);
        case Failed =>
          Drop(w);
          return Some(PoolFailed(ChildFailed));
      }
      if links[w].child.Dead? {
        return Some(PoolFailed(Exited));
      }
      if !states[w].Idle? && now >= states[w].deadline {
        return Some(PoolFailed(TimedOut));
      }
      r := None;
    }

    /** Children move, then one worker is polled. */
    method Visit(w: nat) returns (r: Option<Stop>)
      requires Valid() && w < |states|
      modifies this`states, this`links, this`outcomes, this`temps, this`now
      ensures Valid() && |states| == old(|states|) && now >= old(now)
      ensures if states[w] == old(states)[w] then states == old(states) && outcomes == old(outcomes)
              else states == old(states)[w := Idle]
      ensures r.None? && !states[w].Idle? ==> old(now) < states[w].deadline
      ensures old(Healthy()) ==> Healthy() && (calm ==> r.None?)
      ensures r != Some(PoolFailed(ProtocolViolation)) && r != Some(PoolFailed(Unstarted))
    {
      ChildrenRun();
      r := Poll(w);
    }

    /** Every worker is polled even after a failure; an interrupt propagates at once. */
    method PollAll() returns (r: Option<Stop>)
      requires Valid()
      modifies this`states, this`links, this`outcomes, this`temps, this`now
      ensures Valid() && Relaxed(old(states), states) && now >= old(now)
      ensures states == old(states) ==> outcomes == old(outcomes)
      ensures r.None? ==> forall w :: 0 <= w < |states| && !states[w].Idle? ==> old(now) < states[w].deadline
      ensures old(Healthy()) ==> Healthy() && (calm ==> r.None?)
      ensures r != Some(PoolFailed(ProtocolViolation)) && r != Some(PoolFailed(Unstarted))
    {
      r := None;
      var w := 0;
      while w < |states|
        invariant w <= |states| && Valid() && Relaxed(old(states), states) && now >= old(now)
        invariant forall v :: w <= v < |states| ==> states[v] == old(states)[v]
        invariant states == old(states) ==> outcomes == old(outcomes)
        invariant r.None? ==> forall v :: 0 <= v < w && !states[v].Idle? ==> old(now) < states[v].deadline
        invariant old(Healthy()) ==> Healthy() && (calm ==> r.None?)
        invariant r != Some(PoolFailed(ProtocolViolation)) && r != Some(PoolFailed(Unstarted))
        decreases |states| - w
      {
        var p := Visit(w);
        if p == Some(Raised) {
          return p;
        }
        r := if r.None? then p else r;
        w := w + 1;
      }
    }

    /** `_dispatch`: only to an idle worker, and never onto a temporary that is already there. */
    method Dispatch(w: nat, source: Source)
      requires Valid() && w < |states| && states[w].Idle? && nextIndex < |jobs| && jobs[nextIndex] == Job(source)
      modifies this`states, this`links, this`outcomes, this`nextIndex
      ensures Valid() && nextIndex == old(nextIndex) + 1 && |states| == old(|states|) && SameChildren(old(links))
      ensures states == if Dispatchable(source, foreign) then old(states)[w := Active(old(nextIndex), now + timeout)]
                        else old(states)
    {
      var index := nextIndex;
      InTheWay(jobs, foreign, states, outcomes, index, temps);
      if !source.serializes || !source.reachable || source.name in temps {
        var why := if !source.serializes then Unserializable else if !source.reachable then Unreachable else Unowned;
        var error := Failure(Named(source.name), why);
        RecordKeepsLedger(jobs, foreign, states, outcomes, index, error);
        outcomes := outcomes[index := error];
      } else {
        var deadline := now + timeout;
        DispatchKeepsLedger(jobs, foreign, states, outcomes, index, w, deadline);
        DispatchKeepsTemporaries(jobs, states, temps, foreign, index, w, deadline);
        DispatchKeepsExclusive(jobs, foreign, states, links, outcomes, index, w, deadline);
        states := states[w := Active(index, deadline)];
        links := links[w := links[w].(mailbox := Some(index))];
      }
      nextIndex := index + 1;
    }

    /** Feed one worker until it is busy or no index is left. */
    method Feed(w: nat)
      requires Valid() && w < |states|
      modifies this`states, this`links, this`outcomes, this`nextIndex
      ensures Valid() && nextIndex >= old(nextIndex) && |states| == old(|states|) && SameChildren(old(links))
      ensures nextIndex == old(nextIndex) ==> states == old(states) && outcomes == old(outcomes)
      ensures states[w].Idle? ==> nextIndex == |jobs|
    {
      while states[w].Idle? && nextIndex < |jobs|
        invariant Valid() && w < |states| == old(|states|) && nextIndex >= old(nextIndex) && SameChildren(old(links))
        invariant nextIndex == old(nextIndex) ==> states == old(states) && outcomes == old(outcomes)
        decreases |jobs| - nextIndex
      {
        match jobs[nextIndex]
        case Refused(error) =>
          RecordKeepsLedger(jobs, foreign, states, outcomes, nextIndex, error);
          outcomes := outcomes[nextIndex := error];
          nextIndex := nextIndex + 1;
        case Job(source) => Dispatch(w, source);
      }
    }

    method FeedAll()
      requires Valid()
      modifies this`states, this`links, this`outcomes, this`nextIndex, this`now, this`temps
      ensures Valid() && nextIndex >= old(nextIndex) && |states| == old(|states|) && now >= old(now)
      ensures nextIndex == old(nextIndex) ==> states == old(states) && outcomes == old(outcomes)
      ensures nextIndex == old(nextIndex) < |jobs| ==> forall w :: 0 <= w < |states| ==> !states[w].Idle?
      ensures old(Healthy()) ==> Healthy()
    {
      var w := 0;
      while w < |states|
        invariant w <= |states| == old(|states|) && Valid() && nextIndex >= old(nextIndex) && now >= old(now)
        invariant nextIndex == old(nextIndex) ==> states == old(states) && outcomes == old(outcomes)
        invariant nextIndex == old(nextIndex) < |jobs| ==> forall v :: 0 <= v < w ==> !states[v].Idle?
        invariant old(Healthy()) ==> Healthy()
      {
        ChildrenRun();
        Feed(w);
        w := w + 1;
      }
    }

    /**
     `_supervise`: it always comes to an end, because every round takes an index, frees a worker or
     brings the last deadline nearer; a normal end has an outcome for every job, and a calm run ends so.
     */
    method Supervise() returns (r: Option<Stop>)
      requires Valid() && Healthy() && |states| > 0
      modifies this`states, this`links, this`outcomes, this`nextIndex, this`now, this`temps
      ensures Valid() && |states| == old(|states|)
      ensures r.None? ==> forall i :: 0 <= i < |jobs| ==> i in outcomes
      ensures calm ==> r.None?
      ensures r != Some(PoolFailed(ProtocolViolation)) && r != Some(PoolFailed(Unstarted))
    {
      while |outcomes| < |jobs|
        invariant Valid() && Healthy() && |states| == old(|states|)
        decreases |jobs| - nextIndex, |Busy(states)|, Slack(states, now)
      {
        ghost var before, start, index := states, now, nextIndex;
        r := PollAll();
        if r.Some? {
          return;
        }
        RelaxedBusy(before, states);
        FeedAll();
        if nextIndex == index && states == before {
          if Busy(states) == {} {
            assert forall w :: 0 <= w < |states| && !states[w].Idle? ==> w in Busy(states);
            NothingLeft(jobs, foreign, states, outcomes);
          }
        }
        if |outcomes| < |jobs| {
          now := now + 1;
        }
      }
      EveryOutcome(jobs, foreign, states, outcomes, nextIndex);
      r := None;
    }

    /** A dead child's mailbox and pipe are closed; an active worker then gives up its job and temporary. */
    method Retire(w: nat)
      requires Owned() && w < |states| && links[w].child.Dead?
      modifies this`states, this`links, this`temps
      ensures Owned() && |states| == old(|states|)
      ensures !states[w].Active? && links == old(links)[w := Link(None, Dead, [])]
      ensures forall v :: 0 <= v < |states| && v != w ==> states[v] == old(states)[v]
    {
      links := links[w := Link(None, Dead, [])];
      assert Exclusive(jobs, states, links);
      if states[w].Active? {
        var i := states[w].index;
        assert Holds(states, w, i);
        NobodyWrites(jobs, states, links, w, i);
        ReleaseKeepsExclusive(jobs, states, links, w, links[w]);
        CleanupKeepsTemporaries(jobs, states, temps, foreign, w, i);
        CleanUp(i, jobs[i].source.name);
        states := states[w := Idle];
      }
    }

    /** `stop`: farewell, terminate, kill; a child that survives all three keeps its temporary. */
    method StopWorker(w: nat) returns (ok: bool)
      requires Owned() && w < |states|
      modifies this`states, this`links, this`temps
      ensures Owned() && |states| == old(|states|)
      ensures ok ==> links[w].child.Dead? && !states[w].Active?
      ensures !ok ==> states[w] == old(states)[w] && temps == old(temps)
      ensures calm ==> ok
      ensures forall v :: 0 <= v < |states| && v != w ==> states[v] == old(states)[v] && links[v] == old(links)[v]
    {
      assert LinkInv(jobs, states[w], links[w]);
      var exits: bool, killed: bool := *, *;
      if !links[w].child.Dead? {
        if states[w].Idle? {
          assert links[w].mailbox.None?;
        }
        if (states[w].Idle? && exits) || killed || calm {
          ChildKeepsInv(jobs, states[w], links[w], Die);
          links := links[w := ChildDoes(jobs, links[w], Die)];
        }
      }
      ok := links[w].child.Dead?;
      if ok {
        Retire(w);
      }
    }

    /** `_stop_all`: every child is tried; when all are stopped only foreign temporaries remain. */
    method StopAll() returns (ok: bool)
      requires Owned()
      modifies this`states, this`links, this`temps, this`now
      ensures Owned() && |states| == old(|states|)
      ensures ok ==> temps == foreign && forall w :: 0 <= w < |links| ==> links[w].child.Dead?
      ensures calm ==> ok
    {
      ok := true;
      var w := 0;
      while w < |states|
        invariant w <= |states| == old(|states|) && Owned()
        invariant ok ==> forall v :: 0 <= v < w ==> links[v].child.Dead? && !states[v].Active?
        invariant calm ==> ok
      {
        ChildrenRun();
        var stopped := StopWorker(w);
        ok := ok && stopped;
        w := w + 1;
      }
      if ok {
        OnlyForeign(jobs, states, temps, foreign);
      }
    }
  }

  lemma OnlyForeign(jobs: seq<Job>, states: seq<State>, temps: set<Name>, foreign: set<Name>)
    requires Temporaries(jobs, states, temps, foreign)
    requires forall w :: 0 <= w < |states| ==> !states[w].Active?
    ensures temps == foreign
  {
    forall t | t in temps
      ensures t in foreign
    {
      assert forall w, i :: !OwnsTemp(jobs, states, w, i, t);
    }
  }

  // ---------------------------------------------------------------- preflight and results

  /** A source whose name cannot be read or is not a plain segment is refused by its position. */
  function JobOf(i: nat, source: Option<Source>): Job {
    match source
    case None => Refused(Failure(Position(i), Unusable))
    case Some(s) => Job(s)
  }

  /** No two usable names are the same file name up to case and Unicode form. */
  ghost predicate DistinctIdentities(sources: seq<Option<Source>>, identity: Name -> nat) {
    forall i, j :: 0 <= i < j < |sources| && sources[i].Some? && sources[j].Some? ==>
      identity(sources[i].value.name) != identity(sources[j].value.name)
  }

  ghost predicate AreJobs(sources: seq<Option<Source>>, jobs: seq<Job>) {
    |jobs| == |sources| && forall i :: 0 <= i < |jobs| ==> jobs[i] == JobOf(i, sources[i])
  }

  method CollectJobs(sources: seq<Option<Source>>) returns (jobs: seq<Job>)
    ensures AreJobs(sources, jobs)
  {
    jobs := [];
    for i := 0 to |sources|
      invariant |jobs| == i && forall k :: 0 <= k < i ==> jobs[k] == JobOf(k, sources[k])
    {
      jobs := jobs + [JobOf(i, sources[i])];
    }
  }

  /** What a source gets when the list has a duplicate: its own error, or the duplicate's. */
  function Refusal(i: nat, source: Option<Source>): CacheResult {
    match source
    case None => Failure(Position(i), Unusable)
    case Some(s) => Failure(Named(s.name), Duplicate)
  }

  /** `_preflight`: one duplicate refuses every usable source, before any child starts. */
  method Preflight(sources: seq<Option<Source>>, identity: Name -> nat) returns (jobs: seq<Job>, unique: bool)
    ensures unique <==> DistinctIdentities(sources, identity)
    ensures unique ==> AreJobs(sources, jobs) && DistinctNames(jobs)
    ensures !unique ==> |jobs| == |sources|
    ensures !unique ==> forall i :: 0 <= i < |jobs| ==> jobs[i] == Refused(Refusal(i, sources[i]))
  {
    jobs := CollectJobs(sources);
    var seen: set<nat> := {};
    for i := 0 to |jobs|
      invariant AreJobs(sources, jobs)
      invariant forall x :: x in seen <==>
        exists k :: 0 <= k < i && sources[k].Some? && identity(sources[k].value.name) == x
      invariant DistinctIdentities(sources[..i], identity)
    {
      if jobs[i].Job? {
        var id := identity(jobs[i].source.name);
        if id in seen {
          unique := false;
          jobs := RefuseAll(sources, jobs);
          return;
        }
        seen := seen + {id};
      }
    }
    assert sources[..|jobs|] == sources;
    unique := true;
  }

  method RefuseAll(sources: seq<Option<Source>>, jobs: seq<Job>) returns (refused: seq<Job>)
    requires AreJobs(sources, jobs)
    ensures |refused| == |jobs| && forall i :: 0 <= i < |jobs| ==> refused[i] == Refused(Refusal(i, sources[i]))
  {
    refused := [];
    for i := 0 to |jobs|
      invariant |refused| == i && forall k :: 0 <= k < i ==> refused[k] == Refused(Refusal(k, sources[k]))
    {
      refused := refused + [match jobs[i]
                            case Refused(_) => jobs[i]
                            case Job(s) => Refused(Failure(Named(s.name), Duplicate))];
    }
  }

  /** The caller's own spelling of the directory replaces the resolved one. */
  function Rebased(r: CacheResult, base: nat): CacheResult {
    match r
    case Success(subject, _) => Success(subject, base)
    case Failure(_, _) => r
  }

  function Lost(job: Job, failure: Cause): CacheResult {
    match job
    case Refused(error) => error
    case Job(source) => Failure(Named(source.name), PoolStopped(failure))
  }

  /** `_ordered_outcomes`: a recorded outcome, else the refusal, else the pool's failure. */
  method OrderedOutcomes(jobs: seq<Job>, outcomes: map<nat, CacheResult>, failure: Cause, base: nat)
    returns (results: seq<CacheResult>)
    ensures |results| == |jobs|
    ensures forall i :: 0 <= i < |jobs| ==>
      results[i] == Rebased(if i in outcomes then outcomes[i] else Lost(jobs[i], failure), base)
  {
    results := [];
    for i := 0 to |jobs|
      invariant |results| == i
      invariant forall k :: 0 <= k < i ==>
        results[k] == Rebased(if k in outcomes then outcomes[k] else Lost(jobs[k], failure), base)
    {
      results := results + [Rebased(if i in outcomes then outcomes[i] else Lost(jobs[i], failure), base)];
    }
  }

  /**
   The result a source must get, read off the source alone; `foreign` are the temporaries found at the start,
   `base` is the directory as the caller spelt it.
   */
  ghost function Due(source: Option<Source>, i: nat, foreign: set<Name>, base: nat): CacheResult {
    match source
    case None => Failure(Position(i), Unusable)
    case Some(Source(name, serializes, reachable, verdict)) =>
      if !serializes then Failure(Named(name), Unserializable)
      else if !reachable then Failure(Named(name), Unreachable)
      else if name in foreign then Failure(Named(name), Unowned)
      else
        match verdict
        case Wrote(_) => Success(Named(name), base)
        case Rejected(text) => Failure(Named(name), FromWriter(text))
  }

  /** That is what the ledger expects of its job, under the caller's directory. */
  lemma ExpectedIsDue(source: Option<Source>, i: nat, foreign: set<Name>, base: nat)
    ensures Rebased(Expected(JobOf(i, source), foreign), base) == Due(source, i, foreign, base)
  {
  }

  /**
   The results of a run: every source that was delivered, or refused beforehand, has exactly what it must
   come to; the others name the cause that stopped the pool; and only a stopped pool leaves others.
   */
  ghost predicate Answers(sources: seq<Option<Source>>, foreign: set<Name>, base: nat, delivered: set<nat>,
                          stop: Option<Stop>, results: seq<CacheResult>) {
    && |results| == |sources|
    && (stop.Some? ==> stop.value.PoolFailed? && stop.value.cause != ProtocolViolation)
    && forall i :: 0 <= i < |sources| ==>
         if stop.None? || i in delivered || sources[i].None? then results[i] == Due(sources[i], i, foreign, base)
         else results[i] == Failure(Named(sources[i].value.name), PoolStopped(stop.value.cause))
  }

  /**
   `write_parallel`: every run that returns gives exactly one result per source, in input order, and the
   results are those of `Answers`. A calm run delivers every source its due. When all children could be
   stopped, also on an interrupt, the only temporaries left are those found at the start.
   */
  method WriteParallel(
    sources: seq<Option<Source>>, identity: Name -> nat, processes: nat, timeout: nat, base: nat, clock: nat,
    temps: set<Name>, calm: bool)
    returns (r: Result<seq<CacheResult>>, after: set<Name>, ghost delivered: set<nat>, ghost stop: Option<Stop>,
             ghost children: nat)
    requires processes > 0
    ensures !DistinctIdentities(sources, identity) ==> r.Ok? && |r.value| == |sources| && after == temps
    ensures !DistinctIdentities(sources, identity) ==>
      forall i :: 0 <= i < |sources| ==> r.value[i] == Refusal(i, sources[i])
    ensures DistinctIdentities(sources, identity) && r.Ok? ==>
      after == temps && Answers(sources, temps, base, delivered, stop, r.value)
    ensures DistinctIdentities(sources, identity) && calm ==> r.Ok? && stop.None?
    ensures DistinctIdentities(sources, identity) && calm ==> children == Min(processes, |sources|)
    ensures r == Err(Error.Interrupted) ==> after == temps
    ensures temps <= after
  {
    after, delivered, stop, children := temps, {}, None, 0;
    var jobs, unique := Preflight(sources, identity);
    if !unique {
      var refusals := OrderedOutcomes(jobs, map[], Unstarted, base);
      return Ok(refusals), after, delivered, stop, children;
    }
    if jobs == [] {
      return Ok([]), after, delivered, stop, children;
    }
    var wanted: nat := if processes < |jobs| then processes else |jobs|;
    var started: nat :| started <= wanted && (calm ==> started == wanted);
    var supervisor := new SourceSupervisor(jobs, started, timeout, clock, temps, calm);
    children := |supervisor.states|;
    var ended := Some(PoolFailed(Unstarted));
    if started == wanted {
      ended := supervisor.Supervise();
    }
    ghost var recorded := supervisor.outcomes;
    var stopped := supervisor.StopAll();
    after, delivered, stop := supervisor.temps, recorded.Keys, ended;
    if !stopped {
      return Err(WorkerFailed), after, delivered, stop, children;
    }
    if ended == Some(Raised) {
      return Err(Error.Interrupted), after, delivered, stop, children;
    }
    var failure := if ended.Some? then ended.value.cause else Unstarted;
    var results := OrderedOutcomes(jobs, supervisor.outcomes, failure, base);
    forall i | 0 <= i < |sources|
      ensures Rebased(Expected(jobs[i], temps), base) == Due(sources[i], i, temps, base)
    {
      ExpectedIsDue(sources[i], i, temps, base);
    }
    r := Ok(results);
  }
}
