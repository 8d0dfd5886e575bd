/**
 The fixed worker pool shared by every operation of one runtime.

 Clients are the operations that own a bounded result channel: dataset iterators, cache loads,
 single reads and the two writer pipelines. Each decides by counters of its own (`Credit`) when to
 submit; that no client then owes more results than its channel can hold is proved, not assumed. Jobs
 pass through one bounded queue to any idle worker, which runs the job and then sends exactly one
 result; `Deliver` is blocked while the result channel is full.
 */
module WorkerPool {
  import opened Common

  const QUEUED_JOBS_PER_WORKER: nat := 4

  /** `ticket` numbers the jobs of one client. */
  datatype Job = Job(client: nat, ticket: nat)

  /**
   How each kind of client decides to submit:
   `Window` is the dataset iterator, which compares scheduled with emitted samples;
   `InFlight` is either writer pipeline, which receives before it submits once its count is full;
   `Loading` is the cache loader, which fills the channel and then submits once after each receive;
   `Single` is a read of one item.
   */
  datatype Credit =
    | Window(scheduled: nat, emitted: nat, pending: nat)
    | InFlight(count: nat)
    | Loading(scheduled: nat, received: nat)
    | Single(submitted: bool, answered: bool)
  {
    predicate Unused() { this in {Window(0, 0, 0), InFlight(0), Loading(0, 0), Single(false, false)} }

    predicate MaySubmit(capacity: nat) {
      match this
      case Window(scheduled, emitted, _) => scheduled < emitted + capacity
      case InFlight(count) => count != capacity
      case Loading(scheduled, received) =>
        if received == 0 then scheduled < capacity else scheduled == received + capacity - 1
      case Single(submitted, _) => !submitted
    }

    function Submit(): Credit {
      match this
      case Window(scheduled, emitted, pending) => Window(scheduled + 1, emitted, pending)
      case InFlight(count) => InFlight(count + 1)
      case Loading(scheduled, received) => Loading(scheduled + 1, received)
      case Single(_, answered) => Single(true, answered)
    }

    /** The cache loader receives nothing before its first submissions are all out. */
    predicate MayReceive(capacity: nat) { Loading? ==> scheduled >= capacity }

    /** `inOrder` tells whether the iterator may emit what it received, or must keep it pending. */
    function Receive(inOrder: bool): Credit {
      match this
      case Window(scheduled, emitted, pending) =>
        if inOrder then Window(scheduled, emitted + 1, pending) else Window(scheduled, emitted, pending + 1)
      case InFlight(count) => InFlight(if count == 0 then 0 else count - 1)
      case Loading(scheduled, received) => Loading(scheduled, received + 1)
      case Single(submitted, _) => Single(submitted, true)
    }

    /** Results the counters say are still owed. */
    function Owed(): int {
      match this
      case Window(scheduled, emitted, pending) => scheduled - emitted - pending
      case InFlight(count) => count
      case Loading(scheduled, received) => scheduled - received
      case Single(submitted, answered) => (if submitted then 1 else 0) - (if answered then 1 else 0)
    }

    predicate Within(capacity: nat) {
      match this
      case Window(scheduled, emitted, pending) => emitted + pending <= scheduled <= emitted + capacity
      case InFlight(count) => count <= capacity
      case Loading(scheduled, received) =>
        received <= scheduled <= received + capacity && (received > 0 ==> scheduled >= capacity)
      case Single(submitted, answered) => answered ==> submitted
    }
  }

  /** `outstanding` holds the tickets submitted and not yet received. */
  datatype Client = Client(
    capacity: nat, open: bool, credit: Credit, next: nat, outstanding: set<nat>, results: seq<nat>)

  datatype State = State(workers: nat, queue: seq<Job>, running: map<nat, Job>, clients: map<nat, Client>)

  datatype Step =
    | Join(client: nat, capacity: nat, credit: Credit)
    | Submit(client: nat)
    | Take(worker: nat)
    | Deliver(worker: nat)
    | Receive(client: nat, inOrder: bool)
    | EmitPending(client: nat)
    | Close(client: nat)

  /** `WorkerPool::new`: the queue capacity is checked for overflow before any thread starts. */
  function New(workers: u64): (r: Result<State>)
    ensures r.Ok? <==> 0 < workers && workers * QUEUED_JOBS_PER_WORKER <= U64_MAX
  {
    if workers == 0 || workers * QUEUED_JOBS_PER_WORKER > U64_MAX then Err(InvalidInput)
    else Ok(State(workers, [], map[], map[]))
  }

  ghost predicate IsOpen(s: State, c: nat) { c in s.clients && s.clients[c].open }

  ghost predicate Enabled(s: State, step: Step) {
    match step
    case Join(c, capacity, credit) => c !in s.clients && capacity > 0 && credit.Unused()
    case Submit(c) =>
      && IsOpen(s, c)
      && s.clients[c].credit.MaySubmit(s.clients[c].capacity)
      && |s.queue| < s.workers * QUEUED_JOBS_PER_WORKER
    case Take(w) => w < s.workers && w !in s.running && s.queue != []
    case Deliver(w) =>
      && w in s.running
      && (IsOpen(s, s.running[w].client) ==>
            |s.clients[s.running[w].client].results| < s.clients[s.running[w].client].capacity)
    case Receive(c, _) =>
      IsOpen(s, c) && s.clients[c].results != [] && s.clients[c].credit.MayReceive(s.clients[c].capacity)
    case EmitPending(c) => IsOpen(s, c) && s.clients[c].credit.Window? && s.clients[c].credit.pending > 0
    case Close(c) => IsOpen(s, c)
  }

  ghost function Submitted(k: Client): Client {
    k.(next := k.next + 1, outstanding := k.outstanding + {k.next}, credit := k.credit.Submit())
  }

  ghost function Received(k: Client, inOrder: bool): Client
    requires k.results != []
  {
    k.(outstanding := k.outstanding - {k.results[0]}, results := k.results[1..], credit := k.credit.Receive(inOrder))
  }

  /** The iterator emits a sample that waited for its turn. */
  ghost function Emitted(k: Client): Client
    requires k.credit.Window? && k.credit.pending > 0
  {
    k.(credit := Window(k.credit.scheduled, k.credit.emitted + 1, k.credit.pending - 1))
  }

  ghost function Apply(s: State, step: Step): State
    requires Enabled(s, step)
  {
    match step
    case Join(c, capacity, credit) => s.(clients := s.clients[c := Client(capacity, true, credit, 0, {}, [])])
    case Submit(c) =>
      s.(queue := s.queue + [Job(c, s.clients[c].next)], clients := s.clients[c := Submitted(s.clients[c])])
    case Take(w) => s.(queue := s.queue[1..], running := s.running[w := s.queue[0]])
    case Deliver(w) =>
      var job := s.running[w];
      var out := s.(running := s.running - {w});
      // A send to a channel whose receiver is gone returns at once and drops the result.
      if !IsOpen(s, job.client) then out
      else
        var k := s.clients[job.client];
        out.(clients := s.clients[job.client := k.(results := k.results + [job.ticket])])
    case Receive(c, inOrder) => s.(clients := s.clients[c := Received(s.clients[c], inOrder)])
    case EmitPending(c) => s.(clients := s.clients[c := Emitted(s.clients[c])])
    case Close(c) => s.(clients := s.clients[c := s.clients[c].(open := false)])
  }

  ghost predicate Run(s: State, steps: seq<Step>, end: State)
    decreases |steps|
  {
    if steps == [] then s == end
    else Enabled(s, steps[0]) && Run(Apply(s, steps[0]), steps[1..], end)
  }

  ghost predicate Queued(s: State, job: Job) { job in s.queue }

  ghost predicate Running(s: State, job: Job) { exists w :: w in s.running && s.running[w] == job }

  /** Each job sits in exactly one place: the queue, one worker, or its client's results. */
  ghost predicate SinglePlace(s: State) {
    && NoDuplicates(s.queue)
    && (forall v, w :: v in s.running && w in s.running && s.running[v] == s.running[w] ==> v == w)
    && (forall job :: job in s.queue ==> !Running(s, job))
  }

  ghost predicate ClientInv(s: State, c: nat, k: Client) {
    && (forall t :: t in k.outstanding ==> t < k.next)
    && NoDuplicates(k.results)
    && (forall t :: t in k.results ==> !Queued(s, Job(c, t)) && !Running(s, Job(c, t)))
    && (forall t :: t in k.outstanding <==> Queued(s, Job(c, t)) || Running(s, Job(c, t)) || t in k.results)
  }

  /** A client's own counters agree with what it is owed, and that fits its result channel. */
  ghost predicate CreditInv(k: Client) {
    k.capacity > 0 && k.credit.Within(k.capacity) && |k.outstanding| == k.credit.Owed()
  }

  ghost predicate Credits(s: State) { forall c :: IsOpen(s, c) ==> CreditInv(s.clients[c]) }

  ghost predicate Places(s: State) {
    && s.workers > 0
    && |s.queue| <= s.workers * QUEUED_JOBS_PER_WORKER
    && (forall w :: w in s.running ==> w < s.workers)
    && SinglePlace(s)
    && (forall job :: Queued(s, job) || Running(s, job) ==> job.client in s.clients)
    && (forall c :: IsOpen(s, c) ==> ClientInv(s, c, s.clients[c]))
  }

  ghost predicate Inv(s: State) { Places(s) && Credits(s) }

  /**
   A client within its bounds uses all of its credit: an iterator submits while owed and pending samples leave
   room in its window, a writer while its results leave room in the channel, a loader until the channel is full
   and then once per receive, a single read once.
   */
  lemma CreditIsUsed(credit: Credit, capacity: nat)
    requires credit.Within(capacity) && capacity > 0
    ensures credit.Window? ==> (credit.MaySubmit(capacity) <==> credit.Owed() + credit.pending < capacity)
    ensures credit.InFlight? ==> (credit.MaySubmit(capacity) <==> credit.Owed() < capacity)
    ensures credit.Loading? && credit.received == 0 ==> (credit.MaySubmit(capacity) <==> credit.Owed() < capacity)
    ensures credit.Loading? && credit.Owed() == capacity ==> credit.Receive(true).MaySubmit(capacity)
    ensures credit.Single? ==> (credit.MaySubmit(capacity) <==> !credit.submitted)
  {
  }

  lemma SubmitOwes(credit: Credit, capacity: nat)
    requires credit.Within(capacity) && credit.MaySubmit(capacity)
    ensures credit.Submit().Within(capacity) && credit.Submit().Owed() == credit.Owed() + 1
  {
  }

  lemma SubmitCredit(k: Client)
    requires CreditInv(k) && k.credit.MaySubmit(k.capacity) && k.next !in k.outstanding
    ensures CreditInv(Submitted(k))
  {
    SubmitOwes(k.credit, k.capacity);
    var more := k.outstanding + {k.next};
    assert |more| == |k.outstanding| + 1;
  }

  lemma ReceiveCredit(k: Client, inOrder: bool)
    requires CreditInv(k) && k.results != [] && k.results[0] in k.outstanding && k.credit.MayReceive(k.capacity)
    ensures CreditInv(Received(k, inOrder))
  {
    assert |Received(k, inOrder).outstanding| == |k.outstanding| - 1;
  }

  /** What each client's counters allow keeps its debts within its channel. */
  lemma StepKeepsCredits(s: State, step: Step, s': State)
    requires Inv(s) && Enabled(s, step) && s' == Apply(s, step)
    ensures Credits(s')
  {
    if step.Submit? {
      assert ClientInv(s, step.client, s.clients[step.client]);
      SubmitCredit(s.clients[step.client]);
    } else if step.Receive? {
      var k := s.clients[step.client];
      assert ClientInv(s, step.client, k);
      assert k.results[0] in k.results;
      ReceiveCredit(k, step.inOrder);
    }
    forall c | IsOpen(s', c)
      ensures CreditInv(s'.clients[c])
    {
      assert (step.Join? && c == step.client) || IsOpen(s, c);
    }
  }

  lemma SubmitKeepsPlaces(s: State, c: nat, s': State)
    requires Places(s) && Enabled(s, Submit(c)) && s' == Apply(s, Submit(c))
    ensures Places(s')
  {
    var k := s.clients[c];
    var job := Job(c, k.next);
    assert k.next !in k.outstanding;
    assert !Queued(s, job) && !Running(s, job);
    assert forall j :: Running(s', j) <==> Running(s, j);
    assert forall j :: Queued(s', j) <==> Queued(s, j) || j == job;
    forall d | IsOpen(s', d) ensures ClientInv(s', d, s'.clients[d]) {
      if d != c {
        assert IsOpen(s, d);
      }
    }
  }

  lemma TakeKeepsPlaces(s: State, w: nat, s': State)
    requires Places(s) && Enabled(s, Take(w)) && s' == Apply(s, Take(w))
    ensures Places(s')
  {
    var job := s.queue[0];
    assert Queued(s, job);
    assert s.queue == [job] + s.queue[1..];
    assert forall j :: Queued(s', j) <==> Queued(s, j) && j != job;
    forall j ensures Running(s', j) <==> Running(s, j) || j == job {
      if Running(s, j) {
        var v :| v in s.running && s.running[v] == j;
        assert s'.running[v] == j;
      }
      assert s'.running[w] == job;
    }
    forall d | IsOpen(s', d) ensures ClientInv(s', d, s'.clients[d]) {
      assert IsOpen(s, d);
    }
  }

  /** What leaves a worker leaves it once. */
  lemma DeliverPlaces(s: State, w: nat, s': State)
    requires Places(s) && Enabled(s, Deliver(w)) && s' == Apply(s, Deliver(w))
    ensures forall j :: Queued(s', j) <==> Queued(s, j)
    ensures forall j :: Running(s', j) <==> Running(s, j) && j != s.running[w]
    ensures SinglePlace(s')
  {
    forall j ensures Running(s', j) <==> Running(s, j) && j != s.running[w] {
      if Running(s, j) && j != s.running[w] {
        var v :| v in s.running && s.running[v] == j;
        assert v in s'.running;
      }
      if Running(s', j) {
        var v :| v in s'.running && s'.running[v] == j;
        assert v in s.running;
      }
    }
  }

  lemma DeliverKeepsPlaces(s: State, w: nat, s': State)
    requires Places(s) && Enabled(s, Deliver(w)) && s' == Apply(s, Deliver(w))
    ensures Places(s')
  {
    DeliverPlaces(s, w, s');
    var job := s.running[w];
    assert Running(s, job);
    forall d | IsOpen(s', d) ensures ClientInv(s', d, s'.clients[d]) {
      assert IsOpen(s, d);
      assert ClientInv(s, d, s.clients[d]);
    }
  }

  lemma ReceiveKeepsPlaces(s: State, c: nat, inOrder: bool, s': State)
    requires Places(s) && Enabled(s, Receive(c, inOrder)) && s' == Apply(s, Receive(c, inOrder))
    ensures Places(s')
  {
    var k := s.clients[c];
    var t := k.results[0];
    assert ClientInv(s, c, k);
    assert k.results == [t] + k.results[1..];
    assert t in k.results;
    assert forall j :: Queued(s', j) <==> Queued(s, j);
    assert forall j :: Running(s', j) <==> Running(s, j);
    forall d | IsOpen(s', d) ensures ClientInv(s', d, s'.clients[d]) {
      assert IsOpen(s, d);
    }
  }

  lemma MembershipKeepsPlaces(s: State, step: Step, s': State)
    requires Places(s) && Enabled(s, step) && (step.Join? || step.Close? || step.EmitPending?) && s' == Apply(s, step)
    ensures Places(s')
  {
    assert forall j :: Queued(s', j) <==> Queued(s, j);
    assert forall j :: Running(s', j) <==> Running(s, j);
    forall d | IsOpen(s', d) ensures ClientInv(s', d, s'.clients[d]) {
      if step.Join? && d == step.client {
        assert forall j :: Queued(s, j) || Running(s, j) ==> j.client != d;
      } else {
        assert IsOpen(s, d);
      }
    }
  }

  lemma StepKeepsInv(s: State, step: Step, s': State)
    requires Inv(s) && Enabled(s, step) && s' == Apply(s, step)
    ensures Inv(s') && s'.workers == s.workers
  {
    match step {
      case Submit(c) => SubmitKeepsPlaces(s, c, s');
      case Take(w) => TakeKeepsPlaces(s, w, s');
      case Deliver(w) => DeliverKeepsPlaces(s, w, s');
      case Receive(c, inOrder) => ReceiveKeepsPlaces(s, c, inOrder, s');
      case _ => MembershipKeepsPlaces(s, step, s');
    }
    StepKeepsCredits(s, step, s');
  }

  lemma {:induction false} RunKeepsInv(s: State, steps: seq<Step>, end: State)
    requires Inv(s) && Run(s, steps, end)
    ensures Inv(end) && end.workers == s.workers
    decreases |steps|
  {
    if steps != [] {
      var next := Apply(s, steps[0]);
      StepKeepsInv(s, steps[0], next);
      RunKeepsInv(next, steps[1..], end);
    }
  }

  /** The queue is first in, first out: the idle worker that comes next takes the oldest job. */
  lemma JobsInOrder(s: State, c: nat, w: nat)
    ensures Enabled(s, Submit(c)) ==>
      Apply(s, Submit(c)).queue == s.queue + [Job(c, s.clients[c].next)]
    ensures Enabled(s, Take(w)) ==>
      Apply(s, Take(w)).queue == s.queue[1..] && Apply(s, Take(w)).running == s.running[w := s.queue[0]]
    ensures Enabled(s, Deliver(w)) && IsOpen(s, s.running[w].client) ==>
      var k := s.running[w].client;
      Apply(s, Deliver(w)).clients[k].results == s.clients[k].results + [s.running[w].ticket]
  {
  }

  /** No worker ever blocks on its result: a free slot was reserved when the job was submitted. */
  lemma WorkersNeverBlock(workers: u64, steps: seq<Step>, end: State, w: nat)
    requires New(workers).Ok? && Run(New(workers).value, steps, end) && w in end.running
    ensures Enabled(end, Deliver(w))
  {
    RunKeepsInv(New(workers).value, steps, end);
    var job := end.running[w];
    if IsOpen(end, job.client) {
      var k := end.clients[job.client];
      assert ClientInv(end, job.client, k) && CreditInv(k) && Running(end, job);
      assert job == Job(job.client, job.ticket);
      assert job.ticket in k.outstanding && job.ticket !in k.results;
      SubsetLength(k.results, k.outstanding - {job.ticket});
      SubsetSize(k.outstanding - {job.ticket}, k.outstanding);
    }
  }

  /** Worker progress, or nothing left for the workers to do. */
  ghost predicate WorkersQuiet(s: State) { s.queue == [] && s.running == map[] }

  lemma WorkerCanMove(workers: u64, steps: seq<Step>, end: State)
    requires New(workers).Ok? && Run(New(workers).value, steps, end)
    ensures WorkersQuiet(end) || exists w :: Enabled(end, Take(w)) || Enabled(end, Deliver(w))
  {
    RunKeepsInv(New(workers).value, steps, end);
    if w :| w in end.running {
      WorkersNeverBlock(workers, steps, end, w);
    } else if end.queue != [] {
      assert Enabled(end, Take(0));
    } else {
      assert end.running == map[];
    }
  }

  ghost function Work(s: State): nat { 2 * |s.queue| + |s.running.Keys| }

  lemma TakeUsesWork(s: State, w: nat)
    requires s.queue != [] && w !in s.running
    ensures Work(s.(queue := s.queue[1..], running := s.running[w := s.queue[0]])) < Work(s)
  {
    assert s.running[w := s.queue[0]].Keys == s.running.Keys + {w};
  }

  lemma DeliverUsesWork(s: State, w: nat)
    requires w in s.running
    ensures Work(s.(running := s.running - {w})) < Work(s)
  {
    assert s.running.Keys == (s.running - {w}).Keys + {w};
  }

  /** Worker steps cannot go on for ever: each one uses up part of a fixed amount of work. */
  lemma WorkerStepsTerminate(s: State, step: Step, s': State)
    requires Enabled(s, step) && (step.Take? || step.Deliver?) && s' == Apply(s, step)
    ensures Work(s') < Work(s)
  {
    if step.Take? {
      TakeUsesWork(s, step.worker);
    } else {
      DeliverUsesWork(s, step.worker);
    }
  }

  /** In every run the queue stays within its capacity, which is a machine word, and so do all owed results. */
  lemma CapacitiesHold(workers: u64, steps: seq<Step>, end: State)
    requires New(workers).Ok? && Run(New(workers).value, steps, end)
    ensures |end.queue| <= workers * 4 <= U64_MAX
    ensures forall w :: w in end.running ==> w < workers
    ensures forall c :: IsOpen(end, c) ==> |end.clients[c].outstanding| <= end.clients[c].capacity
  {
    RunKeepsInv(New(workers).value, steps, end);
    forall c | IsOpen(end, c)
      ensures |end.clients[c].outstanding| <= end.clients[c].capacity
    {
      assert CreditInv(end.clients[c]);
    }
  }

  /** Once the workers are quiet, everything owed has arrived. */
  lemma QuietDelivers(s: State, c: nat)
    requires Inv(s) && IsOpen(s, c) && WorkersQuiet(s)
    ensures Elements(s.clients[c].results) == s.clients[c].outstanding
  {
    assert ClientInv(s, c, s.clients[c]);
    assert forall t :: !Queued(s, Job(c, t)) && !Running(s, Job(c, t));
  }

  lemma QuietClientMoves(s: State, c: nat)
    requires Inv(s) && IsOpen(s, c) && WorkersQuiet(s)
    ensures s.clients[c].outstanding != {} ==> Enabled(s, Receive(c, true)) || Enabled(s, Submit(c))
    ensures s.clients[c].credit.MaySubmit(s.clients[c].capacity) ==> Enabled(s, Submit(c))
  {
    QuietDelivers(s, c);
    assert CreditInv(s.clients[c]);
  }

  /**
   Deadlock freedom of the shared pool: a client that waits for a result it is owed, or whose own counters
   let it submit, can always move now or after some worker step that is enabled now; and once the workers
   are quiet, every outstanding ticket is ready to be received.
   */
  lemma NoDeadlock(workers: u64, steps: seq<Step>, end: State, c: nat)
    requires New(workers).Ok? && Run(New(workers).value, steps, end) && IsOpen(end, c)
    ensures end.clients[c].outstanding != {} ==>
              || Enabled(end, Receive(c, true)) || Enabled(end, Submit(c))
              || exists w :: Enabled(end, Take(w)) || Enabled(end, Deliver(w))
    ensures end.clients[c].credit.MaySubmit(end.clients[c].capacity) ==>
              || Enabled(end, Submit(c))
              || exists w :: Enabled(end, Take(w)) || Enabled(end, Deliver(w))
    ensures WorkersQuiet(end) ==> Elements(end.clients[c].results) == end.clients[c].outstanding
  {
    RunKeepsInv(New(workers).value, steps, end);
    WorkerCanMove(workers, steps, end);
    if WorkersQuiet(end) {
      QuietDelivers(end, c);
      QuietClientMoves(end, c);
    }
  }
}
