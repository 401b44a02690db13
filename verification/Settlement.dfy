/** Recording a transfer the browser has already settled on chain: frontend/src/lib/settlement.ts,
    over a network that loses, delays and repeats, against the handler of `Positions`. */
module Settlement {
  import opened Collections
  import opened Positions

  datatype Entry = Entry(kind: Kind, slug: Slug, txHash: Hash)

  /** What `record` resolves to or throws: an `ApiError` carries a status, 0 when nothing came back. */
  datatype Reply = PositionReply | ApiError(status: nat) | ForeignError

  const RETRIES := 3  // RETRY_DELAYS_MS has three entries

  predicate Retryable(r: Reply) { r.ApiError? && (r.status == 0 || r.status >= 500) }

  predicate FinalRefusal(r: Reply) { r.ApiError? && r.status in {400, 403, 404} }

  predicate SaysRecorded(r: Reply) { r == ApiError(409) }

  /** The error replies on which a transfer may be dropped. */
  predicate Dropping(r: Reply) { SaysRecorded(r) || FinalRefusal(r) }

  // ---------------------------------------------------------------- the stored queue

  predicate Queued(queue: seq<Entry>, hash: Hash) {
    exists i :: 0 <= i < |queue| && queue[i].txHash == hash
  }

  function Enqueued(queue: seq<Entry>, e: Entry): seq<Entry> {
    if Queued(queue, e.txHash) then queue else queue + [e]
  }

  function Without(queue: seq<Entry>, hash: Hash): seq<Entry> {
    if queue == [] then []
    else
      var init, last := queue[..|queue| - 1], queue[|queue| - 1];
      if last.txHash == hash then Without(init, hash) else Without(init, hash) + [last]
  }

  ghost predicate EachHashOnce(queue: seq<Entry>) {
    forall i, j :: 0 <= i < j < |queue| ==> queue[i].txHash != queue[j].txHash
  }

  lemma {:induction false} WithoutRemovesOnly(queue: seq<Entry>, hash: Hash)
    ensures forall e :: e in Without(queue, hash) <==> e in queue && e.txHash != hash
    ensures EachHashOnce(queue) ==> EachHashOnce(Without(queue, hash))
  {
    if queue != [] {
      var init, last := queue[..|queue| - 1], queue[|queue| - 1];
      WithoutRemovesOnly(init, hash);
      assert queue == init + [last];
      var kept := Without(init, hash);
      if EachHashOnce(queue) {
        forall k | 0 <= k < |kept| ensures kept[k].txHash != last.txHash {
          assert kept[k] in kept;
        }
      }
    }
  }

  lemma QueuedAfterRemoval(queue: seq<Entry>, hash: Hash, other: Hash)
    ensures Queued(Without(queue, hash), other) <==> Queued(queue, other) && other != hash
  {
    WithoutRemovesOnly(queue, hash);
    var rest := Without(queue, hash);
    if Queued(queue, other) && other != hash {
      var i :| 0 <= i < |queue| && queue[i].txHash == other;
      assert queue[i] in rest;
    }
    if Queued(rest, other) {
      var i :| 0 <= i < |rest| && rest[i].txHash == other;
      assert rest[i] in rest;
      assert rest[i] in queue;
    }
  }

  // ---------------------------------------------------------------- what the client does with a reply

  datatype Reaction = Retry | Stop(drop: bool)

  function OnRecordReply(attempt: nat, r: Reply): Reaction {
    if r.PositionReply? then Stop(true)
    else if attempt > 0 && SaysRecorded(r) then Stop(true)
    else if !Retryable(r) then Stop(FinalRefusal(r))
    else if attempt < RETRIES then Retry
    else Stop(false)
  }

  predicate FlushDrops(r: Reply) {
    r.PositionReply? || Dropping(r)
  }

  // ---------------------------------------------------------------- one tab, its server and the network

  /** One request of one call. A `fetch` only ever resolves with the answer to its own request. */
  datatype Sent = Sent(task: nat, attempt: nat, flush: bool, entry: Entry)

  datatype Answer = Answer(request: Sent, reply: Reply)

  /** A call of `recordSettledTransfer` or `flushUnrecorded` between two of its awaits. */
  datatype Task =
    | Recording(request: Sent, waiting: bool)
    | Flushing(request: Sent, todo: seq<Entry>)

  /** `handed` and `misled` only remember: the transfers handed to the client so far, and the hashes for
      which somebody has sent a dropping reply while they were not on file. */
  datatype Machine = Machine(
    queue: seq<Entry>,
    tasks: map<nat, Task>,
    nextTask: nat,
    sent: set<Sent>,
    answers: set<Answer>,
    book: Book,
    handed: set<Hash>,
    misled: set<Hash>)

  const START := Machine([], map[], 0, {}, {}, Book(map[], []), {}, {})

  /** Requests are never taken off the network: any of them may reach the server late, or more than
      once, or not at all. `broken` replaces the answer of a request that was handled. */
  datatype Step =
    | StartRecording(entry: Entry)
    | StartFlush
    | Reach(request: Sent, c: Context, user: Option<User>, broken: Option<nat>)
    | FailUnserved(request: Sent, status: nat)
    | Deliver(answer: Answer)
    | LoseConnection(task: nat, foreign: bool)
    | TimerFires(task: nat)
    | Reload

  function ReplyTo(r: Result<Position, Refusal>): Reply {
    if r.Ok? then PositionReply else ApiError(Status(r.error))
  }

  function AsRequest(e: Entry, user: Option<User>): Request { Request(user, e.slug, e.kind, e.txHash) }

  predicate Awaits(m: Machine, request: Sent) {
    && request.task in m.tasks && m.tasks[request.task].request == request
    && !(m.tasks[request.task].Recording? && m.tasks[request.task].waiting)
  }

  /** The continuation after an await, up to the next one. */
  function Receive(m: Machine, request: Sent, r: Reply): Machine
    requires request.task in m.tasks
  {
    var id, hash := request.task, request.entry.txHash;
    match m.tasks[id]
    case Recording(_, _) =>
      (match OnRecordReply(request.attempt, r)
       case Retry => m.(tasks := m.tasks[id := Recording(request, true)])
       case Stop(drop) =>
         m.(tasks := m.tasks - {id}, queue := if drop then Without(m.queue, hash) else m.queue))
    case Flushing(_, todo) =>
      var m' := m.(queue := if FlushDrops(r) then Without(m.queue, hash) else m.queue);
      if todo == [] then m'.(tasks := m.tasks - {id})
      else
        var next := Sent(id, request.attempt + 1, true, todo[0]);
        m'.(tasks := m.tasks[id := Flushing(next, todo[1..])],
            sent := m.sent + {next})
  }

  /** A reply is on its way, whether or not anybody still awaits it. */
  function Issued(m: Machine, a: Answer): Machine {
    var hash := a.request.entry.txHash;
    m.(answers := m.answers + {a}, misled := if Dropping(a.reply) && !IsRecorded(m.book, hash) then m.misled + {hash} else m.misled)
  }

  function Next(m: Machine, step: Step): Machine {
    match step
    case StartRecording(entry) =>
      var request := Sent(m.nextTask, 0, false, entry);
      m.(queue := Enqueued(m.queue, entry), tasks := m.tasks[m.nextTask := Recording(request, false)],
         nextTask := m.nextTask + 1, sent := m.sent + {request}, handed := m.handed + {entry.txHash})
    case StartFlush =>
      if m.queue == [] then m
      else
        var request := Sent(m.nextTask, 0, true, m.queue[0]);
        m.(tasks := m.tasks[m.nextTask := Flushing(request, m.queue[1..])],
           nextTask := m.nextTask + 1, sent := m.sent + {request})
    case Reach(request, c, user, broken) =>
      if request !in m.sent then m
      else
        var (book, r) := Serve(m.book, c, AsRequest(request.entry, user));
        var reply := if broken.Some? then ApiError(broken.value) else ReplyTo(r);
        Issued(m.(book := book), Answer(request, reply))
    case FailUnserved(request, status) =>
      if request !in m.sent then m else Issued(m, Answer(request, ApiError(status)))
    case Deliver(answer) =>
      if answer !in m.answers || !Awaits(m, answer.request) then m else Receive(m, answer.request, answer.reply)
    case LoseConnection(id, foreign) =>
      if id !in m.tasks || !Awaits(m, m.tasks[id].request) then m
      else Receive(m, m.tasks[id].request, if foreign then ForeignError else ApiError(0))
    case TimerFires(id) =>
      if id in m.tasks && m.tasks[id].Recording? && m.tasks[id].waiting then
        var again := m.tasks[id].request.(attempt := m.tasks[id].request.attempt + 1);
        m.(tasks := m.tasks[id := Recording(again, false)], sent := m.sent + {again})
      else m
    case Reload => m.(tasks := map[])
  }

  function RunSteps(m: Machine, steps: seq<Step>): Machine
    decreases |steps|
  {
    if steps == [] then m else RunSteps(Next(m, steps[0]), steps[1..])
  }

  /** A transfer is queued or on file, or somebody has sent a dropping reply while it was neither. */
  predicate Accounted(m: Machine, hash: Hash) {
    Queued(m.queue, hash) || IsRecorded(m.book, hash) || hash in m.misled
  }

  ghost predicate Safe(m: Machine) {
    && EachHashOnce(m.queue)
    && (forall hash <- m.handed :: Accounted(m, hash))
    && Explained(m.book)
    && (forall a <- m.answers :: FlushDrops(a.reply) ==> IsRecorded(m.book, a.request.entry.txHash) || a.request.entry.txHash in m.misled)
    && (forall r <- m.sent :: !r.flush ==> r.attempt <= RETRIES)
    && (forall id <- m.tasks :: TaskInRange(m.tasks[id]))
  }

  predicate TaskInRange(t: Task) {
    t.Recording? ==> !t.request.flush && t.request.attempt + (if t.waiting then 1 else 0) <= RETRIES
  }

  lemma ReceiveIsSafe(m: Machine, request: Sent, r: Reply)
    requires Safe(m) && Awaits(m, request)
    requires FlushDrops(r) ==> IsRecorded(m.book, request.entry.txHash) || request.entry.txHash in m.misled
    ensures Safe(Receive(m, request, r))
  {
    var m', hash := Receive(m, request, r), request.entry.txHash;
    WithoutRemovesOnly(m.queue, hash);
    forall h <- m'.handed ensures Accounted(m', h) {
      assert Accounted(m, h);
      QueuedAfterRemoval(m.queue, hash, h);
    }
  }

  lemma ReachIsSafe(m: Machine, step: Step)
    requires Safe(m) && step.Reach? && step.request in m.sent
    ensures Safe(Next(m, step))
  {
    var m', q := Next(m, step), AsRequest(step.request.entry, step.user);
    ServeStaysExplained(m.book, step.c, q);
    ReplayChangesNothing(m.book, step.c, q);
    forall h | IsRecorded(m.book, h) ensures IsRecorded(m'.book, h) {
      RecordsStay(m.book, step.c, q, h);
    }
    forall h <- m'.handed ensures Accounted(m', h) { assert Accounted(m, h); }
  }

  lemma StepIsSafe(m: Machine, step: Step)
    requires Safe(m)
    ensures Safe(Next(m, step))
  {
    var m' := Next(m, step);
    match step
    case StartRecording(entry) =>
      forall h <- m'.handed ensures Accounted(m', h) {
        EnqueuedHolds(m.queue, entry, h);
        assert h != entry.txHash ==> Accounted(m, h);
      }
    case Reach(request, _, _, _) =>
      if request in m.sent {
        ReachIsSafe(m, step);
      }
    case Deliver(answer) =>
      if answer in m.answers && Awaits(m, answer.request) {
        ReceiveIsSafe(m, answer.request, answer.reply);
      }
    case LoseConnection(id, foreign) =>
      if id in m.tasks && Awaits(m, m.tasks[id].request) {
        ReceiveIsSafe(m, m.tasks[id].request, if foreign then ForeignError else ApiError(0));
      }
    case _ =>
      forall h <- m'.handed ensures Accounted(m', h) { assert Accounted(m, h); }
  }

  lemma EnqueuedHolds(queue: seq<Entry>, e: Entry, h: Hash)
    ensures Queued(Enqueued(queue, e), h) <==> Queued(queue, h) || h == e.txHash
    ensures EachHashOnce(queue) ==> EachHashOnce(Enqueued(queue, e))
  {
    if !Queued(queue, e.txHash) {
      assert Enqueued(queue, e)[|queue|] == e;
      if Queued(queue, h) {
        var i :| 0 <= i < |queue| && queue[i].txHash == h;
        assert Enqueued(queue, e)[i] == queue[i];
      }
    }
  }

  /** In every interleaving of calls, flushes, late and repeated requests, lost answers, failures and
      reloads, whatever the servers answer: a transfer handed to the client is queued or on file at
      every moment, unless a dropping reply was sent for it while it was not on file; the queue never
      holds a hash twice; every position is explained by events with distinct hashes, so no hash moved
      one twice; and no call sent more than four requests. */
  lemma {:induction false} EveryRunIsSafe(m: Machine, steps: seq<Step>)
    requires Safe(m)
    ensures Safe(RunSteps(m, steps))
    decreases |steps|
  {
    if steps != [] {
      StepIsSafe(m, steps[0]);
      EveryRunIsSafe(Next(m, steps[0]), steps[1..]);
    }
  }

  lemma StartIsSafe()
    ensures Safe(START)
  {
    forall key ensures Current(START.book, key) == Folded(EventsOf(START.book.events, key)) {
    }
  }

  /** Requests are told apart by their call and their attempt. */
  ghost predicate Numbered(tasks: map<nat, Task>, nextTask: nat, sent: set<Sent>) {
    && (forall r <- sent :: r.task < nextTask)
    && (forall r, t :: r in sent && t in sent && r.task == t.task && r.attempt == t.attempt ==> r == t)
    && (forall r :: r in sent && r.task in tasks ==> r.attempt <= tasks[r.task].request.attempt)
    && (forall id <- tasks :: tasks[id].request.task == id < nextTask && tasks[id].request in sent)
  }

  lemma SendingStaysNumbered(tasks: map<nat, Task>, nextTask: nat, sent: set<Sent>, t: Task, nextTask': nat)
    requires Numbered(tasks, nextTask, sent)
    requires var id := t.request.task;
             if id == nextTask then nextTask' == nextTask + 1
             else nextTask' == nextTask && id in tasks && t.request.attempt == tasks[id].request.attempt + 1
    ensures Numbered(tasks[t.request.task := t], nextTask', sent + {t.request})
  {
  }

  lemma ForgettingStaysNumbered(tasks: map<nat, Task>, nextTask: nat, sent: set<Sent>, tasks': map<nat, Task>)
    requires Numbered(tasks, nextTask, sent)
    requires forall id <- tasks' :: id in tasks && tasks'[id].request == tasks[id].request
    ensures Numbered(tasks', nextTask, sent)
  {
  }

  lemma ReceiveStaysNumbered(m: Machine, request: Sent, r: Reply)
    requires Numbered(m.tasks, m.nextTask, m.sent) && Awaits(m, request)
    ensures var m' := Receive(m, request, r); Numbered(m'.tasks, m'.nextTask, m'.sent)
  {
    var m', id := Receive(m, request, r), request.task;
    if m.tasks[id].Flushing? && m.tasks[id].todo != [] {
      SendingStaysNumbered(m.tasks, m.nextTask, m.sent, m'.tasks[id], m.nextTask);
    } else {
      ForgettingStaysNumbered(m.tasks, m.nextTask, m.sent, m'.tasks);
    }
  }

  lemma StepStaysNumbered(m: Machine, step: Step)
    requires Numbered(m.tasks, m.nextTask, m.sent)
    ensures var m' := Next(m, step); Numbered(m'.tasks, m'.nextTask, m'.sent)
  {
    var m' := Next(m, step);
    match step
    case StartRecording(_) =>
      SendingStaysNumbered(m.tasks, m.nextTask, m.sent, m'.tasks[m.nextTask], m'.nextTask);
    case StartFlush =>
      if m.queue != [] {
        SendingStaysNumbered(m.tasks, m.nextTask, m.sent, m'.tasks[m.nextTask], m'.nextTask);
      }
    case Deliver(answer) =>
      if answer in m.answers && Awaits(m, answer.request) {
        ReceiveStaysNumbered(m, answer.request, answer.reply);
      }
    case LoseConnection(id, foreign) =>
      if id in m.tasks && Awaits(m, m.tasks[id].request) {
        ReceiveStaysNumbered(m, m.tasks[id].request, if foreign then ForeignError else ApiError(0));
      }
    case TimerFires(id) =>
      if m' != m {
        SendingStaysNumbered(m.tasks, m.nextTask, m.sent, m'.tasks[id], m.nextTask);
      }
    case _ =>
  }

  lemma {:induction false} EveryRunIsNumbered(m: Machine, steps: seq<Step>)
    requires Numbered(m.tasks, m.nextTask, m.sent)
    ensures var m' := RunSteps(m, steps); Numbered(m'.tasks, m'.nextTask, m'.sent)
    decreases |steps|
  {
    if steps != [] {
      StepStaysNumbered(m, steps[0]);
      EveryRunIsNumbered(Next(m, steps[0]), steps[1..]);
    }
  }

  function RequestsOf(m: Machine, id: nat): set<Sent> {
    set r | r in m.sent && r.task == id && !r.flush
  }

  /** One call of `recordSettledTransfer` sends at most four requests, however it is interleaved. */
  lemma AtMostFourRequests(steps: seq<Step>, id: nat)
    ensures |RequestsOf(RunSteps(START, steps), id)| <= RETRIES + 1
  {
    StartIsSafe();
    EveryRunIsSafe(START, steps);
    EveryRunIsNumbered(START, steps);
    FewAttempts(RequestsOf(RunSteps(START, steps), id));
  }

  lemma FewAttempts(requests: set<Sent>)
    requires forall r <- requests :: r.attempt <= RETRIES
    requires forall r, s :: r in requests && s in requests && r.attempt == s.attempt ==> r == s
    ensures |requests| <= RETRIES + 1
  {
    var attempts := set r | r in requests :: r.attempt;
    SameSize(requests, attempts);
    SubsetSize(attempts, {0, 1, 2, 3});
  }

  lemma {:induction false} SameSize(requests: set<Sent>, attempts: set<nat>)
    requires attempts == set r | r in requests :: r.attempt
    requires forall r, s :: r in requests && s in requests && r.attempt == s.attempt ==> r == s
    ensures |requests| == |attempts|
    decreases requests
  {
    if requests != {} {
      var r :| r in requests;
      var rest := requests - {r};
      assert attempts - {r.attempt} == set s | s in rest :: s.attempt;
      SameSize(rest, attempts - {r.attempt});
    }
  }

  lemma {:induction false} SubsetSize(a: set<nat>, b: set<nat>)
    requires a <= b
    ensures |a| <= |b|
    decreases a
  {
    if a != {} {
      var x :| x in a;
      SubsetSize(a - {x}, b - {x});
    }
  }

  // ---------------------------------------------------------------- who can lose a transfer

  /** The node shows a transfer of that kind with that vault by that wallet. */
  predicate Shows(chain: map<Hash, Transaction>, e: Entry, vault: Address, wallet: Address) {
    && e.txHash in chain && chain[e.txHash].success
    && var found := FindTransfer(chain[e.txHash].events, e.kind, vault); found.Some? && found.value.investor == wallet
  }

  /** The session is good, and the strategy, its vault or the transfer is not there to be seen. */
  predicate Denies(c: Context, user: Option<User>, e: Entry) {
    && user.Some? && user.value in c.wallets
    && (e.slug !in c.vaults || c.vaults[e.slug] == None
        || (c.chain.Some? && !Shows(c.chain.value, e, c.vaults[e.slug].value, c.wallets[user.value])))
  }

  /** For a hash not on file the handler itself sends a dropping reply exactly when it denies the
      transfer. */
  lemma DroppingReplyIffDenied(b: Book, c: Context, user: Option<User>, e: Entry)
    requires !IsRecorded(b, e.txHash)
    ensures Dropping(ReplyTo(Serve(b, c, AsRequest(e, user)).1)) <==> Denies(c, user, e)
  {
  }

  const DROPPING_STATUSES: set<nat> := {400, 403, 404, 409}

  /** A step that sends a dropping reply for the hash, if it is not on file. */
  predicate Misleads(step: Step, hash: Hash) {
    match step
    case Reach(request, c, user, broken) =>
      request.entry.txHash == hash
      && if broken.Some? then broken.value in DROPPING_STATUSES else Denies(c, user, request.entry)
    case FailUnserved(request, status) => request.entry.txHash == hash && status in DROPPING_STATUSES
    case _ => false
  }

  lemma MisledOnlyByMisleading(m: Machine, step: Step, hash: Hash)
    requires hash !in m.misled && hash in Next(m, step).misled
    ensures Misleads(step, hash) && !IsRecorded(m.book, hash)
  {
    if step.Reach? {
      var q := AsRequest(step.request.entry, step.user);
      if IsRecorded(m.book, hash) {
        RecordsStay(m.book, step.c, q, hash);
      }
      DroppingReplyIffDenied(m.book, step.c, step.user, step.request.entry);
    }
  }

  lemma {:induction false} NeverMisled(m: Machine, steps: seq<Step>, hash: Hash)
    requires hash !in m.misled && forall s <- steps :: !Misleads(s, hash)
    ensures hash !in RunSteps(m, steps).misled
    decreases |steps|
  {
    if steps != [] {
      assert steps[0] in steps;
      if hash in Next(m, steps[0]).misled {
        MisledOnlyByMisleading(m, steps[0], hash);
      }
      NeverMisled(Next(m, steps[0]), steps[1..], hash);
    }
  }

  /** What really happened: the transaction went through and holds the transfer, by that wallet. */
  predicate Genuine(e: Entry, tx: Transaction, vault: Address, wallet: Address) { Shows(map[e.txHash := tx], e, vault, wallet) }

  /** The tables name the strategy's vault, and a node that has the transaction has it as it is. */
  predicate Truthful(c: Context, e: Entry, tx: Transaction, vault: Address) {
    && e.slug in c.vaults && c.vaults[e.slug] == Some(vault)
    && (c.chain.Some? && e.txHash in c.chain.value ==> c.chain.value[e.txHash] == tx)
  }

  /** A genuine transfer is denied exactly when the node answers without having seen the transaction
      yet, or the session belongs to another wallet. Neither is for good. */
  lemma GenuineIsDeniedIff(c: Context, user: Option<User>, e: Entry, tx: Transaction, vault: Address, wallet: Address)
    requires Genuine(e, tx, vault, wallet) && Truthful(c, e, tx, vault)
    ensures Denies(c, user, e) <==>
            && user.Some? && user.value in c.wallets && c.chain.Some?
            && (e.txHash !in c.chain.value || c.wallets[user.value] != wallet)
  {
  }

  /** A step that is fair to a genuine transfer: replies about it come from the handler or say that
      there was none, the handler's view is truthful, and who is logged in is who sent it, on a node
      that has seen it, or the request goes no further. */
  predicate FairTo(step: Step, e: Entry, tx: Transaction, vault: Address, wallet: Address) {
    match step
    case Reach(request, c, user, broken) =>
      request.entry.txHash == e.txHash ==>
        && request.entry == e && Truthful(c, e, tx, vault)
        && (if broken.Some? then broken.value !in DROPPING_STATUSES
            else user == None || user.value !in c.wallets || c.chain == None
                 || (e.txHash in c.chain.value && c.wallets[user.value] == wallet))
    case FailUnserved(request, status) => request.entry.txHash == e.txHash ==> status !in DROPPING_STATUSES
    case _ => true
  }

  /** A genuine transfer handed to the client is at every moment queued or on file, in every
      interleaving that is fair to it. */
  lemma GenuineTransferIsKept(steps: seq<Step>, e: Entry, tx: Transaction, vault: Address, wallet: Address)
    requires Genuine(e, tx, vault, wallet) && forall s <- steps :: FairTo(s, e, tx, vault, wallet)
    ensures var m := RunSteps(START, steps);
            e.txHash in m.handed ==> Queued(m.queue, e.txHash) || IsRecorded(m.book, e.txHash)
  {
    StartIsSafe();
    EveryRunIsSafe(START, steps);
    forall s <- steps ensures !Misleads(s, e.txHash) {
      if s.Reach? && s.request.entry.txHash == e.txHash {
        GenuineIsDeniedIff(s.c, s.user, e, tx, vault, wallet);
      }
    }
    NeverMisled(START, steps, e.txHash);
  }

  /** Handing over a transfer, one request, one answer. */
  function FirstTry(c: Context, user: Option<User>, e: Entry): Machine {
    var request := Sent(0, 0, false, e);
    var reply := ReplyTo(Serve(START.book, c, AsRequest(e, user)).1);
    Next(Next(Next(START, StartRecording(e)), Reach(request, c, user, None)), Deliver(Answer(request, reply)))
  }

  lemma HandedOver(e: Entry)
    ensures Next(START, StartRecording(e))
            == START.(queue := [e], tasks := map[0 := Recording(Sent(0, 0, false, e), false)], nextTask := 1,
                      sent := {Sent(0, 0, false, e)}, handed := {e.txHash})
  {
  }

  lemma OneAnswer(m: Machine, e: Entry, reply: Reply)
    requires m.queue == [e] && m.tasks == map[0 := Recording(Sent(0, 0, false, e), false)]
    requires Answer(Sent(0, 0, false, e), reply) in m.answers
    ensures var m' := Next(m, Deliver(Answer(Sent(0, 0, false, e), reply)));
            m'.book == m.book && m'.queue == if OnRecordReply(0, reply) == Stop(true) then [] else [e]
  {
    assert Awaits(m, Sent(0, 0, false, e));
    assert [e][..0] == [] && Without([], e.txHash) == [] && Without([e], e.txHash) == [];
  }

  lemma FirstTryIs(c: Context, user: Option<User>, e: Entry)
    ensures var (book, r) := Serve(START.book, c, AsRequest(e, user));
            FirstTry(c, user, e).book == book
            && FirstTry(c, user, e).queue == if OnRecordReply(0, ReplyTo(r)) == Stop(true) then [] else [e]
  {
    var request := Sent(0, 0, false, e);
    HandedOver(e);
    var m := Next(Next(START, StartRecording(e)), Reach(request, c, user, None));
    OneAnswer(m, e, ReplyTo(Serve(START.book, c, AsRequest(e, user)).1));
  }

  /** A first try loses its transfer, out of the queue and not on file, exactly when the handler denies
      it for another reason than a missing vault. */
  lemma FirstTryLosesIff(c: Context, user: Option<User>, e: Entry)
    ensures var m := FirstTry(c, user, e);
            !Queued(m.queue, e.txHash) && !IsRecorded(m.book, e.txHash)
            <==> Denies(c, user, e) && !(e.slug in c.vaults && c.vaults[e.slug] == None)
  {
    FirstTryIs(c, user, e);
    ReplayChangesNothing(START.book, c, AsRequest(e, user));
    DroppingReplyIffDenied(START.book, c, user, e);
    assert Queued([e], e.txHash) by {
      assert [e][0].txHash == e.txHash;
    }
  }

  /** The refusals that are taken to be for good are not: a genuine transfer presented by its own
      wallet to a node that lags behind is dropped, and the same request to a node that has caught up
      would have been recorded. */
  lemma LaggingNodeLosesTheTransfer(lagging: Context, synced: Context, user: User, e: Entry, tx: Transaction,
                                    vault: Address, wallet: Address)
    requires Genuine(e, tx, vault, wallet) && Truthful(lagging, e, tx, vault) && Truthful(synced, e, tx, vault)
    requires user in lagging.wallets && lagging.wallets[user] == wallet && user in synced.wallets && synced.wallets[user] == wallet
    requires lagging.chain.Some? && e.txHash !in lagging.chain.value
    requires synced.chain.Some? && e.txHash in synced.chain.value
    ensures var m := FirstTry(lagging, Some(user), e);
            && !Queued(m.queue, e.txHash) && !IsRecorded(m.book, e.txHash)
            && Serve(m.book, synced, AsRequest(e, Some(user))).1.Ok?
  {
    FirstTryLosesIff(lagging, Some(user), e);
    GenuineIsDeniedIff(lagging, Some(user), e, tx, vault, wallet);
  }

  // ---------------------------------------------------------------- the two calls, on their own

  /** What the network and the server make of one request. */
  datatype Delivery =
    | Unreached
    | Failed(status: nat)
    | Answered(c: Context, user: Option<User>)
    | AnswerLost(c: Context, user: Option<User>)
    | Repeated(first: (Context, Option<User>), c: Context, user: Option<User>)  // handled twice, answered by the second

  function Exchange(b: Book, d: Delivery, e: Entry): (Book, Reply) {
    match d
    case Unreached => (b, ApiError(0))
    case Failed(status) => (b, ApiError(status))
    case Answered(c, user) => var (b', r) := Serve(b, c, AsRequest(e, user)); (b', ReplyTo(r))
    case AnswerLost(c, user) => (Serve(b, c, AsRequest(e, user)).0, ApiError(0))
    case Repeated(first, c, user) =>
      var (b', r) := Serve(Serve(b, first.0, AsRequest(e, first.1)).0, c, AsRequest(e, user));
      (b', ReplyTo(r))
  }

  /** A delivery that does not send a dropping reply for a hash that is not on file. */
  predicate FaithfulDelivery(d: Delivery, e: Entry) {
    match d
    case Failed(status) => status !in DROPPING_STATUSES
    case Answered(c, user) => !Denies(c, user, e)
    case Repeated(_, c, user) => !Denies(c, user, e)
    case _ => true
  }

  /** The last attempt of a call: its number, the book after it and its reply. */
  function LastAttempt(b: Book, e: Entry, net: seq<Delivery>, attempt: nat): (nat, Book, Reply)
    requires attempt <= RETRIES && |net| == RETRIES + 1
    decreases RETRIES - attempt
  {
    var (b', r) := Exchange(b, net[attempt], e);
    if OnRecordReply(attempt, r) == Retry then LastAttempt(b', e, net, attempt + 1) else (attempt, b', r)
  }

  /** The book, the queue and the count of settled entries after the replies to `entries`. */
  function Flushed(b: Book, queue: seq<Entry>, entries: seq<Entry>, net: seq<Delivery>): (Book, seq<Entry>, nat)
    requires |net| == |entries|
  {
    if entries == [] then (b, queue, 0)
    else
      var n := |entries| - 1;
      var (b', queue', settled) := Flushed(b, queue, entries[..n], net[..n]);
      var (b'', queue'', one) := Replayed(b', queue', entries[n], net[n]);
      (b'', queue'', settled + one)
  }

  /** One entry of a flush. */
  function Replayed(b: Book, queue: seq<Entry>, e: Entry, d: Delivery): (Book, seq<Entry>, nat) {
    var (b', r) := Exchange(b, d, e);
    (b', if FlushDrops(r) then Without(queue, e.txHash) else queue, if r.PositionReply? || SaysRecorded(r) then 1 else 0)
  }

  class Client {
    const server: PositionStore
    var queue: seq<Entry>

    constructor (server: PositionStore)
      ensures this.server == server && queue == []
    {
      this.server := server;
      queue := [];
    }

    method Enqueue(e: Entry)
      modifies this
      ensures queue == Enqueued(old(queue), e)
    {
      if !Queued(queue, e.txHash) {
        queue := queue + [e];
      }
    }

    method Dequeue(hash: Hash)
      modifies this
      ensures queue == Without(old(queue), hash)
    {
      var remaining: seq<Entry> := [];
      for i := 0 to |queue|
        invariant queue == old(queue) && remaining == Without(queue[..i], hash)
      {
        assert queue[..i + 1][..i] == queue[..i];
        if queue[i].txHash != hash {
          remaining := remaining + [queue[i]];
        }
      }
      assert queue[..|queue|] == queue;
      queue := remaining;
    }

    method Record(e: Entry, d: Delivery) returns (reply: Reply)
      modifies server
      ensures (server.State(), reply) == Exchange(old(server.State()), d, e)
    {
      match d
      case Unreached => reply := ApiError(0);
      case Failed(status) => reply := ApiError(status);
      case Answered(c, user) =>
        var r := server.RecordTransfer(c, AsRequest(e, user), []);
        reply := ReplyTo(r);
      case AnswerLost(c, user) =>
        var r := server.RecordTransfer(c, AsRequest(e, user), []);
        reply := ApiError(0);
      case Repeated(first, c, user) =>
        var _ := server.RecordTransfer(first.0, AsRequest(e, first.1), []);
        var r := server.RecordTransfer(c, AsRequest(e, user), []);
        reply := ReplyTo(r);
    }

    /** `net` is what the world has in store for each attempt; `sends` counts those made. */
    method RecordSettledTransfer(e: Entry, net: seq<Delivery>) returns (reply: Reply, sends: nat)
      requires |net| == RETRIES + 1
      modifies this, server
      ensures (sends - 1, server.State(), reply) == LastAttempt(old(server.State()), e, net, 0)
      ensures 1 <= sends <= RETRIES + 1
      ensures queue == if OnRecordReply(sends - 1, reply) == Stop(true)
                       then Without(Enqueued(old(queue), e), e.txHash) else Enqueued(old(queue), e)
    {
      Enqueue(e);
      sends := 0;
      while true
        invariant sends <= RETRIES && queue == Enqueued(old(queue), e)
        invariant LastAttempt(server.State(), e, net, sends) == LastAttempt(old(server.State()), e, net, 0)
        decreases RETRIES - sends
      {
        reply := Record(e, net[sends]);
        sends := sends + 1;
        if reply.PositionReply? {
          Dequeue(e.txHash);
          return;
        }
        if sends > 1 && SaysRecorded(reply) {
          Dequeue(e.txHash);
          return;
        }
        if !Retryable(reply) {
          if FinalRefusal(reply) {
            Dequeue(e.txHash);
          }
          return;
        }
        if sends > RETRIES {
          return;
        }
      }
    }

    method Replay(e: Entry, d: Delivery) returns (settled: nat)
      modifies this, server
      ensures (server.State(), queue, settled) == Replayed(old(server.State()), old(queue), e, d)
    {
      var reply := Record(e, d);
      if reply.PositionReply? || SaysRecorded(reply) {
        Dequeue(e.txHash);
        return 1;
      }
      if FinalRefusal(reply) {
        Dequeue(e.txHash);
      }
      return 0;
    }

    /** Replays the queue as it was when the call began, once per entry. */
    method FlushUnrecorded(net: seq<Delivery>) returns (settled: nat)
      requires |net| == |queue|
      modifies this, server
      ensures (server.State(), queue, settled) == Flushed(old(server.State()), old(queue), old(queue), net)
    {
      var entries := queue;
      settled := 0;
      for i := 0 to |entries|
        invariant (server.State(), queue, settled) == Flushed(old(server.State()), entries, entries[..i], net[..i])
      {
        assert entries[..i + 1][..i] == entries[..i] && net[..i + 1][..i] == net[..i];
        var one := Replay(entries[i], net[i]);
        settled := settled + one;
      }
      assert entries[..|entries|] == entries && net[..|entries|] == net;
    }
  }

  /** The attempts of a call one after the other, as far as they go. */
  function Tried(b: Book, e: Entry, net: seq<Delivery>, i: nat): (Book, Reply)
    requires i < |net|
  {
    Exchange(if i == 0 then b else Tried(b, e, net, i - 1).0, net[i], e)
  }

  lemma {:induction false} AttemptsGoOn(b: Book, e: Entry, net: seq<Delivery>, attempt: nat)
    requires attempt <= RETRIES && |net| == RETRIES + 1
    requires forall i :: 0 <= i < attempt ==> Retryable(Tried(b, e, net, i).1)
    ensures var (last, after, reply) := LastAttempt(if attempt == 0 then b else Tried(b, e, net, attempt - 1).0, e, net, attempt);
            && attempt <= last <= RETRIES && (after, reply) == Tried(b, e, net, last)
            && (forall i :: 0 <= i < last ==> Retryable(Tried(b, e, net, i).1))
            && (last < RETRIES ==> !Retryable(reply))
    decreases RETRIES - attempt
  {
    if Retryable(Tried(b, e, net, attempt).1) && attempt < RETRIES {
      AttemptsGoOn(b, e, net, attempt + 1);
    }
  }

  /** A call goes on for as long as another attempt could help, four times at most, and ends on the first
      reply that settles it. */
  lemma StopsAtFirstAnswer(b: Book, e: Entry, net: seq<Delivery>)
    requires |net| == RETRIES + 1
    ensures var (last, after, reply) := LastAttempt(b, e, net, 0);
            && last <= RETRIES && (after, reply) == Tried(b, e, net, last)
            && (forall i :: 0 <= i < last ==> Retryable(Tried(b, e, net, i).1))
            && (last < RETRIES ==> !Retryable(reply))
  {
    AttemptsGoOn(b, e, net, 0);
  }

  /** The server is down or cannot be reached. */
  predicate Down(d: Delivery) { d.Unreached? || (d.Failed? && (d.status == 0 || d.status >= 500)) }

  lemma {:induction false} NothingWhileDown(b: Book, e: Entry, net: seq<Delivery>, i: nat)
    requires i < |net| && forall j :: 0 <= j <= i ==> Down(net[j])
    ensures Tried(b, e, net, i).0 == b && Retryable(Tried(b, e, net, i).1)
  {
    if i > 0 {
      NothingWhileDown(b, e, net, i - 1);
    }
  }

  /** An outage of up to three attempts is ridden out: the next one records the transfer, and the call
      drops it from the queue. */
  lemma OutageIsRiddenOut(b: Book, e: Entry, net: seq<Delivery>, k: nat, c: Context, user: Option<User>)
    requires |net| == RETRIES + 1 && k <= RETRIES && (forall i :: 0 <= i < k ==> Down(net[i])) && net[k] == Answered(c, user)
    requires Serve(b, c, AsRequest(e, user)).1.Ok?
    ensures LastAttempt(b, e, net, 0) == (k, Serve(b, c, AsRequest(e, user)).0, PositionReply)
    ensures OnRecordReply(k, PositionReply) == Stop(true)
  {
    StopsAtFirstAnswer(b, e, net);
    forall i | 0 <= i < k ensures Retryable(Tried(b, e, net, i).1) {
      NothingWhileDown(b, e, net, i);
    }
    if k > 0 {
      NothingWhileDown(b, e, net, k - 1);
    }
    var last := LastAttempt(b, e, net, 0).0;
    assert Tried(b, e, net, k) == Exchange(b, net[k], e);
    assert last == k;
  }

  lemma ExchangeKeepsRecords(b: Book, d: Delivery, e: Entry, h: Hash)
    requires IsRecorded(b, h)
    ensures IsRecorded(Exchange(b, d, e).0, h)
  {
    match d
    case Answered(c, user) => RecordsStay(b, c, AsRequest(e, user), h);
    case AnswerLost(c, user) => RecordsStay(b, c, AsRequest(e, user), h);
    case Repeated(first, c, user) =>
      RecordsStay(b, first.0, AsRequest(e, first.1), h);
      RecordsStay(Serve(b, first.0, AsRequest(e, first.1)).0, c, AsRequest(e, user), h);
    case _ =>
  }

  lemma ServedIsRecorded(b: Book, c: Context, user: Option<User>, e: Entry)
    requires !Denies(c, user, e)
    ensures FlushDrops(ReplyTo(Serve(b, c, AsRequest(e, user)).1)) ==> IsRecorded(Serve(b, c, AsRequest(e, user)).0, e.txHash)
  {
    var q := AsRequest(e, user);
    ReplayChangesNothing(b, c, q);
    if IsRecorded(b, e.txHash) {
      RecordsStay(b, c, q, e.txHash);
    } else {
      DroppingReplyIffDenied(b, c, user, e);
    }
  }

  /** A faithful delivery after which the client drops the transfer has put it on file. */
  lemma ExchangeMeansWhatItSays(b: Book, d: Delivery, e: Entry)
    requires FaithfulDelivery(d, e)
    ensures FlushDrops(Exchange(b, d, e).1) ==> IsRecorded(Exchange(b, d, e).0, e.txHash)
  {
    match d
    case Answered(c, user) => ServedIsRecorded(b, c, user, e);
    case Repeated(first, c, user) => ServedIsRecorded(Serve(b, first.0, AsRequest(e, first.1)).0, c, user, e);
    case _ =>
  }

  /** A call that drops its transfer has it on file, whatever was lost or repeated on the way, unless a
      delivery denied it. */
  lemma {:induction false} DroppedIsRecorded(b: Book, e: Entry, net: seq<Delivery>, attempt: nat)
    requires attempt <= RETRIES && |net| == RETRIES + 1 && forall d <- net :: FaithfulDelivery(d, e)
    ensures var (last, after, reply) := LastAttempt(b, e, net, attempt);
            OnRecordReply(last, reply) == Stop(true) ==> IsRecorded(after, e.txHash)
    decreases RETRIES - attempt
  {
    assert net[attempt] in net;
    ExchangeMeansWhatItSays(b, net[attempt], e);
    var (b', r) := Exchange(b, net[attempt], e);
    if OnRecordReply(attempt, r) == Retry {
      DroppedIsRecorded(b', e, net, attempt + 1);
    }
  }

  /** A flush takes nothing off the queue that is not on file, unless a delivery denied it. */
  lemma {:induction false} FlushedIsRecorded(b: Book, queue: seq<Entry>, entries: seq<Entry>, net: seq<Delivery>, e: Entry)
    requires |net| == |entries| && forall i :: 0 <= i < |net| ==> FaithfulDelivery(net[i], entries[i])
    requires e in queue
    ensures var (b', queue', _) := Flushed(b, queue, entries, net); e in queue' || IsRecorded(b', e.txHash)
  {
    if entries != [] {
      var n := |entries| - 1;
      FlushedIsRecorded(b, queue, entries[..n], net[..n], e);
      var (b', queue', _) := Flushed(b, queue, entries[..n], net[..n]);
      ExchangeMeansWhatItSays(b', net[n], entries[n]);
      WithoutRemovesOnly(queue', entries[n].txHash);
      if IsRecorded(b', e.txHash) {
        ExchangeKeepsRecords(b', net[n], entries[n], e.txHash);
      }
    }
  }

  /** The network works, the session is good and the node answers. */
  predicate Reachable(d: Delivery, slug: Slug) {
    && d.Answered? && d.user.Some? && d.user.value in d.c.wallets && d.c.chain.Some?
    && (slug in d.c.vaults ==> d.c.vaults[slug] != None)
  }

  lemma ReachableAnswersForGood(b: Book, d: Delivery, e: Entry)
    requires Reachable(d, e.slug)
    ensures FlushDrops(Exchange(b, d, e).1)
  {
    var q := AsRequest(e, d.user);
    var admitted := Admit(b, d.c, q);
    assert admitted.Err? ==> Status(admitted.error) in {400, 403, 404, 409};
  }

  /** Replayed over a working network, every entry leaves the queue. */
  lemma {:induction false} FlushDropsEveryEntry(b: Book, queue: seq<Entry>, entries: seq<Entry>, net: seq<Delivery>)
    requires |net| == |entries| && forall i :: 0 <= i < |net| ==> Reachable(net[i], entries[i].slug)
    ensures forall e <- Flushed(b, queue, entries, net).1 :: e in queue && forall f <- entries :: f.txHash != e.txHash
  {
    if entries != [] {
      var n := |entries| - 1;
      FlushDropsEveryEntry(b, queue, entries[..n], net[..n]);
      var (b', queue', _) := Flushed(b, queue, entries[..n], net[..n]);
      ReachableAnswersForGood(b', net[n], entries[n]);
      WithoutRemovesOnly(queue', entries[n].txHash);
      assert entries == entries[..n] + [entries[n]];
    }
  }

  lemma WorkingFlushLeavesNothing(b: Book, queue: seq<Entry>, net: seq<Delivery>)
    requires |net| == |queue| && forall i :: 0 <= i < |net| ==> Reachable(net[i], queue[i].slug)
    ensures Flushed(b, queue, queue, net).1 == []
  {
    var kept := Flushed(b, queue, queue, net).1;
    assert kept == [] || kept[0] in kept;
    FlushDropsEveryEntry(b, queue, queue, net);
  }

  /** For a hash not on file the handler answers 409 exactly when the strategy has no vault. */
  lemma ConflictOnNewHash(b: Book, c: Context, user: Option<User>, e: Entry)
    requires !IsRecorded(b, e.txHash) && user.Some? && user.value in c.wallets && e.slug in c.vaults
    ensures SaysRecorded(Exchange(b, Answered(c, user), e).1) <==> c.vaults[e.slug] == None
  {
  }

  /** Without a vault that 409 leaves the transfer queued at first ... */
  lemma NoVaultStaysQueued(b: Book, c: Context, user: Option<User>, e: Entry)
    requires !IsRecorded(b, e.txHash) && user.Some? && user.value in c.wallets
    requires e.slug in c.vaults && c.vaults[e.slug] == None
    ensures var d := Answered(c, user);
            && LastAttempt(b, e, [d, d, d, d], 0) == (0, b, ApiError(409))
            && OnRecordReply(0, ApiError(409)) == Stop(false)
  {
  }

  /** ... and is taken for a record by the next flush: the transfer leaves the queue although
      nobody wrote it down. */
  lemma NoVaultLosesTheTransfer(b: Book, c: Context, user: Option<User>, e: Entry)
    requires !IsRecorded(b, e.txHash) && user.Some? && user.value in c.wallets
    requires e.slug in c.vaults && c.vaults[e.slug] == None
    ensures Flushed(b, [e], [e], [Answered(c, user)]) == (b, [], 1)
  {
    var d := Answered(c, user);
    assert [e][..0] == [] && [d][..0] == [];
    assert Flushed(b, [e], [e][..0], [d][..0]) == (b, [e], 0);
    assert Exchange(b, d, e) == (b, ApiError(409));
    assert Without([e], e.txHash) == Without([e][..0], e.txHash) == [];
  }
}
