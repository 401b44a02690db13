/** The calls of frontend/src/lib/settlement.ts inside the interleaving machine of `Settlement`: a call
    that nothing else comes between does there what it does on its own, and what it does is decided by
    the first answer that comes through. */
module SettlementRuns {
  import opened Collections
  import opened Positions
  import opened Settlement

  predicate Ready(m: Machine, r: Sent) {
    r in m.sent && Awaits(m, r)
  }

  lemma {:induction false} StepsThenSteps(m: Machine, a: seq<Step>, b: seq<Step>)
    ensures RunSteps(m, a + b) == RunSteps(RunSteps(m, a), b)
    decreases |a|
  {
    if a == [] {
      assert a + b == b;
    } else {
      assert (a + b)[0] == a[0] && (a + b)[1..] == a[1..] + b;
      StepsThenSteps(Next(m, a[0]), a[1..], b);
    }
  }

  /** What the network does with one request, step by step. */
  function DeliverySteps(b: Book, d: Delivery, r: Sent): seq<Step> {
    var answer := Deliver(Answer(r, Exchange(b, d, r.entry).1));
    match d
    case Unreached => [LoseConnection(r.task, false)]
    case Failed(status) => [FailUnserved(r, status), answer]
    case Answered(c, user) => [Reach(r, c, user, None), answer]
    case AnswerLost(c, user) => [Reach(r, c, user, None), LoseConnection(r.task, false)]
    case Repeated(first, c, user) => [Reach(r, first.0, first.1, None), Reach(r, c, user, None), answer]
  }

  /** The same calls under way and the same queue. */
  predicate SameClient(m: Machine, m': Machine) {
    m.queue == m'.queue && m.tasks == m'.tasks && m.nextTask == m'.nextTask && m.sent == m'.sent && m.handed == m'.handed
  }

  lemma RunOne(m: Machine, s: Step)
    ensures RunSteps(m, [s]) == Next(m, s)
  {
    assert [s][1..] == [];
  }

  lemma RunTwo(m: Machine, s: Step, t: Step)
    ensures RunSteps(m, [s, t]) == Next(Next(m, s), t)
  {
    assert [s, t][1..] == [t];
    RunOne(Next(m, s), t);
  }

  lemma ReachServes(m: Machine, r: Sent, c: Context, user: Option<User>)
    requires Ready(m, r)
    ensures var m', (book, result) := Next(m, Reach(r, c, user, None)), Serve(m.book, c, AsRequest(r.entry, user));
            && SameClient(m, m') && m'.book == book && Answer(r, ReplyTo(result)) in m'.answers && Ready(m', r)
  {
  }

  lemma ReceiveGoesOn(m: Machine, m': Machine, r: Sent, reply: Reply)
    requires SameClient(m, m') && Awaits(m, r)
    ensures SameClient(Receive(m, r, reply), Receive(m', r, reply)) && Receive(m', r, reply).book == m'.book
  {
  }

  /** The request has been dealt with: the book and the reply are those of `Exchange`, and the call has
      received the reply. */
  predicate DealtWith(m: Machine, m': Machine, d: Delivery, r: Sent)
    requires Awaits(m, r)
  {
    var (book, reply) := Exchange(m.book, d, r.entry);
    SameClient(m', Receive(m, r, reply)) && m'.book == book
  }

  lemma DeliveryRuns(m: Machine, d: Delivery, r: Sent)
    requires Ready(m, r)
    ensures DealtWith(m, RunSteps(m, DeliverySteps(m.book, d, r)), d, r)
  {
    match d
    case Unreached => RunOne(m, LoseConnection(r.task, false));
    case Failed(status) => FailedRuns(m, status, r);
    case Answered(c, user) => AnsweredRuns(m, c, user, r);
    case AnswerLost(c, user) => AnswerLostRuns(m, c, user, r);
    case Repeated(first, c, user) => RepeatedRuns(m, first, c, user, r);
  }

  lemma FailedRuns(m: Machine, status: nat, r: Sent)
    requires Ready(m, r)
    ensures DealtWith(m, RunSteps(m, DeliverySteps(m.book, Failed(status), r)), Failed(status), r)
  {
    var fail, answer := FailUnserved(r, status), Answer(r, ApiError(status));
    RunTwo(m, fail, Deliver(answer));
    ReceiveGoesOn(m, Next(m, fail), r, answer.reply);
  }

  lemma AnsweredRuns(m: Machine, c: Context, user: Option<User>, r: Sent)
    requires Ready(m, r)
    ensures DealtWith(m, RunSteps(m, DeliverySteps(m.book, Answered(c, user), r)), Answered(c, user), r)
  {
    var reach, answer := Reach(r, c, user, None), Answer(r, Exchange(m.book, Answered(c, user), r.entry).1);
    RunTwo(m, reach, Deliver(answer));
    ReachServes(m, r, c, user);
    ReceiveGoesOn(m, Next(m, reach), r, answer.reply);
  }

  lemma AnswerLostRuns(m: Machine, c: Context, user: Option<User>, r: Sent)
    requires Ready(m, r)
    ensures DealtWith(m, RunSteps(m, DeliverySteps(m.book, AnswerLost(c, user), r)), AnswerLost(c, user), r)
  {
    var reach := Reach(r, c, user, None);
    RunTwo(m, reach, LoseConnection(r.task, false));
    ReachServes(m, r, c, user);
    ReceiveGoesOn(m, Next(m, reach), r, ApiError(0));
  }

  /** Handled once and then, with the first answer lost, once more. */
  lemma RepeatedRuns(m: Machine, first: (Context, Option<User>), c: Context, user: Option<User>, r: Sent)
    requires Ready(m, r)
    ensures var d := Repeated(first, c, user); DealtWith(m, RunSteps(m, DeliverySteps(m.book, d, r)), d, r)
  {
    var once := Reach(r, first.0, first.1, None);
    var m1 := Next(m, once);
    ReachServes(m, r, first.0, first.1);
    var rest := DeliverySteps(m1.book, Answered(c, user), r);
    assert DeliverySteps(m.book, Repeated(first, c, user), r) == [once] + rest;
    StepsThenSteps(m, [once], rest);
    RunOne(m, once);
    AnsweredRuns(m1, c, user, r);
    ReceiveGoesOn(m, m1, r, Exchange(m1.book, Answered(c, user), r.entry).1);
  }

  // ---------------------------------------------------------------- a call that nothing comes between

  /** The attempts of one call, each after the timer of the one before. */
  function CallSteps(b: Book, r: Sent, net: seq<Delivery>): seq<Step>
    requires r.attempt <= RETRIES && |net| == RETRIES + 1
    decreases RETRIES - r.attempt
  {
    var (b', reply) := Exchange(b, net[r.attempt], r.entry);
    DeliverySteps(b, net[r.attempt], r)
    + if OnRecordReply(r.attempt, reply) == Retry then [TimerFires(r.task)] + CallSteps(b', r.(attempt := r.attempt + 1), net) else []
  }

  /** The client after a call that ended with this reply to this attempt. */
  predicate CallEnded(m: Machine, m': Machine, r: Sent, last: nat, reply: Reply) {
    && m'.tasks == m.tasks - {r.task} && m'.nextTask == m.nextTask && m'.handed == m.handed
    && m'.queue == if OnRecordReply(last, reply) == Stop(true) then Without(m.queue, r.entry.txHash) else m.queue
  }

  lemma {:induction false} CallRuns(m: Machine, r: Sent, net: seq<Delivery>)
    requires Ready(m, r) && m.tasks[r.task] == Recording(r, false) && r.attempt <= RETRIES && |net| == RETRIES + 1
    ensures var m', (last, after, reply) := RunSteps(m, CallSteps(m.book, r, net)), LastAttempt(m.book, r.entry, net, r.attempt);
            m'.book == after && CallEnded(m, m', r, last, reply)
    decreases RETRIES - r.attempt
  {
    var d := net[r.attempt];
    var (b', reply) := Exchange(m.book, d, r.entry);
    var m1 := RunSteps(m, DeliverySteps(m.book, d, r));
    DeliveryRuns(m, d, r);
    if OnRecordReply(r.attempt, reply) == Retry {
      var again := r.(attempt := r.attempt + 1);
      var m2 := Next(m1, TimerFires(r.task));
      assert m1.tasks == m.tasks[r.task := Recording(r, true)];
      assert m2 == m1.(tasks := m1.tasks[r.task := Recording(again, false)], sent := m1.sent + {again});
      CallRuns(m2, again, net);
      var rest := CallSteps(b', again, net);
      StepsThenSteps(m, DeliverySteps(m.book, d, r), [TimerFires(r.task)] + rest);
      StepsThenSteps(m1, [TimerFires(r.task)], rest);
      RunOne(m1, TimerFires(r.task));
      assert m2.tasks - {r.task} == m.tasks - {r.task};
    } else {
      assert DeliverySteps(m.book, d, r) + [] == DeliverySteps(m.book, d, r);
    }
  }

  /** `recordSettledTransfer`, started at any moment and left alone: the server, the stored queue and the
      calls under way are what the call on its own makes of them. */
  lemma RecordingLeftAlone(m: Machine, e: Entry, net: seq<Delivery>)
    requires m.nextTask !in m.tasks && |net| == RETRIES + 1
    ensures var r := Sent(m.nextTask, 0, false, e);
            var m' := RunSteps(m, [StartRecording(e)] + CallSteps(m.book, r, net));
            var (last, after, reply) := LastAttempt(m.book, e, net, 0);
            && m'.book == after && m'.tasks == m.tasks && m'.handed == m.handed + {e.txHash}
            && m'.queue == if OnRecordReply(last, reply) == Stop(true) then Without(Enqueued(m.queue, e), e.txHash) else Enqueued(m.queue, e)
  {
    var r, m1 := Sent(m.nextTask, 0, false, e), Next(m, StartRecording(e));
    RunOne(m, StartRecording(e));
    StepsThenSteps(m, [StartRecording(e)], CallSteps(m.book, r, net));
    CallRuns(m1, r, net);
    assert m1.tasks - {m.nextTask} == m.tasks;
  }

  /** The requests of a flush, one after the other. */
  function FlushSteps(b: Book, r: Sent, todo: seq<Entry>, net: seq<Delivery>): seq<Step>
    requires |net| == |todo| + 1
    decreases |todo|
  {
    DeliverySteps(b, net[0], r)
    + if todo == [] then []
      else FlushSteps(Exchange(b, net[0], r.entry).0, Sent(r.task, r.attempt + 1, true, todo[0]), todo[1..], net[1..])
  }

  type Standing = (Book, seq<Entry>, nat)

  /** A flush is its first entry and then the flush of the others, whatever one entry does. */
  function FirstThenOthers(one: (Book, seq<Entry>, Entry, Delivery) -> Standing, b: Book, queue: seq<Entry>,
                           entries: seq<Entry>, net: seq<Delivery>): Standing
    requires |net| == |entries|
    decreases |entries|
  {
    if entries == [] then (b, queue, 0)
    else
      var (b', queue', settled) := one(b, queue, entries[0], net[0]);
      var (b'', queue'', others) := FirstThenOthers(one, b', queue', entries[1..], net[1..]);
      (b'', queue'', settled + others)
  }

  lemma {:induction false} OthersThenLast(one: (Book, seq<Entry>, Entry, Delivery) -> Standing, b: Book, queue: seq<Entry>,
                                          entries: seq<Entry>, net: seq<Delivery>, e: Entry, d: Delivery)
    requires |net| == |entries|
    ensures var (b', queue', settled) := FirstThenOthers(one, b, queue, entries, net);
            var (b'', queue'', last) := one(b', queue', e, d);
            FirstThenOthers(one, b, queue, entries + [e], net + [d]) == (b'', queue'', settled + last)
    decreases |entries|
  {
    if entries == [] {
      assert entries + [e] == [e] && net + [d] == [d] && [e][1..] == [] && [d][1..] == [];
    } else {
      var (b', queue', _) := one(b, queue, entries[0], net[0]);
      OthersThenLast(one, b', queue', entries[1..], net[1..], e, d);
      assert (entries + [e])[1..] == entries[1..] + [e] && (net + [d])[1..] == net[1..] + [d];
    }
  }

  function LastAfterOthers(one: (Book, seq<Entry>, Entry, Delivery) -> Standing, b: Book, queue: seq<Entry>,
                           entries: seq<Entry>, net: seq<Delivery>): Standing
    requires |net| == |entries|
  {
    if entries == [] then (b, queue, 0)
    else
      var n := |entries| - 1;
      var (b', queue', settled) := LastAfterOthers(one, b, queue, entries[..n], net[..n]);
      var (b'', queue'', last) := one(b', queue', entries[n], net[n]);
      (b'', queue'', settled + last)
  }

  lemma {:induction false} EitherWay(one: (Book, seq<Entry>, Entry, Delivery) -> Standing, b: Book, queue: seq<Entry>,
                                     entries: seq<Entry>, net: seq<Delivery>)
    requires |net| == |entries|
    ensures LastAfterOthers(one, b, queue, entries, net) == FirstThenOthers(one, b, queue, entries, net)
  {
    if entries != [] {
      var n := |entries| - 1;
      EitherWay(one, b, queue, entries[..n], net[..n]);
      OthersThenLast(one, b, queue, entries[..n], net[..n], entries[n], net[n]);
      assert entries == entries[..n] + [entries[n]] && net == net[..n] + [net[n]];
    }
  }

  lemma {:induction false} FlushedIs(b: Book, queue: seq<Entry>, entries: seq<Entry>, net: seq<Delivery>)
    requires |net| == |entries|
    ensures Flushed(b, queue, entries, net) == LastAfterOthers(Replayed, b, queue, entries, net)
  {
    if entries != [] {
      FlushedIs(b, queue, entries[..|entries| - 1], net[..|entries| - 1]);
    }
  }

  lemma FlushedFirst(b: Book, queue: seq<Entry>, entries: seq<Entry>, net: seq<Delivery>)
    requires |net| == |entries|
    ensures Flushed(b, queue, entries, net) == FirstThenOthers(Replayed, b, queue, entries, net)
  {
    FlushedIs(b, queue, entries, net);
    EitherWay(Replayed, b, queue, entries, net);
  }

  lemma {:induction false} FlushRuns(m: Machine, r: Sent, todo: seq<Entry>, net: seq<Delivery>)
    requires Ready(m, r) && m.tasks[r.task] == Flushing(r, todo) && |net| == |todo| + 1
    ensures var m', (after, queue, _) := RunSteps(m, FlushSteps(m.book, r, todo, net)), FirstThenOthers(Replayed, m.book, m.queue, [r.entry] + todo, net);
            && m'.book == after && m'.queue == queue && m'.tasks == m.tasks - {r.task} && m'.handed == m.handed
    decreases |todo|
  {
    var m1 := RunSteps(m, DeliverySteps(m.book, net[0], r));
    DeliveryRuns(m, net[0], r);
        if todo == [] {
      assert DeliverySteps(m.book, net[0], r) + [] == DeliverySteps(m.book, net[0], r);
    } else {
      var next := Sent(r.task, r.attempt + 1, true, todo[0]);
      assert m1.tasks == m.tasks[r.task := Flushing(next, todo[1..])];
      FlushRuns(m1, next, todo[1..], net[1..]);
      StepsThenSteps(m, DeliverySteps(m.book, net[0], r), FlushSteps(m1.book, next, todo[1..], net[1..]));
      assert [todo[0]] + todo[1..] == todo;
      assert m1.tasks - {r.task} == m.tasks - {r.task};
    }
  }

  /** `flushUnrecorded`, started at any moment and left alone, is the flush on its own. */
  lemma FlushLeftAlone(m: Machine, net: seq<Delivery>)
    requires m.nextTask !in m.tasks && m.queue != [] && |net| == |m.queue|
    ensures var r := Sent(m.nextTask, 0, true, m.queue[0]);
            var m' := RunSteps(m, [StartFlush] + FlushSteps(m.book, r, m.queue[1..], net));
            var (after, queue, _) := Flushed(m.book, m.queue, m.queue, net);
            m'.book == after && m'.queue == queue && m'.tasks == m.tasks && m'.handed == m.handed
  {
    var r, m1 := Sent(m.nextTask, 0, true, m.queue[0]), Next(m, StartFlush);
    RunOne(m, StartFlush);
    StepsThenSteps(m, [StartFlush], FlushSteps(m.book, r, m.queue[1..], net));
    FlushRuns(m1, r, m.queue[1..], net);
    FlushedFirst(m.book, m.queue, m.queue, net);
    assert [m.queue[0]] + m.queue[1..] == m.queue;
    assert m1.tasks - {m.nextTask} == m.tasks;
  }

  /** An answer is heard once: delivered again, or while the call waits for its timer, it does nothing. */
  lemma AnswersAreHeardOnce(m: Machine, answer: Answer)
    ensures var m' := Next(m, Deliver(answer)); Next(m', Deliver(answer)) == m'
  {
    var r, m' := answer.request, Next(m, Deliver(answer));
    if answer in m.answers && Awaits(m, r) {
      assert r.task in m'.tasks && m'.tasks[r.task].Recording? ==> m'.tasks[r.task] == Recording(r, true);
      assert r.task in m'.tasks && m'.tasks[r.task].Flushing? ==> m'.tasks[r.task].request.attempt == r.attempt + 1;
    }
  }

  /** An error that is not the server's ends a recording call at once and leaves its transfer queued; a
      flush goes on with its next entry. */
  lemma ForeignErrorDropsNothing(m: Machine, id: nat)
    requires id in m.tasks && Awaits(m, m.tasks[id].request) && m.tasks[id].request.task == id
    ensures var m' := Next(m, LoseConnection(id, true));
            && m'.queue == m.queue && m'.book == m.book
            && (if m.tasks[id].Recording? || m.tasks[id].todo == [] then m'.tasks == m.tasks - {id}
                else id in m'.tasks && m'.tasks[id].Flushing? && m'.tasks[id].request.entry == m.tasks[id].todo[0]
                     && m'.tasks[id].todo == m.tasks[id].todo[1..])
  {
  }

  predicate NoStarts(steps: seq<Step>) { forall s <- steps :: !s.StartRecording? && !s.StartFlush? }

  lemma {:induction false} NobodyListens(m: Machine, steps: seq<Step>)
    requires m.tasks == map[] && NoStarts(steps)
    ensures var m' := RunSteps(m, steps); m'.tasks == map[] && m'.queue == m.queue && m'.sent == m.sent && m'.nextTask == m.nextTask
    decreases |steps|
  {
    if steps != [] {
      assert steps[0] in steps;
      NobodyListens(Next(m, steps[0]), steps[1..]);
    }
  }

  /** A reload forgets the calls under way and keeps the stored queue: whatever still reaches the server,
      nothing leaves the queue and no request is sent until the next call, and a flush that is then left
      alone on a working network empties it. */
  lemma ReloadThenFlush(m: Machine, late: seq<Step>, net: seq<Delivery>)
    requires NoStarts(late) && m.queue != [] && |net| == |m.queue|
    requires forall i :: 0 <= i < |net| ==> Reachable(net[i], m.queue[i].slug)
    ensures var m1 := RunSteps(Next(m, Reload), late);
            && m1.queue == m.queue && m1.sent == m.sent && m1.tasks == map[]
            && RunSteps(m1, [StartFlush] + FlushSteps(m1.book, Sent(m1.nextTask, 0, true, m.queue[0]), m.queue[1..], net)).queue == []
  {
    var m1 := RunSteps(Next(m, Reload), late);
    NobodyListens(Next(m, Reload), late);
    FlushLeftAlone(m1, net);
    WorkingFlushLeavesNothing(m1.book, m.queue, net);
  }

  // ---------------------------------------------------------------- what decides a call

  /** No answer came through: the request got nowhere, or it did and the answer was lost. */
  predicate Silent(d: Delivery) { Down(d) || d.AnswerLost? }

  lemma SilenceIsRetried(b: Book, d: Delivery, e: Entry)
    requires Silent(d)
    ensures Retryable(Exchange(b, d, e).1)
  {
  }

  /** The book as the last of `k` unanswered attempts leaves it. */
  function Unanswered(b: Book, e: Entry, net: seq<Delivery>, k: nat): Book
    requires k <= |net|
  {
    if k == 0 then b else Tried(b, e, net, k - 1).0
  }

  /** The handler would send a 409: the session is good, and the strategy has no vault or the hash is on
      file. */
  predicate Conflicts(b: Book, c: Context, user: Option<User>, e: Entry) {
    && user.Some? && user.value in c.wallets && e.slug in c.vaults
    && (c.vaults[e.slug] == None || IsRecorded(b, e.txHash))
  }

  lemma OneAnswerDecides(b: Book, c: Context, user: Option<User>, e: Entry, attempt: nat)
    requires c.chain.Some?
    ensures var reply := Exchange(b, Answered(c, user), e).1;
            && !Retryable(reply) && (SaysRecorded(reply) <==> Conflicts(b, c, user, e))
            && (OnRecordReply(attempt, reply) == Stop(true)
                <==> user.Some? && user.value in c.wallets && (attempt > 0 || !Conflicts(b, c, user, e)))
  {
  }

  /** The first answer that comes through decides the call, whatever was lost before it: the transfer
      leaves the queue exactly when the session is good and it is not a first attempt that met a
      conflict. So an expired session keeps it queued, a lost answer is made up for by the 409 of the
      next attempt, and a refusal that is taken to be for good drops it. */
  lemma FirstAnswerDecides(b: Book, e: Entry, net: seq<Delivery>, k: nat, c: Context, user: Option<User>)
    requires |net| == RETRIES + 1 && k <= RETRIES && (forall i :: 0 <= i < k ==> Silent(net[i]))
    requires net[k] == Answered(c, user) && c.chain.Some?
    ensures var (last, after, reply) := LastAttempt(b, e, net, 0);
            var before := Unanswered(b, e, net, k);
            && last == k && after == Serve(before, c, AsRequest(e, user)).0
            && (OnRecordReply(last, reply) == Stop(true)
                <==> user.Some? && user.value in c.wallets && (k > 0 || !Conflicts(before, c, user, e)))
  {
    StopsAtFirstAnswer(b, e, net);
    var before := Unanswered(b, e, net, k);
    assert Tried(b, e, net, k) == Exchange(before, net[k], e);
    OneAnswerDecides(before, c, user, e, k);
    forall i | 0 <= i < k ensures Retryable(Tried(b, e, net, i).1) {
      SilenceIsRetried(Unanswered(b, e, net, i), net[i], e);
    }
    assert LastAttempt(b, e, net, 0).0 == k;
  }

  /** While no answer comes through the transfer stays queued. */
  lemma SilenceKeepsQueued(b: Book, e: Entry, net: seq<Delivery>)
    requires |net| == RETRIES + 1 && (forall d <- net :: Silent(d))
    ensures var (last, after, reply) := LastAttempt(b, e, net, 0);
            last == RETRIES && after == Tried(b, e, net, RETRIES).0 && OnRecordReply(last, reply) == Stop(false)
  {
    StopsAtFirstAnswer(b, e, net);
    var last := LastAttempt(b, e, net, 0).0;
    SilenceIsRetried(Unanswered(b, e, net, last), net[last], e);
  }

  /** A recorded transfer whose answer was lost is dropped by the very next attempt that is answered. */
  lemma LostAnswerIsMadeUpFor(b: Book, e: Entry, net: seq<Delivery>, c: Context, user: Option<User>,
                              c': Context, user': Option<User>)
    requires |net| == RETRIES + 1 && net[0] == AnswerLost(c, user) && net[1] == Answered(c', user')
    requires Serve(b, c, AsRequest(e, user)).1.Ok? && c'.chain.Some? && user'.Some? && user'.value in c'.wallets
    ensures var (last, after, reply) := LastAttempt(b, e, net, 0);
            && last == 1 && OnRecordReply(last, reply) == Stop(true)
            && IsRecorded(after, e.txHash) && after == Serve(b, c, AsRequest(e, user)).0
  {
    FirstAnswerDecides(b, e, net, 1, c', user');
    var recorded := Serve(b, c, AsRequest(e, user)).0;
    assert Unanswered(b, e, net, 1) == Tried(b, e, net, 0).0 == recorded;
    ReplayChangesNothing(b, c, AsRequest(e, user));
    ReplayChangesNothing(recorded, c', AsRequest(e, user'));
  }

  /** One entry of a flush leaves the queue exactly when an answer came through on a good session, and
      counts as settled exactly when the handler recorded it or met a conflict. */
  lemma FlushDecides(b: Book, queue: seq<Entry>, e: Entry, c: Context, user: Option<User>)
    requires c.chain.Some?
    ensures var (after, left, settled) := Replayed(b, queue, e, Answered(c, user));
            && after == Serve(b, c, AsRequest(e, user)).0
            && left == (if user.Some? && user.value in c.wallets then Without(queue, e.txHash) else queue)
            && settled == (if Serve(b, c, AsRequest(e, user)).1.Ok? || Conflicts(b, c, user, e) then 1 else 0)
  {
  }

  lemma SilenceSettlesNothing(b: Book, queue: seq<Entry>, e: Entry, d: Delivery)
    requires Silent(d)
    ensures Replayed(b, queue, e, d).1 == queue && Replayed(b, queue, e, d).2 == 0
  {
  }
}
