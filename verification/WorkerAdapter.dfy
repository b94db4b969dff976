/**
 The main-thread adapter in front of the hashtree worker: requests with timeouts, a queue for
 messages posted while no worker is ready, restart with backoff after a crash, and a heartbeat.

 The adapter is a state machine over its events, with a clock and ideal timers. Events from a
 worker come from the worker that is currently live.
 */
module WorkerAdapter {
  import opened Wrappers

  const REQUEST_TIMEOUT_MS := 120000
  const HEARTBEAT_INTERVAL_MS := 5000
  const HEARTBEAT_TIMEOUT_MS := 15000
  const MAX_RESTART_ATTEMPTS := 10

  datatype Message = Message(id: nat, body: nat)

  /** What a worker is sent: the adapter's own messages, and those given to `postMessage`. */
  datatype Sent = InitSent | PingSent | MessageSent(message: Message)

  datatype Outcome = Resolved | Rejected | TimedOut | Crashed

  /**
   The connection: `sent` holds one log per worker incarnation, and `worker` is the index of the live
   one.
   */
  datatype Link = Link(started: bool, ready: bool, worker: Option<nat>, sent: seq<seq<Sent>>, queue: seq<Message>)

  /**
   The requests: the pending ones with their deadlines, and the timers still to fire, which a
   crash does not clear. `issuedAt`, `settled` and `outcome` record the history of the run;
   `settled` counts how often each id was settled.
   */
  datatype Book = Book(pending: map<nat, nat>, timers: map<nat, nat>,
                       issuedAt: map<nat, nat>, settled: multiset<nat>, outcome: map<nat, Outcome>)

  datatype Restarts = Restarts(attempts: nat, dueAt: Option<nat>)

  datatype Beat = Beat(dueAt: Option<nat>, lastPong: nat)

  datatype State = State(now: nat, link: Link, book: Book, restarts: Restarts, beat: Beat)

  datatype Event =
    | Start
    | Post(message: Message)
    | Request(message: Message)
    | Ready
    | Pong
    | Response(id: nat)
    | ErrorReply(id: nat)
    | WorkerError
    | RequestTimer(id: nat)
    | HeartbeatTimer
    | RestartTimer
    | Advance(to: nat)

  const INITIAL := State(0, Link(false, false, None, [], []), Book(map[], map[], map[], multiset{}, map[]),
                         Restarts(0, None), Beat(None, 0))

  // ---- the steps ----

  function Pow2(n: nat): (r: nat)
    ensures r >= 1
  {
    if n == 0 then 1 else 2 * Pow2(n - 1)
  }

  /** The delay before restart attempt `attempt`, counted from one. */
  function Delay(attempt: nat): nat
    requires attempt > 0
  {
    var d := 1000 * Pow2(attempt - 1);
    if d < 30000 then d else 30000
  }

  function Spawn(l: Link): Link
  {
    l.(started := true, worker := Some(|l.sent|), sent := l.sent + [[InitSent]])
  }

  predicate Live(l: Link) { l.worker.Some? && l.worker.value < |l.sent| }

  function Send(l: Link, xs: seq<Sent>): Link
    requires Live(l)
  {
    l.(sent := l.sent[l.worker.value := l.sent[l.worker.value] + xs])
  }

  function AsSent(ms: seq<Message>): seq<Sent>
  {
    if ms == [] then [] else AsSent(ms[..|ms| - 1]) + [MessageSent(ms[|ms| - 1])]
  }

  function PostMessage(l: Link, m: Message): Link
    requires l.worker.Some? ==> Live(l)
  {
    if l.ready && l.worker.Some? then Send(l, [MessageSent(m)]) else l.(queue := l.queue + [m])
  }

  /** `flushMessageQueue`, on `ready`. */
  function Flush(l: Link): Link
    requires Live(l)
  {
    Send(l, AsSent(l.queue)).(queue := [])
  }

  function Issue(b: Book, id: nat, now: nat): Book
  {
    var deadline := now + REQUEST_TIMEOUT_MS;
    b.(issuedAt := b.issuedAt[id := now], timers := b.timers[id := deadline], pending := b.pending[id := deadline])
  }

  /** `resolvePending` and `rejectPending`: nothing happens for an id that is not pending. */
  function Settle(b: Book, id: nat, o: Outcome): Book
  {
    if id !in b.pending then b
    else Book(b.pending - {id}, b.timers - {id}, b.issuedAt, b.settled + multiset{id}, b.outcome[id := o])
  }

  /** The request timer: it fires once, and settles the request if it is still pending. */
  function TimeOut(b: Book, id: nat): Book
  {
    if id in b.pending then Settle(b, id, TimedOut) else b.(timers := b.timers - {id})
  }

  /** The outcomes once the ids of `done` have been rejected by a crash. */
  function CrashOutcomes(outcome: map<nat, Outcome>, done: set<nat>): map<nat, Outcome>
  {
    map id | id in outcome.Keys + done :: if id in done then Crashed else outcome[id]
  }

  /** A crash rejects every pending request and forgets them; their timers stay. */
  function RejectAll(b: Book): Book
  {
    Book(map[], b.timers, b.issuedAt, b.settled + multiset(b.pending.Keys), CrashOutcomes(b.outcome, b.pending.Keys))
  }

  function ScheduleRestart(r: Restarts, now: nat): Restarts
  {
    if r.attempts < MAX_RESTART_ATTEMPTS then
      var delay := Delay(r.attempts + 1);
      Restarts(r.attempts + 1, Some(now + delay))
    else r
  }

  /** `handleWorkerCrash`, up to the point where it waits for the restart delay. */
  function Crash(s: State): State
  {
    State(s.now, s.link.(ready := false, worker := None), RejectAll(s.book),
          ScheduleRestart(s.restarts, s.now), s.beat.(dueAt := None))
  }

  predicate Enabled(s: State, ev: Event)
  {
    match ev
    case Start => true
    case Post(_) => s.link.worker.Some? ==> Live(s.link)
    case Request(m) => m.id !in s.book.issuedAt && (s.link.worker.Some? ==> Live(s.link))
    case Ready => Live(s.link)
    case Pong => Live(s.link)
    case Response(_) => Live(s.link)
    case ErrorReply(_) => Live(s.link)
    case WorkerError => Live(s.link)
    case RequestTimer(id) => id in s.book.timers && s.book.timers[id] == s.now
    case HeartbeatTimer => s.beat.dueAt == Some(s.now) && (s.link.worker.Some? ==> Live(s.link))
    case RestartTimer => s.restarts.dueAt == Some(s.now)
    case Advance(to) =>
      // Timers fire on time: the clock does not pass one that is due.
      && s.now < to
      && (forall id | id in s.book.timers :: to <= s.book.timers[id])
      && (s.beat.dueAt.Some? ==> to <= s.beat.dueAt.value)
      && (s.restarts.dueAt.Some? ==> to <= s.restarts.dueAt.value)
  }

  function Step(s: State, ev: Event): State
    requires Enabled(s, ev)
  {
    match ev
    case Start => if s.link.ready || s.link.started then s else s.(link := Spawn(s.link))
    case Post(m) => s.(link := PostMessage(s.link, m))
    case Request(m) => s.(book := Issue(s.book, m.id, s.now), link := PostMessage(s.link, m))
    case Ready =>
      State(s.now, Flush(s.link).(ready := true), s.book, Restarts(0, s.restarts.dueAt),
            Beat(Some(s.now + HEARTBEAT_INTERVAL_MS), s.now))
    case Pong => s.(beat := s.beat.(lastPong := s.now))
    case Response(id) => s.(book := Settle(s.book, id, Resolved))
    case ErrorReply(id) => s.(book := Settle(s.book, id, Rejected))
    case WorkerError => Crash(s)
    case RequestTimer(id) => s.(book := TimeOut(s.book, id))
    case HeartbeatTimer =>
      if !s.link.ready || s.link.worker.None? then s.(beat := s.beat.(dueAt := Some(s.now + HEARTBEAT_INTERVAL_MS)))
      else if s.now - s.beat.lastPong > HEARTBEAT_TIMEOUT_MS then Crash(s)
      else s.(link := Send(s.link, [PingSent]), beat := s.beat.(dueAt := Some(s.now + HEARTBEAT_INTERVAL_MS)))
    case RestartTimer => s.(link := Spawn(s.link), restarts := s.restarts.(dueAt := None))
    case Advance(to) => s.(now := to)
  }

  /** A run of the adapter, without `close()`. */
  ghost predicate Reaches(s: State, events: seq<Event>, end: State)
    decreases |events|
  {
    if events == [] then s == end
    else Enabled(s, events[0]) && Reaches(Step(s, events[0]), events[1..], end)
  }

  // ---- incarnations: one worker at a time ----

  ghost predicate OneWorker(s: State)
  {
    && (s.link.worker.Some? ==> s.link.worker.value == |s.link.sent| - 1)
    && (s.link.ready ==> s.link.worker.Some?)
    && (s.restarts.dueAt.Some? ==> s.link.worker.None? && s.link.started)
    && (s.beat.dueAt.Some? <==> s.link.ready)
    && (!s.link.started ==> s.link.sent == [] && s.link.worker.None?)
  }

  lemma OneWorkerStep(s: State, ev: Event)
    requires OneWorker(s) && Enabled(s, ev)
    ensures OneWorker(Step(s, ev))
  {
  }

  // ---- delivery ----

  function Messages(log: seq<Sent>): seq<Message>
  {
    if log == [] then []
    else
      var rest := Messages(log[..|log| - 1]);
      if log[|log| - 1].MessageSent? then rest + [log[|log| - 1].message] else rest
  }

  /** What the incarnations were given, one after the other. */
  function Delivered(sent: seq<seq<Sent>>): seq<Message>
  {
    if sent == [] then [] else Delivered(sent[..|sent| - 1]) + Messages(sent[|sent| - 1])
  }

  lemma {:induction false} MessagesAppend(log: seq<Sent>, more: seq<Sent>)
    ensures Messages(log + more) == Messages(log) + Messages(more)
  {
    if more == [] {
      assert log + more == log;
    } else {
      MessagesAppend(log, more[..|more| - 1]);
      assert (log + more)[..|log + more| - 1] == log + more[..|more| - 1];
    }
  }

  lemma {:induction false} MessagesAsSent(ms: seq<Message>)
    ensures Messages(AsSent(ms)) == ms
  {
    if ms != [] {
      MessagesAsSent(ms[..|ms| - 1]);
      assert AsSent(ms)[..|AsSent(ms)| - 1] == AsSent(ms[..|ms| - 1]);
    }
  }

  ghost predicate AtLast(l: Link) { l.worker.Some? && l.worker.value == |l.sent| - 1 }

  /** Sending to the live worker delivers after everything delivered before. */
  lemma SendDelivers(l: Link, xs: seq<Sent>)
    requires AtLast(l)
    ensures Delivered(Send(l, xs).sent) == Delivered(l.sent) + Messages(xs)
  {
    var n := |l.sent| - 1;
    MessagesAppend(l.sent[n], xs);
    assert Send(l, xs).sent[..n] == l.sent[..n];
  }

  lemma SpawnDelivers(l: Link)
    ensures Delivered(Spawn(l).sent) == Delivered(l.sent)
  {
    assert Spawn(l).sent[..|l.sent|] == l.sent;
    assert [InitSent][..0] == [] && Messages([InitSent]) == [];
  }

  /** Everything handed over, and everything still to be. */
  function Handled(l: Link): seq<Message> { Delivered(l.sent) + l.queue }

  function MessageOf(ev: Event): seq<Message>
  {
    match ev
    case Post(m) => [m]
    case Request(m) => [m]
    case _ => []
  }

  lemma PostHandles(l: Link, m: Message)
    requires (l.worker.Some? ==> AtLast(l)) && (l.ready ==> l.queue == [] && l.worker.Some?)
    ensures var l' := PostMessage(l, m);
            Handled(l') == Handled(l) + [m] && (l'.ready ==> l'.queue == [])
  {
    if l.ready && l.worker.Some? {
      SendDelivers(l, [MessageSent(m)]);
      assert [MessageSent(m)][..0] == [] && Messages([MessageSent(m)]) == [m];
    }
  }

  lemma FlushHandles(l: Link)
    requires AtLast(l)
    ensures Handled(Flush(l)) == Handled(l) && Flush(l).queue == []
  {
    SendDelivers(l, AsSent(l.queue));
    MessagesAsSent(l.queue);
  }

  lemma PingHandles(l: Link)
    requires AtLast(l)
    ensures Handled(Send(l, [PingSent])) == Handled(l)
  {
    SendDelivers(l, [PingSent]);
    assert [PingSent][..0] == [] && Messages([PingSent]) == [];
  }

  ghost predicate QueueFlushed(l: Link) { l.ready ==> l.queue == [] }

  /** A step hands over, or queues, the message it was given, behind all others. */
  lemma HandledStep(s: State, ev: Event)
    requires OneWorker(s) && QueueFlushed(s.link) && Enabled(s, ev)
    ensures QueueFlushed(Step(s, ev).link)
    ensures Handled(Step(s, ev).link) == Handled(s.link) + MessageOf(ev)
  {
    match ev
    case Start => SpawnDelivers(s.link);
    case Post(m) => PostHandles(s.link, m);
    case Request(m) => PostHandles(s.link, m);
    case Ready => FlushHandles(s.link);
    case HeartbeatTimer => PingHandles(s.link);
    case RestartTimer => SpawnDelivers(s.link);
    case _ =>
  }

  /** A worker that is not the live one is sent nothing more. */
  lemma OthersHearNothing(s: State, ev: Event, i: nat)
    requires OneWorker(s) && Enabled(s, ev) && i < |s.link.sent| && s.link.worker != Some(i)
    ensures var l := Step(s, ev).link; i < |l.sent| && l.sent[i] == s.link.sent[i] && l.worker != Some(i)
  {
  }

  /** `init` is the first message an incarnation gets, and it gets it once. */
  ghost predicate InitFirst(log: seq<Sent>)
  {
    log != [] && log[0] == InitSent && forall i | 0 < i < |log| :: log[i] != InitSent
  }

  ghost predicate Initialised(l: Link)
  {
    forall i | 0 <= i < |l.sent| :: InitFirst(l.sent[i])
  }

  lemma {:induction false} NoInitAsSent(ms: seq<Message>)
    ensures forall i | 0 <= i < |AsSent(ms)| :: AsSent(ms)[i] != InitSent
  {
    if ms != [] {
      NoInitAsSent(ms[..|ms| - 1]);
    }
  }

  lemma SendInitialised(l: Link, xs: seq<Sent>)
    requires Initialised(l) && Live(l) && forall i | 0 <= i < |xs| :: xs[i] != InitSent
    ensures Initialised(Send(l, xs))
  {
    assert InitFirst(l.sent[l.worker.value]);
  }

  lemma InitialisedStep(s: State, ev: Event)
    requires OneWorker(s) && Initialised(s.link) && Enabled(s, ev)
    ensures Initialised(Step(s, ev).link)
  {
    assert InitFirst([InitSent]);
    match ev
    case Post(m) =>
      if s.link.ready { SendInitialised(s.link, [MessageSent(m)]); }
    case Request(m) =>
      if s.link.ready { SendInitialised(s.link, [MessageSent(m)]); }
    case Ready =>
      NoInitAsSent(s.link.queue);
      SendInitialised(s.link, AsSent(s.link.queue));
    case HeartbeatTimer => SendInitialised(s.link, [PingSent]);
    case _ =>
  }

  // ---- requests ----

  function Count(b: bool): nat { if b then 1 else 0 }

  /**
   An id counts once if it was issued and not at all otherwise: as pending, or as settled, and
   then settled a single time with the recorded outcome.
   */
  ghost predicate SettledOnce(b: Book)
  {
    && (forall id: nat :: b.settled[id] + Count(id in b.pending) == Count(id in b.issuedAt))
    && (forall id: nat :: id in b.outcome <==> b.settled[id] > 0)
  }

  lemma SettleKeepsOnce(b: Book, id: nat, o: Outcome)
    requires SettledOnce(b)
    ensures SettledOnce(Settle(b, id, o))
  {
    if id in b.pending {
      var b' := Settle(b, id, o);
      assert b.settled[id] == 0;
      assert forall x: nat :: b'.settled[x] == b.settled[x] + Count(x == id);
    }
  }

  lemma RejectAllKeepsOnce(b: Book)
    requires SettledOnce(b)
    ensures SettledOnce(RejectAll(b))
  {
    var b' := RejectAll(b);
    assert forall x: nat :: b'.settled[x] == b.settled[x] + Count(x in b.pending);
  }

  lemma IssueKeepsOnce(b: Book, id: nat, now: nat)
    requires SettledOnce(b) && id !in b.issuedAt
    ensures SettledOnce(Issue(b, id, now))
  {
    assert b.settled[id] + Count(id in b.pending) == 0;
  }

  /** Every step does to the requests one of four things, or nothing. */
  lemma BookStep(s: State, ev: Event)
    requires Enabled(s, ev)
    ensures var b, b' := s.book, Step(s, ev).book;
            || b' == b || b' == RejectAll(b)
            || (ev.Request? && ev.message.id !in b.issuedAt && b' == Issue(b, ev.message.id, s.now))
            || (ev.Response? && b' == Settle(b, ev.id, Resolved))
            || (ev.ErrorReply? && b' == Settle(b, ev.id, Rejected))
            || (ev.RequestTimer? && b' == TimeOut(b, ev.id))
  {
  }

  lemma OnceStep(s: State, ev: Event)
    requires SettledOnce(s.book) && Enabled(s, ev)
    ensures SettledOnce(Step(s, ev).book)
  {
    BookStep(s, ev);
    RejectAllKeepsOnce(s.book);
    match ev
    case Request(m) => IssueKeepsOnce(s.book, m.id, s.now);
    case Response(id) => SettleKeepsOnce(s.book, id, Resolved);
    case ErrorReply(id) => SettleKeepsOnce(s.book, id, Rejected);
    case RequestTimer(id) => TimeOutKeepsOnce(s.book, id);
    case _ =>
  }

  lemma TimeOutKeepsOnce(b: Book, id: nat)
    requires SettledOnce(b)
    ensures SettledOnce(TimeOut(b, id))
  {
    SettleKeepsOnce(b, id, TimedOut);
  }

  /** A pending request has its timer, due two minutes after it was issued; no timer is overdue. */
  ghost predicate TimersRun(b: Book, now: nat)
  {
    && (forall id | id in b.pending ::
          id in b.issuedAt && id in b.timers && b.timers[id] == b.issuedAt[id] + REQUEST_TIMEOUT_MS)
    && (forall id | id in b.timers :: id in b.issuedAt && now <= b.timers[id])
  }

  lemma TimersStep(s: State, ev: Event)
    requires TimersRun(s.book, s.now) && Enabled(s, ev)
    ensures TimersRun(Step(s, ev).book, Step(s, ev).now)
  {
  }

  // ---- restarts ----

  /** The delays before the first restarts after a `ready`. */
  ghost predicate Backoff(delays: seq<nat>)
  {
    |delays| <= MAX_RESTART_ATTEMPTS && forall i | 0 <= i < |delays| :: delays[i] == Delay(i + 1)
  }

  function Sum(xs: seq<nat>): nat
  {
    if xs == [] then 0 else Sum(xs[..|xs| - 1]) + xs[|xs| - 1]
  }

  /** The total of the first `n` delays. */
  function DelayBudget(n: nat): nat
  {
    if n <= 5 then 1000 * (Pow2(n) - 1) else 31000 + 30000 * (n - 5)
  }

  lemma SmallPowers()
    ensures Pow2(0) == 1 && Pow2(1) == 2 && Pow2(2) == 4 && Pow2(3) == 8 && Pow2(4) == 16
    ensures Pow2(5) == 32 && Pow2(6) == 64 && Pow2(7) == 128 && Pow2(8) == 256 && Pow2(9) == 512
  {
  }

  lemma {:induction false} DelaySum(delays: seq<nat>)
    requires |delays| <= MAX_RESTART_ATTEMPTS
    requires forall i | 0 <= i < |delays| :: delays[i] == Delay(i + 1)
    ensures Sum(delays) == DelayBudget(|delays|)
  {
    SmallPowers();
    if delays != [] {
      DelaySum(delays[..|delays| - 1]);
      assert delays[|delays| - 1] == Delay(|delays|);
    }
  }

  lemma {:induction false} Pow2Monotone(i: nat, j: nat)
    requires i <= j
    ensures Pow2(i) <= Pow2(j)
  {
    if i < j {
      Pow2Monotone(i, j - 1);
    }
  }

  lemma DelayMonotone(i: nat, j: nat)
    requires 0 < i <= j
    ensures 1000 <= Delay(i) <= Delay(j) <= 30000
  {
    Pow2Monotone(i - 1, j - 1);
  }

  lemma BackoffBounds(delays: seq<nat>)
    requires Backoff(delays)
    ensures Sum(delays) <= 181000
    ensures forall i, j | 0 <= i <= j < |delays| :: 1000 <= delays[i] <= delays[j] <= 30000
  {
    DelaySum(delays);
    SmallPowers();
    forall i, j | 0 <= i <= j < |delays|
      ensures 1000 <= delays[i] <= delays[j] <= 30000
    {
      DelayMonotone(i + 1, j + 1);
    }
  }

  // ---- the heartbeat ----

  /** The next beat is at most 20 s after the last pong, and the clock has not passed it. */
  ghost predicate Beating(s: State)
  {
    s.link.ready ==>
      && s.beat.dueAt.Some?
      && s.beat.lastPong <= s.now <= s.beat.dueAt.value
      && s.beat.dueAt.value - s.beat.lastPong <= HEARTBEAT_TIMEOUT_MS + HEARTBEAT_INTERVAL_MS
  }

  lemma BeatingStep(s: State, ev: Event)
    requires OneWorker(s) && Beating(s) && Enabled(s, ev)
    ensures Beating(Step(s, ev))
  {
  }

  // ---- what the events say ----

  function Front(events: seq<Event>): seq<Event>
    requires events != []
  {
    events[..|events| - 1]
  }

  function Last(events: seq<Event>): Event
    requires events != []
  {
    events[|events| - 1]
  }

  /** The time after these events. */
  function Clock(events: seq<Event>): nat
    decreases |events|
  {
    if events == [] then 0 else if Last(events).Advance? then Last(events).to else Clock(Front(events))
  }

  /** When the worker last answered. */
  function Heard(events: seq<Event>): nat
    decreases |events|
  {
    if events == [] then 0
    else if Last(events).Ready? || Last(events).Pong? then Clock(events)
    else Heard(Front(events))
  }

  /** The worker is taken to be ready: it said so, and was not given up since. */
  predicate Up(events: seq<Event>)
    decreases |events|, 0
  {
    events != [] && (Last(events).Ready? || (Up(Front(events)) && !Crashes(Front(events), Last(events))))
  }

  /** The event is a crash: an error, or a heartbeat after 15 s of silence. */
  predicate Crashes(before: seq<Event>, ev: Event)
    decreases |before|, 1
  {
    ev.WorkerError? || (ev.HeartbeatTimer? && Up(before) && Clock(before) - Heard(before) > 15000)
  }

  /** How many workers were spawned: the first one, and one for each restart. */
  function Spawned(events: seq<Event>): nat
    decreases |events|
  {
    if events == [] then 0
    else
      var n := Spawned(Front(events));
      if Last(events).RestartTimer? || (Last(events).Start? && n == 0) then n + 1 else n
  }

  /** There is a worker: one was spawned after the last crash. */
  predicate Alive(events: seq<Event>)
    decreases |events|
  {
    events != [] &&
    var before, ev := Front(events), Last(events);
    ev.RestartTimer? || (ev.Start? && Spawned(before) == 0) || (Alive(before) && !Crashes(before, ev))
  }

  /** When the next heartbeat is due: 5 s after `ready`, and after each heartbeat, until a crash. */
  function NextBeat(events: seq<Event>): Option<nat>
    decreases |events|
  {
    if events == [] then None
    else
      var before, ev := Front(events), Last(events);
      if Crashes(before, ev) then None
      else if ev.Ready? || ev.HeartbeatTimer? then Some(Clock(events) + 5000)
      else NextBeat(before)
  }

  /** The messages given to `postMessage`, alone or as requests. */
  function Posted(events: seq<Event>): seq<Message>
    decreases |events|
  {
    if events == [] then [] else Posted(Front(events)) + MessageOf(Last(events))
  }

  /** The heartbeats that found the worker ready and not silent for too long. */
  function Pings(events: seq<Event>): nat
    decreases |events|
  {
    if events == [] then 0
    else
      var before := Front(events);
      Pings(before) + Count(Last(events).HeartbeatTimer? && Up(before) && !Crashes(before, Last(events)))
  }

  /** The requests made, with their times. */
  function Issued(events: seq<Event>): map<nat, nat>
    decreases |events|
  {
    if events == [] then map[]
    else
      var before := Issued(Front(events));
      if Last(events).Request? then before[Last(events).message.id := Clock(events)] else before
  }

  /** What first came of a request after it was made. */
  function Fate(events: seq<Event>, id: nat): Option<Outcome>
    decreases |events|
  {
    if events == [] then None
    else
      var before, ev := Front(events), Last(events);
      if Fate(before, id).Some? || id !in Issued(before) then Fate(before, id)
      else if Crashes(before, ev) then Some(Crashed)
      else if ev == Response(id) then Some(Resolved)
      else if ev == ErrorReply(id) then Some(Rejected)
      else if ev == RequestTimer(id) then Some(TimedOut)
      else None
  }

  /** The delays before the restarts since the last `ready`. */
  function Delays(events: seq<Event>): seq<nat>
    decreases |events|
  {
    if events == [] || Last(events).Ready? then []
    else
      var before := Delays(Front(events));
      if Crashes(Front(events), Last(events)) && |before| < 10 then before + [Delay(|before| + 1)] else before
  }

  /** When a worker is to be spawned: the delay after the crash, once. */
  function NextRestart(events: seq<Event>): Option<nat>
    decreases |events|
  {
    if events == [] then None
    else
      var before, ev := Front(events), Last(events);
      if Crashes(before, ev) then
        if |Delays(before)| < 10 then Some(Clock(events) + Delays(events)[|Delays(before)|]) else None
      else if ev.RestartTimer? then None
      else NextRestart(before)
  }

  function PingsIn(log: seq<Sent>): nat
  {
    if log == [] then 0 else PingsIn(log[..|log| - 1]) + Count(log[|log| - 1].PingSent?)
  }

  function PingsSent(sent: seq<seq<Sent>>): nat
  {
    if sent == [] then 0 else PingsSent(sent[..|sent| - 1]) + PingsIn(sent[|sent| - 1])
  }

  lemma {:induction false} PingsAppend(log: seq<Sent>, more: seq<Sent>)
    ensures PingsIn(log + more) == PingsIn(log) + PingsIn(more)
  {
    if more == [] {
      assert log + more == log;
    } else {
      PingsAppend(log, more[..|more| - 1]);
      assert (log + more)[..|log + more| - 1] == log + more[..|more| - 1];
    }
  }

  lemma SendPings(l: Link, xs: seq<Sent>)
    requires AtLast(l)
    ensures PingsSent(Send(l, xs).sent) == PingsSent(l.sent) + PingsIn(xs)
  {
    var n := |l.sent| - 1;
    PingsAppend(l.sent[n], xs);
    assert Send(l, xs).sent[..n] == l.sent[..n];
  }

  lemma SpawnPings(l: Link)
    ensures PingsSent(Spawn(l).sent) == PingsSent(l.sent)
  {
    assert Spawn(l).sent[..|l.sent|] == l.sent;
    assert [InitSent][..0] == [] && PingsIn([InitSent]) == 0;
  }

  lemma {:induction false} NoPingsAsSent(ms: seq<Message>)
    ensures PingsIn(AsSent(ms)) == 0
  {
    if ms != [] {
      NoPingsAsSent(ms[..|ms| - 1]);
      assert AsSent(ms)[..|AsSent(ms)| - 1] == AsSent(ms[..|ms| - 1]);
    }
  }

  lemma OnePing(x: Sent)
    ensures PingsIn([x]) == Count(x.PingSent?)
  {
    assert [x][..0] == [];
  }

  lemma PingStep(s: State, ev: Event)
    requires OneWorker(s) && Enabled(s, ev)
    ensures PingsSent(Step(s, ev).link.sent)
            == PingsSent(s.link.sent) + Count(ev.HeartbeatTimer? && s.link.ready && s.now - s.beat.lastPong <= HEARTBEAT_TIMEOUT_MS)
  {
    match ev
    case Start => SpawnPings(s.link);
    case Post(m) => if s.link.ready { SendPings(s.link, [MessageSent(m)]); OnePing(MessageSent(m)); }
    case Request(m) => if s.link.ready { SendPings(s.link, [MessageSent(m)]); OnePing(MessageSent(m)); }
    case Ready =>
      SendPings(s.link, AsSent(s.link.queue));
      NoPingsAsSent(s.link.queue);
    case HeartbeatTimer =>
      SendPings(s.link, [PingSent]);
      OnePing(PingSent);
    case RestartTimer => SpawnPings(s.link);
    case _ =>
  }

  // ---- the state is what the events say ----

  ghost predicate LinkFollows(events: seq<Event>, s: State)
  {
    && s.now == Clock(events) && s.beat.lastPong == Heard(events) && s.beat.dueAt == NextBeat(events)
    && s.link.ready == Up(events) && s.link.worker.Some? == Alive(events)
    && |s.link.sent| == Spawned(events) && (s.link.started <==> Spawned(events) > 0)
  }

  ghost predicate RestartsFollow(events: seq<Event>, s: State)
  {
    s.restarts.attempts == |Delays(events)| && s.restarts.dueAt == NextRestart(events) && Backoff(Delays(events))
  }

  ghost predicate MessagesFollow(events: seq<Event>, s: State)
  {
    Handled(s.link) == Posted(events) && PingsSent(s.link.sent) == Pings(events)
  }

  ghost predicate FateFollows(events: seq<Event>, b: Book, id: nat)
  {
    && (id in b.outcome <==> Fate(events, id).Some?) && (id in b.outcome ==> id in b.issuedAt)
    && (id in b.outcome ==> b.outcome[id] == Fate(events, id).value)
    && (id in b.pending <==> id in b.issuedAt && Fate(events, id).None?)
  }

  ghost predicate RequestsFollow(events: seq<Event>, b: Book)
  {
    b.issuedAt == Issued(events) && forall id :: FateFollows(events, b, id)
  }

  ghost predicate Follows(events: seq<Event>, s: State)
  {
    LinkFollows(events, s) && RestartsFollow(events, s) && MessagesFollow(events, s) && RequestsFollow(events, s.book)
  }

  /** The steps that are crashes are those the events tell. */
  lemma CrashesAre(events: seq<Event>, s: State, ev: Event)
    requires OneWorker(s) && LinkFollows(events, s) && Enabled(s, ev)
    ensures Crashes(events, ev) ==> Step(s, ev) == Crash(s)
    ensures ev.HeartbeatTimer? ==> s.link.ready && (Crashes(events, ev) <==> s.now - s.beat.lastPong > HEARTBEAT_TIMEOUT_MS)
  {
  }

  lemma LinkStep(events: seq<Event>, s: State, ev: Event)
    requires OneWorker(s) && LinkFollows(events, s) && Enabled(s, ev)
    ensures LinkFollows(events + [ev], Step(s, ev))
  {
    var after := events + [ev];
    assert Front(after) == events && Last(after) == ev;
    CrashesAre(events, s, ev);
  }

  lemma RestartsStep(events: seq<Event>, s: State, ev: Event)
    requires OneWorker(s) && LinkFollows(events, s) && RestartsFollow(events, s) && Enabled(s, ev)
    ensures RestartsFollow(events + [ev], Step(s, ev))
  {
    var after := events + [ev];
    assert Front(after) == events && Last(after) == ev;
    CrashesAre(events, s, ev);
  }

  lemma MessagesStep(events: seq<Event>, s: State, ev: Event)
    requires OneWorker(s) && QueueFlushed(s.link) && LinkFollows(events, s) && MessagesFollow(events, s) && Enabled(s, ev)
    ensures MessagesFollow(events + [ev], Step(s, ev))
  {
    var after := events + [ev];
    assert Front(after) == events && Last(after) == ev;
    CrashesAre(events, s, ev);
    HandledStep(s, ev);
    PingStep(s, ev);
  }

  lemma FateStep(events: seq<Event>, s: State, ev: Event, id: nat)
    requires OneWorker(s) && LinkFollows(events, s) && RequestsFollow(events, s.book) && Enabled(s, ev)
    ensures FateFollows(events + [ev], Step(s, ev).book, id)
  {
    var after := events + [ev];
    assert Front(after) == events && Last(after) == ev;
    assert FateFollows(events, s.book, id);
    CrashesAre(events, s, ev);
  }

  lemma RequestsStep(events: seq<Event>, s: State, ev: Event)
    requires OneWorker(s) && LinkFollows(events, s) && RequestsFollow(events, s.book) && Enabled(s, ev)
    ensures RequestsFollow(events + [ev], Step(s, ev).book)
  {
    var after := events + [ev];
    assert Front(after) == events && Last(after) == ev;
    CrashesAre(events, s, ev);
    forall id ensures FateFollows(after, Step(s, ev).book, id) {
      FateStep(events, s, ev, id);
    }
  }

  // ---- all runs ----

  ghost predicate Inv(s: State)
  {
    && OneWorker(s) && QueueFlushed(s.link) && Initialised(s.link)
    && SettledOnce(s.book) && TimersRun(s.book, s.now) && Beating(s)
  }

  lemma StepKeepsInv(s: State, ev: Event)
    requires Inv(s) && Enabled(s, ev)
    ensures Inv(Step(s, ev))
  {
    OneWorkerStep(s, ev);
    HandledStep(s, ev);
    InitialisedStep(s, ev);
    OnceStep(s, ev);
    TimersStep(s, ev);
    BeatingStep(s, ev);
  }

  ghost predicate Reachable(events: seq<Event>, s: State) { Inv(s) && Follows(events, s) }

  lemma StepReachable(before: seq<Event>, s: State, ev: Event, after: seq<Event>)
    requires Reachable(before, s) && Enabled(s, ev) && after == before + [ev]
    ensures Reachable(after, Step(s, ev))
  {
    StepKeepsInv(s, ev);
    LinkStep(before, s, ev);
    RestartsStep(before, s, ev);
    MessagesStep(before, s, ev);
    RequestsStep(before, s, ev);
  }

  /** What every step keeps, every run keeps. */
  lemma {:induction false} RunKeeps(p: (seq<Event>, State) -> bool, before: seq<Event>, s: State, events: seq<Event>, end: State, all: seq<Event>)
    requires forall e, x, ev | p(e, x) && Enabled(x, ev) :: p(e + [ev], Step(x, ev))
    requires p(before, s) && Reaches(s, events, end) && all == before + events
    ensures p(all, end)
    decreases |events|
  {
    if events == [] {
      assert all == before;
    } else {
      var next := before + [events[0]];
      assert all == next + events[1..];
      RunKeeps(p, next, Step(s, events[0]), events[1..], end, all);
    }
  }

  ghost function ReachableBy(): (seq<Event>, State) -> bool
  {
    (events: seq<Event>, s: State) => Reachable(events, s)
  }

  lemma Reached(events: seq<Event>, s: State)
    requires Reaches(INITIAL, events, s)
    ensures Inv(s) && Follows(events, s)
  {
    assert forall id :: FateFollows([], INITIAL.book, id);
    assert [] + events == events;
    var p := ReachableBy();
    forall e, x, ev | p(e, x) && Enabled(x, ev) ensures p(e + [ev], Step(x, ev)) {
      StepReachable(e, x, ev, e + [ev]);
    }
    RunKeeps(p, [], INITIAL, events, s, events);
  }

  /**
   In every state of every run: each request that was made is pending or settled but not both, and
   was settled at most once, by the first answer, timeout or crash that came after it; 120 s after
   it was made it is settled.
   */
  lemma RequestsSettleOnce(events: seq<Event>, s: State, id: nat)
    requires Reaches(INITIAL, events, s)
    ensures s.book.settled[id] == Count(Fate(events, id).Some?)
    ensures id in s.book.pending <==> id in Issued(events) && Fate(events, id).None?
    ensures Fate(events, id).Some? ==> id in s.book.outcome && s.book.outcome[id] == Fate(events, id).value
    ensures id in Issued(events) && Clock(events) > Issued(events)[id] + 120000 ==> Fate(events, id).Some?
  {
    Reached(events, s);
    assert FateFollows(events, s.book, id);
    assert s.book.settled[id] + Count(id in s.book.pending) == Count(id in s.book.issuedAt);
  }

  /**
   Over any number of crashes and restarts, every message posted was delivered to exactly one
   incarnation or is still queued, in posting order throughout; `init` is the first message of
   every incarnation; there is one incarnation for the start and one for each restart; and while a
   worker is ready the queue is empty.
   */
  lemma MessagesDeliveredInOrder(events: seq<Event>, s: State)
    requires Reaches(INITIAL, events, s)
    ensures Posted(events) == Delivered(s.link.sent) + s.link.queue
    ensures Up(events) ==> s.link.queue == []
    ensures |s.link.sent| == Spawned(events) && forall i | 0 <= i < |s.link.sent| :: InitFirst(s.link.sent[i])
  {
    Reached(events, s);
  }

  /**
   Between two `ready` messages at most ten restarts are scheduled, with delays that do not
   decrease, lie between 1 s and 30 s and total at most 181 s; and a worker is spawned again
   exactly such a delay after the crash.
   */
  lemma RestartsBounded(events: seq<Event>, s: State)
    requires Reaches(INITIAL, events, s)
    ensures |Delays(events)| <= 10 && Sum(Delays(events)) <= 181000
    ensures forall i, j | 0 <= i <= j < |Delays(events)| :: 1000 <= Delays(events)[i] <= Delays(events)[j] <= 30000
    ensures Enabled(s, RestartTimer) <==> NextRestart(events) == Some(Clock(events))
  {
    Reached(events, s);
    BackoffBounds(Delays(events));
  }

  /**
   A worker that is taken to be ready answered within the last 20 s. The heartbeat fires every 5 s; it
   declares the worker dead exactly if its last pong is more than 15 s old, and else sends a ping: a
   silent worker is caught between 15 s and 20 s, and one whose pongs are never more than 15 s apart
   never is.
   */
  lemma HeartbeatVerdict(events: seq<Event>, s: State)
    requires Reaches(INITIAL, events, s)
    ensures Up(events) ==> 0 <= Clock(events) - Heard(events) <= 20000
    ensures s.link.ready == Up(events) && s.link.worker.Some? == Alive(events)
    ensures Enabled(s, HeartbeatTimer) <==> NextBeat(events) == Some(Clock(events))
    ensures Enabled(s, HeartbeatTimer) ==>
              Up(events) && (Step(s, HeartbeatTimer).link.worker.None? <==> Clock(events) - Heard(events) > 15000)
    ensures PingsSent(s.link.sent) == Pings(events)
  {
    Reached(events, s);
  }

  // ---- the class ----

  lemma SendTwice(l: Link, xs: seq<Sent>, x: Sent)
    requires Live(l)
    ensures Live(Send(l, xs)) && Send(Send(l, xs), [x]) == Send(l, xs + [x])
  {
    var w := l.worker.value;
    assert l.sent[w] + xs + [x] == l.sent[w] + (xs + [x]);
  }

  lemma SendNothing(l: Link)
    requires Live(l)
    ensures Send(l, []) == l
  {
    assert l.sent[l.worker.value] + [] == l.sent[l.worker.value];
  }

  lemma CrashOutcomesAre(outcome0: map<nat, Outcome>, done: set<nat>, outcome: map<nat, Outcome>)
    requires outcome.Keys == outcome0.Keys + done
    requires forall id | id in outcome :: outcome[id] == if id in done then Crashed else outcome0[id]
    ensures outcome == CrashOutcomes(outcome0, done)
  {
  }

  lemma CountOneMore(settled: multiset<nat>, done: set<nat>, id: nat)
    requires id !in done
    ensures settled + multiset(done) + multiset{id} == settled + multiset(done + {id})
  {
    assert multiset(done + {id}) == multiset(done) + multiset{id};
  }

  ghost predicate RejectedSoFar(b: Book, done: set<nat>, settled: multiset<nat>, outcome: map<nat, Outcome>)
  {
    settled == b.settled + multiset(done) && outcome == CrashOutcomes(b.outcome, done)
  }

  lemma RejectedNone(b: Book)
    ensures RejectedSoFar(b, {}, b.settled, b.outcome)
  {
    CrashOutcomesAre(b.outcome, {}, b.outcome);
  }

  lemma RejectedOneMore(b: Book, done: set<nat>, settled: multiset<nat>, outcome: map<nat, Outcome>, id: nat)
    requires RejectedSoFar(b, done, settled, outcome) && id !in done
    ensures RejectedSoFar(b, done + {id}, settled + multiset{id}, outcome[id := Crashed])
  {
    CountOneMore(b.settled, done, id);
    CrashOutcomesAre(b.outcome, done + {id}, outcome[id := Crashed]);
  }

  /** The loop that rejects every pending request, in any order. */
  method RejectEach(b: Book) returns (settled: multiset<nat>, outcome: map<nat, Outcome>)
    ensures RejectedSoFar(b, b.pending.Keys, settled, outcome)
  {
    settled, outcome := b.settled, b.outcome;
    var left, done := b.pending.Keys, {};
    RejectedNone(b);
    while left != {}
      invariant done + left == b.pending.Keys && done !! left
      invariant RejectedSoFar(b, done, settled, outcome)
      decreases left
    {
      var id :| id in left;
      RejectedOneMore(b, done, settled, outcome, id);
      left, done := left - {id}, done + {id};
      settled, outcome := settled + multiset{id}, outcome[id := Crashed];
    }
    assert done == b.pending.Keys;
  }

  /**
   The adapter object, its fields grouped by what they belong to. Every method takes the step of
   its event.
   */
  class Adapter {
    var now: nat
    var link: Link
    var book: Book
    var restarts: Restarts
    var beat: Beat

    ghost function Abs(): State
      reads this
    {
      State(now, link, book, restarts, beat)
    }

    constructor ()
      ensures Abs() == INITIAL
    {
      now := 0;
      link := Link(false, false, None, [], []);
      book := Book(map[], map[], map[], multiset{}, map[]);
      restarts := Restarts(0, None);
      beat := Beat(None, 0);
    }

    method SpawnWorker()
      modifies this`link
      ensures link == Spawn(old(link))
    {
      link := link.(started := true, worker := Some(|link.sent|), sent := link.sent + [[InitSent]]);
    }

    method Init()
      modifies this`link
      ensures Abs() == Step(old(Abs()), Start)
    {
      if link.ready { return; }
      if link.started { return; }
      SpawnWorker();
    }

    method SendToWorker(x: Sent)
      requires Live(link)
      modifies this`link
      ensures link == Send(old(link), [x])
    {
      var w := link.worker.value;
      link := link.(sent := link.sent[w := link.sent[w] + [x]]);
    }

    method PostMessage(m: Message)
      requires Enabled(Abs(), Post(m))
      modifies this`link
      ensures Abs() == Step(old(Abs()), Post(m))
    {
      if link.ready && link.worker.Some? {
        SendToWorker(MessageSent(m));
      } else {
        link := link.(queue := link.queue + [m]);
      }
    }

    /** The flushing loop: one message at a time from the front of the queue. */
    method FlushMessageQueue()
      requires Live(link)
      modifies this`link
      ensures link == Flush(old(link))
    {
      ghost var l := link;
      ghost var k := 0;
      SendNothing(l);
      while link.queue != []
        invariant k <= |l.queue|
        invariant link == Send(l, AsSent(l.queue[..k])).(queue := l.queue[k..])
        decreases |link.queue|
      {
        var msg := link.queue[0];
        link := link.(queue := link.queue[1..]);
        assert l.queue[..k + 1][..k] == l.queue[..k] && l.queue[..k + 1][k] == msg;
        SendTwice(l, AsSent(l.queue[..k]), MessageSent(msg));
        SendToWorker(MessageSent(msg));
        k := k + 1;
      }
      assert l.queue[..k] == l.queue;
    }

    method OnReady()
      requires Enabled(Abs(), Ready)
      modifies this`link, this`restarts, this`beat
      ensures Abs() == Step(old(Abs()), Ready)
    {
      link := link.(ready := true);
      restarts := Restarts(0, restarts.dueAt);
      FlushMessageQueue();
      beat := Beat(Some(now + HEARTBEAT_INTERVAL_MS), now);
    }

    method OnPong()
      requires Enabled(Abs(), Pong)
      modifies this`beat
      ensures Abs() == Step(old(Abs()), Pong)
    {
      beat := beat.(lastPong := now);
    }

    /** `resolvePending` and `rejectPending`. */
    method SettlePending(id: nat, o: Outcome)
      modifies this`book
      ensures book == Settle(old(book), id, o)
    {
      if id in book.pending {
        book := book.(pending := book.pending - {id}, timers := book.timers - {id});
        book := book.(settled := book.settled + multiset{id}, outcome := book.outcome[id := o]);
      }
    }

    method OnResponse(id: nat)
      requires Enabled(Abs(), Response(id))
      modifies this`book
      ensures Abs() == Step(old(Abs()), Response(id))
    {
      SettlePending(id, Resolved);
    }

    method OnError(id: nat)
      requires Enabled(Abs(), ErrorReply(id))
      modifies this`book
      ensures Abs() == Step(old(Abs()), ErrorReply(id))
    {
      SettlePending(id, Rejected);
    }

    method SendRequest(m: Message)
      requires Enabled(Abs(), Request(m))
      modifies this`book, this`link
      ensures Abs() == Step(old(Abs()), Request(m))
    {
      var deadline := now + REQUEST_TIMEOUT_MS;
      book := book.(timers := book.timers[m.id := deadline], issuedAt := book.issuedAt[m.id := now]);
      book := book.(pending := book.pending[m.id := deadline]);
      PostMessage(m);
    }

    method OnRequestTimer(id: nat)
      requires Enabled(Abs(), RequestTimer(id))
      modifies this`book
      ensures Abs() == Step(old(Abs()), RequestTimer(id))
    {
      if id in book.pending {
        SettlePending(id, TimedOut);
      } else {
        book := book.(timers := book.timers - {id});
      }
    }

    method RejectPendingRequests()
      modifies this`book
      ensures book == RejectAll(old(book))
    {
      var settled, outcome := RejectEach(book);
      book := Book(map[], book.timers, book.issuedAt, settled, outcome);
    }

    method HandleWorkerCrash()
      modifies this`link, this`book, this`restarts, this`beat
      ensures Abs() == Crash(old(Abs()))
    {
      beat := beat.(dueAt := None);
      link := link.(ready := false, worker := None);
      RejectPendingRequests();
      if restarts.attempts < MAX_RESTART_ATTEMPTS {
        var attempt := restarts.attempts + 1;
        restarts := Restarts(attempt, Some(now + Delay(attempt)));
      }
    }

    method OnWorkerError()
      requires Enabled(Abs(), WorkerError)
      modifies this`link, this`book, this`restarts, this`beat
      ensures Abs() == Step(old(Abs()), WorkerError)
    {
      HandleWorkerCrash();
    }

    method OnHeartbeat()
      requires Enabled(Abs(), HeartbeatTimer)
      modifies this`link, this`book, this`restarts, this`beat
      ensures Abs() == Step(old(Abs()), HeartbeatTimer)
    {
      beat := beat.(dueAt := Some(now + HEARTBEAT_INTERVAL_MS));
      if !link.ready || link.worker.None? { return; }
      if now - beat.lastPong > HEARTBEAT_TIMEOUT_MS {
        HandleWorkerCrash();
        return;
      }
      SendToWorker(PingSent);
    }

    method OnRestartTimer()
      requires Enabled(Abs(), RestartTimer)
      modifies this`link, this`restarts
      ensures Abs() == Step(old(Abs()), RestartTimer)
    {
      restarts := restarts.(dueAt := None);
      SpawnWorker();
    }
  }
}
