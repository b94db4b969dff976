/**
 The hashtree-cc service worker: file requests served from worker messages, many at a time.

 Each request has an inactivity timer, a headers-chunks-done protocol that feeds its response
 body, and, when it is a download, a share in the active-download counter. The model has a clock
 and ideal timers; a request id is the value of the request counter.
 */
module ServiceWorker {
  import opened Wrappers

  type Chunk = seq<bv8>

  const PORT_TIMEOUT_MS := 60000

  // ---- the inactivity timer ----

  /** `createInactivityTimer`: `due` is the armed timeout, `fired` counts the calls of `onTimeout`. */
  datatype Timer = Timer(active: bool, due: Option<nat>, fired: nat)

  datatype TimerEvent = Clear | Touch | Fire

  function Arm(t: Timer, now: nat, ms: nat): Timer
  {
    if !t.active then t else t.(due := Some(now + ms))
  }

  function NewTimer(now: nat, ms: nat): Timer
  {
    Arm(Timer(true, None, 0), now, ms)
  }

  function TimerStep(t: Timer, ev: TimerEvent, now: nat, ms: nat): Timer
  {
    match ev
    case Clear => t.(active := false, due := None)
    case Touch => Arm(t, now, ms)
    case Fire => if !t.active then t else Timer(false, None, t.fired + 1)
  }

  /** The timer after a series of events, each with its time. */
  function TimerRun(t: Timer, events: seq<(TimerEvent, nat)>, ms: nat): Timer
    decreases |events|
  {
    if events == [] then t else TimerRun(TimerStep(t, events[0].0, events[0].1, ms), events[1..], ms)
  }

  /** A timer that has fired or been cleared stays as it is, whatever happens: `touch` does not revive it. */
  lemma {:induction false} StoppedTimerStays(t: Timer, events: seq<(TimerEvent, nat)>, ms: nat)
    requires !t.active && t.due.None?
    ensures TimerRun(t, events, ms) == t
    decreases |events|
  {
    if events != [] {
      StoppedTimerStays(t, events[1..], ms);
    }
  }

  /** Whatever happens to a timer, it fires at most once, and it is armed as long as it is active. */
  lemma {:induction false} TimerFiresOnce(t: Timer, events: seq<(TimerEvent, nat)>, ms: nat)
    requires t.active && t.due.Some? && t.fired == 0
    ensures var end := TimerRun(t, events, ms);
            end.fired <= 1 && end.active == end.due.Some? && (end.active ==> end.fired == 0)
    decreases |events|
  {
    if events != [] {
      var t' := TimerStep(t, events[0].0, events[0].1, ms);
      if t'.active {
        TimerFiresOnce(t', events[1..], ms);
      } else {
        StoppedTimerStays(t', events[1..], ms);
      }
    }
  }

  class InactivityTimer {
    const ms: nat
    var active: bool
    var due: Option<nat>
    ghost var fired: nat

    ghost function Abs(): Timer
      reads this
    {
      Timer(active, due, fired)
    }

    constructor (timeoutMs: nat, now: nat)
      ensures ms == timeoutMs && Abs() == NewTimer(now, timeoutMs)
    {
      ms := timeoutMs;
      active := true;
      due := Some(now + timeoutMs);
      fired := 0;
    }

    method ArmTimer(now: nat)
      modifies this`due
      ensures Abs() == Arm(old(Abs()), now, ms)
    {
      if !active { return; }
      due := Some(now + ms);
    }

    method ClearTimer()
      modifies this`active, this`due
      ensures forall now: nat :: Abs() == TimerStep(old(Abs()), Clear, now, ms)
    {
      active := false;
      due := None;
    }

    method TouchTimer(now: nat)
      modifies this`due
      ensures Abs() == TimerStep(old(Abs()), Touch, now, ms)
    {
      ArmTimer(now);
    }

    method OnTimeout(now: nat) returns (callback: bool)
      modifies this
      ensures Abs() == TimerStep(old(Abs()), Fire, now, ms)
      ensures callback == old(active)
    {
      if !active { return false; }
      active := false;
      due := None;
      fired := fired + 1;
      callback := true;
    }
  }

  // ---- one request ----

  datatype StreamState = Open | Closed | Aborted

  /** A transform stream: what was written to it, and how it stands. */
  datatype Stream = Stream(chunks: seq<Chunk>, state: StreamState)

  /** The promise of `serveViaWorker`. A streamed response carries the first stream. */
  datatype Promise = Unsettled | Headless | Streamed | Failed

  /** `streams` lists the streams opened by `headers` messages; the writer belongs to the last one. */
  datatype Req = Req(head: bool, tracked: bool, timer: Timer, streams: seq<Stream>, promise: Promise)

  datatype Message = Headers | Data(chunk: Chunk) | Done | ErrorMessage

  datatype ReqEvent = Got(message: Message) | TimedOut

  /** Settling a promise a second time has no effect. */
  function SettleAs(p: Promise, q: Promise): Promise { if p.Unsettled? then q else p }

  function WithLast(streams: seq<Stream>, last: Stream): seq<Stream>
    requires streams != []
  {
    streams[..|streams| - 1] + [last]
  }

  /** Closing or aborting the writer, if there is one. */
  function Finish(streams: seq<Stream>, state: StreamState): seq<Stream>
  {
    if streams == [] then [] else WithLast(streams, streams[|streams| - 1].(state := state))
  }

  /** A request is live while it is in `pendingRequests`. */
  datatype View = Live(req: Req) | Gone(req: Req)

  function Cleared(r: Req, now: nat): Req
  {
    r.(timer := TimerStep(r.timer, Clear, now, PORT_TIMEOUT_MS))
  }

  function Touched(r: Req, now: nat): Req
  {
    r.(timer := TimerStep(r.timer, Touch, now, PORT_TIMEOUT_MS))
  }

  function ReqStep(r: Req, ev: ReqEvent, now: nat): View
  {
    match ev
    case Got(Headers) =>
      if r.head then Gone(Cleared(Touched(r, now), now).(promise := SettleAs(r.promise, Headless)))
      else Live(Touched(r, now).(streams := r.streams + [Stream([], Open)], promise := SettleAs(r.promise, Streamed)))
    case Got(Data(chunk)) =>
      if r.streams == [] then Live(r)
      else
        var w := r.streams[|r.streams| - 1];
        Live(Touched(r, now).(streams := WithLast(r.streams, w.(chunks := w.chunks + [chunk]))))
    case Got(Done) => Gone(Cleared(r, now).(streams := Finish(r.streams, Closed)))
    case Got(ErrorMessage) =>
      Gone(Cleared(r, now).(streams := Finish(r.streams, Aborted), promise := SettleAs(r.promise, Failed)))
    case TimedOut =>
      var fired := r.(timer := TimerStep(r.timer, Fire, now, PORT_TIMEOUT_MS));
      Gone(Cleared(fired, now).(streams := Finish(r.streams, Aborted), promise := SettleAs(r.promise, Failed)))
  }

  // ---- the service worker ----

  /** `pending` is `pendingRequests`; `gone` keeps what became of the requests removed from it. */
  datatype State = State(now: nat, counter: nat, pending: map<nat, Req>, gone: map<nat, Req>, activeDownloads: int)

  const INITIAL := State(0, 0, map[], map[], 0)

  datatype Event = Serve(head: bool, download: bool) | For(id: nat, event: ReqEvent) | Advance(to: nat)

  predicate Enabled(s: State, ev: Event)
  {
    match ev
    case Serve(_, _) => true
    case For(id, TimedOut) => id in s.pending && s.pending[id].timer.due == Some(s.now)
    case For(_, Got(_)) => true
    case Advance(to) => s.now < to && forall id | id in s.pending && s.pending[id].timer.due.Some? :: to <= s.pending[id].timer.due.value
  }

  /** `clearPending` on the counter: the guard keeps it from going below zero. */
  function Released(active: int, tracked: bool): int
  {
    if tracked && active > 0 then active - 1 else active
  }

  function Step(s: State, ev: Event): State
    requires Enabled(s, ev)
  {
    match ev
    case Serve(head, download) =>
      var tracked := download && !head;
      var r := Req(head, tracked, NewTimer(s.now, PORT_TIMEOUT_MS), [], Unsettled);
      s.(counter := s.counter + 1, pending := s.pending[s.counter + 1 := r],
         activeDownloads := if tracked then s.activeDownloads + 1 else s.activeDownloads)
    case For(id, e) =>
      if id !in s.pending then s
      else
        (match ReqStep(s.pending[id], e, s.now)
         case Live(r) => s.(pending := s.pending[id := r])
         case Gone(r) =>
           s.(pending := s.pending - {id}, gone := s.gone[id := r],
              activeDownloads := Released(s.activeDownloads, r.tracked)))
    case Advance(to) => s.(now := to)
  }

  ghost predicate Reaches(s: State, events: seq<Event>, end: State)
    decreases |events|
  {
    if events == [] then s == end
    else Enabled(s, events[0]) && Reaches(Step(s, events[0]), events[1..], end)
  }

  function Tracked(pending: map<nat, Req>): set<nat>
  {
    set id | id in pending && pending[id].tracked
  }

  ghost predicate TimerRuns(t: Timer, now: nat)
  {
    t.active && t.fired == 0 && t.due.Some? && now <= t.due.value <= now + PORT_TIMEOUT_MS
  }

  ghost predicate Inv(s: State)
  {
    && s.activeDownloads == |Tracked(s.pending)|
    && (forall id | id in s.pending :: 0 < id <= s.counter && id !in s.gone && TimerRuns(s.pending[id].timer, s.now))
    && (forall id | id in s.gone :: 0 < id <= s.counter && !s.gone[id].timer.active && s.gone[id].timer.due.None?)
  }

  lemma ServeKeepsInv(s: State, head: bool, download: bool)
    requires Inv(s)
    ensures Inv(Step(s, Serve(head, download)))
  {
    var s' := Step(s, Serve(head, download));
    var id := s.counter + 1;
    assert Tracked(s'.pending) == if download && !head then Tracked(s.pending) + {id} else Tracked(s.pending);
  }

  lemma RemoveCounts(s: State, id: nat)
    requires id in s.pending
    ensures |Tracked(s.pending - {id})| == |Tracked(s.pending)| - (if s.pending[id].tracked then 1 else 0)
  {
    assert Tracked(s.pending - {id}) == Tracked(s.pending) - {id};
  }

  lemma ForKeepsInv(s: State, id: nat, e: ReqEvent)
    requires Inv(s) && id in s.pending && Enabled(s, For(id, e))
    ensures Inv(Step(s, For(id, e)))
  {
    var r := s.pending[id];
    match ReqStep(r, e, s.now)
    case Live(r') => assert Tracked(s.pending[id := r']) == Tracked(s.pending);
    case Gone(r') =>
      RemoveCounts(s, id);
      assert r.tracked ==> id in Tracked(s.pending);
  }

  lemma StepKeepsInv(s: State, ev: Event)
    requires Inv(s) && Enabled(s, ev)
    ensures Inv(Step(s, ev))
  {
    match ev
    case Serve(head, download) => ServeKeepsInv(s, head, download);
    case For(id, e) =>
      if id in s.pending { ForKeepsInv(s, id, e); }
    case Advance(_) =>
  }

  lemma {:induction false} RunKeepsInv(s: State, events: seq<Event>, end: State)
    requires Inv(s) && Reaches(s, events, end)
    ensures Inv(end)
    decreases |events|
  {
    if events != [] {
      StepKeepsInv(s, events[0]);
      RunKeepsInv(Step(s, events[0]), events[1..], end);
    }
  }

  /** The requests served, in order; a request id is a place in this list, counted from one. */
  function Served(events: seq<Event>): seq<Event>
    decreases |events|
  {
    if events == [] then []
    else if Last(events).Serve? then Served(Front(events)) + [Last(events)]
    else Served(Front(events))
  }

  function Front(events: seq<Event>): seq<Event>
    requires events != []
  {
    events[..|events| - 1]
  }

  function Last(events: seq<Event>): Event
    requires events != []
  {
    events[|events| - 1]
  }

  /** The time after these events. */
  function Clock(events: seq<Event>): nat
    decreases |events|
  {
    if events == [] then 0 else if Last(events).Advance? then Last(events).to else Clock(Front(events))
  }

  /** The event serves the request `id`. */
  predicate Serves(before: seq<Event>, ev: Event, id: nat) { ev.Serve? && id == |Served(before)| + 1 }

  /** `headers` came for the request since it was served. */
  predicate Opened(events: seq<Event>, id: nat)
    decreases |events|
  {
    events != [] && !Serves(Front(events), Last(events), id) && (Last(events) == For(id, Got(Headers)) || Opened(Front(events), id))
  }

  /** The event shows that the request goes on: it is served, or its headers come, or a chunk after them. */
  predicate Touches(before: seq<Event>, ev: Event, id: nat)
  {
    || Serves(before, ev, id)
    || ev == For(id, Got(Headers))
    || (ev.For? && ev.id == id && ev.event.Got? && ev.event.message.Data? && Opened(before, id))
  }

  /** The time at which the request last went on. */
  function LastTouch(events: seq<Event>, id: nat): nat
    decreases |events|
  {
    if events == [] then 0
    else if Touches(Front(events), Last(events), id) then Clock(events)
    else LastTouch(Front(events), id)
  }

  /** Each request served is pending or gone, and recorded as it was served. */
  ghost predicate Recorded(events: seq<Event>, s: State)
  {
    && s.counter == |Served(events)|
    && (forall id: nat :: 0 < id <= s.counter <==> id in s.pending || id in s.gone)
    && (forall id | id in s.pending :: 0 < id <= s.counter && AsServed(s.pending[id], Served(events)[id - 1]))
  }

  /** Only downloads that are not `HEAD` requests are tracked. */
  predicate AsServed(r: Req, ev: Event)
  {
    ev.Serve? && r.head == ev.head && r.tracked == (ev.download && !ev.head)
  }

  /** A timer is due 60 s after its request last went on. */
  ghost predicate Timed(events: seq<Event>, s: State)
  {
    s.now == Clock(events) && forall id | id in s.pending :: TimedAt(events, s.pending[id], id)
  }

  ghost predicate TimedAt(events: seq<Event>, r: Req, id: nat)
  {
    r.timer.due == Some(LastTouch(events, id) + 60000) && (r.streams != [] <==> Opened(events, id))
  }

  lemma StepTimed(events: seq<Event>, s: State, ev: Event)
    requires Inv(s) && s.counter == |Served(events)| && Timed(events, s) && Enabled(s, ev)
    ensures Timed(events + [ev], Step(s, ev))
  {
    var after, s' := events + [ev], Step(s, ev);
    assert Front(after) == events && Last(after) == ev;
    forall id | id in s'.pending ensures TimedAt(after, s'.pending[id], id) {
      if id in s.pending { assert TimedAt(events, s.pending[id], id); }
    }
  }

  lemma StepRecords(events: seq<Event>, s: State, ev: Event)
    requires Inv(s) && Recorded(events, s) && Enabled(s, ev)
    ensures Recorded(events + [ev], Step(s, ev))
  {
    var after := events + [ev];
    assert Front(after) == events && Last(after) == ev;
    var s' := Step(s, ev);
    forall id | id in s'.pending ensures 0 < id <= s'.counter && AsServed(s'.pending[id], Served(after)[id - 1]) {
      if id in s.pending { assert AsServed(s.pending[id], Served(events)[id - 1]); }
    }
  }

  ghost predicate Reachable(events: seq<Event>, s: State) { Inv(s) && Recorded(events, s) && Timed(events, s) }

  lemma {:induction false} RunReachable(before: seq<Event>, s: State, events: seq<Event>, end: State, all: seq<Event>)
    requires Reachable(before, s) && Reaches(s, events, end) && all == before + events
    ensures Reachable(all, end)
    decreases |events|
  {
    if events == [] {
      assert all == before;
    } else {
      var next := before + [events[0]];
      StepKeepsInv(s, events[0]);
      StepRecords(before, s, events[0]);
      StepTimed(before, s, events[0]);
      assert all == next + events[1..];
      RunReachable(next, Step(s, events[0]), events[1..], end, all);
    }
  }

  lemma Reached(events: seq<Event>, s: State)
    requires Reaches(INITIAL, events, s)
    ensures Reachable(events, s)
  {
    assert [] + events == events;
    RunReachable([], INITIAL, events, s, events);
  }

  /**
   A pending request times out exactly 60 s after it last went on: after it was served, got its
   headers, or got a chunk of its body.
   */
  lemma TimesOutIff(events: seq<Event>, s: State, id: nat)
    requires Reaches(INITIAL, events, s)
    ensures Enabled(s, For(id, TimedOut)) <==> id in s.pending && Clock(events) == LastTouch(events, id) + 60000
  {
    Reached(events, s);
    if id in s.pending { assert TimedAt(events, s.pending[id], id); }
  }

  /** The pending requests that were served as downloads. */
  function Downloads(events: seq<Event>, s: State): set<nat>
  {
    set id | id in s.pending && 0 < id <= |Served(events)| && Served(events)[id - 1] == Serve(false, true)
  }

  /**
   In every state of every run the counter equals the number of requests served as downloads, not as
   `HEAD`, that are still pending, so its guard never decides anything; every request served is
   pending or gone; and every pending one has a live timer due within 60 s.
   */
  lemma DownloadsCounted(events: seq<Event>, s: State)
    requires Reaches(INITIAL, events, s)
    ensures s.activeDownloads == |Downloads(events, s)|
    ensures forall id: nat :: 0 < id <= |Served(events)| <==> id in s.pending || id in s.gone
    ensures forall id | id in s.pending :: !(id in s.gone) && TimerRuns(s.pending[id].timer, s.now)
    ensures forall id | id in Downloads(events, s) :: Released(s.activeDownloads, true) == s.activeDownloads - 1
  {
    Reached(events, s);
    forall id ensures id in Downloads(events, s) <==> id in Tracked(s.pending) {
      if id in s.pending { assert AsServed(s.pending[id], Served(events)[id - 1]); }
    }
    assert Downloads(events, s) == Tracked(s.pending);
  }

  /** Nothing arrives: time passes and timers fire. */
  predicate Silent(events: seq<Event>)
  {
    forall i | 0 <= i < |events| :: events[i].Advance? || (events[i].For? && events[i].event.TimedOut?)
  }

  lemma {:induction false} SilentRun(s: State, events: seq<Event>, end: State, limit: nat)
    requires Inv(s) && Silent(events) && Reaches(s, events, end)
    requires forall id | id in s.pending :: s.pending[id].timer.due.value <= limit
    ensures Inv(end) && forall id | id in end.pending :: end.pending[id].timer.due.value <= limit
    decreases |events|
  {
    if events != [] {
      StepKeepsInv(s, events[0]);
      SilentRun(Step(s, events[0]), events[1..], end, limit);
    }
  }

  /** After more than 60 s without a message nothing is pending and no download is counted. */
  lemma SilenceEmptiesPending(before: seq<Event>, s: State, events: seq<Event>, end: State)
    requires Reaches(INITIAL, before, s) && Silent(events) && Reaches(s, events, end)
    requires end.now > s.now + PORT_TIMEOUT_MS
    ensures end.pending == map[] && end.activeDownloads == 0
  {
    RunKeepsInv(INITIAL, before, s);
    SilentRun(s, events, end, s.now + PORT_TIMEOUT_MS);
    assert forall id | id in end.pending :: TimerRuns(end.pending[id].timer, end.now);
    assert Tracked(end.pending) == {};
  }

  // ---- requests do not interfere ----

  function ViewOf(s: State, id: nat): Option<View>
  {
    if id in s.pending then Some(Live(s.pending[id]))
    else if id in s.gone then Some(Gone(s.gone[id]))
    else None
  }

  /** One request on its own, seeing the clock and its own events. */
  function Alone(v: View, now: nat, id: nat, events: seq<Event>): View
    decreases |events|
  {
    if events == [] then v
    else
      match events[0]
      case Advance(to) => Alone(v, to, id, events[1..])
      case For(x, e) => Alone(if x == id && v.Live? then ReqStep(v.req, e, now) else v, now, id, events[1..])
      case Serve(_, _) => Alone(v, now, id, events[1..])
  }

  /** The events of other requests, taken out. */
  function Own(id: nat, events: seq<Event>): seq<Event>
    decreases |events|
  {
    if events == [] then []
    else if events[0].Serve? || (events[0].For? && events[0].id != id) then Own(id, events[1..])
    else [events[0]] + Own(id, events[1..])
  }

  lemma {:induction false} OwnEventsDecide(v: View, now: nat, id: nat, events: seq<Event>)
    ensures Alone(v, now, id, events) == Alone(v, now, id, Own(id, events))
    decreases |events|
  {
    if events != [] {
      var rest := events[1..];
      var own := Own(id, events);
      match events[0]
      case Advance(to) =>
        assert own[1..] == Own(id, rest);
        OwnEventsDecide(v, to, id, rest);
      case For(x, e) =>
        var v' := if x == id && v.Live? then ReqStep(v.req, e, now) else v;
        OwnEventsDecide(v', now, id, rest);
        if x == id {
          assert own[1..] == Own(id, rest);
        }
      case Serve(_, _) => OwnEventsDecide(v, now, id, rest);
    }
  }

  /**
   For any interleaving, what becomes of a request depends on the clock and the messages for that
   request alone.
   */
  lemma {:induction false} NonInterference(s: State, events: seq<Event>, end: State, id: nat)
    requires Inv(s) && Reaches(s, events, end) && ViewOf(s, id).Some?
    ensures ViewOf(end, id) == Some(Alone(ViewOf(s, id).value, s.now, id, Own(id, events)))
    decreases |events|
  {
    OwnEventsDecide(ViewOf(s, id).value, s.now, id, events);
    if events != [] {
      var s' := Step(s, events[0]);
      StepKeepsInv(s, events[0]);
      NonInterference(s', events[1..], end, id);
      OwnEventsDecide(ViewOf(s', id).value, s'.now, id, events[1..]);
    }
  }

  /**
   So a request that is served runs on its own from then on, and starts without a body, unsettled,
   with a timer of 60 s.
   */
  lemma EachRequestAlone(before: seq<Event>, s: State, head: bool, download: bool, later: seq<Event>, end: State)
    requires Reaches(INITIAL, before, s) && Reaches(Step(s, Serve(head, download)), later, end)
    ensures var id := |Served(before)| + 1;
            var begun := Req(head, download && !head, Timer(true, Some(s.now + 60000), 0), [], Unsettled);
            ViewOf(end, id) == Some(Alone(Live(begun), s.now, id, Own(id, later)))
  {
    Reached(before, s);
    StepKeepsInv(s, Serve(head, download));
    var t, id := Step(s, Serve(head, download)), |Served(before)| + 1;
    assert ViewOf(t, id) == Some(Live(Req(head, download && !head, Timer(true, Some(s.now + 60000), 0), [], Unsettled)));
    NonInterference(t, later, end, id);
  }

  /** Nothing after its removal touches a request. */
  lemma {:induction false} GoneStays(r: Req, now: nat, id: nat, events: seq<Event>)
    ensures Alone(Gone(r), now, id, events) == Gone(r)
    decreases |events|
  {
    if events != [] {
      match events[0]
      case Advance(to) => GoneStays(r, to, id, events[1..]);
      case For(_, _) => GoneStays(r, now, id, events[1..]);
      case Serve(_, _) => GoneStays(r, now, id, events[1..]);
    }
  }

  // ---- the body of a response ----

  /** The chunk messages among the events, in order. */
  function ChunksIn(events: seq<Event>): seq<Chunk>
    decreases |events|
  {
    if events == [] then []
    else if events[0].For? && events[0].event.Got? && events[0].event.message.Data? then
      [events[0].event.message.chunk] + ChunksIn(events[1..])
    else ChunksIn(events[1..])
  }

  /** Only chunks for `id` and passing time. */
  predicate OnlyChunks(id: nat, events: seq<Event>)
  {
    forall i | 0 <= i < |events| ::
      events[i].Advance? || (events[i].For? && events[i].id == id && events[i].event.Got? && events[i].event.message.Data?)
  }

  function TimeAfter(now: nat, events: seq<Event>): nat
    decreases |events|
  {
    if events == [] then now
    else TimeAfter(if events[0].Advance? then events[0].to else now, events[1..])
  }

  lemma DataStep(r: Req, chunk: Chunk, now: nat)
    requires |r.streams| == 1 && r.streams[0].state == Open
    ensures var v := ReqStep(r, Got(Data(chunk)), now);
            && v.Live? && v.req.head == r.head && v.req.promise == r.promise
            && v.req.streams == [Stream(r.streams[0].chunks + [chunk], Open)]
  {
    assert r.streams[..0] == [];
  }

  /** `Delivered(r, v, chunks)`: `v` is the live request `r` after its one open stream got `chunks`. */
  predicate Delivered(r: Req, v: View, chunks: seq<Chunk>)
    requires |r.streams| == 1
  {
    && v.Live? && v.req.head == r.head && v.req.promise == r.promise
    && v.req.streams == [Stream(r.streams[0].chunks + chunks, Open)]
  }

  lemma DeliveredThen(r: Req, mid: Req, v: View, chunk: Chunk, rest: seq<Chunk>)
    requires |r.streams| == 1 && |mid.streams| == 1
    requires Delivered(r, Live(mid), [chunk]) && Delivered(mid, v, rest)
    ensures Delivered(r, v, [chunk] + rest)
  {
    assert (r.streams[0].chunks + [chunk]) + rest == r.streams[0].chunks + ([chunk] + rest);
  }

  lemma {:induction false} ChunksAccumulate(r: Req, now: nat, id: nat, events: seq<Event>)
    requires OnlyChunks(id, events) && |r.streams| == 1 && r.streams[0].state == Open
    ensures Delivered(r, Alone(Live(r), now, id, events), ChunksIn(events))
    decreases |events|
  {
    if events == [] {
      assert r.streams[0].chunks + [] == r.streams[0].chunks;
      assert r.streams == [r.streams[0]];
    } else {
      assert OnlyChunks(id, events[1..]);
      if events[0].Advance? {
        ChunksAccumulate(r, events[0].to, id, events[1..]);
      } else {
        var chunk := events[0].event.message.chunk;
        DataStep(r, chunk, now);
        var mid := ReqStep(r, Got(Data(chunk)), now).req;
        ChunksAccumulate(mid, now, id, events[1..]);
        DeliveredThen(r, mid, Alone(Live(mid), now, id, events[1..]), chunk, ChunksIn(events[1..]));
      }
    }
  }

  lemma {:induction false} AloneConcat(v: View, now: nat, id: nat, a: seq<Event>, b: seq<Event>)
    ensures Alone(v, now, id, a + b) == Alone(Alone(v, now, id, a), TimeAfter(now, a), id, b)
    decreases |a|
  {
    if a == [] {
      assert a + b == b;
    } else {
      assert (a + b)[1..] == a[1..] + b;
      match a[0]
      case Advance(to) => AloneConcat(v, to, id, a[1..], b);
      case For(x, e) =>
        AloneConcat(if x == id && v.Live? then ReqStep(v.req, e, now) else v, now, id, a[1..], b);
      case Serve(_, _) => AloneConcat(v, now, id, a[1..], b);
    }
  }

  /** The event ends a request that is not `HEAD`. */
  predicate Ends(ev: ReqEvent) { ev == Got(Done) || ev == Got(ErrorMessage) || ev == TimedOut }

  /**
   Whatever else the worker sends, a fresh request whose own events are `headers`, chunks and an end
   has a body that holds exactly its chunks, in order; it is closed if the end is `done`, and aborted if
   it is an error or the timeout.
   */
  lemma BodyIsTheChunks(s: State, events: seq<Event>, end: State, id: nat, middle: seq<Event>, ending: ReqEvent)
    requires Inv(s) && Reaches(s, events, end) && Ends(ending)
    requires id in s.pending && !s.pending[id].head && s.pending[id].streams == [] && s.pending[id].promise.Unsettled?
    requires OnlyChunks(id, middle)
    requires Own(id, events) == [For(id, Got(Headers))] + middle + [For(id, ending)]
    ensures id in end.gone
    ensures end.gone[id].promise == Streamed
    ensures end.gone[id].streams == [Stream(ChunksIn(middle), if ending == Got(Done) then Closed else Aborted)]
  {
    NonInterference(s, events, end, id);
    var r := s.pending[id];
    var first, last := [For(id, Got(Headers))], [For(id, ending)];
    var started := ReqStep(r, Got(Headers), s.now);
    AloneConcat(Live(r), s.now, id, first + middle, last);
    AloneConcat(Live(r), s.now, id, first, middle);
    assert first[1..] == [] && Alone(Live(r), s.now, id, first) == started;
    ChunksAccumulate(started.req, s.now, id, middle);
    assert [] + ChunksIn(middle) == ChunksIn(middle);
    var v := Alone(started, s.now, id, middle);
    assert last[1..] == [];
    assert Alone(v, TimeAfter(s.now, first + middle), id, last) == ReqStep(v.req, ending, TimeAfter(s.now, first + middle));
    assert v.req.streams[..0] == [];
  }

  /** A pending promise is unsettled while no body was opened, and then settled with the first one; `HEAD` opens none. */
  predicate PromisesFollow(s: State)
  {
    forall id | id in s.pending ::
      && s.pending[id].promise == (if s.pending[id].streams == [] then Unsettled else Streamed)
      && (s.pending[id].head ==> s.pending[id].streams == [])
  }

  lemma {:induction false} PromiseFollowsStreams(s: State, events: seq<Event>, end: State)
    requires PromisesFollow(s) && Reaches(s, events, end)
    ensures PromisesFollow(end)
    decreases |events|
  {
    if events != [] {
      PromiseFollowsStreams(Step(s, events[0]), events[1..], end);
    }
  }

  /** How the promise of a request stands that was removed by this event. */
  predicate SettledBy(r: Req, ev: ReqEvent, begun: bool)
  {
    && (r.promise.Unsettled? <==> ev == Got(Done) && !begun)
    && (r.promise.Headless? <==> ev == Got(Headers) && !begun)
    && (r.promise.Failed? <==> (ev == Got(ErrorMessage) || ev == TimedOut) && !begun)
    && (r.promise.Streamed? <==> begun)
  }

  /**
   Removing a request does not always settle its promise. In every run the removal leaves it
   unsettled exactly when `done` comes before any `headers`, and then the response never arrives. It
   fails exactly on an error or a timeout before any `headers`. A body that was opened stays as it
   was written, closed exactly if `done` removed the request, and aborted otherwise.
   */
  lemma RemovalSettlesIff(events: seq<Event>, s: State, id: nat, ev: ReqEvent, later: seq<Event>, end: State)
    requires Reaches(INITIAL, events, s) && id in s.pending && Enabled(s, For(id, ev))
    requires ReqStep(s.pending[id], ev, s.now).Gone? && Reaches(Step(s, For(id, ev)), later, end)
    ensures id in end.gone && SettledBy(end.gone[id], ev, s.pending[id].streams != [])
    ensures var was, now := s.pending[id].streams, end.gone[id].streams;
            |now| == |was| && (now != [] ==>
              && now[..|now| - 1] == was[..|was| - 1] && now[|now| - 1].chunks == was[|was| - 1].chunks
              && now[|now| - 1].state == if ev == Got(Done) then Closed else Aborted)
  {
    RunKeepsInv(INITIAL, events, s);
    PromiseFollowsStreams(INITIAL, events, s);
    var t := Step(s, For(id, ev));
    StepKeepsInv(s, For(id, ev));
    NonInterference(t, later, end, id);
    GoneStays(t.gone[id], t.now, id, Own(id, later));
  }

  /** The shortest such run: a request answered with `done` alone is gone and its promise pending for ever. */
  lemma DoneFirstNeverSettles(later: seq<Event>, end: State)
    requires Reaches(Step(Step(INITIAL, Serve(false, true)), For(1, Got(Done))), later, end)
    ensures 1 in end.gone && end.gone[1].promise.Unsettled?
  {
    var s := Step(INITIAL, Serve(false, true));
    var first := [Serve(false, true)];
    assert first[1..] == [];
    assert Reaches(INITIAL, first, s);
    RemovalSettlesIff(first, s, 1, Got(Done), later, end);
  }

  /** How many `headers` messages came for `id`. */
  function HeadersFor(id: nat, events: seq<Event>): nat
    decreases |events|
  {
    if events == [] then 0
    else (if events[0] == For(id, Got(Headers)) then 1 else 0) + HeadersFor(id, events[1..])
  }

  predicate AllOpen(streams: seq<Stream>) { forall i | 0 <= i < |streams| :: streams[i].state == Open }

  lemma {:induction false} GoneNotPending(s: State, events: seq<Event>, end: State, id: nat)
    requires Inv(s) && Reaches(s, events, end) && id in s.gone
    ensures id !in end.pending
    decreases |events|
  {
    if events != [] {
      StepKeepsInv(s, events[0]);
      GoneNotPending(Step(s, events[0]), events[1..], end, id);
    }
  }

  /** While a request is pending, every `headers` opens one more stream and nothing closes one. */
  lemma {:induction false} HeadersOpen(s: State, events: seq<Event>, end: State, id: nat)
    requires Inv(s) && Reaches(s, events, end) && id in s.pending && id in end.pending
    requires !s.pending[id].head && AllOpen(s.pending[id].streams)
    ensures !end.pending[id].head && AllOpen(end.pending[id].streams)
    ensures |end.pending[id].streams| == |s.pending[id].streams| + HeadersFor(id, events)
    decreases |events|
  {
    if events != [] {
      var s' := Step(s, events[0]);
      StepKeepsInv(s, events[0]);
      if id !in s'.pending {
        GoneNotPending(s', events[1..], end, id);
      } else {
        HeadersOpen(s', events[1..], end, id);
      }
    }
  }

  /**
   The response carries the first stream, the writer belongs to the last. So the body of a removed
   request is finished exactly when it got one `headers`; every further one leaves it open for ever.
   */
  lemma BodyFinishedIff(s: State, events: seq<Event>, mid: State, id: nat, ev: ReqEvent, later: seq<Event>, end: State)
    requires Inv(s) && Reaches(s, events, mid) && id in s.pending && !s.pending[id].head && s.pending[id].streams == []
    requires id in mid.pending && Enabled(mid, For(id, ev)) && ReqStep(mid.pending[id], ev, mid.now).Gone?
    requires Reaches(Step(mid, For(id, ev)), later, end)
    ensures id in end.gone && |end.gone[id].streams| == HeadersFor(id, events)
    ensures HeadersFor(id, events) > 0 ==> (end.gone[id].streams[0].state != Open <==> HeadersFor(id, events) == 1)
  {
    HeadersOpen(s, events, mid, id);
    RunKeepsInv(s, events, mid);
    var t := Step(mid, For(id, ev));
    StepKeepsInv(mid, For(id, ev));
    NonInterference(t, later, end, id);
    GoneStays(t.gone[id], t.now, id, Own(id, later));
  }

  // ---- the handlers ----

  /** The service worker object; `gone` is history only. */
  class Worker {
    var now: nat
    var requestCounter: nat
    var pendingRequests: map<nat, Req>
    var activeDownloadCount: int
    ghost var gone: map<nat, Req>

    ghost function Abs(): State
      reads this
    {
      State(now, requestCounter, pendingRequests, gone, activeDownloadCount)
    }

    constructor ()
      ensures Abs() == INITIAL
    {
      now, requestCounter, pendingRequests, activeDownloadCount, gone := 0, 0, map[], 0, map[];
    }

    method ServeViaWorker(head: bool, download: bool) returns (id: nat)
      modifies this
      ensures Abs() == Step(old(Abs()), Serve(head, download))
      ensures id == requestCounter
    {
      requestCounter := requestCounter + 1;
      id := requestCounter;
      var trackedDownload := download && !head;
      if trackedDownload {
        activeDownloadCount := activeDownloadCount + 1;
      }
      pendingRequests := pendingRequests[id := Req(head, trackedDownload, NewTimer(now, PORT_TIMEOUT_MS), [], Unsettled)];
    }

    /** Takes the request out of the table; what happens to its stream and promise follows. */
    method ClearPending(id: nat) returns (r: Req)
      requires id in pendingRequests
      modifies this`pendingRequests, this`activeDownloadCount
      ensures r == Cleared(old(pendingRequests)[id], now)
      ensures pendingRequests == old(pendingRequests) - {id}
      ensures activeDownloadCount == Released(old(activeDownloadCount), r.tracked)
    {
      r := Cleared(pendingRequests[id], now);
      pendingRequests := pendingRequests - {id};
      if r.tracked && activeDownloadCount > 0 {
        activeDownloadCount := activeDownloadCount - 1;
      }
    }

    method HandleWorkerMessage(id: nat, message: Message)
      modifies this
      ensures Abs() == Step(old(Abs()), For(id, Got(message)))
    {
      if id !in pendingRequests { return; }
      var pending := pendingRequests[id];
      match message {
        case Headers =>
          pendingRequests := pendingRequests[id := Touched(pending, now)];
          if pending.head {
            var r := ClearPending(id);
            gone := gone[id := r.(promise := SettleAs(r.promise, Headless))];
            return;
          }
          var streams := pending.streams + [Stream([], Open)];
          var promise := SettleAs(pending.promise, Streamed);
          pendingRequests := pendingRequests[id := Touched(pending, now).(streams := streams, promise := promise)];
        case Data(chunk) =>
          if pending.streams == [] { return; }
          var w := pending.streams[|pending.streams| - 1];
          var streams := WithLast(pending.streams, w.(chunks := w.chunks + [chunk]));
          pendingRequests := pendingRequests[id := Touched(pending, now).(streams := streams)];
        case Done =>
          var finished := ClearPending(id);
          gone := gone[id := finished.(streams := Finish(finished.streams, Closed))];
        case ErrorMessage =>
          var failed := ClearPending(id);
          gone := gone[id := failed.(streams := Finish(failed.streams, Aborted), promise := SettleAs(failed.promise, Failed))];
      }
    }

    /** The callback of the inactivity timer. */
    method OnInactivity(id: nat)
      requires Enabled(Abs(), For(id, TimedOut))
      modifies this
      ensures Abs() == Step(old(Abs()), For(id, TimedOut))
    {
      var pending := pendingRequests[id];
      pendingRequests := pendingRequests[id := pending.(timer := TimerStep(pending.timer, Fire, now, PORT_TIMEOUT_MS))];
      var timedOut := ClearPending(id);
      gone := gone[id := timedOut.(streams := Finish(timedOut.streams, Aborted), promise := SettleAs(timedOut.promise, Failed))];
    }
  }
}
