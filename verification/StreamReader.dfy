/**
 `readFileStream`: chunks pushed by the worker, pulled by the consumer of an async generator.

 Between two suspensions the generator runs without interruption, so a state records where it is
 suspended. `yielded` records what the consumer was given; what it should be given is read off the
 events.
 */
module StreamReader {
  type Chunk = seq<bv8>

  /** Where the generator stands: before its first run, at a `yield`, at the `await`, or finished. */
  datatype Phase = NotStarted | AtYield(draining: bool) | Waiting(woken: bool) | Ended

  datatype State = State(chunks: seq<Chunk>, done: bool, registered: bool, phase: Phase, yielded: seq<Chunk>)

  const INITIAL := State([], false, false, NotStarted, [])

  datatype Event =
    | Arrive(chunk: Chunk, last: bool)   // a stream message from the worker
    | Next                               // the consumer asks for the next chunk
    | Resume                             // the awaited promise has been resolved

  predicate Enabled(s: State, ev: Event)
  {
    match ev
    case Arrive(_, _) => true
    case Next => s.phase.NotStarted? || s.phase.AtYield?
    case Resume => s.phase == Waiting(true)
  }

  function YieldFirst(s: State, draining: bool): State
    requires s.chunks != []
  {
    s.(chunks := s.chunks[1..], yielded := s.yielded + [s.chunks[0]], phase := AtYield(draining))
  }

  /** The generator from the head of its first loop to its next suspension. */
  function RunLoop(s: State): State
  {
    if !s.done then
      if s.chunks != [] then YieldFirst(s, false) else s.(phase := Waiting(false))
    else RunDrain(s)
  }

  /** The generator from the head of its second loop. */
  function RunDrain(s: State): State
  {
    if s.chunks != [] then YieldFirst(s, true) else s.(phase := Ended)
  }

  /** `handleStreamChunk` and the callback it finds. */
  function Receive(s: State, chunk: Chunk, last: bool): State
  {
    if !s.registered then s
    else
      var s' := if chunk == [] then s else s.(chunks := s.chunks + [chunk]);
      s'.(done := last, registered := !last,
          phase := if s.phase.Waiting? then Waiting(true) else s.phase)
  }

  function Step(s: State, ev: Event): State
    requires Enabled(s, ev)
  {
    match ev
    case Arrive(chunk, last) => Receive(s, chunk, last)
    case Next =>
      if s.phase.NotStarted? then RunLoop(s.(registered := true))
      else if s.phase.draining then RunDrain(s)
      else RunLoop(s)
    case Resume => RunLoop(s)
  }

  ghost predicate Reaches(s: State, events: seq<Event>, end: State)
    decreases |events|
  {
    if events == [] then s == end
    else Enabled(s, events[0]) && Reaches(Step(s, events[0]), events[1..], end)
  }

  // ---- what a stream should give, read off the events ----

  /** The events after the first pull; the worker is asked for the file by it. */
  function Asked(events: seq<Event>): seq<Event>
    decreases |events|
  {
    if events == [] then [] else if events[0].Next? then events[1..] else Asked(events[1..])
  }

  /** The chunks that arrive, up to and with the last message; empty ones do not count. */
  function Arriving(events: seq<Event>): seq<Chunk>
    decreases |events|
  {
    if events == [] then []
    else if !events[0].Arrive? then Arriving(events[1..])
    else
      var here := if events[0].chunk == [] then [] else [events[0].chunk];
      if events[0].last then here else here + Arriving(events[1..])
  }

  predicate LastArrives(events: seq<Event>) { exists i | 0 <= i < |events| :: events[i].Arrive? && events[i].last }

  /** The chunks of the file, as far as they have arrived. */
  function Received(events: seq<Event>): seq<Chunk> { Arriving(Asked(events)) }

  /** What is still to come into a state. */
  function Coming(s: State, events: seq<Event>): seq<Chunk>
  {
    if s.phase.NotStarted? then Received(events) else if s.done then [] else Arriving(events)
  }

  predicate WillEnd(s: State, events: seq<Event>)
  {
    s.done || LastArrives(if s.phase.NotStarted? then Asked(events) else events)
  }

  ghost predicate Inv(s: State)
  {
    && (s.phase.NotStarted? ==> s == INITIAL)
    && (s.done ==> !s.registered)
    && (!s.phase.NotStarted? && !s.done ==> s.registered)
    && (s.phase == AtYield(true) || s.phase.Ended? ==> s.done)
    && (s.phase.Ended? ==> s.chunks == [])
    && (s.phase == Waiting(false) ==> s.chunks == [] && !s.done)
  }

  lemma StepKeepsInv(s: State, ev: Event)
    requires Inv(s) && Enabled(s, ev)
    ensures Inv(Step(s, ev))
  {
  }

  lemma LastArrivesFirst(events: seq<Event>)
    requires events != []
    ensures LastArrives(events) <==> (events[0].Arrive? && events[0].last) || LastArrives(events[1..])
  {
    if LastArrives(events) && !(events[0].Arrive? && events[0].last) {
      var i :| 0 <= i < |events| && events[i].Arrive? && events[i].last;
      assert events[1..][i - 1] == events[i];
    }
  }

  /** No step loses, doubles or reorders a chunk. */
  lemma StepKeepsChunks(s: State, events: seq<Event>)
    requires Inv(s) && events != [] && Enabled(s, events[0])
    ensures var s' := Step(s, events[0]);
            && s'.yielded + s'.chunks + Coming(s', events[1..]) == s.yielded + s.chunks + Coming(s, events)
            && (WillEnd(s', events[1..]) <==> WillEnd(s, events))
  {
    var s' := Step(s, events[0]);
    LastArrivesFirst(events);
    if s'.chunks != s.chunks && !events[0].Arrive? {
      assert s.yielded + s.chunks == (s.yielded + [s.chunks[0]]) + s.chunks[1..];
    }
  }

  lemma {:induction false} RunKeepsInv(s: State, events: seq<Event>, end: State)
    requires Inv(s) && Reaches(s, events, end)
    ensures Inv(end)
    ensures end.yielded + end.chunks == s.yielded + s.chunks + Coming(s, events) && (end.done <==> WillEnd(s, events))
    decreases |events|
  {
    if events != [] {
      StepKeepsInv(s, events[0]);
      StepKeepsChunks(s, events);
      RunKeepsInv(Step(s, events[0]), events[1..], end);
    }
  }

  /**
   For every interleaving of messages and pulls: the consumer has got exactly the non-empty
   chunks that arrived since it first asked, up to the last message, in order and once each, but
   for those still buffered; it is blocked only while nothing is buffered and the last message has
   not come; and the stream ends only after the last message, with everything handed over.
   */
  lemma StreamFaithful(events: seq<Event>, s: State)
    requires Reaches(INITIAL, events, s)
    ensures Received(events) == s.yielded + s.chunks
    ensures s.phase == Waiting(false) ==> s.yielded == Received(events) && !LastArrives(Asked(events))
    ensures s.phase.Ended? ==> s.yielded == Received(events) && LastArrives(Asked(events))
  {
    RunKeepsInv(INITIAL, events, s);
  }

  /** The consumer's next move: pull, or let the resolved promise run on. */
  function Pull(s: State): State
  {
    if Enabled(s, Resume) then Step(s, Resume)
    else if Enabled(s, Next) then Step(s, Next)
    else s
  }

  function Pulls(s: State, n: nat): State
    decreases n
  {
    if n == 0 then s else Pulls(Pull(s), n - 1)
  }

  lemma {:induction false} Drains(s: State)
    requires Inv(s) && s.done
    ensures var end := Pulls(s, |s.chunks| + 1);
            end.phase.Ended? && end.yielded == s.yielded + s.chunks
    decreases |s.chunks|
  {
    var s' := Pull(s);
    if s.chunks == [] {
      assert Pulls(s, 1) == Pulls(s', 0);
    } else {
      StepKeepsInv(s, if Enabled(s, Resume) then Resume else Next);
      Drains(s');
      assert s'.yielded + s'.chunks == s.yielded + s.chunks;
    }
  }

  /** Once the last message has come, one pull more than there are chunks left ends the stream, and all was handed over. */
  lemma DrainsAfterDone(events: seq<Event>, s: State)
    requires Reaches(INITIAL, events, s) && LastArrives(Asked(events))
    ensures var end := Pulls(s, |s.chunks| + 1);
            end.phase.Ended? && end.yielded == Received(events)
  {
    RunKeepsInv(INITIAL, events, s);
    Drains(s);
  }

  // ---- the generator as an object ----

  class Reader {
    var chunks: seq<Chunk>
    var done: bool
    var registered: bool
    var phase: Phase
    ghost var yielded: seq<Chunk>

    ghost function Abs(): State
      reads this
    {
      State(chunks, done, registered, phase, yielded)
    }

    constructor ()
      ensures Abs() == INITIAL
    {
      chunks, done, registered, phase, yielded := [], false, false, NotStarted, [];
    }

    method HandleStreamChunk(chunk: Chunk, last: bool)
      modifies this
      ensures Abs() == Step(old(Abs()), Arrive(chunk, last))
    {
      if registered {
        if |chunk| > 0 {
          chunks := chunks + [chunk];
        }
        done := last;
        if phase.Waiting? {
          phase := Waiting(true);
        }
        if last {
          registered := false;
        }
      }
    }

    /** `chunks.shift()`, handed to the consumer. */
    method Yield(draining: bool) returns (chunk: Chunk)
      requires chunks != []
      modifies this
      ensures Abs() == YieldFirst(old(Abs()), draining) && chunk == old(chunks)[0]
    {
      chunk := chunks[0];
      chunks := chunks[1..];
      yielded := yielded + [chunk];
      phase := AtYield(draining);
    }

    /** Runs from a suspension to the next one. */
    method Continue()
      requires Enabled(Abs(), Next) || Enabled(Abs(), Resume)
      modifies this
      ensures Abs() == Step(old(Abs()), if old(phase).Waiting? then Resume else Next)
    {
      if phase.NotStarted? {
        registered := true;
      }
      if !done && phase != AtYield(true) {
        if |chunks| > 0 {
          var _ := Yield(false);
        } else {
          phase := Waiting(false);
        }
        return;
      }
      if |chunks| > 0 {
        var _ := Yield(true);
      } else {
        phase := Ended;
      }
    }
  }
}
