/** The filter that thins out install progress before it reaches the window. Clock
    readings are parameters: any value, in any order. */
module EventForwarder {
  import opened Results

  const INSTALL_PROGRESS_INTERVAL := 100

  /** A core event, with the name it carries if any, or a diagnostics line. */
  datatype SessionEvent = Event(name: Option<string>, body: string) | Diagnostic(line: string)

  predicate IsCoreEvent(event: SessionEvent, kind: string) { event.Event? && event.name == Some(kind) }

  predicate IsFile(e: SessionEvent) { IsCoreEvent(e, "file") }

  predicate IsProgress(e: SessionEvent) { IsCoreEvent(e, "progress") && !IsFile(e) }

  /** Everything else: an event that must not be lost. */
  predicate IsBarrier(e: SessionEvent) { !IsFile(e) && !IsProgress(e) }

  datatype State = State(pending: Option<SessionEvent>, last: int)

  /** An event, the clock when it arrives, and the clock when it is sent. */
  datatype Input = Input(event: SessionEvent, arrival: int, sending: int)

  function PushStep(enabled: bool, s: State, i: Input): (State, seq<SessionEvent>) {
    var e := i.event;
    if !enabled then (s, [e])
    else if IsFile(e) then (s, [])
    else if IsProgress(e) then
      if Elapsed(s.last, i.arrival) >= INSTALL_PROGRESS_INTERVAL then (State(None, i.sending), [e])
      else (s.(pending := Some(e)), [])
    else
      var (t, out) := FlushStep(s, i.sending);
      (t, out + [e])
  }

  function FlushStep(s: State, now: int): (State, seq<SessionEvent>) {
    match s.pending
    case Some(e) => (State(None, now), [e])
    case None => (s, [])
  }

  /** `Instant::elapsed` never goes below zero. */
  function Elapsed(since: int, now: int): int { if now < since then 0 else now - since }

  class CompactEventForwarder {
    const enabled: bool
    var pendingProgress: Option<SessionEvent>
    var lastProgress: int

    ghost function Now(): State reads this { State(pendingProgress, lastProgress) }

    /** `started` is the clock less one interval, or the clock itself. */
    constructor (enabled: bool, started: int)
      ensures this.enabled == enabled && Now() == State(None, started)
    {
      this.enabled := enabled;
      pendingProgress := None;
      lastProgress := started;
    }

    method Push(i: Input) returns (sent: seq<SessionEvent>)
      modifies this
      ensures (Now(), sent) == PushStep(enabled, old(Now()), i)
    {
      var event := i.event;
      if !enabled {
        return [event];
      }
      if IsCoreEvent(event, "file") {
        return [];
      }
      if IsCoreEvent(event, "progress") {
        if Elapsed(lastProgress, i.arrival) >= INSTALL_PROGRESS_INTERVAL {
          pendingProgress := None;
          lastProgress := i.sending;
          return [event];
        }
        pendingProgress := Some(event);
        return [];
      }
      sent := Flush(i.sending);
      sent := sent + [event];
    }

    method Flush(now: int) returns (sent: seq<SessionEvent>)
      modifies this
      ensures (Now(), sent) == FlushStep(old(Now()), now)
    {
      sent := [];
      if pendingProgress.Some? {
        lastProgress := now;
        sent := [pendingProgress.value];
        pendingProgress := None;
      }
    }
  }

  // ----- whole requests -----

  /** Everything a request sends: its events in turn, then the final flush. */
  function Sent(enabled: bool, s: State, inputs: seq<Input>): seq<SessionEvent>
    decreases |inputs|
  {
    if inputs == [] then FlushStep(s, 0).1
    else
      var (t, out) := PushStep(enabled, s, inputs[0]);
      out + Sent(enabled, t, inputs[1..])
  }

  function Events(inputs: seq<Input>): seq<SessionEvent> {
    if inputs == [] then [] else [inputs[0].event] + Events(inputs[1..])
  }

  function Barriers(events: seq<SessionEvent>): seq<SessionEvent> {
    if events == [] then [] else (if IsBarrier(events[0]) then [events[0]] else []) + Barriers(events[1..])
  }

  /** The last progress event, or `before` when there is none. */
  function LastProgress(before: Option<SessionEvent>, events: seq<SessionEvent>): Option<SessionEvent>
    decreases |events|
  {
    if events == [] then before
    else LastProgress(if IsProgress(events[0]) then Some(events[0]) else before, events[1..])
  }

  /** `a` is what is left of `b` after leaving some events out. */
  predicate Subsequence(a: seq<SessionEvent>, b: seq<SessionEvent>)
    decreases |b|
  {
    a == [] || (b != [] && ((a[0] == b[0] && Subsequence(a[1..], b[1..])) || Subsequence(a, b[1..])))
  }

  function Held(s: State): seq<SessionEvent> { if s.pending.Some? then [s.pending.value] else [] }

  /** What the forwarder may hold back: one progress event, and nothing when disabled. */
  predicate Sound(enabled: bool, s: State) {
    s.pending.Some? ==> enabled && IsProgress(s.pending.value)
  }

  lemma StepSound(enabled: bool, s: State, i: Input)
    requires Sound(enabled, s)
    ensures Sound(enabled, PushStep(enabled, s, i).0)
  {
  }

  lemma {:induction false} LaterSubsequence(a: seq<SessionEvent>, b: seq<SessionEvent>, e: SessionEvent)
    requires Subsequence(a, b)
    ensures Subsequence(a, [e] + b) && Subsequence([e] + a, [e] + b)
  {
    assert ([e] + b)[1..] == b && ([e] + a)[1..] == a;
  }

  /** Nothing is invented or reordered. */
  lemma {:induction false} SentIsSubsequence(enabled: bool, s: State, inputs: seq<Input>)
    requires Sound(enabled, s)
    ensures Subsequence(Sent(enabled, s, inputs), Held(s) + Events(inputs))
    decreases |inputs|
  {
    hide IsFile, IsProgress, Elapsed, Subsequence;
    var sent := Sent(enabled, s, inputs);
    if inputs == [] {
      assert Held(s) + [] == Held(s);
      Itself(Held(s));
    } else {
      var e := inputs[0].event;
      var (t, out) := PushStep(enabled, s, inputs[0]);
      var rest := Events(inputs[1..]);
      var later := Sent(enabled, t, inputs[1..]);
      StepSound(enabled, s, inputs[0]);
      SentIsSubsequence(enabled, t, inputs[1..]);
      assert Held(s) + Events(inputs) == Held(s) + ([e] + rest);
      StepSubsequence(enabled, s, inputs[0], later, rest);
    }
  }

  lemma {:induction false} Itself(a: seq<SessionEvent>)
    ensures Subsequence(a, a)
    decreases |a|
  {
    if a != [] { Itself(a[1..]); }
  }

  lemma StepSubsequence(enabled: bool, s: State, i: Input, later: seq<SessionEvent>, rest: seq<SessionEvent>)
    requires Sound(enabled, s)
    requires Subsequence(later, Held(PushStep(enabled, s, i).0) + rest)
    ensures Subsequence(PushStep(enabled, s, i).1 + later, Held(s) + ([i.event] + rest))
  {
    hide IsFile, IsProgress, Elapsed, Subsequence;
    var e := i.event;
    var (t, out) := PushStep(enabled, s, i);
    if !enabled {
      assert Held(s) == [] && [] + rest == rest && [] + ([e] + rest) == [e] + rest;
      LaterSubsequence(later, rest, e);
    } else if IsFile(e) {
      InsertAfter(Held(s), later, rest, e);
      assert [] + later == later;
    } else if IsProgress(e) {
      if out == [e] {
        assert [] + rest == rest;
        LaterSubsequence(later, rest, e);
        Prefixed(Held(s), [e] + later, [e] + rest);
      } else {
        assert [] + later == later;
        Prefixed(Held(s), later, [e] + rest);
      }
    } else {
      assert [] + rest == rest;
      LaterSubsequence(later, rest, e);
      if s.pending.Some? {
        LaterSubsequence([e] + later, [e] + rest, s.pending.value);
        assert [s.pending.value] + [e] + later == [s.pending.value] + ([e] + later);
      } else {
        assert [] + [e] + later == [e] + later && [] + ([e] + rest) == [e] + rest;
      }
    }
  }

  lemma Prefixed(front: seq<SessionEvent>, a: seq<SessionEvent>, b: seq<SessionEvent>)
    requires |front| <= 1 && Subsequence(a, b)
    ensures Subsequence(a, front + b)
  {
    if front == [] {
      assert front + b == b;
    } else {
      assert front == [front[0]];
      LaterSubsequence(a, b, front[0]);
    }
  }

  lemma InsertAfter(held: seq<SessionEvent>, a: seq<SessionEvent>, b: seq<SessionEvent>, e: SessionEvent)
    requires |held| <= 1 && Subsequence(a, held + b)
    ensures Subsequence(a, held + ([e] + b))
  {
    if held == [] {
      assert held + b == b && held + ([e] + b) == [e] + b;
      LaterSubsequence(a, b, e);
    } else if a != [] {
      var h := held[0];
      assert held == [h] && (held + b)[1..] == b && (held + ([e] + b))[1..] == [e] + b;
      if a[0] == h && Subsequence(a[1..], b) {
        LaterSubsequence(a[1..], b, e);
      } else {
        LaterSubsequence(a, b, e);
      }
    }
  }

  lemma {:induction false} BarriersConcat(a: seq<SessionEvent>, b: seq<SessionEvent>)
    ensures Barriers(a + b) == Barriers(a) + Barriers(b)
    decreases |a|
  {
    hide IsBarrier;
    if a == [] {
      assert a + b == b;
    } else {
      assert (a + b)[1..] == a[1..] + b;
      BarriersConcat(a[1..], b);
    }
  }

  /** Every other event is delivered, in order. */
  lemma {:induction false} BarriersDelivered(enabled: bool, s: State, inputs: seq<Input>)
    requires Sound(enabled, s)
    ensures Barriers(Sent(enabled, s, inputs)) == Barriers(Events(inputs))
    decreases |inputs|
  {
    hide IsCoreEvent, Elapsed;
    if inputs == [] {
      HeldIsNoBarrier(enabled, s);
    } else {
      var (t, out) := PushStep(enabled, s, inputs[0]);
      StepSound(enabled, s, inputs[0]);
      BarriersDelivered(enabled, t, inputs[1..]);
      BarriersConcat(out, Sent(enabled, t, inputs[1..]));
      StepBarriers(enabled, s, inputs[0]);
      BarriersConcat([inputs[0].event], Events(inputs[1..]));
    }
  }

  lemma HeldIsNoBarrier(enabled: bool, s: State)
    requires Sound(enabled, s)
    ensures forall now :: Barriers(FlushStep(s, now).1) == []
  {
    hide IsCoreEvent;
  }

  lemma StepBarriers(enabled: bool, s: State, i: Input)
    requires Sound(enabled, s)
    ensures Barriers(PushStep(enabled, s, i).1) == Barriers([i.event])
  {
    hide IsCoreEvent, Elapsed;
    HeldIsNoBarrier(enabled, s);
    BarriersConcat(FlushStep(s, i.sending).1, [i.event]);
  }

  lemma {:induction false} LastConcat(before: Option<SessionEvent>, a: seq<SessionEvent>, b: seq<SessionEvent>)
    ensures LastProgress(before, a + b) == LastProgress(LastProgress(before, a), b)
    decreases |a|
  {
    hide IsProgress;
    if a == [] {
      assert a + b == b;
    } else {
      assert (a + b)[1..] == a[1..] + b;
      LastConcat(if IsProgress(a[0]) then Some(a[0]) else before, a[1..], b);
    }
  }

  /** What the receiver saw last and what is held back make up the last progress
      that came in. */
  predicate UpToDate(s: State, came: Option<SessionEvent>, seen: Option<SessionEvent>) {
    came == if s.pending.Some? then s.pending else seen
  }

  lemma StepUpToDate(enabled: bool, s: State, i: Input, came: Option<SessionEvent>, seen: Option<SessionEvent>)
    requires Sound(enabled, s) && UpToDate(s, came, seen)
    ensures var (t, out) := PushStep(enabled, s, i);
      UpToDate(t, LastProgress(came, [i.event]), LastProgress(seen, out))
  {
    hide IsCoreEvent, Elapsed;
    LastConcat(seen, FlushStep(s, i.sending).1, [i.event]);
    LastOne(seen, i.event);
    LastOne(came, i.event);
    if s.pending.Some? { LastOne(seen, s.pending.value); }
  }

  lemma LastOne(before: Option<SessionEvent>, e: SessionEvent)
    ensures LastProgress(before, [e]) == if IsProgress(e) then Some(e) else before
  {
    assert [e][1..] == [];
  }

  lemma {:induction false} LastDelivered(enabled: bool, s: State, inputs: seq<Input>, came: Option<SessionEvent>, seen: Option<SessionEvent>)
    requires Sound(enabled, s) && UpToDate(s, came, seen)
    ensures LastProgress(seen, Sent(enabled, s, inputs)) == LastProgress(came, Events(inputs))
    decreases |inputs|
  {
    hide IsCoreEvent, Elapsed, IsProgress;
    if inputs == [] {
      if s.pending.Some? { LastOne(seen, s.pending.value); }
    } else {
      var (t, out) := PushStep(enabled, s, inputs[0]);
      StepSound(enabled, s, inputs[0]);
      StepUpToDate(enabled, s, inputs[0], came, seen);
      LastDelivered(enabled, t, inputs[1..], LastProgress(came, [inputs[0].event]), LastProgress(seen, out));
      LastConcat(seen, out, Sent(enabled, t, inputs[1..]));
      LastConcat(came, [inputs[0].event], Events(inputs[1..]));
    }
  }

  /** By the final flush, the last progress event of the request has been delivered
      as the last of its kind. */
  lemma LastProgressDelivered(enabled: bool, started: int, inputs: seq<Input>)
    ensures LastProgress(None, Sent(enabled, State(None, started), inputs)) == LastProgress(None, Events(inputs))
  {
    LastDelivered(enabled, State(None, started), inputs, None, None);
  }

  /** And before each other event: what was sent before it is what would have been
      sent had the request ended there. */
  lemma {:induction false} SentBeforeBarrier(enabled: bool, s: State, before: seq<Input>, i: Input, after: seq<Input>)
    requires Sound(enabled, s) && IsBarrier(i.event)
    ensures Sent(enabled, s, before) + [i.event] <= Sent(enabled, s, before + [i] + after)
    decreases |before|
  {
    hide IsCoreEvent, Elapsed;
    var all := before + [i] + after;
    if before == [] {
      assert all[0] == i && all[1..] == after;
    } else {
      assert all[0] == before[0] && all[1..] == before[1..] + [i] + after;
      var (t, out) := PushStep(enabled, s, before[0]);
      StepSound(enabled, s, before[0]);
      SentBeforeBarrier(enabled, t, before[1..], i, after);
      assert Sent(enabled, s, before) + [i.event] == out + (Sent(enabled, t, before[1..]) + [i.event]);
    }
  }

  /** Switched off, the forwarder is the identity. */
  lemma {:induction false} DisabledIsIdentity(last: int, inputs: seq<Input>)
    ensures Sent(false, State(None, last), inputs) == Events(inputs)
    decreases |inputs|
  {
    if inputs != [] { DisabledIsIdentity(last, inputs[1..]); }
  }

  /** Switched on, no `file` event gets through. */
  lemma {:induction false} NoFiles(s: State, inputs: seq<Input>)
    requires Sound(true, s)
    ensures forall e :: e in Sent(true, s, inputs) ==> !IsFile(e)
    decreases |inputs|
  {
    hide IsCoreEvent, Elapsed;
    if inputs != [] {
      StepSound(true, s, inputs[0]);
      NoFiles(PushStep(true, s, inputs[0]).0, inputs[1..]);
    }
  }

  // ----- when progress is sent -----

  /** The state before event `k`. */
  function Before(enabled: bool, s: State, inputs: seq<Input>, k: nat): State
    requires k <= |inputs|
  {
    if k == 0 then s else PushStep(enabled, Before(enabled, s, inputs, k - 1), inputs[k - 1]).0
  }

  /** What event `k` sends when it comes in. */
  function Out(enabled: bool, s: State, inputs: seq<Input>, k: nat): seq<SessionEvent>
    requires k < |inputs|
  {
    PushStep(enabled, Before(enabled, s, inputs, k), inputs[k]).1
  }

  /** What the first `k` events send. */
  function Outs(enabled: bool, s: State, inputs: seq<Input>, k: nat): seq<SessionEvent>
    requires k <= |inputs|
  {
    if k == 0 then [] else Outs(enabled, s, inputs, k - 1) + Out(enabled, s, inputs, k - 1)
  }

  predicate Reports(e: SessionEvent) { e.Event? && e.name == Some("progress") }

  /** The last of the first `k` events that reports progress, counted from 1. */
  function LastReport(inputs: seq<Input>, k: nat): (n: nat)
    requires k <= |inputs|
    ensures n <= k
    ensures n > 0 ==> Reports(inputs[n - 1].event)
    ensures forall j :: n <= j < k ==> !Reports(inputs[j].event)
  {
    if k == 0 then 0 else if Reports(inputs[k - 1].event) then k else LastReport(inputs, k - 1)
  }

  predicate Shows(sent: seq<SessionEvent>) { exists i :: 0 <= i < |sent| && Reports(sent[i]) }

  /** The last of the first `k` events at which progress was sent, counted from 1. */
  function LastShown(s: State, inputs: seq<Input>, k: nat): (n: nat)
    requires k <= |inputs|
    ensures n <= k
    ensures n > 0 ==> Shows(Out(true, s, inputs, n - 1))
    ensures forall j :: n <= j < k ==> !Shows(Out(true, s, inputs, j))
  {
    if k == 0 then 0 else if Shows(Out(true, s, inputs, k - 1)) then k else LastShown(s, inputs, k - 1)
  }

  /** When progress was last sent before event `k`. */
  function LastSending(started: int, inputs: seq<Input>, k: nat): int
    requires k <= |inputs|
  {
    var n := LastShown(State(None, started), inputs, k);
    if n == 0 then started else inputs[n - 1].sending
  }

  /** The progress that came in since it was last sent, if any. */
  function Owed(started: int, inputs: seq<Input>, k: nat): seq<SessionEvent>
    requires k <= |inputs|
  {
    var n := LastReport(inputs, k);
    if n > LastShown(State(None, started), inputs, k) then [inputs[n - 1].event] else []
  }

  /** What event `k` sends: a file event nothing; progress itself, when at least a
      tenth of a second has passed since progress was last sent, and nothing
      otherwise; and any other event what is owed, and itself. */
  predicate SendsRight(started: int, inputs: seq<Input>, k: nat)
    requires k < |inputs|
  {
    var e := inputs[k].event;
    Out(true, State(None, started), inputs, k) ==
      if e.Event? && e.name == Some("file") then []
      else if Reports(e) then if inputs[k].arrival - LastSending(started, inputs, k) >= 100 then [e] else []
      else Owed(started, inputs, k) + [e]
  }

  lemma ShowsOne(e: SessionEvent)
    ensures Shows([e]) <==> Reports(e)
  {
    assert [e][0] == e;
  }

  lemma ShowsTwo(e: SessionEvent, f: SessionEvent)
    ensures Reports(e) ==> Shows([e] + [f])
  {
    assert ([e] + [f])[0] == e;
  }

  /** What one event does to the state, and whether it shows progress. */
  lemma StepShows(s: State, i: Input)
    requires Sound(true, s)
    ensures var (t, out) := PushStep(true, s, i);
      && Sound(true, t)
      && t.last == (if Shows(out) then i.sending else s.last)
      && Held(t) == if Reports(i.event) then if Shows(out) then [] else [i.event]
                    else if Shows(out) then [] else Held(s)
    ensures PushStep(true, s, i).1 ==
      if i.event.Event? && i.event.name == Some("file") then []
      else if Reports(i.event) then if i.arrival - s.last >= 100 then [i.event] else []
      else Held(s) + [i.event]
  {
    ShowsOne(i.event);
    if s.pending.Some? { ShowsTwo(s.pending.value, i.event); }
    NothingShown();
    hide Shows;
    assert [] + [i.event] == [i.event];
  }

  /** The state holds when progress was last sent, and what is owed. */
  lemma {:induction false} HeldIsOwed(started: int, inputs: seq<Input>, k: nat)
    requires k <= |inputs|
    ensures var t := Before(true, State(None, started), inputs, k);
      Sound(true, t) && t.last == LastSending(started, inputs, k) && Held(t) == Owed(started, inputs, k)
  {
    hide PushStep, Shows, Reports, Sound, Held;
    if k > 0 {
      HeldIsOwed(started, inputs, k - 1);
      StepShows(Before(true, State(None, started), inputs, k - 1), inputs[k - 1]);
    } else {
      NothingHeld(started);
    }
  }

  lemma NothingHeld(started: int)
    ensures Held(State(None, started)) == [] && Sound(true, State(None, started))
  {
  }

  lemma NothingShown()
    ensures !Shows([])
  {
  }

  lemma Sends(started: int, inputs: seq<Input>, k: nat)
    requires k < |inputs|
    ensures SendsRight(started, inputs, k)
  {
    hide PushStep, Owed, LastSending, Sound, Held;
    HeldIsOwed(started, inputs, k);
    StepShows(Before(true, State(None, started), inputs, k), inputs[k]);
  }

  lemma {:induction false} SentFrom(enabled: bool, s: State, inputs: seq<Input>, k: nat)
    requires k <= |inputs|
    ensures Sent(enabled, s, inputs) == Outs(enabled, s, inputs, k) + Sent(enabled, Before(enabled, s, inputs, k), inputs[k..])
  {
    hide PushStep;
    if k == 0 {
      assert inputs[0..] == inputs;
    } else {
      SentFrom(enabled, s, inputs, k - 1);
      assert inputs[k - 1..][0] == inputs[k - 1] && inputs[k - 1..][1..] == inputs[k..];
    }
  }

  /** A request sends exactly this: event by event as above, then what is owed. */
  lemma SentEventByEvent(started: int, inputs: seq<Input>)
    ensures forall k :: 0 <= k < |inputs| ==> SendsRight(started, inputs, k)
    ensures Sent(true, State(None, started), inputs)
         == Outs(true, State(None, started), inputs, |inputs|) + Owed(started, inputs, |inputs|)
  {
    hide SendsRight, Owed, LastSending;
    forall k | 0 <= k < |inputs| ensures SendsRight(started, inputs, k) { Sends(started, inputs, k); }
    HeldIsOwed(started, inputs, |inputs|);
    SentFrom(true, State(None, started), inputs, |inputs|);
  }
}
