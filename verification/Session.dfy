/** One protocol session: the flags its callers share, the event loop of a
    request, and all interleavings of requests over the one transport lock. */
module Session {
  import opened Results

  type TaskId = nat

  datatype Kind = Ordinary | Credentialed

  // ----- the shared flags -----

  /** All flags only ever go from false to true; the cancel channel sends `true` only. */
  datatype Flags = Flags(closed: bool, credentialed: bool, cancelled: bool, sequence: nat)

  /** The check made on entry and again under the transport lock. */
  predicate Refuses(f: Flags, kind: Kind) {
    f.cancelled || f.closed || (kind.Ordinary? && f.credentialed)
  }

  function Poison(f: Flags): Flags { f.(closed := true, cancelled := true) }

  class SharedFlags {
    var closed: bool
    var credentialed: bool
    var cancelled: bool
    var sequence: nat

    ghost function State(): Flags
      reads this
    {
      Flags(closed, credentialed, cancelled, sequence)
    }

    constructor ()
      ensures State() == Flags(false, false, false, 0)
    {
      closed, credentialed, cancelled, sequence := false, false, false, 0;
    }

    /** `swap(true)`: only the first credentialed caller sees `false`. */
    method SwapCredentialed() returns (before: bool)
      modifies this
      ensures before == old(credentialed) && State() == old(State()).(credentialed := true)
    {
      before := credentialed;
      credentialed := true;
    }

    method Check(kind: Kind) returns (refused: bool)
      ensures refused == Refuses(State(), kind)
    {
      refused := cancelled || closed || (kind.Ordinary? && credentialed);
    }

    /** The entry of a request: a second credentialed one is turned away at once. */
    method Admit(kind: Kind) returns (refused: bool)
      modifies this
      ensures refused == ((kind.Credentialed? && old(credentialed)) || Refuses(old(State()), kind))
      ensures State() == if kind.Credentialed? then old(State()).(credentialed := true) else old(State())
    {
      if kind.Credentialed? {
        var before := SwapCredentialed();
        if before { return true; }
      }
      refused := Check(kind);
    }

    /** Under the transport lock: the second check, and then the next id. */
    method Number(kind: Kind) returns (id: Option<nat>)
      modifies this
      ensures id == if Refuses(old(State()), kind) then None else Some(old(sequence))
      ensures State() == if id.Some? then old(State()).(sequence := id.value + 1) else old(State())
    {
      var refused := Check(kind);
      if refused { return None; }
      id := Some(sequence);
      sequence := sequence + 1;
    }

    method SignalClose()
      modifies this
      ensures State() == Poison(old(State()))
    {
      closed := true;
      cancelled := true;
    }

    /** The loop of a request over the events the transport delivers: the events
        it consumes, and how it ends when it ends. */
    method AwaitTerminal(id: nat, events: seq<Incoming>) returns (outcome: Option<Outcome>, consumed: nat)
      modifies this
      ensures consumed <= |events|
      ensures outcome.Some? <==> exists k :: 0 <= k < |events| && Decides(id, events[k])
      ensures outcome.None? ==> consumed == |events| && State() == old(State())
      ensures outcome.Some? ==>
        && consumed > 0 && Ends(id, events[consumed - 1], outcome.value)
        && (forall k :: 0 <= k < consumed - 1 ==> !Decides(id, events[k]))
        && closed == (old(closed) || Breach(id, events[consumed - 1]) || events[consumed - 1].Disconnected?)
        && cancelled == (old(cancelled) || Breach(id, events[consumed - 1]))
        && credentialed == old(credentialed) && sequence == old(sequence)
        && State() == AfterEvent(old(State()), id, events[consumed - 1])
    {
      consumed := 0;
      while consumed < |events|
        invariant 0 <= consumed <= |events|
        invariant State() == old(State())
        invariant forall k :: 0 <= k < consumed ==> !Decides(id, events[k])
      {
        var event := events[consumed];
        consumed := consumed + 1;
        match event {
          case Malformed =>
            SignalClose();
            return Some(ProtocolError), consumed;
          case Line(eventId, kind) =>
            if eventId != Req(id) {
              if kind.Failure? && eventId.Missing? {
                SignalClose();
                return Some(ProtocolError), consumed;
              }
            } else {
              match kind {
                case Result(value) => return Some(Value(value)), consumed;
                case Failure(code) => return Some(Rpc(code)), consumed;
                case Unnamed =>
                  SignalClose();
                  return Some(ProtocolError), consumed;
                case Progress =>
              }
            }
          case Diagnostic =>
          case Disconnected =>
            closed := true;
            return Some(TransportLost), consumed;
        }
      }
      return None, consumed;
    }
  }

  // ----- events -----

  /** The `id` field of an event: one of this session's, some other text, or none. */
  datatype EventId = Req(n: nat) | Other(text: string) | Missing

  datatype EventKind = Result(value: string) | Failure(code: string) | Unnamed | Progress

  datatype Incoming = Malformed | Line(id: EventId, kind: EventKind) | Diagnostic | Disconnected

  datatype Outcome =
    | Value(value: string)
    | Rpc(code: string)
    | ProtocolError
    | TransportLost
    | SessionClosed
    | SessionCancelled
    | RequestTooLong
    | WriteFailed
    | Dropped

  /** The core broke the protocol: a line that is no event, an error that answers no
      request, or an event of this request without a name. */
  predicate Breach(id: nat, event: Incoming) {
    event.Malformed? || (event.Line? && event.id.Missing? && event.kind.Failure?) || event == Line(Req(id), Unnamed)
  }

  /** The events that a request waiting under `id` does not survive. */
  predicate Decides(id: nat, event: Incoming) {
    || Breach(id, event) || event.Disconnected?
    || (event.Line? && event.id == Req(id) && (event.kind.Result? || event.kind.Failure?))
  }

  /** What the caller is told, and the event that stands behind it. */
  predicate Ends(id: nat, event: Incoming, o: Outcome) {
    match o
    case Value(value) => event == Line(Req(id), Result(value))
    case Rpc(code) => event == Line(Req(id), EventKind.Failure(code))
    case ProtocolError => Breach(id, event)
    case TransportLost => event.Disconnected?
    case _ => false
  }

  /** How an event ends the request that waits under `id`, if it does. */
  function Verdict(id: nat, event: Incoming): Option<Outcome> {
    match event
    case Malformed => Some(ProtocolError)
    case Diagnostic => None
    case Disconnected => Some(TransportLost)
    case Line(eventId, kind) =>
      if eventId != Req(id) then (if kind.Failure? && eventId.Missing? then Some(ProtocolError) else None)
      else match kind
        case Result(value) => Some(Value(value))
        case Failure(code) => Some(Rpc(code))
        case Unnamed => Some(ProtocolError)
        case Progress => None
  }

  function AfterEvent(f: Flags, id: nat, event: Incoming): (g: Flags)
    ensures g.sequence == f.sequence && g.credentialed == f.credentialed
    ensures (f.closed ==> g.closed) && (f.cancelled ==> g.cancelled) && (g.cancelled && !f.cancelled ==> g.closed)
  {
    match Verdict(id, event)
    case Some(ProtocolError) => Poison(f)
    case Some(TransportLost) => f.(closed := true)
    case _ => f
  }

  lemma VerdictIs(id: nat, event: Incoming)
    ensures Verdict(id, event).Some? <==> Decides(id, event)
    ensures Verdict(id, event).Some? ==> Ends(id, event, Verdict(id, event).value)
    ensures Verdict(id, event) == Some(ProtocolError) <==> Breach(id, event)
  {
  }

  // ----- requests in flight -----

  datatype Phase =
    | Entering
    | Queued
    | Holding
    | Ready(id: nat)
    | Polled(id: nat)
    | Writing(id: nat)
    | Waiting(id: nat)
    | Aborting(outcome: Outcome)
    | Returned(outcome: Outcome)
    | Done(outcome: Outcome)

  datatype Task = Task(kind: Kind, phase: Phase)

  datatype WireLine = WireLine(task: TaskId, id: nat, kind: Kind)
  datatype Heard = Heard(task: TaskId, id: nat, event: Incoming)

  datatype State = State(
    flags: Flags,
    lock: Option<TaskId>,
    tasks: map<TaskId, Task>,
    transportClosed: bool,
    // history: requests past the second check, lines whose writing began, events
    // received, the first credentialed caller
    numbered: seq<TaskId>,
    wire: seq<WireLine>,
    heard: seq<Heard>,
    secret: Option<TaskId>)

  datatype Action =
    | Call(t: TaskId, kind: Kind)
    | Enter(t: TaskId)
    | CancelQueued(t: TaskId)
    | Acquire(t: TaskId)
    | Recheck(t: TaskId, tooLong: bool)
    | PollWrite(t: TaskId)
    | BeginWrite(t: TaskId)
    | FinishWrite(t: TaskId, ok: bool)
    | Receive(t: TaskId, event: Incoming)
    | CancelHeld(t: TaskId)
    | FinishAbort(t: TaskId)
    | SignalAfter(t: TaskId)
    | Drop(t: TaskId)
    | MarkClosed
    | SendCancel
    | CloseTransport

  const INITIAL := State(Flags(false, false, false, 0), None, map[], false, [], [], [], None)

  predicate Holds(p: Phase) { p.Holding? || p.Ready? || p.Polled? || p.Writing? || p.Waiting? || p.Aborting? }

  predicate Enabled(s: State, a: Action) {
    match a
    case Call(t, _) => t !in s.tasks
    case Enter(t) => t in s.tasks && s.tasks[t].phase.Entering?
    case CancelQueued(t) => t in s.tasks && s.tasks[t].phase.Queued? && s.flags.cancelled
    case Acquire(t) => t in s.tasks && s.tasks[t].phase.Queued? && s.lock.None?
    case Recheck(t, _) => t in s.tasks && s.tasks[t].phase.Holding?
    case PollWrite(t) => t in s.tasks && s.tasks[t].phase.Ready?
    case BeginWrite(t) => t in s.tasks && s.tasks[t].phase.Polled?
    case FinishWrite(t, _) => t in s.tasks && s.tasks[t].phase.Writing?
    case Receive(t, _) => t in s.tasks && s.tasks[t].phase.Waiting?
    case CancelHeld(t) => t in s.tasks && (s.tasks[t].phase.Writing? || s.tasks[t].phase.Waiting?) && s.flags.cancelled
    case FinishAbort(t) => t in s.tasks && s.tasks[t].phase.Aborting?
    case SignalAfter(t) => t in s.tasks && s.tasks[t].phase.Returned?
    case Drop(t) => t in s.tasks && !s.tasks[t].phase.Done? && !s.tasks[t].phase.Returned?
    case MarkClosed => true
    case SendCancel => s.flags.closed
    case CloseTransport => s.flags.cancelled && s.lock.None?
  }

  function Goto(s: State, t: TaskId, p: Phase): State
    requires t in s.tasks
  {
    s.(tasks := s.tasks[t := s.tasks[t].(phase := p)])
  }

  /** A request ends. A credentialed one still has to signal the close. */
  function Return(s: State, t: TaskId, o: Outcome): State
    requires t in s.tasks
  {
    Goto(s, t, if s.tasks[t].kind.Credentialed? then Returned(o) else Done(o)).(
      lock := if s.lock == Some(t) then None else s.lock)
  }

  function Apply(s: State, a: Action): State
    requires Enabled(s, a)
  {
    match a
    case Call(t, kind) =>
      if kind.Credentialed? && s.flags.credentialed then s.(tasks := s.tasks[t := Task(kind, Done(SessionClosed))])
      else if kind.Credentialed? then
        s.(tasks := s.tasks[t := Task(kind, Entering)], flags := s.flags.(credentialed := true), secret := Some(t))
      else s.(tasks := s.tasks[t := Task(kind, Entering)])
    case Enter(t) =>
      if Refuses(s.flags, s.tasks[t].kind) then Return(s, t, SessionClosed) else Goto(s, t, Queued)
    case CancelQueued(t) => Return(s, t, SessionCancelled)
    case Acquire(t) => Goto(s, t, Holding).(lock := Some(t))
    case Recheck(t, tooLong) =>
      if Refuses(s.flags, s.tasks[t].kind) then Return(s, t, SessionCancelled)
      else
        var id := s.flags.sequence;
        var q := s.(flags := s.flags.(sequence := id + 1), numbered := s.numbered + [t]);
        if tooLong then Return(q, t, RequestTooLong) else Goto(q, t, Ready(id))
    case PollWrite(t) =>
      Goto(s, t, if s.flags.cancelled then Aborting(SessionCancelled) else Polled(s.tasks[t].phase.id))
    case BeginWrite(t) =>
      var id := s.tasks[t].phase.id;
      Goto(s, t, Writing(id)).(wire := s.wire + [WireLine(t, id, s.tasks[t].kind)])
    case FinishWrite(t, ok) =>
      if ok then Goto(s, t, Waiting(s.tasks[t].phase.id)) else Return(s, t, WriteFailed)
    case Receive(t, event) =>
      var id := s.tasks[t].phase.id;
      var q := s.(flags := AfterEvent(s.flags, id, event), heard := s.heard + [Heard(t, id, event)]);
      (match Verdict(id, event)
       case None => q
       case Some(ProtocolError) => Goto(q, t, Aborting(ProtocolError))
       case Some(o) => Return(q, t, o))
    case CancelHeld(t) => Goto(s, t, Aborting(SessionCancelled))
    case FinishAbort(t) => Return(s, t, s.tasks[t].phase.outcome)
    case SignalAfter(t) => Goto(s, t, Done(s.tasks[t].phase.outcome)).(flags := Poison(s.flags))
    case Drop(t) => Goto(s, t, Done(Dropped)).(lock := if s.lock == Some(t) then None else s.lock)
    case MarkClosed => s.(flags := s.flags.(closed := true))
    case SendCancel => s.(flags := s.flags.(cancelled := true))
    case CloseTransport => s.(transportClosed := true)
  }

  ghost function Exec(s: State, run: seq<Action>): Option<State>
    decreases |run|
  {
    if run == [] then Some(s)
    else if !Enabled(s, run[0]) then None
    else Exec(Apply(s, run[0]), run[1..])
  }

  // ----- invariants -----

  /** Exactly the request that holds the lock is past it. */
  ghost predicate LockHeld(s: State) {
    && (s.lock.Some? ==> s.lock.value in s.tasks)
    && forall t :: t in s.tasks ==> (Holds(s.tasks[t].phase) <==> s.lock == Some(t))
  }

  predicate PreWrite(p: Phase) { p.Entering? || p.Queued? || p.Holding? || Numbered(p) }

  /** A request that has its id and has not started to write. */
  predicate Numbered(p: Phase) { p.Ready? || p.Polled? }

  ghost predicate WireOrdered(s: State) {
    && (forall i, j :: 0 <= i < j < |s.wire| ==> s.wire[i].id < s.wire[j].id)
    && (forall i :: 0 <= i < |s.wire| ==> s.wire[i].id < s.flags.sequence)
    && (forall t :: t in s.tasks && Numbered(s.tasks[t].phase) ==>
          s.tasks[t].phase.id < s.flags.sequence && forall i :: 0 <= i < |s.wire| ==> s.wire[i].id < s.tasks[t].phase.id)
  }

  /** Every line belongs to a request that is past its write, and to no other. */
  ghost predicate WireOwned(s: State) {
    && (forall i :: 0 <= i < |s.wire| ==> s.wire[i].task in s.tasks && !PreWrite(s.tasks[s.wire[i].task].phase)
                                          && s.wire[i].kind == s.tasks[s.wire[i].task].kind)
    && (forall i, j :: 0 <= i < j < |s.wire| ==> s.wire[i].task != s.wire[j].task)
    && (forall t :: t in s.tasks && (s.tasks[t].phase.Writing? || s.tasks[t].phase.Waiting?) ==>
          WireLine(t, s.tasks[t].phase.id, s.tasks[t].kind) in s.wire)
  }

  /** One caller may use the session for a secret, and its line is the last one. */
  ghost predicate SecretLast(s: State) {
    && (s.flags.credentialed <==> s.secret.Some?)
    && (forall t :: t in s.tasks && s.tasks[t].kind.Credentialed? && s.secret != Some(t) ==> s.tasks[t].phase.Done?)
    && (s.secret.Some? ==> s.secret.value in s.tasks && s.tasks[s.secret.value].kind.Credentialed?)
    && (forall i :: 0 <= i < |s.wire| && s.wire[i].kind.Credentialed? ==> s.secret == Some(s.wire[i].task) && i == |s.wire| - 1)
    && (forall i, t :: 0 <= i < |s.wire| && s.wire[i].kind.Credentialed? && t in s.tasks ==> !Numbered(s.tasks[t].phase))
  }

  function OutcomeOf(p: Phase): Option<Outcome> {
    if p.Aborting? || p.Returned? || p.Done? then Some(p.outcome) else None
  }

  /** The event that settled a request: after its own line, and the only one that could. */
  ghost predicate SettledBy(s: State, t: TaskId, o: Outcome)
    requires t in s.tasks
  {
    exists k :: && 0 <= k < |s.heard| && s.heard[k].task == t
                && WireLine(t, s.heard[k].id, s.tasks[t].kind) in s.wire
                && Ends(s.heard[k].id, s.heard[k].event, o)
  }

  /** The outcomes that come from an event. */
  predicate FromEvent(o: Outcome) { o.Value? || o.Rpc? || o.ProtocolError? || o.TransportLost? }

  ghost predicate ResultsOwned(s: State) {
    forall t :: t in s.tasks && OutcomeOf(s.tasks[t].phase).Some? && FromEvent(OutcomeOf(s.tasks[t].phase).value) ==>
      SettledBy(s, t, OutcomeOf(s.tasks[t].phase).value)
  }

  /** Events are heard by requests that have written their line, and a deciding event
      is the last one a request hears and its outcome, unless the caller gave up. */
  ghost predicate HeardOnce(s: State) {
    && (forall k :: 0 <= k < |s.heard| ==>
          s.heard[k].task in s.tasks && WireLine(s.heard[k].task, s.heard[k].id, s.tasks[s.heard[k].task].kind) in s.wire)
    && (forall k :: 0 <= k < |s.heard| && Decides(s.heard[k].id, s.heard[k].event) ==>
          AnswerOf(s, s.heard[k].task, s.heard[k].id, s.heard[k].event))
    && (forall j, k :: 0 <= j < k < |s.heard| && Decides(s.heard[j].id, s.heard[j].event) ==> s.heard[j].task != s.heard[k].task)
  }

  predicate AnswerOf(s: State, t: TaskId, id: nat, event: Incoming) {
    && t in s.tasks && OutcomeOf(s.tasks[t].phase).Some?
    && var o := OutcomeOf(s.tasks[t].phase).value;
       o.Dropped? || Ends(id, event, o)
  }

  /** A request that is still writing has heard nothing. */
  ghost predicate Unheard(s: State) {
    forall k :: 0 <= k < |s.heard| ==> s.heard[k].task in s.tasks && !s.tasks[s.heard[k].task].phase.Writing?
                                       && !PreWrite(s.tasks[s.heard[k].task].phase)
  }

  predicate OnWire(s: State, t: TaskId) { exists i :: 0 <= i < |s.wire| && s.wire[i].task == t }

  /** What stands behind the outcomes that come from no event. */
  predicate ExplainedAs(s: State, t: TaskId, o: Outcome)
    requires t in s.tasks
  {
    match o
    case SessionClosed => (s.flags.closed || s.flags.cancelled || s.flags.credentialed) && !OnWire(s, t)
    case SessionCancelled => s.flags.closed || s.flags.cancelled || (s.tasks[t].kind.Ordinary? && s.flags.credentialed)
    case RequestTooLong => !OnWire(s, t)
    case WriteFailed => OnWire(s, t) && forall k :: 0 <= k < |s.heard| ==> s.heard[k].task != t
    case _ => true
  }

  ghost predicate Explained(s: State) {
    forall t :: t in s.tasks && OutcomeOf(s.tasks[t].phase).Some? ==> ExplainedAs(s, t, OutcomeOf(s.tasks[t].phase).value)
  }

  /** Requests are numbered in the order in which they pass the second check. */
  ghost predicate NumbersCount(s: State) {
    && |s.numbered| == s.flags.sequence
    && (forall t :: t in s.tasks && Numbered(s.tasks[t].phase) ==>
          s.tasks[t].phase.id < |s.numbered| && s.numbered[s.tasks[t].phase.id] == t)
    && (forall i :: 0 <= i < |s.wire| ==> s.wire[i].id < |s.numbered| && s.numbered[s.wire[i].id] == s.wire[i].task)
  }

  /** The credentialed request, once it is over, has signalled the close. */
  ghost predicate SecretSignals(s: State) {
    s.secret.Some? && s.secret.value in s.tasks && s.tasks[s.secret.value].phase.Done? ==>
      s.tasks[s.secret.value].phase.outcome.Dropped? || (s.flags.closed && s.flags.cancelled)
  }

  /** No request is between its last look at the cancel signal and its write. */
  ghost predicate NonePolled(s: State) { forall t :: t in s.tasks ==> !s.tasks[t].phase.Polled? }

  ghost predicate Quiet(s: State) {
    && (s.transportClosed ==> s.flags.cancelled && NonePolled(s))
    && (s.flags.cancelled ==> s.flags.closed)
  }

  ghost predicate Inv(s: State) {
    LockHeld(s) && WireOrdered(s) && WireOwned(s) && SecretLast(s) && ResultsOwned(s) && HeardOnce(s) && Unheard(s) && Explained(s) && NumbersCount(s) && SecretSignals(s)
    && Quiet(s)
  }

  lemma LockStep(s: State, a: Action)
    requires LockHeld(s) && Enabled(s, a)
    ensures LockHeld(Apply(s, a))
  {
    hide Verdict, AfterEvent, Refuses;
  }

  /** What every action but the start of a write does to the requests. */
  ghost predicate Frame(s: State, q: State) {
    q.wire == s.wire && s.flags.sequence <= q.flags.sequence && TasksKept(s, q) && ExchangeKept(s, q) && ReadyKept(s, q)
  }

  ghost predicate TasksKept(s: State, q: State) {
    forall t :: t in s.tasks ==>
      t in q.tasks && q.tasks[t].kind == s.tasks[t].kind && (PreWrite(q.tasks[t].phase) ==> PreWrite(s.tasks[t].phase))
  }

  ghost predicate ExchangeKept(s: State, q: State) {
    forall t :: t in q.tasks && InExchange(q.tasks[t].phase) ==>
      t in s.tasks && InExchange(s.tasks[t].phase) && s.tasks[t].phase.id == q.tasks[t].phase.id
  }

  ghost predicate ReadyKept(s: State, q: State) {
    forall t :: t in q.tasks && Numbered(q.tasks[t].phase) ==>
      t in s.tasks && ((Numbered(s.tasks[t].phase) && s.tasks[t].phase.id == q.tasks[t].phase.id) || JustNumbered(s, q, t))
  }

  predicate InExchange(p: Phase) { p.Writing? || p.Waiting? }

  /** A request that was just given the next id under the lock. */
  predicate JustNumbered(s: State, q: State, t: TaskId)
    requires t in s.tasks && t in q.tasks && Numbered(q.tasks[t].phase)
  {
    && q.tasks[t].phase.id == s.flags.sequence < q.flags.sequence
    && s.tasks[t].phase.Holding? && !Refuses(s.flags, s.tasks[t].kind)
  }

  lemma StepTasks(s: State, a: Action)
    requires Enabled(s, a)
    ensures TasksKept(s, Apply(s, a))
  {
    hide Verdict, AfterEvent, Refuses;
    var q := Apply(s, a);
    forall t | t in s.tasks
      ensures t in q.tasks && q.tasks[t].kind == s.tasks[t].kind && (PreWrite(q.tasks[t].phase) ==> PreWrite(s.tasks[t].phase))
    {
    }
  }

  lemma StepSequence(s: State, a: Action)
    requires Enabled(s, a)
    ensures s.flags.sequence <= Apply(s, a).flags.sequence
  {
    hide Verdict, Refuses;
  }

  lemma StepExchange(s: State, a: Action)
    requires Enabled(s, a) && !a.BeginWrite?
    ensures ExchangeKept(s, Apply(s, a)) && Apply(s, a).wire == s.wire
  {
    hide Verdict, AfterEvent, Refuses;
  }

  lemma StepReady(s: State, a: Action)
    requires Enabled(s, a)
    ensures ReadyKept(s, Apply(s, a))
  {
    hide Verdict, AfterEvent, Refuses;
  }

  lemma StepFrame(s: State, a: Action)
    requires Enabled(s, a) && !a.BeginWrite?
    ensures Frame(s, Apply(s, a))
  {
    hide TasksKept, ExchangeKept, ReadyKept;
    StepSequence(s, a);
    StepTasks(s, a);
    StepExchange(s, a);
    StepReady(s, a);
  }

  lemma OrderedFrame(s: State, q: State)
    requires WireOrdered(s) && Frame(s, q)
    ensures WireOrdered(q)
  {
  }

  lemma OwnedFrame(s: State, q: State)
    requires WireOwned(s) && Frame(s, q)
    ensures WireOwned(q)
  {
  }

  /** The start of a write appends one line with the largest id so far. */
  lemma WriteStep(s: State, t: TaskId)
    requires LockHeld(s) && WireOrdered(s) && WireOwned(s) && SecretLast(s)
    requires Enabled(s, BeginWrite(t))
    ensures var q := Apply(s, BeginWrite(t)); WireOrdered(q) && WireOwned(q) && SecretLast(q)
  {
    hide LockHeld, WireOrdered, WireOwned, SecretLast, Apply;
    WriteOrdered(s, t);
    WriteOwned(s, t);
    WriteSecret(s, t);
  }

  /** Only the writer has its number, so no secret was on the wire before. */
  lemma WriteSecret(s: State, t: TaskId)
    requires LockHeld(s) && SecretLast(s) && Enabled(s, BeginWrite(t))
    ensures SecretLast(Apply(s, BeginWrite(t)))
  {
    var q := Apply(s, BeginWrite(t));
    NumberedHolds(s, t);
    hide LockHeld;
    assert forall i :: 0 <= i < |s.wire| ==> q.wire[i] == s.wire[i] && !s.wire[i].kind.Credentialed?;
  }

  lemma NumberedHolds(s: State, t: TaskId)
    requires LockHeld(s) && t in s.tasks && Numbered(s.tasks[t].phase)
    ensures forall u :: u in s.tasks && Numbered(s.tasks[u].phase) ==> u == t
  {
    assert s.lock == Some(t);
  }

  lemma WriteOrdered(s: State, t: TaskId)
    requires LockHeld(s) && WireOrdered(s) && Enabled(s, BeginWrite(t))
    ensures WireOrdered(Apply(s, BeginWrite(t)))
  {
    assert s.lock == Some(t);
  }

  lemma WriteOwned(s: State, t: TaskId)
    requires WireOwned(s) && Enabled(s, BeginWrite(t))
    ensures WireOwned(Apply(s, BeginWrite(t)))
  {
    var q := Apply(s, BeginWrite(t));
    assert q.wire[|s.wire|] == WireLine(t, s.tasks[t].phase.id, s.tasks[t].kind);
    forall u | u in q.tasks && InExchange(q.tasks[u].phase)
      ensures WireLine(u, q.tasks[u].phase.id, q.tasks[u].kind) in q.wire
    {
      if u != t { assert WireLine(u, s.tasks[u].phase.id, s.tasks[u].kind) in s.wire; }
    }
  }

  /** The secret's owner changes only when the first credentialed caller arrives. */
  lemma SecretFrame(s: State, q: State)
    requires SecretLast(s) && WireOwned(s) && Frame(s, q)
    requires q.secret == s.secret && q.flags.credentialed == s.flags.credentialed
    requires forall t :: t in q.tasks && q.tasks[t].kind.Credentialed? && s.secret != Some(t) ==> q.tasks[t].phase.Done?
    ensures SecretLast(q)
  {
    forall i, t | 0 <= i < |q.wire| && q.wire[i].kind.Credentialed? && t in q.tasks ensures !Numbered(q.tasks[t].phase) {
      assert s.secret == Some(s.wire[i].task) && !PreWrite(s.tasks[s.wire[i].task].phase);
    }
  }

  lemma SecretCall(s: State, a: Action)
    requires SecretLast(s) && WireOwned(s) && Enabled(s, a) && a.Call?
    ensures SecretLast(Apply(s, a))
  {
  }

  lemma SecretStep(s: State, a: Action)
    requires SecretLast(s) && WireOwned(s) && Enabled(s, a) && !a.BeginWrite?
    ensures SecretLast(Apply(s, a))
  {
    if a.Call? {
      SecretCall(s, a);
    } else {
      StepFrame(s, a);
      SecretOthersDone(s, a);
      hide SecretLast, WireOwned, Frame;
      SecretFrame(s, Apply(s, a));
    }
  }

  lemma SecretOthersDone(s: State, a: Action)
    requires SecretLast(s) && Enabled(s, a) && !a.Call?
    ensures var q := Apply(s, a);
      && q.secret == s.secret && q.flags.credentialed == s.flags.credentialed
      && forall t :: t in q.tasks && q.tasks[t].kind.Credentialed? && s.secret != Some(t) ==> q.tasks[t].phase.Done?
  {
    hide Verdict, AfterEvent, Refuses;
    var q := Apply(s, a);
    forall t | t in q.tasks && q.tasks[t].kind.Credentialed? && s.secret != Some(t) ensures q.tasks[t].phase.Done? {
      assert t in s.tasks && s.tasks[t].kind.Credentialed?;
    }
  }

  lemma QuietStep(s: State, a: Action)
    requires LockHeld(s) && Quiet(s) && Enabled(s, a)
    ensures Quiet(Apply(s, a))
  {
    hide Verdict, Refuses;
    if s.flags.cancelled && NonePolled(s) { SilentStep(s, a); }
  }

  lemma SilentStep(s: State, a: Action)
    requires s.flags.cancelled && NonePolled(s) && Enabled(s, a)
    ensures var q := Apply(s, a); q.flags.cancelled && NonePolled(q) && q.wire == s.wire
  {
    hide Verdict, Refuses, AfterEvent;
  }

  lemma SettledLonger(s: State, q: State, t: TaskId, o: Outcome)
    requires t in s.tasks && t in q.tasks && q.tasks[t].kind == s.tasks[t].kind
    requires s.wire <= q.wire && s.heard <= q.heard && SettledBy(s, t, o)
    ensures SettledBy(q, t, o)
  {
    var k :| && 0 <= k < |s.heard| && s.heard[k].task == t
             && WireLine(t, s.heard[k].id, s.tasks[t].kind) in s.wire
             && Ends(s.heard[k].id, s.heard[k].event, o);
    assert q.heard[k] == s.heard[k];
    assert WireLine(t, s.heard[k].id, s.tasks[t].kind) in q.wire;
  }

  /** Where the results in a new state come from. */
  lemma ResultsFrom(s: State, a: Action, t: TaskId)
    requires Enabled(s, a) && t in Apply(s, a).tasks && OutcomeOf(Apply(s, a).tasks[t].phase).Some?
    ensures var q := Apply(s, a);
      var o := OutcomeOf(q.tasks[t].phase).value;
      && s.wire <= q.wire && s.heard <= q.heard
      && (FromEvent(o) ==>
            && t in s.tasks && q.tasks[t].kind == s.tasks[t].kind
            && (OutcomeOf(s.tasks[t].phase) == Some(o)
                || (a.Receive? && a.t == t && Verdict(s.tasks[t].phase.id, a.event) == Some(o))))
  {
    hide Verdict, AfterEvent, Refuses;
  }

  lemma ReceivedSettles(s: State, a: Action)
    requires WireOwned(s) && Enabled(s, a) && a.Receive? && Verdict(s.tasks[a.t].phase.id, a.event).Some?
    ensures SettledBy(Apply(s, a), a.t, Verdict(s.tasks[a.t].phase.id, a.event).value)
  {
    var q, id := Apply(s, a), s.tasks[a.t].phase.id;
    VerdictIs(id, a.event);
    hide Verdict, AfterEvent, Ends;
    assert q.heard[|s.heard|] == Heard(a.t, id, a.event);
  }

  lemma ResultsStep(s: State, a: Action)
    requires WireOwned(s) && ResultsOwned(s) && Enabled(s, a)
    ensures ResultsOwned(Apply(s, a))
  {
    hide SettledBy, WireOwned, Verdict, AfterEvent, Refuses;
    var q := Apply(s, a);
    forall t | t in q.tasks && OutcomeOf(q.tasks[t].phase).Some? && FromEvent(OutcomeOf(q.tasks[t].phase).value)
      ensures SettledBy(q, t, OutcomeOf(q.tasks[t].phase).value)
    {
      ResultsFrom(s, a, t);
      if OutcomeOf(s.tasks[t].phase) == OutcomeOf(q.tasks[t].phase) {
        SettledLonger(s, q, t, OutcomeOf(q.tasks[t].phase).value);
      } else {
        ReceivedSettles(s, a);
      }
    }
  }

  /** An outcome stays, unless the caller gives up, and so does everything heard. */
  lemma OutcomeStays(s: State, a: Action, t: TaskId)
    requires Enabled(s, a) && t in s.tasks && OutcomeOf(s.tasks[t].phase).Some?
    ensures var q := Apply(s, a);
      && t in q.tasks && OutcomeOf(q.tasks[t].phase).Some?
      && (OutcomeOf(q.tasks[t].phase) == OutcomeOf(s.tasks[t].phase) || OutcomeOf(q.tasks[t].phase) == Some(Dropped))
  {
    hide Verdict, AfterEvent, Refuses;
  }

  lemma HeardGrows(s: State, a: Action)
    requires Enabled(s, a)
    ensures var q := Apply(s, a);
      && s.wire <= q.wire
      && q.heard == (if a.Receive? then s.heard + [Heard(a.t, s.tasks[a.t].phase.id, a.event)] else s.heard)
      && forall t :: t in s.tasks ==> t in q.tasks && q.tasks[t].kind == s.tasks[t].kind
  {
    hide Verdict, AfterEvent, Refuses;
  }

  /** A deciding event becomes the outcome at once. */
  lemma HeardDecides(s: State, a: Action)
    requires Enabled(s, a) && a.Receive? && Decides(s.tasks[a.t].phase.id, a.event)
    ensures AnswerOf(Apply(s, a), a.t, s.tasks[a.t].phase.id, a.event)
  {
    VerdictIs(s.tasks[a.t].phase.id, a.event);
    hide Verdict, AfterEvent, Ends, Decides, Breach;
  }

  lemma HeardStep(s: State, a: Action)
    requires WireOwned(s) && HeardOnce(s) && Enabled(s, a)
    ensures HeardOnce(Apply(s, a))
  {
    HeardGrows(s, a);
    AnswersStay(s, a);
    if a.Receive? {
      ReceiverWrote(s, a.t);
      if Decides(s.tasks[a.t].phase.id, a.event) { HeardDecides(s, a); }
      NoAnswerYet(s, a.t);
    }
    hide Decides, Ends, WireOwned, Apply, AnswerOf, Enabled;
  }

  lemma ReceiverWrote(s: State, t: TaskId)
    requires WireOwned(s) && t in s.tasks && s.tasks[t].phase.Waiting?
    ensures WireLine(t, s.tasks[t].phase.id, s.tasks[t].kind) in s.wire
  {
  }

  /** A request that still waits has heard nothing that decides. */
  lemma NoAnswerYet(s: State, t: TaskId)
    requires HeardOnce(s) && t in s.tasks && s.tasks[t].phase.Waiting?
    ensures forall j :: 0 <= j < |s.heard| && Decides(s.heard[j].id, s.heard[j].event) ==> s.heard[j].task != t
  {
    hide Decides;
    forall j | 0 <= j < |s.heard| && Decides(s.heard[j].id, s.heard[j].event) ensures s.heard[j].task != t {
      AnswerEnds(s, s.heard[j].task, s.heard[j].id, s.heard[j].event);
    }
  }

  lemma AnswerEnds(s: State, t: TaskId, id: nat, event: Incoming)
    requires AnswerOf(s, t, id, event)
    ensures t in s.tasks && !s.tasks[t].phase.Waiting?
  {
  }

  lemma AnswersStay(s: State, a: Action)
    requires HeardOnce(s) && Enabled(s, a)
    ensures forall k :: 0 <= k < |s.heard| && Decides(s.heard[k].id, s.heard[k].event) ==>
              AnswerOf(Apply(s, a), s.heard[k].task, s.heard[k].id, s.heard[k].event)
  {
    hide Apply, Decides, Ends;
    forall k | 0 <= k < |s.heard| && Decides(s.heard[k].id, s.heard[k].event)
      ensures AnswerOf(Apply(s, a), s.heard[k].task, s.heard[k].id, s.heard[k].event)
    {
      assert AnswerOf(s, s.heard[k].task, s.heard[k].id, s.heard[k].event);
      OutcomeStays(s, a, s.heard[k].task);
    }
  }

  /** Where an outcome that comes from no event comes from. */
  lemma OutcomeFrom(s: State, a: Action, t: TaskId)
    requires Enabled(s, a) && t in Apply(s, a).tasks && OutcomeOf(Apply(s, a).tasks[t].phase).Some?
    requires !(t in s.tasks && OutcomeOf(s.tasks[t].phase) == OutcomeOf(Apply(s, a).tasks[t].phase))
    ensures var f := s.flags;
      match OutcomeOf(Apply(s, a).tasks[t].phase).value
      case SessionClosed => (f.closed || f.cancelled || f.credentialed) && (t !in s.tasks || s.tasks[t].phase.Entering?)
      case SessionCancelled => t in s.tasks && (f.closed || f.cancelled || (s.tasks[t].kind.Ordinary? && f.credentialed))
      case RequestTooLong => t in s.tasks && s.tasks[t].phase.Holding?
      case WriteFailed => t in s.tasks && s.tasks[t].phase.Writing? && Apply(s, a).heard == s.heard
      case _ => true
  {
    hide AfterEvent;
  }

  lemma FlagsGrow(s: State, a: Action)
    requires Enabled(s, a)
    ensures var f, g := s.flags, Apply(s, a).flags;
      (f.closed ==> g.closed) && (f.cancelled ==> g.cancelled) && (f.credentialed ==> g.credentialed)
  {
    hide Verdict, AfterEvent, Refuses;
  }

  lemma WireGrows(s: State, a: Action)
    requires Enabled(s, a)
    ensures var q := Apply(s, a);
      q.wire == s.wire || (a.BeginWrite? && s.tasks[a.t].phase.Polled? && exists l: WireLine :: l.task == a.t && q.wire == s.wire + [l])
  {
    hide Verdict, AfterEvent, Refuses;
  }

  lemma OffWire(s: State, a: Action, t: TaskId)
    requires WireOwned(s) && Enabled(s, a)
    requires t !in s.tasks || (PreWrite(s.tasks[t].phase) && !(a.BeginWrite? && a.t == t)) || (OutcomeOf(s.tasks[t].phase).Some? && !OnWire(s, t))
    ensures !OnWire(Apply(s, a), t)
  {
    WireGrows(s, a);
    hide Apply;
  }

  lemma UnheardStep(s: State, a: Action)
    requires Unheard(s) && Enabled(s, a)
    ensures Unheard(Apply(s, a))
  {
    HeardGrows(s, a);
    hide Apply;
    var q := Apply(s, a);
    forall k | 0 <= k < |q.heard|
      ensures q.heard[k].task in q.tasks && !q.tasks[q.heard[k].task].phase.Writing? && !PreWrite(q.tasks[q.heard[k].task].phase)
    {
      PastWriting(s, a, q.heard[k].task);
    }
  }

  lemma PastWriting(s: State, a: Action, t: TaskId)
    requires Enabled(s, a) && t in s.tasks && !s.tasks[t].phase.Writing? && !PreWrite(s.tasks[t].phase)
    ensures t in Apply(s, a).tasks && !Apply(s, a).tasks[t].phase.Writing? && !PreWrite(Apply(s, a).tasks[t].phase)
  {
    hide Verdict, AfterEvent, Refuses;
  }

  lemma WriterOnWire(s: State, t: TaskId)
    requires WireOwned(s) && t in s.tasks && (s.tasks[t].phase.Writing? || s.tasks[t].phase.Waiting?)
    ensures OnWire(s, t)
  {
    var l := WireLine(t, s.tasks[t].phase.id, s.tasks[t].kind);
    var i :| 0 <= i < |s.wire| && s.wire[i] == l;
  }

  lemma OnWireStays(s: State, q: State, t: TaskId)
    requires OnWire(s, t) && s.wire <= q.wire
    ensures OnWire(q, t)
  {
    var i :| 0 <= i < |s.wire| && s.wire[i].task == t;
    assert q.wire[i] == s.wire[i];
  }

  lemma ExplainedStep(s: State, a: Action)
    requires WireOwned(s) && HeardOnce(s) && Unheard(s) && Explained(s) && Enabled(s, a)
    ensures Explained(Apply(s, a))
  {
    var q := Apply(s, a);
    FlagsGrow(s, a);
    HeardGrows(s, a);
    forall t | t in q.tasks && OutcomeOf(q.tasks[t].phase).Some?
      ensures ExplainedAs(q, t, OutcomeOf(q.tasks[t].phase).value)
    {
      if t in s.tasks && OutcomeOf(s.tasks[t].phase) == OutcomeOf(q.tasks[t].phase) {
        StillExplained(s, a, t);
      } else {
        NewlyExplained(s, a, t);
      }
    }
  }

  lemma StillExplained(s: State, a: Action, t: TaskId)
    requires WireOwned(s) && Enabled(s, a) && t in s.tasks && OutcomeOf(s.tasks[t].phase).Some?
    requires ExplainedAs(s, t, OutcomeOf(s.tasks[t].phase).value)
    ensures t in Apply(s, a).tasks && ExplainedAs(Apply(s, a), t, OutcomeOf(s.tasks[t].phase).value)
  {
    FlagsGrow(s, a);
    HeardGrows(s, a);
    if !OnWire(s, t) { OffWire(s, a, t); }
    hide Apply, OnWire, WireOwned;
    if OnWire(s, t) { OnWireStays(s, Apply(s, a), t); }
  }

  lemma NewlyExplained(s: State, a: Action, t: TaskId)
    requires WireOwned(s) && Unheard(s) && Enabled(s, a) && t in Apply(s, a).tasks && OutcomeOf(Apply(s, a).tasks[t].phase).Some?
    requires !(t in s.tasks && OutcomeOf(s.tasks[t].phase) == OutcomeOf(Apply(s, a).tasks[t].phase))
    ensures ExplainedAs(Apply(s, a), t, OutcomeOf(Apply(s, a).tasks[t].phase).value)
  {
    FlagsGrow(s, a);
    HeardGrows(s, a);
    OutcomeFrom(s, a, t);
    var o := OutcomeOf(Apply(s, a).tasks[t].phase).value;
    if o.SessionClosed? || o.RequestTooLong? { OffWire(s, a, t); }
    if o.WriteFailed? { WriterOnWire(s, t); }
    hide Apply, OnWire, WireOwned;
    if o.WriteFailed? { OnWireStays(s, Apply(s, a), t); }
  }

  lemma NumbersStep(s: State, a: Action)
    requires NumbersCount(s) && Enabled(s, a)
    ensures NumbersCount(Apply(s, a))
  {
    var q := Apply(s, a);
    NumbersGrow(s, a);
    StepReady(s, a);
    hide Apply, Enabled, ReadyKept;
    forall t | t in q.tasks && Numbered(q.tasks[t].phase)
      ensures q.tasks[t].phase.id < |q.numbered| && q.numbered[q.tasks[t].phase.id] == t
    {
      KeptNumber(s, q, t);
    }
  }

  lemma KeptNumber(s: State, q: State, t: TaskId)
    requires ReadyKept(s, q) && t in q.tasks && Numbered(q.tasks[t].phase)
    ensures t in s.tasks && ((Numbered(s.tasks[t].phase) && s.tasks[t].phase.id == q.tasks[t].phase.id) || JustNumbered(s, q, t))
  {
  }

  lemma NumbersGrow(s: State, a: Action)
    requires |s.numbered| == s.flags.sequence && Enabled(s, a)
    ensures var q := Apply(s, a);
      && q.flags.sequence == |q.numbered| && s.numbered <= q.numbered
      && (forall t :: t in s.tasks && t in q.tasks && Numbered(q.tasks[t].phase) && JustNumbered(s, q, t) ==>
            q.numbered == s.numbered + [t])
      && (q.wire == s.wire
          || (a.BeginWrite? && q.wire == s.wire + [WireLine(a.t, s.tasks[a.t].phase.id, s.tasks[a.t].kind)]))
  {
    if !a.Recheck? { SequenceStays(s, a); }
    if !a.BeginWrite? { StepExchange(s, a); }
    hide Verdict, Refuses, AfterEvent;
  }

  lemma SequenceStays(s: State, a: Action)
    requires Enabled(s, a) && !a.Recheck?
    ensures Apply(s, a).flags.sequence == s.flags.sequence && Apply(s, a).numbered == s.numbered
  {
    hide Verdict, Refuses;
  }

  lemma SignalsStep(s: State, a: Action)
    requires SecretLast(s) && SecretSignals(s) && Enabled(s, a)
    ensures SecretSignals(Apply(s, a))
  {
    FlagsGrow(s, a);
    hide Verdict, AfterEvent, Refuses, WireOwned;
  }

  lemma InvStep(s: State, a: Action)
    requires Inv(s) && Enabled(s, a)
    ensures Inv(Apply(s, a))
  {
    LockStep(s, a);
    QuietStep(s, a);
    ResultsStep(s, a);
    HeardStep(s, a);
    NumbersStep(s, a);
    SignalsStep(s, a);
    UnheardStep(s, a);
    ExplainedStep(s, a);
    hide LockHeld, WireOrdered, WireOwned, SecretLast, ResultsOwned, HeardOnce, Unheard, Explained, NumbersCount, SecretSignals, Quiet,
         Frame;
    if a.BeginWrite? {
      WriteStep(s, a.t);
    } else {
      StepFrame(s, a);
      OrderedFrame(s, Apply(s, a));
      OwnedFrame(s, Apply(s, a));
      SecretStep(s, a);
    }
  }

  lemma {:induction false} RunInv(s: State, run: seq<Action>)
    requires Inv(s) && Exec(s, run).Some?
    ensures Inv(Exec(s, run).value)
    decreases |run|
  {
    hide Inv;
    if run != [] {
      InvStep(s, run[0]);
      RunInv(Apply(s, run[0]), run[1..]);
    }
  }

  // ----- what every run keeps -----

  /** At most one request holds the transport. */
  lemma OneHolder(run: seq<Action>, t: TaskId, u: TaskId)
    requires Exec(INITIAL, run).Some?
    ensures var s := Exec(INITIAL, run).value;
      t in s.tasks && u in s.tasks && Holds(s.tasks[t].phase) && Holds(s.tasks[u].phase) ==> t == u
  {
    RunInv(INITIAL, run);
  }

  /** Ids on the wire strictly increase, no request writes twice, and after a
      credentialed line, of which there is at most one, nothing is written. */
  lemma WireDiscipline(run: seq<Action>)
    requires Exec(INITIAL, run).Some?
    ensures var w := Exec(INITIAL, run).value.wire;
      && (forall i, j :: 0 <= i < j < |w| ==> w[i].id < w[j].id && w[i].task != w[j].task)
      && (forall i :: 0 <= i < |w| && w[i].kind.Credentialed? ==> i == |w| - 1)
  {
    RunInv(INITIAL, run);
  }

  /** The request that passes the second check as the n-th gets the id n, and every line
      on the wire carries the id of its own request. */
  lemma IdsCountRequests(run: seq<Action>, i: nat)
    requires Exec(INITIAL, run).Some?
    ensures var s := Exec(INITIAL, run).value;
      && s.flags.sequence == |s.numbered|
      && (i < |s.wire| ==> s.wire[i].id < |s.numbered| && s.numbered[s.wire[i].id] == s.wire[i].task)
  {
    RunInv(INITIAL, run);
  }

  /** When the credentialed request is over, the session is closed and cancelled. */
  lemma SecretCloses(run: seq<Action>, t: TaskId)
    requires Exec(INITIAL, run).Some?
    ensures var s := Exec(INITIAL, run).value;
      s.secret == Some(t) && t in s.tasks && s.tasks[t].phase.Done? && !s.tasks[t].phase.outcome.Dropped? ==>
        s.flags.closed && s.flags.cancelled
  {
    RunInv(INITIAL, run);
  }

  /** What a request returns is what it was told: a result and a core error come in
      an event with the id of its own line and that very value or code, a protocol
      error and a lost connection from such an event; and such an event, once heard,
      is what is returned, unless the caller has given up. */
  lemma ResultsBelong(run: seq<Action>, t: TaskId)
    requires Exec(INITIAL, run).Some?
    ensures var s := Exec(INITIAL, run).value;
      t in s.tasks && s.tasks[t].phase.Done? ==>
        var o := s.tasks[t].phase.outcome;
        && (FromEvent(o) ==> SettledBy(s, t, o))
        && ExplainedAs(s, t, o)
        && (forall k :: 0 <= k < |s.heard| && s.heard[k].task == t && Decides(s.heard[k].id, s.heard[k].event) ==>
              o.Dropped? || Ends(s.heard[k].id, s.heard[k].event, o))
  {
    RunInv(INITIAL, run);
    var s := Exec(INITIAL, run).value;
    hide LockHeld, WireOrdered, WireOwned, SecretLast, Quiet, SettledBy, ExplainedAs, Decides, Ends;
    assert ResultsOwned(s) && HeardOnce(s) && Explained(s);
    if t in s.tasks && s.tasks[t].phase.Done? {
      assert OutcomeOf(s.tasks[t].phase) == Some(s.tasks[t].phase.outcome);
      forall k | 0 <= k < |s.heard| && s.heard[k].task == t && Decides(s.heard[k].id, s.heard[k].event)
        ensures s.tasks[t].phase.outcome.Dropped? || Ends(s.heard[k].id, s.heard[k].event, s.tasks[t].phase.outcome)
      {
        assert AnswerOf(s, t, s.heard[k].id, s.heard[k].event);
      }
    }
  }

  /** The session takes no new request: it is closed, cancelled, or kept for a secret. */
  predicate Shut(f: Flags) { f.closed || f.cancelled || f.credentialed }

  /** A request that came too late: at the entry, or turned away there. */
  predicate TooLate(s: State, t: TaskId) {
    && Shut(s.flags) && !OnWire(s, t)
    && (t in s.tasks ==>
          && (s.tasks[t].phase.Entering? || OutcomeOf(s.tasks[t].phase) in {Some(SessionClosed), Some(Dropped)})
          && (s.tasks[t].phase.Entering? && s.tasks[t].kind.Credentialed? ==> s.flags.closed || s.flags.cancelled))
  }

  lemma TooLateStep(s: State, a: Action, t: TaskId)
    requires TooLate(s, t) && Enabled(s, a)
    ensures TooLate(Apply(s, a), t)
  {
    FlagsGrow(s, a);
    WireGrows(s, a);
    hide Verdict, AfterEvent;
  }

  /** A request that comes when the session is shut never writes a line, and is told
      that the session is closed. */
  lemma {:induction false} ShutTurnsAway(s: State, run: seq<Action>, t: TaskId)
    requires TooLate(s, t) && Exec(s, run).Some?
    ensures TooLate(Exec(s, run).value, t)
    decreases |run|
  {
    hide Apply, Enabled, TooLate;
    if run != [] {
      TooLateStep(s, run[0], t);
      ShutTurnsAway(Apply(s, run[0]), run[1..], t);
    }
  }

  /** In particular every request called after any run that has shut the session. */
  lemma CalledTooLate(run: seq<Action>, rest: seq<Action>, t: TaskId)
    requires Exec(INITIAL, run).Some? && Shut(Exec(INITIAL, run).value.flags) && t !in Exec(INITIAL, run).value.tasks
    requires Exec(Exec(INITIAL, run).value, rest).Some?
    ensures var q := Exec(Exec(INITIAL, run).value, rest).value;
      && !OnWire(q, t)
      && (t in q.tasks && q.tasks[t].phase.Done? ==> q.tasks[t].phase.outcome.SessionClosed? || q.tasks[t].phase.outcome.Dropped?)
  {
    RunInv(INITIAL, run);
    var s := Exec(INITIAL, run).value;
    assert TooLate(s, t) by { assert WireOwned(s); }
    hide Exec, Inv;
    ShutTurnsAway(s, rest, t);
  }

  /** A request in front of the second check, when that check will refuse it. */
  predicate Overtaken(s: State, t: TaskId) {
    && t in s.tasks && !OnWire(s, t)
    && (s.flags.closed || s.flags.cancelled || (s.tasks[t].kind.Ordinary? && s.flags.credentialed))
    && (|| s.tasks[t].phase.Entering? || s.tasks[t].phase.Queued? || s.tasks[t].phase.Holding?
        || OutcomeOf(s.tasks[t].phase) in {Some(SessionClosed), Some(SessionCancelled), Some(Dropped)})
  }

  lemma OvertakenStep(s: State, a: Action, t: TaskId)
    requires Overtaken(s, t) && Enabled(s, a)
    ensures Overtaken(Apply(s, a), t)
  {
    FlagsGrow(s, a);
    WireGrows(s, a);
    hide Verdict, AfterEvent;
  }

  /** A request that waits for the transport while the session is shut never writes. */
  lemma {:induction false} OvertakenNeverWrites(s: State, run: seq<Action>, t: TaskId)
    requires Overtaken(s, t) && Exec(s, run).Some?
    ensures Overtaken(Exec(s, run).value, t)
    decreases |run|
  {
    hide Apply, Enabled, Overtaken;
    if run != [] {
      OvertakenStep(s, run[0], t);
      OvertakenNeverWrites(Apply(s, run[0]), run[1..], t);
    }
  }

  /** Once the close is signalled and no request is at its write, no line starts to be
      written, whatever the queued requests do. */
  lemma {:induction false} NoWriteAfterCancel(s: State, run: seq<Action>)
    requires s.flags.cancelled && NonePolled(s) && Exec(s, run).Some?
    ensures Exec(s, run).value.wire == s.wire && Exec(s, run).value.flags.cancelled
    decreases |run|
  {
    hide Apply, Enabled, NonePolled;
    if run != [] {
      SilentStep(s, run[0]);
      NoWriteAfterCancel(Apply(s, run[0]), run[1..]);
    }
  }

  /** When the signal comes between a request's last look at it and its write, that
      one line can still start, and no other. */
  lemma {:induction false} OneWriteAfterCancel(s: State, run: seq<Action>, t: TaskId)
    requires LockHeld(s) && s.flags.cancelled && Exec(s, run).Some?
    requires t in s.tasks && s.tasks[t].phase.Polled?
    ensures var w := Exec(s, run).value.wire;
      w == s.wire || w == s.wire + [WireLine(t, s.tasks[t].phase.id, s.tasks[t].kind)]
    decreases |run|
  {
    hide Apply, Enabled, LockHeld;
    if run != [] {
      var q := Apply(s, run[0]);
      LockStep(s, run[0]);
      PolledStep(s, run[0], t);
      if NonePolled(q) {
        NoWriteAfterCancel(q, run[1..]);
      } else {
        OneWriteAfterCancel(q, run[1..], t);
      }
    }
  }

  lemma PolledStep(s: State, a: Action, t: TaskId)
    requires LockHeld(s) && s.flags.cancelled && Enabled(s, a) && t in s.tasks && s.tasks[t].phase.Polled?
    ensures var q := Apply(s, a);
      && q.flags.cancelled
      && (q.wire == s.wire || (NonePolled(q) && q.wire == s.wire + [WireLine(t, s.tasks[t].phase.id, s.tasks[t].kind)]))
      && (NonePolled(q) || (t in q.tasks && q.tasks[t] == s.tasks[t]))
  {
    hide Verdict, Refuses, AfterEvent;
    assert s.lock == Some(t);
    assert forall u :: u in s.tasks && Holds(s.tasks[u].phase) ==> u == t;
  }

  /** So after the signal silence is certain exactly when no request is at its write. */
  lemma SilentIffNonePolled(run: seq<Action>)
    requires Exec(INITIAL, run).Some? && Exec(INITIAL, run).value.flags.cancelled
    ensures var s := Exec(INITIAL, run).value;
      NonePolled(s) <==> forall rest :: Exec(s, rest).Some? ==> Exec(s, rest).value.wire == s.wire
  {
    var s := Exec(INITIAL, run).value;
    if NonePolled(s) {
      forall rest | Exec(s, rest).Some? ensures Exec(s, rest).value.wire == s.wire { NoWriteAfterCancel(s, rest); }
    } else {
      var t :| t in s.tasks && s.tasks[t].phase.Polled?;
      LateWrite(s, t);
    }
  }

  lemma LateWrite(s: State, t: TaskId)
    requires t in s.tasks && s.tasks[t].phase.Polled?
    ensures Exec(s, [BeginWrite(t)]).Some? && Exec(s, [BeginWrite(t)]).value.wire != s.wire
  {
    assert [BeginWrite(t)][1..] == [];
    assert Exec(s, [BeginWrite(t)]) == Exec(Apply(s, BeginWrite(t)), []);
  }

  /** Once the transport is closed, nothing is written any more. */
  lemma ClosedTransportIsSilent(run: seq<Action>, rest: seq<Action>)
    requires Exec(INITIAL, run).Some? && Exec(INITIAL, run).value.transportClosed
    requires Exec(Exec(INITIAL, run).value, rest).Some?
    ensures Exec(Exec(INITIAL, run).value, rest).value.wire == Exec(INITIAL, run).value.wire
  {
    RunInv(INITIAL, run);
    NoWriteAfterCancel(Exec(INITIAL, run).value, rest);
  }
}
