/** The bounded command queue in front of the diagnostic log: callers that never
    wait, a worker that processes commands in order, and a drop counter. */
module DiagnosticQueue {
  import opened Results
  import opened ByteLines
  import opened DiagnosticLog

  const CAPACITY := 256

  /** A number given to every `record` call. */
  type CallId = nat

  datatype Command =
    | Record(call: CallId, line: Line)
    | ReadAll
    | ClearAll
    | SetEnabled(on: bool)

  /** A command as the worker processed it, with what storage did. */
  datatype Processed = Processed(command: Command, fault: Fault)

  /** Where a call that saw recording enabled has got to. */
  datatype Fate = Calling | Queued | Overflowed | Handled(position: nat)

  /** What the log did with a record. */
  datatype Verdict = Stored | Ignored | Failed

  /** What callers and the worker share. */
  datatype Shared = Shared(enabled: bool, available: bool, dropped: nat)

  datatype Reply = Reply(position: nat, snapshot: Snapshot)

  datatype State = State(
    shared: Shared,
    // calls that saw recording enabled and have not tried to enqueue yet
    calling: map<CallId, Line>,
    queue: seq<Command>,
    log: Tracked,
    // history
    enqueued: seq<Command>,
    processed: seq<Processed>,
    fates: map<CallId, Fate>,
    drops: seq<CallId>,
    replies: seq<Reply>)

  datatype Action =
    | SeeEnabled(call: CallId, line: Line)
    | TrySend(call: CallId)
    | Send(command: Command)
    | Process(fault: Fault)

  function Initial(first: Log): State {
    State(Shared(first.enabled, true, 0), map[], [], Start(first), [], [], map[], [], [])
  }

  // ----- the worker on one command -----

  predicate Succeeds(log: Log, valid: Line -> bool, p: Processed) {
    match p.command
    case Record(_, line) => Append(log, valid, line, p.fault).1
    case _ => p.fault.NoFault?
  }

  /** The operation on the log that a command other than a read asks for. */
  function OpOf(p: Processed): Operation
    requires !p.command.ReadAll?
  {
    match p.command
    case Record(_, line) => Add(line, p.fault)
    case ClearAll => ClearLog(p.fault.NoFault?)
    case SetEnabled(on) => Enable(on, p.fault.NoFault?)
  }

  function Ops(ps: seq<Processed>): seq<Operation> {
    if ps == [] then []
    else Ops(ps[..|ps| - 1]) + if ps[|ps| - 1].command.ReadAll? then [] else [OpOf(ps[|ps| - 1])]
  }

  /** The log after a list of commands. */
  function LogAfter(t: Tracked, valid: Line -> bool, ps: seq<Processed>): Tracked { Run(t, valid, Ops(ps)) }

  function After(t: Tracked, valid: Line -> bool, p: Processed): Tracked {
    if p.command.ReadAll? then t else Step(t, valid, OpOf(p))
  }

  lemma LogAfterNext(t: Tracked, valid: Line -> bool, ps: seq<Processed>, p: Processed)
    ensures LogAfter(t, valid, ps + [p]) == After(LogAfter(t, valid, ps), valid, p)
  {
    hide Step, Run;
    assert (ps + [p])[..|ps|] == ps;
    if p.command.ReadAll? {
      assert Ops(ps) + [] == Ops(ps);
    } else {
      RunSnoc(t, valid, Ops(ps), OpOf(p));
    }
  }

  lemma LogAfterNothing(t: Tracked, valid: Line -> bool)
    ensures LogAfter(t, valid, []) == t
  {
  }

  function SharedAfter(sh: Shared, log: Log, valid: Line -> bool, p: Processed): Shared {
    var ok := Succeeds(log, valid, p);
    Shared(if p.command.SetEnabled? && ok then p.command.on else sh.enabled,
           ok,
           if p.command.Record? && !ok then sh.dropped + 1 else sh.dropped)
  }

  class Worker {
    const store: Store
    var enabled: bool
    var available: bool
    var dropped: nat

    ghost function State(): Shared
      reads this
    {
      Shared(enabled, available, dropped)
    }

    constructor (s: Store)
      ensures store == s && dropped == 0 && available && enabled == s.enabled
    {
      store, enabled, available, dropped := s, s.enabled, true, 0;
    }

    /** One turn of the worker's loop. */
    method Handle(valid: Line -> bool, command: Command, fault: Fault) returns (reply: Option<Snapshot>)
      requires store.Valid()
      modifies this, store
      ensures store.Valid()
      ensures var p := Processed(command, fault);
        && store.State() == (if command.ReadAll? then old(store.State()) else Applied(old(store.State()), valid, OpOf(p)))
        && State() == SharedAfter(old(State()), old(store.State()), valid, p)
      ensures reply == if command.ReadAll? && fault.NoFault?
                       then Some(ReadFrom(EncodeAll(old(store.segments)), valid, 0)) else None
    {
      reply := None;
      match command {
        case Record(_, line) =>
          var ok := store.AppendRecord(valid, line, fault);
          available := ok;
          if !ok { dropped := dropped + 1; }
        case ReadAll =>
          if fault.NoFault? {
            var snapshot := store.Read(valid);
            reply := Some(snapshot);
          }
          available := fault.NoFault?;
        case ClearAll =>
          store.Clear(fault.NoFault?);
          available := fault.NoFault?;
        case SetEnabled(on) =>
          store.SetEnabled(on, fault.NoFault?);
          available := fault.NoFault?;
          if fault.NoFault? { enabled := on; }
      }
    }
  }

  // ----- callers and worker together -----

  predicate Enabled(s: State, a: Action) {
    match a
    case SeeEnabled(call, _) => call !in s.fates && s.shared.enabled
    case TrySend(call) => call in s.calling
    case Send(command) => !command.Record? && |s.queue| < CAPACITY
    case Process(_) => s.queue != []
  }

  function VerdictOf(log: Log, valid: Line -> bool, line: Line, fault: Fault): Verdict {
    if !log.enabled then Ignored else if Append(log, valid, line, fault).1 then Stored else Failed
  }

  function Enqueue(s: State, command: Command): State {
    s.(queue := s.queue + [command], enqueued := s.enqueued + [command])
  }

  function Apply(s: State, valid: Line -> bool, a: Action): State
    requires Enabled(s, a)
  {
    match a
    case SeeEnabled(call, line) => s.(calling := s.calling[call := line], fates := s.fates[call := Calling])
    case TrySend(call) =>
      if |s.queue| < CAPACITY
      then Enqueue(s, Record(call, s.calling[call])).(calling := s.calling - {call}, fates := s.fates[call := Queued])
      else s.(calling := s.calling - {call}, shared := s.shared.(dropped := s.shared.dropped + 1),
              fates := s.fates[call := Overflowed], drops := s.drops + [call])
    case Send(command) => Enqueue(s, command)
    case Process(fault) =>
      var p := Processed(s.queue[0], fault);
      var q := s.(queue := s.queue[1..],
                  log := After(s.log, valid, p),
                  shared := SharedAfter(s.shared, s.log.log, valid, p),
                  processed := s.processed + [p]);
      (match p.command
       case Record(call, line) =>
         q.(fates := s.fates[call := Handled(|s.processed|)],
            drops := if VerdictOf(s.log.log, valid, line, fault).Failed? then s.drops + [call] else s.drops)
       case ReadAll =>
         if fault.NoFault?
         then q.(replies := s.replies + [Reply(|s.processed|, ReadFrom(EncodeAll(s.log.log.segments), valid, 0))])
         else q
       case _ => q)
  }

  ghost function Exec(s: State, valid: Line -> bool, run: seq<Action>): Option<State>
    decreases |run|
  {
    if run == [] then Some(s)
    else if !Enabled(s, run[0]) then None
    else Exec(Apply(s, valid, run[0]), valid, run[1..])
  }

  // ----- invariants -----

  /** Every call is accounted for once: about to try, in the queue, turned away by a
      full queue, or handled by the worker at one position. */
  ghost predicate Accounted(s: State) {
    && (forall c :: c in s.calling <==> c in s.fates && s.fates[c].Calling?)
    && (forall i :: 0 <= i < |s.queue| && s.queue[i].Record? ==> s.queue[i].call in s.fates && s.fates[s.queue[i].call].Queued?)
    && (forall i, j :: 0 <= i < j < |s.queue| && s.queue[i].Record? && s.queue[j].Record? ==> s.queue[i].call != s.queue[j].call)
    && (forall c :: c in s.fates && s.fates[c].Queued? ==> exists i :: 0 <= i < |s.queue| && s.queue[i].Record? && s.queue[i].call == c)
    && |s.queue| <= CAPACITY
  }

  /** The position of a handled call is where the worker processed it, and every
      record it processed belongs to the call that is handled there. */
  ghost predicate HandledRight(s: State) {
    && (forall c :: c in s.fates && s.fates[c].Handled? ==>
          s.fates[c].position < |s.processed| && s.processed[s.fates[c].position].command.Record?
          && s.processed[s.fates[c].position].command.call == c)
    && (forall k :: 0 <= k < |s.processed| && s.processed[k].command.Record? ==>
          s.processed[k].command.call in s.fates && s.fates[s.processed[k].command.call] == Handled(k))
  }

  /** What the log, as the commands in front had made it, did with the record at `k`. */
  function VerdictAt(valid: Line -> bool, first: Log, ps: seq<Processed>, k: nat): Verdict
    requires k < |ps| && ps[k].command.Record?
  {
    VerdictOf(LogAfter(Start(first), valid, ps[..k]).log, valid, ps[k].command.line, ps[k].fault)
  }

  /** Dropped: turned away by a full queue, or not stored by an enabled log. */
  predicate Dropped(s: State, valid: Line -> bool, first: Log, c: CallId) {
    && c in s.fates
    && (s.fates[c].Overflowed?
        || (s.fates[c].Handled? && s.fates[c].position < |s.processed| && s.processed[s.fates[c].position].command.Record?
            && VerdictAt(valid, first, s.processed, s.fates[c].position).Failed?))
  }

  /** The counter counts the dropped calls. */
  ghost predicate DropsCounted(s: State, valid: Line -> bool, first: Log) {
    && s.shared.dropped == |s.drops|
    && (forall c :: c in s.drops <==> Dropped(s, valid, first, c))
    && (forall i, j :: 0 <= i < j < |s.drops| ==> s.drops[i] != s.drops[j])
  }

  function Commands(ps: seq<Processed>): seq<Command> {
    seq(|ps|, i requires 0 <= i < |ps| => ps[i].command)
  }

  /** Commands are processed in the order in which they were queued, the log is what
      they made of it, and each reply reads the log of the commands in front of it. */
  ghost predicate InOrder(s: State, valid: Line -> bool, first: Log) {
    && s.enqueued == Commands(s.processed) + s.queue
    && s.log == LogAfter(Start(first), valid, s.processed)
    && s.shared.enabled == s.log.log.enabled
    && (forall k :: 0 <= k < |s.replies| ==> Answers(s.replies[k], s.processed, valid, first))
    && (forall n :: 0 <= n < |s.processed| && s.processed[n].command.ReadAll? && s.processed[n].fault.NoFault? ==> HasReply(s, n))
    && (forall j, k :: 0 <= j < k < |s.replies| ==> s.replies[j].position < s.replies[k].position)
  }

  predicate HasReply(s: State, n: nat) { exists k :: 0 <= k < |s.replies| && s.replies[k].position == n }

  /** The command at `n` did what it was asked to do. */
  predicate Went(valid: Line -> bool, first: Log, ps: seq<Processed>, n: nat)
    requires n < |ps|
  {
    if ps[n].command.Record? then !VerdictAt(valid, first, ps, n).Failed? else ps[n].fault.NoFault?
  }

  /** Diagnostics are shown as available unless the last command went wrong. */
  predicate AvailableRight(s: State, valid: Line -> bool, first: Log) {
    s.shared.available <==> s.processed == [] || Went(valid, first, s.processed, |s.processed| - 1)
  }

  /** A reply belongs to a read, and reads the log that the commands in front made. */
  predicate Answers(r: Reply, processed: seq<Processed>, valid: Line -> bool, first: Log) {
    && r.position < |processed| && processed[r.position].command.ReadAll? && processed[r.position].fault.NoFault?
    && r.snapshot == ReadFrom(EncodeAll(LogAfter(Start(first), valid, processed[..r.position]).log.segments), valid, 0)
  }

  ghost predicate Inv(s: State, valid: Line -> bool, first: Log) {
    Accounted(s) && HandledRight(s) && DropsCounted(s, valid, first) && InOrder(s, valid, first) && AvailableRight(s, valid, first)
  }

  lemma EnqueueAccounted(s: State, valid: Line -> bool, a: Action)
    requires Accounted(s) && Enabled(s, a) && !a.Process?
    ensures Accounted(Apply(s, valid, a))
  {
    var q := Apply(s, valid, a);
    forall c | c in q.fates && q.fates[c].Queued?
      ensures exists i :: 0 <= i < |q.queue| && q.queue[i].Record? && q.queue[i].call == c
    {
      if c in s.fates && s.fates[c].Queued? {
        var i :| 0 <= i < |s.queue| && s.queue[i].Record? && s.queue[i].call == c;
        assert q.queue[i] == s.queue[i];
      } else {
        assert q.queue[|s.queue|] == Record(c, s.calling[c]);
      }
    }
  }

  lemma EnqueueHandled(s: State, valid: Line -> bool, a: Action)
    requires Accounted(s) && HandledRight(s) && Enabled(s, a) && !a.Process?
    ensures HandledRight(Apply(s, valid, a))
  {
    assert a.TrySend? ==> s.fates[a.call].Calling?;
  }

  lemma ProcessAccounted(s: State, valid: Line -> bool, fault: Fault)
    requires Accounted(s) && s.queue != []
    ensures Accounted(Apply(s, valid, Process(fault)))
  {
    hide After, ReadFrom, SharedAfter, VerdictOf;
    var q := Apply(s, valid, Process(fault));
    assert forall i :: 0 <= i < |q.queue| ==> q.queue[i] == s.queue[i + 1];
    forall c | c in q.fates && q.fates[c].Queued?
      ensures exists i :: 0 <= i < |q.queue| && q.queue[i].Record? && q.queue[i].call == c
    {
      var i :| 0 <= i < |s.queue| && s.queue[i].Record? && s.queue[i].call == c;
      assert i > 0;
      assert q.queue[i - 1] == s.queue[i];
    }
  }

  lemma ProcessHandled(s: State, valid: Line -> bool, fault: Fault)
    requires Accounted(s) && HandledRight(s) && s.queue != []
    ensures HandledRight(Apply(s, valid, Process(fault)))
  {
    hide After, ReadFrom, SharedAfter, VerdictOf;
    var q := Apply(s, valid, Process(fault));
    assert forall k :: 0 <= k < |s.processed| ==> q.processed[k] == s.processed[k];
    assert s.queue[0].Record? ==> s.fates[s.queue[0].call].Queued?;
  }

  /** Processing one more command does not change the verdicts so far. */
  lemma VerdictStays(valid: Line -> bool, first: Log, ps: seq<Processed>, p: Processed, k: nat)
    requires k < |ps| && ps[k].command.Record?
    ensures VerdictAt(valid, first, ps + [p], k) == VerdictAt(valid, first, ps, k)
  {
    hide VerdictOf, LogAfter;
    assert (ps + [p])[..k] == ps[..k];
  }

  lemma DroppedStays(s: State, q: State, valid: Line -> bool, first: Log, c: CallId, p: Processed)
    requires HandledRight(s) && q.processed == s.processed + [p]
    requires c in s.fates && c in q.fates && q.fates[c] == s.fates[c]
    ensures Dropped(q, valid, first, c) <==> Dropped(s, valid, first, c)
  {
    hide VerdictAt;
    if s.fates[c].Handled? { VerdictStays(valid, first, s.processed, p, s.fates[c].position); }
  }

  lemma ProcessDrops(s: State, valid: Line -> bool, fault: Fault, first: Log)
    requires Inv(s, valid, first) && s.queue != []
    ensures DropsCounted(Apply(s, valid, Process(fault)), valid, first)
  {
    hide After, ReadFrom, LogAfter, Append, Dropped, InOrder;
    var p := Processed(s.queue[0], fault);
    var q := Apply(s, valid, Process(fault));
    forall c | c in s.fates && !(p.command.Record? && p.command.call == c)
      ensures Dropped(q, valid, first, c) <==> Dropped(s, valid, first, c)
    {
      DroppedStays(s, q, valid, first, c, p);
    }
    forall c | c !in s.fates ensures !Dropped(s, valid, first, c) && !Dropped(q, valid, first, c) {
      NeverSeen(s, valid, first, c);
      NeverSeen(q, valid, first, c);
    }
    if p.command.Record? {
      JustHandled(s, valid, fault, first);
      FailedIff(s.log.log, valid, p.command.line, fault);
      assert p.command.call !in s.drops;
    }
  }

  /** A disabled log reports success. */
  lemma FailedIff(log: Log, valid: Line -> bool, line: Line, fault: Fault)
    ensures VerdictOf(log, valid, line, fault).Failed? <==> !Append(log, valid, line, fault).1
  {
  }

  lemma NeverSeen(s: State, valid: Line -> bool, first: Log, c: CallId)
    ensures c !in s.fates ==> !Dropped(s, valid, first, c)
  {
  }

  lemma JustHandled(s: State, valid: Line -> bool, fault: Fault, first: Log)
    requires Inv(s, valid, first) && s.queue != [] && s.queue[0].Record?
    ensures var c := s.queue[0].call;
      && c in s.fates && !Dropped(s, valid, first, c)
      && (Dropped(Apply(s, valid, Process(fault)), valid, first, c) <==> VerdictOf(s.log.log, valid, s.queue[0].line, fault).Failed?)
  {
    hide After, ReadFrom, LogAfter, Append, VerdictOf, SharedAfter, DropsCounted;
    var q := Apply(s, valid, Process(fault));
    assert q.processed[..|s.processed|] == s.processed;
    assert s.fates[s.queue[0].call].Queued?;
  }

  lemma OtherDrops(s: State, valid: Line -> bool, a: Action, first: Log)
    requires Accounted(s) && DropsCounted(s, valid, first) && Enabled(s, a) && !a.Process?
    ensures DropsCounted(Apply(s, valid, a), valid, first)
  {
    hide VerdictAt;
    var q := Apply(s, valid, a);
    assert a.TrySend? ==> s.fates[a.call].Calling? && !Dropped(s, valid, first, a.call);
    forall c | !(a.TrySend? && c == a.call) ensures Dropped(q, valid, first, c) <==> Dropped(s, valid, first, c) {}
    assert q.drops == s.drops || (a.TrySend? && Dropped(q, valid, first, a.call) && q.drops == s.drops + [a.call]);
    hide Dropped;
  }

  lemma OrderStep(s: State, valid: Line -> bool, a: Action, first: Log)
    requires InOrder(s, valid, first) && Enabled(s, a)
    ensures InOrder(Apply(s, valid, a), valid, first)
  {
    hide ReadFrom, EncodeAll, Append, Answers, LogAfter;
    if a.Process? {
      OrderProcess(s, valid, a.fault, first);
    } else {
      assert forall c :: Commands(s.processed) + (s.queue + [c]) == Commands(s.processed) + s.queue + [c];
    }
  }

  lemma OrderProcess(s: State, valid: Line -> bool, fault: Fault, first: Log)
    requires InOrder(s, valid, first) && s.queue != []
    ensures InOrder(Apply(s, valid, Process(fault)), valid, first)
  {
    hide ReadFrom, EncodeAll, Append, After, LogAfter, Answers, VerdictOf;
    var q := Apply(s, valid, Process(fault));
    var p := Processed(s.queue[0], fault);
    LogAfterNext(Start(first), valid, s.processed, p);
    EnabledFollows(s.shared, s.log, valid, p);
    assert Commands(q.processed) + q.queue == Commands(s.processed) + s.queue;
    forall k | 0 <= k < |s.replies| ensures s.replies[k].position < |s.processed| { AnswersBounded(s.replies[k], s.processed, valid, first); }
    forall n | 0 <= n < |q.processed| && q.processed[n].command.ReadAll? && q.processed[n].fault.NoFault? ensures HasReply(q, n) {
      if n < |s.processed| { assert s.processed[n] == q.processed[n]; }
      StillReplied(s, q, n);
    }
    hide HasReply;
    forall k | 0 <= k < |q.replies| ensures Answers(q.replies[k], q.processed, valid, first) {
      if k < |s.replies| {
        AnswersStill(s.replies[k], s.processed, p, valid, first);
      } else {
        AnswersNow(s.processed, p, valid, first);
      }
    }
  }

  lemma StillReplied(s: State, q: State, n: nat)
    requires HasReply(s, n) || (q.replies != [] && q.replies[|q.replies| - 1].position == n)
    requires s.replies <= q.replies
    ensures HasReply(q, n)
  {
    if k :| 0 <= k < |s.replies| && s.replies[k].position == n { assert q.replies[k].position == n; }
  }

  lemma AnswersBounded(r: Reply, processed: seq<Processed>, valid: Line -> bool, first: Log)
    requires Answers(r, processed, valid, first)
    ensures r.position < |processed|
  {
  }

  lemma EnabledFollows(shared: Shared, t: Tracked, valid: Line -> bool, p: Processed)
    requires shared.enabled == t.log.enabled
    ensures SharedAfter(shared, t.log, valid, p).enabled == After(t, valid, p).log.enabled
  {
    hide Append, Step;
  }

  lemma AnswersStill(r: Reply, processed: seq<Processed>, p: Processed, valid: Line -> bool, first: Log)
    requires Answers(r, processed, valid, first)
    ensures Answers(r, processed + [p], valid, first)
  {
    hide ReadFrom, EncodeAll, LogAfter;
    assert (processed + [p])[..r.position] == processed[..r.position];
  }

  lemma AnswersNow(processed: seq<Processed>, p: Processed, valid: Line -> bool, first: Log)
    requires p.command.ReadAll? && p.fault.NoFault?
    ensures Answers(Reply(|processed|, ReadFrom(EncodeAll(LogAfter(Start(first), valid, processed).log.segments), valid, 0)),
                    processed + [p], valid, first)
  {
    hide ReadFrom, EncodeAll, LogAfter;
    assert (processed + [p])[..|processed|] == processed;
  }

  lemma AvailableStep(s: State, valid: Line -> bool, a: Action, first: Log)
    requires InOrder(s, valid, first) && AvailableRight(s, valid, first) && Enabled(s, a)
    ensures AvailableRight(Apply(s, valid, a), valid, first)
  {
    hide ReadFrom, EncodeAll, Append, After, LogAfter, Answers, InOrder;
    if a.Process? {
      OrderIs(s, valid, first);
      var p := Processed(s.queue[0], a.fault);
      assert (s.processed + [p])[..|s.processed|] == s.processed;
      WentNow(s.log.log, valid, p);
      hide VerdictOf, Succeeds;
    }
  }

  lemma OrderIs(s: State, valid: Line -> bool, first: Log)
    requires InOrder(s, valid, first)
    ensures s.log == LogAfter(Start(first), valid, s.processed)
  {
  }

  lemma WentNow(log: Log, valid: Line -> bool, p: Processed)
    ensures Succeeds(log, valid, p)
       <==> if p.command.Record? then !VerdictOf(log, valid, p.command.line, p.fault).Failed? else p.fault.NoFault?
  {
  }

  lemma InvStep(s: State, valid: Line -> bool, a: Action, first: Log)
    requires Inv(s, valid, first) && Enabled(s, a)
    ensures Inv(Apply(s, valid, a), valid, first)
  {
    hide Accounted, HandledRight, DropsCounted, InOrder, AvailableRight, Apply;
    AvailableStep(s, valid, a, first);
    OrderStep(s, valid, a, first);
    if a.Process? {
      ProcessAccounted(s, valid, a.fault);
      ProcessHandled(s, valid, a.fault);
      ProcessDrops(s, valid, a.fault, first);
    } else {
      EnqueueAccounted(s, valid, a);
      EnqueueHandled(s, valid, a);
      OtherDrops(s, valid, a, first);
    }
  }

  lemma {:induction false} RunInv(s: State, valid: Line -> bool, run: seq<Action>, first: Log)
    requires Inv(s, valid, first) && Exec(s, valid, run).Some?
    ensures Inv(Exec(s, valid, run).value, valid, first)
    decreases |run|
  {
    hide Inv, Apply, Enabled;
    if run != [] {
      InvStep(s, valid, run[0], first);
      RunInv(Apply(s, valid, run[0]), valid, run[1..], first);
    }
  }

  lemma InitialInv(valid: Line -> bool, first: Log)
    ensures Inv(Initial(first), valid, first)
  {
    hide Retained;
  }

  lemma Reachable(valid: Line -> bool, first: Log, run: seq<Action>)
    requires Exec(Initial(first), valid, run).Some?
    ensures Inv(Exec(Initial(first), valid, run).value, valid, first)
  {
    InitialInv(valid, first);
    RunInv(Initial(first), valid, run, first);
  }

  // ----- what every run keeps -----

  /** Every call that saw recording enabled is about to try, in the queue once,
      turned away, or handled at the one position where the worker processed it;
      and the counter is exactly the number of calls that were turned away or that
      an enabled log failed to store. Diagnostics are available unless the last
      command went wrong. */
  lemma CallsAccounted(valid: Line -> bool, first: Log, run: seq<Action>)
    requires Exec(Initial(first), valid, run).Some?
    ensures var s := Exec(Initial(first), valid, run).value;
      Accounted(s) && HandledRight(s) && DropsCounted(s, valid, first) && AvailableRight(s, valid, first)
  {
    Reachable(valid, first, run);
  }

  /** The commands other than records that a run sends. */
  function Sent(run: seq<Action>): seq<Command>
    decreases |run|
  {
    if run == [] then [] else (if run[0].Send? then [run[0].command] else []) + Sent(run[1..])
  }

  function Controls(commands: seq<Command>): seq<Command> {
    if commands == [] then []
    else Controls(commands[..|commands| - 1])
         + if commands[|commands| - 1].Record? then [] else [commands[|commands| - 1]]
  }

  ghost predicate Saw(run: seq<Action>, call: CallId) { exists k :: 0 <= k < |run| && run[k].SeeEnabled? && run[k].call == call }

  lemma StepSends(s: State, valid: Line -> bool, a: Action)
    requires Enabled(s, a)
    ensures Controls(Apply(s, valid, a).enqueued) == Controls(s.enqueued) + if a.Send? then [a.command] else []
    ensures forall c ::
      c in Apply(s, valid, a).fates
      <==> c in s.fates || HandledBy(s, a, c) || ((a.SeeEnabled? || a.TrySend?) && a.call == c)
  {
    hide ReadFrom, EncodeAll, Append, After, VerdictOf, SharedAfter;
    assert forall c :: (s.enqueued + [c])[..|s.enqueued|] == s.enqueued;
  }

  predicate HandledBy(s: State, a: Action, call: CallId) {
    a.Process? && s.queue != [] && s.queue[0].Record? && s.queue[0].call == call
  }

  lemma {:induction false} SendsFrom(s: State, valid: Line -> bool, run: seq<Action>, first: Log)
    requires Inv(s, valid, first) && Exec(s, valid, run).Some?
    ensures var q := Exec(s, valid, run).value;
      && Controls(q.enqueued) == Controls(s.enqueued) + Sent(run)
      && forall c :: c in q.fates <==> c in s.fates || Saw(run, c)
    decreases |run|
  {
    hide Controls, Apply, Enabled, DropsCounted, InOrder, HandledRight, AvailableRight;
    if run != [] {
      var a, rest := run[0], run[1..];
      var next := Apply(s, valid, a);
      InvStep(s, valid, a, first);
      StepSends(s, valid, a);
      SendsFrom(next, valid, rest, first);
      KnownCalls(s, a);
      assert forall k :: 0 < k < |run| ==> run[k] == rest[k - 1];
      forall c ensures Saw(run, c) <==> (a.SeeEnabled? && a.call == c) || Saw(rest, c) {
        if k :| 0 <= k < |rest| && rest[k].SeeEnabled? && rest[k].call == c { assert run[k + 1].call == c; }
      }
      hide Saw, HandledBy, Inv;
    }
  }

  lemma KnownCalls(s: State, a: Action)
    requires Accounted(s) && Enabled(s, a)
    ensures forall c :: HandledBy(s, a, c) || (a.TrySend? && a.call == c) ==> c in s.fates
  {
  }

  lemma NothingSent(first: Log)
    ensures Controls(Initial(first).enqueued) == [] && Initial(first).fates == map[]
  {
  }

  /** Nothing is lost or made up on the way into the queue: the other commands are
      queued as they were sent, and exactly the calls that saw recording enabled are
      accounted for. */
  lemma QueuedAsSent(valid: Line -> bool, first: Log, run: seq<Action>)
    requires Exec(Initial(first), valid, run).Some?
    ensures var s := Exec(Initial(first), valid, run).value;
      Controls(s.enqueued) == Sent(run) && forall c :: c in s.fates <==> Saw(run, c)
  {
    hide *;
    InitialInv(valid, first);
    SendsFrom(Initial(first), valid, run, first);
    NothingSent(first);
  }

  /** What a verdict means for the log: a stored record is the newest one retained
      and one more since the last clear; an ignored one met a disabled log and
      changed nothing; a failed one added nothing. */
  lemma VerdictIsTrue(valid: Line -> bool, first: Log, ps: seq<Processed>, k: nat)
    requires k < |ps| && ps[k].command.Record?
    ensures var before, after := LogAfter(Start(first), valid, ps[..k]), LogAfter(Start(first), valid, ps[..k + 1]);
      var line := ps[k].command.line;
      match VerdictAt(valid, first, ps, k)
      case Stored => before.log.enabled && after.appended == before.appended + [line] && Suffix([line], Retained(after.log.segments))
      case Ignored => !before.log.enabled && after.log == before.log && after.appended == before.appended
      case Failed => before.log.enabled && after.appended == before.appended
                     && Suffix(Retained(after.log.segments), Retained(before.log.segments))
  {
    hide LogAfter, VerdictOf, Retained, Suffix, After;
    var before := LogAfter(Start(first), valid, ps[..k]);
    assert ps[..k + 1] == ps[..k] + [ps[k]];
    LogAfterNext(Start(first), valid, ps[..k], ps[k]);
    RecordAfter(before, valid, ps[k]);
    hide Step;
    AddedIsTrue(before, valid, ps[k].command.line, ps[k].fault);
  }

  lemma RecordAfter(t: Tracked, valid: Line -> bool, p: Processed)
    requires p.command.Record?
    ensures After(t, valid, p) == Step(t, valid, Add(p.command.line, p.fault))
  {
    hide Step;
  }

  lemma AddedIsTrue(t: Tracked, valid: Line -> bool, line: Line, fault: Fault)
    ensures var after := Step(t, valid, Add(line, fault));
      match VerdictOf(t.log, valid, line, fault)
      case Stored => t.log.enabled && after.appended == t.appended + [line] && Suffix([line], Retained(after.log.segments))
      case Ignored => !t.log.enabled && after.log == t.log && after.appended == t.appended
      case Failed => t.log.enabled && after.appended == t.appended
                     && Suffix(Retained(after.log.segments), Retained(t.log.segments))
  {
    AppendTail(t.log, valid, line, fault);
    DisabledStays(t.log, valid, line, fault);
    hide Append, Rotates, Suffix, Retained;
  }

  lemma DisabledStays(log: Log, valid: Line -> bool, line: Line, fault: Fault)
    ensures !log.enabled ==> Append(log, valid, line, fault) == (log, true)
  {
  }

  lemma AppendTail(log: Log, valid: Line -> bool, line: Line, fault: Fault)
    ensures var (after, ok) := Append(log, valid, line, fault);
      && (log.enabled && ok ==> Suffix([line], Retained(after.segments)))
      && (log.enabled && !ok ==> Suffix(Retained(after.segments), Retained(log.segments)))
  {
    hide Rotate, Retained, Accepts, Fits;
    var s, r := log.segments, Rotate(log.segments, fault).0;
    RotateRetained(s, fault);
    AppendRetained(s, line);
    AppendRetained(r, line);
    LastIsSuffix(Retained(s), line);
    LastIsSuffix(Retained(r), line);
    SameIsSuffix(Retained(s));
    hide Suffix, Segment;
  }

  lemma LastIsSuffix(lines: seq<Line>, line: Line)
    ensures Suffix([line], lines + [line])
  {
  }

  /** Commands take effect in the order in which they were queued. A read answers
      with the latest records retained of what the log was opened on and exactly the
      commands queued before it have stored, since the last clear; and no read is
      answered twice. */
  lemma RepliesInOrder(valid: Line -> bool, first: Log, run: seq<Action>, k: nat)
    requires Codec(valid) && Capped(first.segments, valid)
    requires Exec(Initial(first), valid, run).Some? && k < |Exec(Initial(first), valid, run).value.replies|
    ensures var s := Exec(Initial(first), valid, run).value;
      var n := s.replies[k].position;
      && n < |s.processed| && n < |s.enqueued| && s.enqueued[n].ReadAll? && s.processed[n].fault.NoFault?
      && s.enqueued[..n] == Commands(s.processed[..n])
      && (forall j :: 0 <= j < k ==> s.replies[j].position < n)
      && var t := LogAfter(Start(first), valid, s.processed[..n]);
         s.replies[k].snapshot == Latest(Retained(t.log.segments)) && Suffix(Retained(t.log.segments), t.appended)
  {
    Reachable(valid, first, run);
    hide Exec;
    var s := Exec(Initial(first), valid, run).value;
    var r := s.replies[k];
    assert Answers(r, s.processed, valid, first);
    hide Accounted, HandledRight, DropsCounted, ReadFrom, EncodeAll, Latest, Retained;
    ReadsLatest(valid, first, s.processed[..r.position]);
    assert Commands(s.processed[..r.position]) == Commands(s.processed)[..r.position];
  }

  /** Every read that storage did not fail is answered. */
  lemma ReadsAnswered(valid: Line -> bool, first: Log, run: seq<Action>, n: nat)
    requires Exec(Initial(first), valid, run).Some? && n < |Exec(Initial(first), valid, run).value.processed|
    ensures var s := Exec(Initial(first), valid, run).value;
      s.processed[n].command.ReadAll? ==>
        (s.processed[n].fault.NoFault? <==> exists k :: 0 <= k < |s.replies| && s.replies[k].position == n)
  {
    Reachable(valid, first, run);
    hide Exec;
    var s := Exec(Initial(first), valid, run).value;
    if k :| 0 <= k < |s.replies| && s.replies[k].position == n {
      assert Answers(s.replies[k], s.processed, valid, first);
    }
    if s.processed[n].command.ReadAll? && s.processed[n].fault.NoFault? { assert HasReply(s, n); }
    hide Accounted, HandledRight, DropsCounted, ReadFrom, EncodeAll, LogAfter;
  }

  lemma ReadsLatest(valid: Line -> bool, first: Log, ps: seq<Processed>)
    requires Codec(valid) && Capped(first.segments, valid)
    ensures var t := LogAfter(Start(first), valid, ps);
      && ReadFrom(EncodeAll(t.log.segments), valid, 0) == Latest(Retained(t.log.segments))
      && Suffix(Retained(t.log.segments), t.appended)
  {
    hide Codec, ReadFrom, EncodeAll, Latest, Retained, Run;
    Reached(valid, first, Ops(ps));
    ReadReturnsLatest(valid, LogAfter(Start(first), valid, ps).log.segments);
  }

  predicate Reenables(p: Processed) { p.command == SetEnabled(true) && p.fault.NoFault? }
  predicate Clears(p: Processed) { p.command.ClearAll? && p.fault.NoFault? }

  /** Once recording was switched off, nothing reaches storage until it is switched
      on again: the segments can only be cleared, and every record is ignored. */
  lemma {:induction false} OffStaysOff(t: Tracked, valid: Line -> bool, ps: seq<Processed>)
    requires !t.log.enabled
    requires forall i :: 0 <= i < |ps| ==> !Reenables(ps[i])
    ensures var after := LogAfter(t, valid, ps);
      && !after.log.enabled
      && after.log.segments == (if exists i :: 0 <= i < |ps| && Clears(ps[i]) then map[] else t.log.segments)
      && after.appended == if exists i :: 0 <= i < |ps| && Clears(ps[i]) then [] else t.appended
    decreases |ps|
  {
    hide LogAfter;
    if ps == [] {
      LogAfterNothing(t, valid);
    } else {
      var n := |ps| - 1;
      var front := ps[..n];
      OffStaysOff(t, valid, front);
      assert ps == front + [ps[n]];
      LogAfterNext(t, valid, front, ps[n]);
      if i :| 0 <= i < |front| && Clears(front[i]) { assert Clears(ps[i]); }
      if i :| 0 <= i < |ps| && Clears(ps[i]) && i < n { assert Clears(front[i]); }
      assert !Reenables(ps[n]);
    }
  }
}
