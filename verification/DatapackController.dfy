/** The controller behind a world's datapack list: runs over awaited steps, made
    harmless by `cancel` through a generation counter. */
module DatapackController {
  import opened Results

  type RunId = nat
  type SessionId = nat

  datatype Snapshot = Snapshot(content: Option<string>, locked: Option<bool>, pending: bool,
                               error: Option<string>, refreshError: Option<string>, progress: Option<string>)

  const EMPTY := Snapshot(None, None, false, None, None, None)

  // ----- the fields that all runs share -----

  /** `closeSession` holds the close function of one session, named by the session. */
  datatype Shared = Shared(snapshot: Snapshot, generation: nat, pending: bool, closeSession: Option<SessionId>)

  function Begun(s: Shared): Shared
  {
    s.(snapshot := s.snapshot.(pending := true, error := None, refreshError := None, progress := None),
       generation := s.generation + 1, pending := true)
  }

  function Cancelled(s: Shared): Shared { s.(generation := s.generation + 1, snapshot := EMPTY) }

  /** The end of a run that used `session`. */
  function Finished(s: Shared, generation: nat, session: Option<SessionId>): Shared {
    s.(closeSession := if s.closeSession == session then None else s.closeSession, pending := false,
       snapshot := if generation == s.generation then s.snapshot.(pending := false) else s.snapshot)
  }

  // ----- the machine -----

  /** Where a run is: at an await, or between two pieces of code that run in one go. */
  datatype Phase =
    | Opening                   // the first `openSession`
    | Checking                  // `worldsGet` before the action
    | Checked(locked: bool)
    | Acting                    // the mutation
    | Listing                   // `datapacksList`
    | Listed
    | Rechecking                // `worldsGet` after the list
    | Ending                    // the body is over, `finally` begins
    | Reclosing                 // closing before the fresh session
    | Reopening                 // the second `openSession`
    | Closing                   // the last close
    | Done(result: bool)

  datatype Run = Run(generation: nat, action: bool, freshRefresh: bool, phase: Phase, session: Option<SessionId>,
                     succeeded: bool, acted: bool)

  /** A session's memoised close: called for, calls of `close` still to be made, made, and settled. */
  datatype Session = Session(closing: bool, scheduled: nat, invoked: nat, settled: bool)

  datatype Entry =
    | Reported(session: SessionId, locked: bool, generation: nat)
    | Mutated(session: SessionId, generation: nat)

  datatype State = State(shared: Shared, runs: map<RunId, Run>, sessions: map<SessionId, Session>, log: seq<Entry>)

  const INITIAL := State(Shared(EMPTY, 0, false, None), map[], map[], [])

  datatype Action =
    | Start(run: RunId, action: bool, freshRefresh: bool)
    | Opened(run: RunId, session: SessionId)
    | OpenFailed(run: RunId, error: string)
    | WorldReply(run: RunId, reply: Result<bool, string>)
    | Proceed(run: RunId, rejected: Option<string>)
    | ActionReply(run: RunId, failed: Option<string>)
    | Progress(run: RunId, text: string)
    | ListReply(run: RunId, listing: Result<string, string>)
    | AfterList(run: RunId)
    | EnterFinally(run: RunId)
    | Resume(run: RunId)
    | InvokeClose(session: SessionId)
    | SettleClose(session: SessionId)
    | Cancel

  function PhaseOf(s: State, r: RunId): Phase { if r in s.runs then s.runs[r].phase else Done(false) }

  predicate CloseSettled(s: State, r: RunId)
    requires r in s.runs
  {
    s.runs[r].session.Some? && s.runs[r].session.value in s.sessions && s.sessions[s.runs[r].session.value].settled
  }

  predicate Enabled(s: State, a: Action) {
    match a
    case Start(r, _, _) => r !in s.runs
    case Opened(r, id) => (PhaseOf(s, r).Opening? || PhaseOf(s, r).Reopening?) && id !in s.sessions
    case OpenFailed(r, _) => PhaseOf(s, r).Opening? || PhaseOf(s, r).Reopening?
    case WorldReply(r, _) => (PhaseOf(s, r).Checking? || PhaseOf(s, r).Rechecking?) && s.runs[r].session.Some?
    case Proceed(r, _) => PhaseOf(s, r).Checked? && s.runs[r].session.Some?
    case ActionReply(r, _) => PhaseOf(s, r).Acting?
    case Progress(r, _) => r in s.runs && s.runs[r].acted
    case ListReply(r, _) => PhaseOf(s, r).Listing?
    case AfterList(r) => PhaseOf(s, r).Listed?
    case EnterFinally(r) => PhaseOf(s, r).Ending?
    case Resume(r) => (PhaseOf(s, r).Reclosing? || PhaseOf(s, r).Closing?) && CloseSettled(s, r)
    case InvokeClose(id) => id in s.sessions && s.sessions[id].scheduled > 0
    case SettleClose(id) => id in s.sessions && s.sessions[id].invoked > 0
    case Cancel => true
  }

  predicate Current(s: State, r: RunId)
    requires r in s.runs
  {
    s.runs[r].generation == s.shared.generation
  }

  function Goto(s: State, r: RunId, p: Phase): State
    requires r in s.runs
  {
    s.(runs := s.runs[r := s.runs[r].(phase := p)])
  }

  /** `if (current()) this.update(…)`. */
  function Show(s: State, r: RunId, snapshot: Snapshot): (q: State)
    requires r in s.runs
    ensures q.runs == s.runs && q.sessions == s.sessions && q.log == s.log
    ensures q.shared == s.shared.(snapshot := q.shared.snapshot)
    ensures !Current(s, r) ==> q == s
  {
    if Current(s, r) then s.(shared := s.shared.(snapshot := snapshot)) else s
  }

  /** Calling a session's close function: only the first call does anything. */
  function CallClose(sessions: map<SessionId, Session>, id: SessionId): map<SessionId, Session> {
    if id in sessions && !sessions[id].closing
    then sessions[id := sessions[id].(closing := true, scheduled := sessions[id].scheduled + 1)]
    else sessions
  }

  function BeginRefresh(s: State, r: RunId): (q: State)
    requires r in s.runs
    ensures q.runs == s.runs[r := s.runs[r].(phase := Listing)] && q.sessions == s.sessions && q.log == s.log
    ensures q.shared == s.shared.(snapshot := q.shared.snapshot)
    ensures !Current(s, r) ==> q.shared == s.shared
  {
    Goto(Show(s, r, s.shared.snapshot.(content := None, locked := None, refreshError := None)), r, Listing)
  }

  /** A run that has nothing more to show: over, closing its session, or about to. */
  predicate Winding(s: State, q: State, r: RunId)
    requires r in s.runs
  {
    && q.runs.Keys == s.runs.Keys && q.runs == s.runs[r := q.runs[r]]
    && q.runs[r] == s.runs[r].(phase := q.runs[r].phase, succeeded := q.runs[r].succeeded)
    && q.sessions == (if q.runs[r].phase.Closing? && s.runs[r].session.Some?
                      then CallClose(s.sessions, s.runs[r].session.value) else s.sessions)
    && (q.runs[r].phase.Closing? || q.runs[r].phase.Ending? || q.runs[r].phase.Done?)
    && (q.runs[r].phase.Closing? ==> s.runs[r].session.Some?)
    && (q.runs[r].phase.Done? ==> s.runs[r].session.None?)
    && q.shared == if q.runs[r].phase.Done? then Finished(s.shared, s.runs[r].generation, s.runs[r].session) else s.shared
  }

  /** The refresh returns: a plain load has succeeded, an action is about to close. */
  function EndRefresh(s: State, r: RunId): (q: State)
    requires r in s.runs
    ensures q.log == s.log && Winding(s, q, r)
  {
    if s.runs[r].action then BeginClose(s, r)
    else s.(runs := s.runs[r := s.runs[r].(phase := Ending, succeeded := true)])
  }

  function BeginClose(s: State, r: RunId): (q: State)
    requires r in s.runs
    ensures q.log == s.log && Winding(s, q, r)
  {
    if s.runs[r].session.Some? then Goto(s, r, Closing).(sessions := CallClose(s.sessions, s.runs[r].session.value))
    else EndRun(s, r)
  }

  function EndRun(s: State, r: RunId): State
    requires r in s.runs
  {
    Goto(s, r, Done(s.runs[r].succeeded && Current(s, r))).(
      shared := Finished(s.shared, s.runs[r].generation, s.runs[r].session))
  }

  function Adopt(s: State, r: RunId, id: SessionId): State
    requires r in s.runs
  {
    s.(runs := s.runs[r := s.runs[r].(session := Some(id))],
       sessions := s.sessions[id := Session(false, 0, 0, false)],
       shared := s.shared.(closeSession := Some(id)))
  }

  // ----- what each step does -----

  /** What calling for a close can do to a session. */
  predicate CalledOrNot(c: Session, d: Session) {
    d == c || (!c.closing && d == c.(closing := true, scheduled := c.scheduled + 1))
  }

  /** Some closes are called for, and the sessions of `added` are new. */
  ghost predicate SessionsKept(before: map<SessionId, Session>, after: map<SessionId, Session>, added: set<SessionId>) {
    && after.Keys == before.Keys + added
    && (forall id :: id in before && id !in added ==> CalledOrNot(before[id], after[id]))
    && (forall id :: id in added ==> CalledOrNot(Session(false, 0, 0, false), after[id]))
  }

  /** A step of run `r`: it leaves the other runs and the generation alone, and the
      guard is given back exactly when the run ends. */
  predicate StepOf(s: State, q: State, r: RunId)
    requires r in s.runs
  {
    && q.runs.Keys == s.runs.Keys && q.runs == s.runs[r := q.runs[r]]
    && q.runs[r].generation == s.runs[r].generation && q.runs[r].action == s.runs[r].action
    && q.shared.generation == s.shared.generation
    && q.shared.pending == (s.shared.pending && (q.runs[r].phase.Done? ==> s.runs[r].phase.Done?))
    && (s.runs[r].phase.Done? ==> q.runs[r].phase.Done?)
    && (!Current(s, r) ==> q.shared.snapshot == s.shared.snapshot)
    && (q.runs[r].phase.Checked? ==> s.runs[r].phase.Checking? || q.runs[r] == s.runs[r])
  }

  predicate NeedsSession(p: Phase) { !p.Opening? && !p.Ending? && !p.Done? }

  predicate AwaitsClose(p: Phase) { p.Reclosing? || p.Closing? }

  /** What a live run knows about its session. */
  predicate Holds(s: State, r: RunId)
    requires r in s.runs
  {
    var run := s.runs[r];
    && (run.session.Some? ==> run.session.value in s.sessions)
    && (run.session.None? ==> !NeedsSession(run.phase))
    && (run.phase.Opening? ==> run.session.None?)
    && (AwaitsClose(run.phase) && run.session.Some? ==> s.sessions[run.session.value].closing)
    && (run.phase.Reopening? && run.session.Some? ==> s.sessions[run.session.value].settled)
  }

  /** The same session as before, which `cancel` can reach as before. */
  predicate SameSession(s: State, q: State, r: RunId)
    requires r in s.runs && r in q.runs
  {
    && q.runs[r].session == s.runs[r].session && q.shared.closeSession == s.shared.closeSession
    && (Holds(s, r) ==> q.runs[r].phase.Done? || Holds(q, r))
    && (q.runs[r].phase.Done? ==> q.runs[r].session.None?)
  }

  function OnOpened(s: State, r: RunId, id: SessionId): (q: State)
    requires r in s.runs && (s.runs[r].phase.Opening? || s.runs[r].phase.Reopening?) && id !in s.sessions
    ensures StepOf(s, q, r) && q.log == s.log
  {
    var q := Adopt(s, r, id);
    if s.runs[r].phase.Reopening? then (if Current(s, r) then BeginRefresh(q, r) else BeginClose(q, r))
    else if !Current(s, r) then Goto(q, r, Ending)
    else if s.runs[r].action then Goto(q, r, Checking)
    else BeginRefresh(q, r)
  }

  lemma OpenedSessions(s: State, r: RunId, id: SessionId)
    requires r in s.runs && (s.runs[r].phase.Opening? || s.runs[r].phase.Reopening?) && id !in s.sessions
    ensures SessionsKept(s.sessions, OnOpened(s, r, id).sessions, {id})
  {
    hide StepOf, BeginRefresh, Show, Finished, SessionsKept, CallClose;
    AdoptedKeeps(s.sessions, id);
  }

  lemma AdoptedKeeps(sessions: map<SessionId, Session>, id: SessionId)
    requires id !in sessions
    ensures var more := sessions[id := Session(false, 0, 0, false)];
      SessionsKept(sessions, more, {id}) && SessionsKept(sessions, CallClose(more, id), {id})
  {
  }

  lemma OpenedPhase(s: State, r: RunId, id: SessionId)
    requires r in s.runs && (s.runs[r].phase.Opening? || s.runs[r].phase.Reopening?) && id !in s.sessions
    ensures var q := OnOpened(s, r, id);
      var p := q.runs[r].phase;
      && q.runs[r].session == Some(id) && q.shared.closeSession == Some(id)
      && (p.Listing? || p.Closing? || p.Ending? || p.Checking?)
  {
    hide StepOf, BeginRefresh, Show, CallClose, Finished, Current;
  }

  lemma OpenedClosing(s: State, r: RunId, id: SessionId)
    requires r in s.runs && (s.runs[r].phase.Opening? || s.runs[r].phase.Reopening?) && id !in s.sessions
    ensures var q := OnOpened(s, r, id);
      id in q.sessions && (q.runs[r].phase.Closing? ==> q.sessions[id].closing)
  {
    hide StepOf, BeginRefresh, Show, CallClose, Finished, Current;
    CloseCalls(s.sessions[id := Session(false, 0, 0, false)], id);
  }

  lemma OpenedHolds(s: State, r: RunId, id: SessionId)
    requires r in s.runs && (s.runs[r].phase.Opening? || s.runs[r].phase.Reopening?) && id !in s.sessions
    ensures var q := OnOpened(s, r, id);
      && q.runs[r].session == Some(id) && q.shared.closeSession == Some(id) && !q.runs[r].phase.Done? && Holds(q, r)
  {
    hide OnOpened;
    OpenedPhase(s, r, id);
    OpenedClosing(s, r, id);
  }

  lemma CloseCalls(sessions: map<SessionId, Session>, id: SessionId)
    requires id in sessions
    ensures CallClose(sessions, id).Keys == sessions.Keys && CallClose(sessions, id)[id].closing
  {
  }

  function OnOpenFailed(s: State, r: RunId, error: string): (q: State)
    requires r in s.runs && (s.runs[r].phase.Opening? || s.runs[r].phase.Reopening?)
    ensures StepOf(s, q, r) && q.log == s.log && SessionsKept(s.sessions, q.sessions, {}) && SameSession(s, q, r)
  {
    if s.runs[r].phase.Reopening? then BeginClose(Show(s, r, s.shared.snapshot.(refreshError := Some(error))), r)
    else Goto(Show(s, r, s.shared.snapshot.(error := Some(error))), r, Ending)
  }

  /** The world check: before the action it decides, after a list it only shows. */
  function OnWorldReply(s: State, r: RunId, reply: Result<bool, string>): (q: State)
    requires r in s.runs && s.runs[r].session.Some? && (s.runs[r].phase.Checking? || s.runs[r].phase.Rechecking?)
    ensures StepOf(s, q, r)
    ensures q.log == if reply.Success? then s.log + [Reported(s.runs[r].session.value, reply.value, s.shared.generation)] else s.log
    ensures q.runs[r].phase.Checked? ==> reply == Success(q.runs[r].phase.locked)
  {
    var t := s.(log := if reply.Success? then s.log + [Reported(s.runs[r].session.value, reply.value, s.shared.generation)] else s.log);
    if s.runs[r].phase.Checking? then
      (match reply
       case Failure(error) => Goto(Show(t, r, s.shared.snapshot.(error := Some(error))), r, Ending)
       case Success(locked) => Goto(Show(t, r, s.shared.snapshot.(locked := Some(locked))), r, Checked(locked)))
    else
      EndRefresh(Show(t, r, match reply
                            case Failure(error) => s.shared.snapshot.(refreshError := Some(error))
                            case Success(locked) => s.shared.snapshot.(locked := Some(locked))), r)
  }

  lemma WorldReplyKeeps(s: State, r: RunId, reply: Result<bool, string>)
    requires r in s.runs && s.runs[r].session.Some? && (s.runs[r].phase.Checking? || s.runs[r].phase.Rechecking?)
    ensures var q := OnWorldReply(s, r, reply); SessionsKept(s.sessions, q.sessions, {}) && SameSession(s, q, r)
  {
    hide StepOf, BeginRefresh, Show, Finished;
  }

  /** The action is sent, unless the run is out of date, the world is locked, or the
      action's own argument check rejects it. */
  function OnProceed(s: State, r: RunId, rejected: Option<string>): (q: State)
    requires r in s.runs && s.runs[r].session.Some? && s.runs[r].phase.Checked?
    ensures StepOf(s, q, r)
    ensures q.log == if q.runs[r].phase.Acting? then s.log + [Mutated(s.runs[r].session.value, s.shared.generation)] else s.log
    ensures q.runs[r].phase.Acting? <==> Current(s, r) && !s.runs[r].phase.locked && rejected.None?
  {
    if !Current(s, r) then Goto(s, r, Ending)
    else if s.runs[r].phase.locked then Goto(Show(s, r, s.shared.snapshot.(error := Some("WORLD_LOCKED"))), r, Ending)
    else if rejected.Some? then Goto(Show(s, r, s.shared.snapshot.(error := rejected)), r, Ending)
    else s.(runs := s.runs[r := s.runs[r].(phase := Acting, acted := true)],
            log := s.log + [Mutated(s.runs[r].session.value, s.shared.generation)])
  }

  lemma ProceedKeeps(s: State, r: RunId, rejected: Option<string>)
    requires r in s.runs && s.runs[r].session.Some? && s.runs[r].phase.Checked?
    ensures var q := OnProceed(s, r, rejected); SessionsKept(s.sessions, q.sessions, {}) && SameSession(s, q, r)
  {
    hide StepOf, BeginRefresh, Show, Finished;
  }

  function OnActionReply(s: State, r: RunId, failed: Option<string>): (q: State)
    requires r in s.runs && s.runs[r].phase.Acting?
    ensures StepOf(s, q, r) && q.log == s.log && SessionsKept(s.sessions, q.sessions, {}) && SameSession(s, q, r)
  {
    if failed.Some? then Goto(Show(s, r, s.shared.snapshot.(error := failed)), r, Ending)
    else s.(runs := s.runs[r := s.runs[r].(phase := Ending, succeeded := true)])
  }

  function OnListReply(s: State, r: RunId, listing: Result<string, string>): (q: State)
    requires r in s.runs && s.runs[r].phase.Listing?
    ensures StepOf(s, q, r) && q.log == s.log && SessionsKept(s.sessions, q.sessions, {}) && SameSession(s, q, r)
  {
    match listing
    case Failure(error) => EndRefresh(Show(s, r, s.shared.snapshot.(refreshError := Some(error))), r)
    case Success(content) => Goto(Show(s, r, s.shared.snapshot.(content := Some(content))), r, Listed)
  }

  function OnAfterList(s: State, r: RunId): (q: State)
    requires r in s.runs && s.runs[r].phase.Listed?
    ensures StepOf(s, q, r) && q.log == s.log && SessionsKept(s.sessions, q.sessions, {}) && SameSession(s, q, r)
  {
    if Current(s, r) then Goto(s, r, Rechecking) else EndRefresh(s, r)
  }

  function OnFinally(s: State, r: RunId): (q: State)
    requires r in s.runs && s.runs[r].phase.Ending?
    ensures StepOf(s, q, r) && q.log == s.log
  {
    if s.runs[r].session.Some? && s.runs[r].action && Current(s, r) then
      if s.runs[r].freshRefresh then Goto(s, r, Reclosing).(sessions := CallClose(s.sessions, s.runs[r].session.value))
      else BeginRefresh(s, r)
    else BeginClose(s, r)
  }

  lemma FinallyKeeps(s: State, r: RunId)
    requires r in s.runs && s.runs[r].phase.Ending?
    ensures var q := OnFinally(s, r); SessionsKept(s.sessions, q.sessions, {}) && SameSession(s, q, r)
  {
    hide StepOf, BeginRefresh, Show;
  }

  function OnClosed(s: State, r: RunId): (q: State)
    requires r in s.runs && (s.runs[r].phase.Reclosing? || s.runs[r].phase.Closing?)
    ensures StepOf(s, q, r) && q.log == s.log && SessionsKept(s.sessions, q.sessions, {})
    ensures q.runs[r].session == s.runs[r].session
    ensures q.shared.closeSession == s.shared.closeSession || q.shared.closeSession == None
    ensures Holds(s, r) && CloseSettled(s, r) ==> q.runs[r].phase.Done? || Holds(q, r)
  {
    if s.runs[r].phase.Closing? then EndRun(s, r)
    else
      var q := s.(shared := s.shared.(closeSession := None));
      if Current(s, r) then Goto(q, r, Reopening) else BeginClose(q, r)
  }

  function Apply(s: State, a: Action): State
    requires Enabled(s, a)
  {
    match a
    case Start(r, action, freshRefresh) =>
      if s.shared.pending then s.(runs := s.runs[r := Run(0, action, freshRefresh, Done(false), None, false, false)])
      else s.(shared := Begun(s.shared),
              runs := s.runs[r := Run(s.shared.generation + 1, action, freshRefresh, Opening, None, false, false)])
    case Opened(r, id) => OnOpened(s, r, id)
    case OpenFailed(r, error) => OnOpenFailed(s, r, error)
    case WorldReply(r, reply) => OnWorldReply(s, r, reply)
    case Proceed(r, rejected) => OnProceed(s, r, rejected)
    case ActionReply(r, failed) => OnActionReply(s, r, failed)
    case Progress(r, text) => Show(s, r, s.shared.snapshot.(progress := Some(text)))
    case ListReply(r, listing) => OnListReply(s, r, listing)
    case AfterList(r) => OnAfterList(s, r)
    case EnterFinally(r) => OnFinally(s, r)
    case Resume(r) => OnClosed(s, r)
    case InvokeClose(id) =>
      var c := s.sessions[id];
      s.(sessions := s.sessions[id := c.(scheduled := c.scheduled - 1, invoked := c.invoked + 1)])
    case SettleClose(id) => s.(sessions := s.sessions[id := s.sessions[id].(settled := true)])
    case Cancel =>
      s.(shared := Cancelled(s.shared),
         sessions := if s.shared.closeSession.Some? then CallClose(s.sessions, s.shared.closeSession.value) else s.sessions)
  }

  // ----- the controller object -----

  /** The controller with its invocations in flight and the sessions they opened.
      Every method is the code from one await to the next. */
  class ClientDatapackController {
    var snapshot: Snapshot
    var generation: nat
    var pending: bool
    var closeSession: Option<SessionId>
    var runs: map<RunId, Run>
    var sessions: map<SessionId, Session>
    var log: seq<Entry>

    function Fields(): State
      reads this
    {
      State(Shared(snapshot, generation, pending, closeSession), runs, sessions, log)
    }

    constructor ()
      ensures Fields() == INITIAL
    {
      snapshot, generation, pending, closeSession := EMPTY, 0, false, None;
      runs, sessions, log := map[], map[], [];
    }

    method Goto(r: RunId, phase: Phase)
      requires r in runs
      modifies `runs
      ensures runs == old(runs)[r := old(runs)[r].(phase := phase)]
    {
      runs := runs[r := runs[r].(phase := phase)];
    }

    /** `update`, unless the invocation is out of date. */
    method Update(r: RunId, next: Snapshot)
      requires r in runs
      modifies `snapshot
      ensures Fields() == Show(old(Fields()), r, next)
    {
      if runs[r].generation == generation { snapshot := next; }
    }

    /** The memoised close function of a session. */
    method Close(id: SessionId)
      modifies `sessions
      ensures sessions == CallClose(old(sessions), id)
    {
      if id in sessions && !sessions[id].closing {
        sessions := sessions[id := sessions[id].(closing := true, scheduled := sessions[id].scheduled + 1)];
      }
    }

    /** The guard of `run` and what it does up to its first await. */
    method Begin(r: RunId, action: bool, freshRefresh: bool)
      requires r !in runs
      modifies this
      ensures Fields() == Apply(old(Fields()), Start(r, action, freshRefresh))
    {
      if pending {
        runs := runs[r := Run(0, action, freshRefresh, Done(false), None, false, false)];
        return;
      }
      pending := true;
      generation := generation + 1;
      snapshot := snapshot.(pending := true, error := None, refreshError := None, progress := None);
      runs := runs[r := Run(generation, action, freshRefresh, Opening, None, false, false)];
    }

    method Cancel()
      modifies this
      ensures Fields() == Apply(old(Fields()), Action.Cancel)
    {
      generation := generation + 1;
      snapshot := EMPTY;
      if closeSession.Some? { Close(closeSession.value); }
    }

    /** The last lines of `finally`. */
    method Finish(r: RunId)
      requires r in runs
      modifies this
      ensures Fields() == EndRun(old(Fields()), r)
    {
      var run := runs[r];
      if closeSession == run.session { closeSession := None; }
      pending := false;
      if run.generation == generation { snapshot := snapshot.(pending := false); }
      Goto(r, Done(run.succeeded && run.generation == generation));
    }

    /** `if (close) await close()` and, without one, the lines behind it. */
    method WindUp(r: RunId)
      requires r in runs
      modifies this
      ensures Fields() == BeginClose(old(Fields()), r)
    {
      if runs[r].session.Some? {
        Close(runs[r].session.value);
        Goto(r, Closing);
      } else {
        Finish(r);
      }
    }

    /** `refresh` up to its first await. */
    method Refresh(r: RunId)
      requires r in runs
      modifies this
      ensures Fields() == BeginRefresh(old(Fields()), r)
    {
      Update(r, snapshot.(content := None, locked := None, refreshError := None));
      Goto(r, Listing);
    }

    /** What follows when `refresh` returns. */
    method Refreshed(r: RunId)
      requires r in runs
      modifies this
      ensures Fields() == EndRefresh(old(Fields()), r)
    {
      if runs[r].action {
        WindUp(r);
      } else {
        runs := runs[r := runs[r].(phase := Ending, succeeded := true)];
      }
    }

    method SessionOpened(r: RunId, id: SessionId)
      requires Enabled(Fields(), Opened(r, id))
      modifies this
      ensures Fields() == OnOpened(old(Fields()), r, id)
    {
      var again, current := runs[r].phase.Reopening?, runs[r].generation == generation;
      runs := runs[r := runs[r].(session := Some(id))];
      sessions := sessions[id := Session(false, 0, 0, false)];
      closeSession := Some(id);
      if again {
        if current { Refresh(r); } else { WindUp(r); }
      } else if !current {
        Goto(r, Ending);
      } else if runs[r].action {
        Goto(r, Checking);
      } else {
        Refresh(r);
      }
    }

    method SessionRefused(r: RunId, error: string)
      requires Enabled(Fields(), OpenFailed(r, error))
      modifies this
      ensures Fields() == OnOpenFailed(old(Fields()), r, error)
    {
      if runs[r].phase.Reopening? {
        Update(r, snapshot.(refreshError := Some(error)));
        WindUp(r);
      } else {
        Update(r, snapshot.(error := Some(error)));
        Goto(r, Ending);
      }
    }

    /** An answer about the world: before the action it decides, after a list it only shows. */
    method WorldAnswered(r: RunId, reply: Result<bool, string>)
      requires Enabled(Fields(), WorldReply(r, reply))
      modifies this
      ensures Fields() == OnWorldReply(old(Fields()), r, reply)
    {
      var before := runs[r].phase.Checking?;
      if reply.Success? { log := log + [Reported(runs[r].session.value, reply.value, generation)]; }
      match reply {
        case Success(locked) => Update(r, snapshot.(locked := Some(locked)));
        case Failure(error) =>
          Update(r, if before then snapshot.(error := Some(error)) else snapshot.(refreshError := Some(error)));
      }
      if !before {
        Refreshed(r);
      } else {
        Goto(r, if reply.Success? then Checked(reply.value) else Ending);
      }
    }

    /** The action is sent, unless something speaks against it. */
    method Act(r: RunId, rejected: Option<string>)
      requires Enabled(Fields(), Proceed(r, rejected))
      modifies this
      ensures Fields() == OnProceed(old(Fields()), r, rejected)
    {
      var locked := runs[r].phase.locked;
      if runs[r].generation != generation {
        Goto(r, Ending);
      } else if locked || rejected.Some? {
        Update(r, snapshot.(error := if locked then Some("WORLD_LOCKED") else rejected));
        Goto(r, Ending);
      } else {
        log := log + [Mutated(runs[r].session.value, generation)];
        runs := runs[r := runs[r].(phase := Acting, acted := true)];
      }
    }

    method ActionAnswered(r: RunId, failed: Option<string>)
      requires Enabled(Fields(), ActionReply(r, failed))
      modifies this
      ensures Fields() == OnActionReply(old(Fields()), r, failed)
    {
      if failed.Some? {
        Update(r, snapshot.(error := failed));
        Goto(r, Ending);
      } else {
        runs := runs[r := runs[r].(phase := Ending, succeeded := true)];
      }
    }

    method ListAnswered(r: RunId, listing: Result<string, string>)
      requires Enabled(Fields(), ListReply(r, listing))
      modifies this
      ensures Fields() == OnListReply(old(Fields()), r, listing)
    {
      match listing {
        case Success(content) =>
          Update(r, snapshot.(content := Some(content)));
          Goto(r, Listed);
        case Failure(error) =>
          Update(r, snapshot.(refreshError := Some(error)));
          Refreshed(r);
      }
    }

    method ListShown(r: RunId)
      requires Enabled(Fields(), AfterList(r))
      modifies this
      ensures Fields() == OnAfterList(old(Fields()), r)
    {
      if runs[r].generation == generation { Goto(r, Rechecking); } else { Refreshed(r); }
    }

    method Finally(r: RunId)
      requires Enabled(Fields(), EnterFinally(r))
      modifies this
      ensures Fields() == OnFinally(old(Fields()), r)
    {
      if runs[r].session.Some? && runs[r].action && runs[r].generation == generation {
        if runs[r].freshRefresh {
          Close(runs[r].session.value);
          Goto(r, Reclosing);
        } else {
          Refresh(r);
        }
      } else {
        WindUp(r);
      }
    }

    method CloseReturned(r: RunId)
      requires Enabled(Fields(), Resume(r))
      modifies this
      ensures Fields() == OnClosed(old(Fields()), r)
    {
      if runs[r].phase.Closing? {
        Finish(r);
        return;
      }
      closeSession := None;
      if runs[r].generation == generation { Goto(r, Reopening); } else { WindUp(r); }
    }

    /** One call, answer or settled close: the fields move as the machine does, and
        what cannot happen now changes nothing. */
    method Deliver(a: Action) returns (done: bool)
      modifies this
      ensures done == Enabled(old(Fields()), a)
      ensures Fields() == if done then Apply(old(Fields()), a) else old(Fields())
    {
      hide OnOpened, OnOpenFailed, OnWorldReply, OnProceed, OnActionReply, OnListReply, OnAfterList, OnFinally, OnClosed,
           Begun, Cancelled;
      done := Enabled(Fields(), a);
      if !done { return; }
      match a {
        case Start(r, action, freshRefresh) => Begin(r, action, freshRefresh);
        case Opened(r, id) => SessionOpened(r, id);
        case OpenFailed(r, error) => SessionRefused(r, error);
        case WorldReply(r, reply) => WorldAnswered(r, reply);
        case Proceed(r, rejected) => Act(r, rejected);
        case ActionReply(r, failed) => ActionAnswered(r, failed);
        case Progress(r, text) => Update(r, snapshot.(progress := Some(text)));
        case ListReply(r, listing) => ListAnswered(r, listing);
        case AfterList(r) => ListShown(r);
        case EnterFinally(r) => Finally(r);
        case Resume(r) => CloseReturned(r);
        case InvokeClose(id) =>
          sessions := sessions[id := sessions[id].(scheduled := sessions[id].scheduled - 1, invoked := sessions[id].invoked + 1)];
        case SettleClose(id) => sessions := sessions[id := sessions[id].(settled := true)];
        case Cancel => Cancel();
      }
    }
  }

  ghost function Exec(s: State, run: seq<Action>): Option<State>
    decreases |run|
  {
    if run == [] then Some(s)
    else if !Enabled(s, run[0]) then None
    else Exec(Apply(s, run[0]), run[1..])
  }

  // ----- invariants -----

  predicate Live(s: State, r: RunId) { r in s.runs && !s.runs[r].phase.Done? }

  /** The guard: one run at a time is past it, and then `pending` is set. */
  ghost predicate Guarded(s: State) {
    && (s.shared.pending <==> exists r :: Live(s, r))
    && (forall r, q :: Live(s, r) && Live(s, q) ==> r == q)
  }

  ghost predicate Dated(s: State) {
    forall r :: r in s.runs ==> s.runs[r].generation <= s.shared.generation
  }

  /** The memo works: a close is scheduled or made once if it was called for, else not at all. */
  ghost predicate Memoised(s: State) {
    forall id :: id in s.sessions ==>
      var c := s.sessions[id];
      c.scheduled + c.invoked == (if c.closing then 1 else 0) && (c.settled ==> c.invoked == 1)
  }

  /** A session whose close has not settled belongs to the live run; and until that
      close is called for, `cancel` can reach it. */
  ghost predicate Owned(s: State) {
    && (forall r :: Live(s, r) ==> Holds(s, r))
    && (forall id :: id in s.sessions && !s.sessions[id].settled ==> exists r :: Live(s, r) && s.runs[r].session == Some(id))
    && (forall id :: id in s.sessions && !s.sessions[id].closing ==> s.shared.closeSession == Some(id))
  }

  predicate ReportedIn(log: seq<Entry>, n: nat, id: SessionId, low: nat, high: nat) {
    exists j :: 0 <= j < n && j < |log| && log[j].Reported? && log[j].session == id && !log[j].locked && low <= log[j].generation <= high
  }

  /** Every mutation follows an unlocked report of its own session and generation. */
  ghost predicate MutationsChecked(log: seq<Entry>) {
    forall i :: 0 <= i < |log| && log[i].Mutated? ==> ReportedIn(log, i, log[i].session, log[i].generation, log[i].generation)
  }

  /** The unlocked report that a run past its check has had. */
  ghost predicate CheckedRuns(s: State) {
    forall r :: Live(s, r) && s.runs[r].phase == Checked(false) && s.runs[r].session.Some? ==>
      ReportedIn(s.log, |s.log|, s.runs[r].session.value, s.runs[r].generation, s.shared.generation)
  }

  ghost predicate Inv(s: State) {
    Guarded(s) && Dated(s) && Memoised(s) && Owned(s) && MutationsChecked(s.log) && CheckedRuns(s)
  }

  // ----- how the steps keep them -----

  predicate HasRun(a: Action) { !a.Start? && !a.InvokeClose? && !a.SettleClose? && !a.Cancel? }

  lemma RunStep(s: State, a: Action)
    requires Enabled(s, a) && HasRun(a)
    ensures a.run in s.runs && StepOf(s, Apply(s, a), a.run)
  {
    hide Show, EndRefresh, OnOpened, OnOpenFailed, OnWorldReply, OnProceed, OnActionReply, OnListReply, OnAfterList, OnFinally, OnClosed;
  }

  lemma GuardedStep(s: State, a: Action)
    requires Guarded(s) && Enabled(s, a)
    ensures Guarded(Apply(s, a))
  {
    var q := Apply(s, a);
    if HasRun(a) {
      RunStep(s, a);
      hide Apply, Enabled;
      forall x | Live(q, x) && x != a.run ensures Live(s, x) {}
      if Live(s, a.run) {
        assert Live(q, a.run) <==> q.shared.pending;
      } else if s.shared.pending {
        var r :| Live(s, r);
        assert Live(q, r);
      }
    } else {
      StartsOnly(s, a);
    }
  }

  lemma StartsOnly(s: State, a: Action)
    requires Guarded(s) && Enabled(s, a) && !HasRun(a)
    ensures Guarded(Apply(s, a))
  {
    var q := Apply(s, a);
    if a.Start? && !s.shared.pending {
      assert Live(q, a.run);
      forall x | Live(q, x) && x != a.run ensures Live(s, x) {}
    } else {
      forall x ensures Live(q, x) <==> Live(s, x) {}
      assert q.shared.pending == s.shared.pending;
    }
  }

  lemma DatedStep(s: State, a: Action)
    requires Dated(s) && Enabled(s, a)
    ensures Dated(Apply(s, a))
  {
    if HasRun(a) {
      RunStep(s, a);
      hide Apply, Enabled;
    }
  }

  /** The steps whose effect on the sessions is a lemma of its own. */
  lemma KeptBy(s: State, a: Action)
    requires Enabled(s, a)
    ensures a.Opened? || a.WorldReply? || a.Proceed? || a.EnterFinally? ==>
              SessionsKept(s.sessions, Apply(s, a).sessions, if a.Opened? then {a.session} else {})
    ensures a.WorldReply? || a.Proceed? || a.EnterFinally? ==> SameSession(s, Apply(s, a), a.run)
    ensures a.Opened? ==>
              var q, r := Apply(s, a), a.run;
              && q.runs[r].session == Some(a.session) && q.shared.closeSession == Some(a.session)
              && !q.runs[r].phase.Done? && Holds(q, r)
  {
    hide OnOpened, OnWorldReply, OnProceed, OnFinally, SessionsKept, SameSession, Holds;
    match a
    case Opened(r, id) =>
      OpenedSessions(s, r, id);
      OpenedHolds(s, r, id);
    case WorldReply(r, reply) => WorldReplyKeeps(s, r, reply);
    case Proceed(r, rejected) => ProceedKeeps(s, r, rejected);
    case EnterFinally(r) => FinallyKeeps(s, r);
    case _ =>
  }

  lemma SessionsStep(s: State, a: Action)
    requires Enabled(s, a) && !a.InvokeClose? && !a.SettleClose?
    ensures SessionsKept(s.sessions, Apply(s, a).sessions, if a.Opened? then {a.session} else {})
    ensures a.Opened? ==> a.session !in s.sessions
  {
    KeptBy(s, a);
    hide Show, EndRefresh, OnOpened, OnOpenFailed, OnWorldReply, OnProceed, OnActionReply, OnListReply, OnAfterList, OnFinally, OnClosed;
  }

  lemma MemoisedStep(s: State, a: Action)
    requires Memoised(s) && Enabled(s, a)
    ensures Memoised(Apply(s, a))
  {
    if !a.InvokeClose? && !a.SettleClose? {
      SessionsStep(s, a);
      hide Apply, Enabled;
    }
  }

  /** A step of the live run that keeps its session. */
  lemma OwnedSame(s: State, q: State, r: RunId)
    requires Owned(s) && Guarded(s) && Live(s, r)
    requires StepOf(s, q, r) && SessionsKept(s.sessions, q.sessions, {}) && SameSession(s, q, r)
    ensures Owned(q)
  {
    hide Holds;
    forall x | Live(q, x) ensures x == r { OnlyLive(s, q, r, x); }
    forall id | id in q.sessions && !q.sessions[id].settled
      ensures exists x :: Live(q, x) && q.runs[x].session == Some(id)
    {
      var x :| Live(s, x) && s.runs[x].session == Some(id);
      assert x == r;
      assert Live(q, r);
    }
  }

  lemma UnsettledIsMine(s: State, r: RunId, k: SessionId)
    requires Owned(s) && Guarded(s) && Live(s, r) && k in s.sessions
    ensures !s.sessions[k].settled ==> s.runs[r].session == Some(k)
  {
    if !s.sessions[k].settled {
      var x :| Live(s, x) && s.runs[x].session == Some(k);
      assert x == r;
    }
  }

  lemma OnlyLive(s: State, q: State, r: RunId, x: RunId)
    requires Guarded(s) && Live(s, r) && StepOf(s, q, r) && Live(q, x)
    ensures x == r
  {
    assert x != r ==> Live(s, x);
  }

  /** A new session is adopted only when the run has none, or one that has settled. */
  lemma OwnedOpened(s: State, q: State, r: RunId, id: SessionId)
    requires Owned(s) && Guarded(s) && Memoised(s) && Live(s, r)
    requires (s.runs[r].phase.Opening? || s.runs[r].phase.Reopening?) && id !in s.sessions
    requires StepOf(s, q, r) && SessionsKept(s.sessions, q.sessions, {id})
    requires q.runs[r].session == Some(id) && q.shared.closeSession == Some(id) && Live(q, r) && Holds(q, r)
    ensures Owned(q)
  {
    assert Holds(s, r);
    forall x | Live(q, x) ensures x == r { OnlyLive(s, q, r, x); }
    forall k | k in s.sessions ensures s.sessions[k].settled && s.sessions[k].closing { UnsettledIsMine(s, r, k); }
    assert Live(q, r) && q.runs[r].session == Some(id);
  }

  /** A run goes on after a close that has settled. */
  lemma OwnedResumed(s: State, q: State, r: RunId)
    requires Owned(s) && Guarded(s) && Memoised(s) && Live(s, r) && CloseSettled(s, r)
    requires StepOf(s, q, r) && SessionsKept(s.sessions, q.sessions, {}) && q.runs[r].session == s.runs[r].session
    requires q.shared.closeSession == s.shared.closeSession || q.shared.closeSession == None
    requires q.runs[r].phase.Done? || Holds(q, r)
    ensures Owned(q)
  {
    forall x | Live(q, x) ensures x == r { OnlyLive(s, q, r, x); }
    forall k | k in s.sessions ensures s.sessions[k].settled && s.sessions[k].closing { UnsettledIsMine(s, r, k); }
  }

  lemma OwnedElse(s: State, a: Action)
    requires Owned(s) && Guarded(s) && Memoised(s) && Enabled(s, a) && (!HasRun(a) || a.Progress?)
    ensures Owned(Apply(s, a))
  {
    var q := Apply(s, a);
    if a.Start? {
      forall x | Live(q, x) && x != a.run ensures Live(s, x) && q.runs[x] == s.runs[x] {}
      forall x | Live(s, x) ensures Live(q, x) && q.runs[x] == s.runs[x] {}
    } else {
      forall x ensures Live(q, x) <==> Live(s, x) {}
      forall x | Live(q, x) ensures Holds(q, x) { assert Holds(s, x); }
    }
  }

  lemma OwnedStep(s: State, a: Action)
    requires Owned(s) && Guarded(s) && Memoised(s) && Enabled(s, a)
    ensures Owned(Apply(s, a))
  {
    hide Show, EndRefresh, OnOpened, OnOpenFailed, OnWorldReply, OnProceed, OnActionReply, OnListReply, OnAfterList, OnFinally, OnClosed,
         Owned, Guarded, Memoised, SessionsKept, Holds, Current;
    KeptBy(s, a);
    if HasRun(a) && !a.Progress? {
      var q, r := Apply(s, a), a.run;
      assert Live(s, r);
      if a.Opened? {
        OwnedOpened(s, q, r, a.session);
      } else if a.Resume? {
        assert Holds(s, r) by { LiveHolds(s, r); }
        OwnedResumed(s, q, r);
      } else {
        OwnedSame(s, q, r);
      }
    } else {
      OwnedElse(s, a);
    }
  }

  lemma LiveHolds(s: State, r: RunId)
    requires Owned(s) && Live(s, r)
    ensures Holds(s, r)
  {
  }

  lemma ReportStays(log: seq<Entry>, more: seq<Entry>, n: nat, m: nat, id: SessionId, low: nat, high: nat, top: nat)
    requires ReportedIn(log, n, id, low, high) && n <= m && high <= top
    ensures ReportedIn(log + more, m, id, low, top)
  {
    var j :| 0 <= j < n && j < |log| && log[j].Reported? && log[j].session == id && !log[j].locked && low <= log[j].generation <= high;
    assert (log + more)[j] == log[j];
  }

  lemma MoreLog(log: seq<Entry>, e: Entry)
    requires MutationsChecked(log)
    requires e.Mutated? ==> ReportedIn(log, |log|, e.session, e.generation, e.generation)
    ensures MutationsChecked(log + [e])
  {
    var next := log + [e];
    forall i | 0 <= i < |next| && next[i].Mutated?
      ensures ReportedIn(next, i, next[i].session, next[i].generation, next[i].generation)
    {
      ReportStays(log, [e], i, i, next[i].session, next[i].generation, next[i].generation, next[i].generation);
    }
  }

  /** What a step adds to the log. */
  lemma LogStep(s: State, a: Action)
    requires Enabled(s, a)
    ensures var q := Apply(s, a);
      || q.log == s.log
      || (a.WorldReply? && a.reply.Success? && s.runs[a.run].session.Some?
          && q.log == s.log + [Reported(s.runs[a.run].session.value, a.reply.value, s.shared.generation)])
      || (a.Proceed? && Current(s, a.run) && s.runs[a.run].phase == Checked(false) && s.runs[a.run].session.Some?
          && q.log == s.log + [Mutated(s.runs[a.run].session.value, s.shared.generation)])
  {
    hide Show, EndRefresh, OnOpened, OnOpenFailed, OnWorldReply, OnProceed, OnActionReply, OnListReply, OnAfterList, OnFinally, OnClosed;
  }

  lemma MutationsStep(s: State, a: Action)
    requires MutationsChecked(s.log) && CheckedRuns(s) && Enabled(s, a)
    ensures MutationsChecked(Apply(s, a).log)
  {
    LogStep(s, a);
    hide Apply, MutationsChecked;
    var q := Apply(s, a);
    if q.log != s.log {
      var e := q.log[|s.log|];
      assert q.log == s.log + [e];
      if e.Mutated? { assert Live(s, a.run); }
      MoreLog(s.log, e);
    }
  }

  lemma CheckedStep(s: State, a: Action)
    requires CheckedRuns(s) && Dated(s) && Enabled(s, a)
    ensures CheckedRuns(Apply(s, a))
  {
    var q := Apply(s, a);
    LogStep(s, a);
    KeptOrReplied(s, a);
    hide Apply, Enabled;
    forall r | Live(q, r) && q.runs[r].phase == Checked(false) && q.runs[r].session.Some?
      ensures ReportedIn(q.log, |q.log|, q.runs[r].session.value, q.runs[r].generation, q.shared.generation)
    {
      if r in s.runs && q.runs[r] == s.runs[r] {
        assert Live(s, r);
        ReportStays(s.log, q.log[|s.log|..], |s.log|, |q.log|,
                    s.runs[r].session.value, s.runs[r].generation, s.shared.generation, q.shared.generation);
        assert q.log == s.log + q.log[|s.log|..];
      } else {
        assert q.log[|s.log|] == Reported(q.runs[r].session.value, false, s.shared.generation);
      }
    }
  }

  /** A run past its check was there before, or has just had its answer. */
  lemma KeptOrReplied(s: State, a: Action)
    requires Enabled(s, a)
    ensures var q := Apply(s, a);
      && s.shared.generation <= q.shared.generation
      && forall r :: Live(q, r) && q.runs[r].phase.Checked? && !(r in s.runs && q.runs[r] == s.runs[r]) ==>
           && a.WorldReply? && a.run == r && a.reply == Success(q.runs[r].phase.locked)
           && q.runs[r].session == s.runs[r].session && q.runs[r].session.Some?
           && q.runs[r].generation == s.runs[r].generation
           && q.log == s.log + [Reported(s.runs[r].session.value, q.runs[r].phase.locked, s.shared.generation)]
  {
    hide Show, EndRefresh, OnOpened, OnOpenFailed, OnWorldReply, OnProceed, OnActionReply, OnListReply, OnAfterList, OnFinally, OnClosed;
    if HasRun(a) { RunStep(s, a); }
    KeptBy(s, a);
  }

  lemma InvStep(s: State, a: Action)
    requires Inv(s) && Enabled(s, a)
    ensures Inv(Apply(s, a))
  {
    hide Guarded, Dated, Memoised, Owned, MutationsChecked, CheckedRuns, Apply, Enabled;
    GuardedStep(s, a);
    DatedStep(s, a);
    MemoisedStep(s, a);
    OwnedStep(s, a);
    MutationsStep(s, a);
    CheckedStep(s, a);
  }

  lemma {:induction false} InvRun(s: State, run: seq<Action>)
    requires Inv(s) && Exec(s, run).Some?
    ensures Inv(Exec(s, run).value)
    decreases |run|
  {
    hide Inv, Apply, Enabled;
    if run != [] {
      InvStep(s, run[0]);
      InvRun(Apply(s, run[0]), run[1..]);
    }
  }

  lemma InitialInv()
    ensures Inv(INITIAL)
  {
  }

  // ----- the theorems -----

  /** At most one run is past the guard, and the guard is down exactly when none is. */
  lemma OneRunAtATime(run: seq<Action>)
    requires Exec(INITIAL, run).Some?
    ensures var s := Exec(INITIAL, run).value;
      && (forall r, q :: Live(s, r) && Live(s, q) ==> r == q)
      && (s.shared.pending <==> exists r :: Live(s, r))
  {
    InitialInv();
    InvRun(INITIAL, run);
  }

  /** No session's close is made twice, at most one session is not closed, and when
      no run is left every session has been closed. */
  lemma SessionsClosedOnce(run: seq<Action>)
    requires Exec(INITIAL, run).Some?
    ensures var s := Exec(INITIAL, run).value;
      && (forall id :: id in s.sessions ==> s.sessions[id].invoked <= 1)
      && (forall id, k :: id in s.sessions && k in s.sessions && s.sessions[id].invoked == 0 && s.sessions[k].invoked == 0 ==> id == k)
      && ((forall r :: !Live(s, r)) ==> forall id :: id in s.sessions ==> s.sessions[id].invoked == 1 && s.sessions[id].settled)
  {
    InitialInv();
    InvRun(INITIAL, run);
    hide Exec;
    var s := Exec(INITIAL, run).value;
    forall id, k | id in s.sessions && k in s.sessions && s.sessions[id].invoked == 0 && s.sessions[k].invoked == 0
      ensures id == k
    {
      var r :| Live(s, r) && s.runs[r].session == Some(id);
      var q :| Live(s, q) && s.runs[q].session == Some(k);
    }
  }

  /** A mutation is sent only after the same session reported the world unlocked in
      the same generation. */
  lemma MutationsAreChecked(run: seq<Action>, i: nat)
    requires Exec(INITIAL, run).Some?
    requires i < |Exec(INITIAL, run).value.log| && Exec(INITIAL, run).value.log[i].Mutated?
    ensures var log := Exec(INITIAL, run).value.log;
      exists j :: 0 <= j < i && log[j] == Reported(log[i].session, false, log[i].generation)
  {
    InitialInv();
    InvRun(INITIAL, run);
    hide Exec;
    var log := Exec(INITIAL, run).value.log;
    assert ReportedIn(log, i, log[i].session, log[i].generation, log[i].generation);
    var j :| 0 <= j < i && log[j].Reported? && log[j].session == log[i].session && !log[j].locked
             && log[i].generation <= log[j].generation <= log[i].generation;
    assert log[j] == Reported(log[i].session, false, log[i].generation);
  }

  /** Cancelling leaves no session without a close on its way. */
  lemma CancelReaches(run: seq<Action>)
    requires Exec(INITIAL, run).Some?
    ensures var s := Apply(Exec(INITIAL, run).value, Cancel);
      s.shared.snapshot == EMPTY && forall id :: id in s.sessions ==> s.sessions[id].closing
  {
    InitialInv();
    InvRun(INITIAL, run);
    hide Exec;
  }

  /** No run is current. */
  ghost predicate Stale(s: State) {
    s.shared.generation > 0 && forall r :: r in s.runs ==> s.runs[r].generation < s.shared.generation
  }

  predicate StartsRun(s: State, a: Action) { a.Start? && !s.shared.pending }

  ghost predicate NoRunStarts(s: State, run: seq<Action>)
    requires Exec(s, run).Some?
    decreases |run|
  {
    run != [] ==> !StartsRun(s, run[0]) && NoRunStarts(Apply(s, run[0]), run[1..])
  }

  lemma StaleStep(s: State, a: Action)
    requires Stale(s) && s.shared.snapshot == EMPTY && Enabled(s, a) && !StartsRun(s, a)
    ensures var q := Apply(s, a);
      Stale(q) && q.shared.snapshot == EMPTY && (q.log == s.log || exists e: Entry :: e.Reported? && q.log == s.log + [e])
  {
    LogStep(s, a);
    if HasRun(a) {
      RunStep(s, a);
      hide Apply, Enabled;
    }
  }

  lemma {:induction false} StaleRun(s: State, run: seq<Action>)
    requires Stale(s) && s.shared.snapshot == EMPTY && Exec(s, run).Some? && NoRunStarts(s, run)
    ensures var q := Exec(s, run).value;
      && q.shared.snapshot == EMPTY
      && |s.log| <= |q.log| && q.log[..|s.log|] == s.log
      && forall i :: |s.log| <= i < |q.log| ==> q.log[i].Reported?
    decreases |run|
  {
    hide Stale, Apply, Enabled, StartsRun;
    if run != [] {
      var t := Apply(s, run[0]);
      StaleStep(s, run[0]);
      StaleRun(t, run[1..]);
      var q := Exec(t, run[1..]).value;
      assert q.log[..|s.log|] == q.log[..|t.log|][..|s.log|];
      forall i | |s.log| <= i < |t.log| ensures q.log[i].Reported? { assert q.log[i] == q.log[..|t.log|][i]; }
    }
  }

  /** After a cancel, whatever answers still arrive, the snapshot stays empty and no
      mutation is sent, until a later run starts. */
  lemma CancelHolds(run: seq<Action>, rest: seq<Action>)
    requires Exec(INITIAL, run).Some?
    requires Exec(Apply(Exec(INITIAL, run).value, Cancel), rest).Some?
    requires NoRunStarts(Apply(Exec(INITIAL, run).value, Cancel), rest)
    ensures var s := Exec(INITIAL, run).value;
      var q := Exec(Apply(s, Cancel), rest).value;
      && q.shared.snapshot == EMPTY
      && |s.log| <= |q.log| && q.log[..|s.log|] == s.log
      && forall i :: |s.log| <= i < |q.log| ==> q.log[i].Reported?
  {
    InitialInv();
    InvRun(INITIAL, run);
    hide Exec, NoRunStarts;
    StaleRun(Apply(Exec(INITIAL, run).value, Cancel), rest);
  }
}
