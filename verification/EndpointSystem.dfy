/** The endpoint lifecycle as one interleaved system: the mutation queue of the
    front end, the configuration file, the stored selection and the configuration
    the front end shows, opens in flight and the session pool. Each action is one
    locked section, one file access or one settled await. Nothing but the queue's
    own chain keeps two mutations apart. */
module EndpointSystem {
  import opened Results
  import opened EndpointIds
  import opened MutationQueue
  import opened Pool
  import Cfg = EndpointConfig

  type TaskId = nat

  /** An open in flight. `closes` remembers how many group closes of the endpoint
      had happened when the generation was captured; the program only has `gen`. */
  datatype Open =
    | Captured(e: EndpointId, gen: nat, closes: nat)
    | Handshaking(e: EndpointId, gen: nat, closes: nat)
    | Established(e: EndpointId, gen: nat, closes: nat, token: Token)
    | LocalEstablished(token: Token)
    | LocalAllocated(token: Token, id: SessionId)

  /** Where an established session is. */
  datatype Place = Awaiting(task: TaskId) | Pooled(id: SessionId) | Closing | Closed

  /** Who wrote the stored selection: the user, a delete, or the repair of a
      selection that is not among the shown endpoints. */
  datatype SelectionWrite = Chosen(e: EndpointId) | ClearedBy(i: nat) | Repaired

  datatype System = System(
    config: Cfg.Config,
    selected: EndpointId,
    // the configuration the front end has loaded or been told of
    shown: Option<Cfg.Config>,
    queue: Queue,
    pool: PoolState,
    opens: map<TaskId, Open>,
    closing: set<Token>,
    // history: writes of the selection, group closes so far, tokens and ids handed
    // out, and where tokens are
    writes: seq<SelectionWrite>,
    groupCloses: map<EndpointId, nat>,
    minted: nat,
    used: set<SessionId>,
    closed: seq<Token>,
    place: map<Token, Place>)

  datatype Action =
    | Load(ok: bool)
    | Select(e: EndpointId)
    | Repair
    | Submit(m: Mutation)
    | Start(i: nat)
    | ReadConfig(i: nat)
    | WriteConfig(i: nat)
    | WriteFailsAfter(i: nat)
    | Fail(i: nat)
    | Persist(i: nat, ok: bool)
    | Publish(i: nat)
    | PublishThrows(i: nat)
    | CloseDeleted(i: nat, ok: bool)
    | CloseFails(i: nat)
    | Settle(i: nat, ok: bool)
    | OpenEndpoint(task: TaskId, e: EndpointId)
    | OpenRead(task: TaskId)
    | OpenFail(task: TaskId)
    | Handshake(task: TaskId)
    | InsertSession(task: TaskId)
    | OpenLocal(task: TaskId)
    | AllocateLocal(task: TaskId)
    | InsertLocal(task: TaskId)
    | CloseSession(id: SessionId)
    | CloseEndpoint(e: EndpointId)
    | ClearAll
    | FinishClose(token: Token)

  /** Nothing is loaded yet, and whatever was selected last is still stored. */
  function Initial(config: Cfg.Config, selected: EndpointId): System {
    System(config, selected, None, NO_TASKS, EMPTY, map[], {}, [], map[], 0, {}, [], map[])
  }

  /** The endpoint that is shown as selected. */
  function Displayed(s: System): EndpointId {
    if s.shown.Some? then Cfg.Reconcile(s.selected, s.shown.value) else s.selected
  }

  function Closes(s: System, e: EndpointId): nat {
    if e in s.groupCloses then s.groupCloses[e] else 0
  }

  function PhaseOf(s: System, i: nat): Phase {
    if i < |s.queue.tasks| then s.queue.tasks[i].phase else Waiting
  }

  /** What a mutation writes after reading `read`. */
  function Outcome(rules: Cfg.Rules, m: Mutation, read: Cfg.Config): Option<Cfg.Config> {
    match m
    case Save(target, draft, uuid) => Cfg.Saved(rules, read, target, draft, uuid)
    case Delete(id, _) => Cfg.Deleted(rules, read, id)
  }

  function HasToken(o: Open): bool { !o.Captured? && !o.Handshaking? }

  /** A step of one running operation that leaves the file alone. */
  predicate Moves(a: Action) {
    || a.ReadConfig? || a.Fail? || a.Persist? || a.Publish? || a.PublishThrows?
    || a.CloseDeleted? || a.CloseFails? || a.Settle?
  }

  /** Which step an operation takes next: a save publishes what it wrote, a delete
      first sees to the selection and, behind publishing, to the sessions. */
  predicate CanMove(s: System, a: Action)
    requires Moves(a)
  {
    && a.i < |s.queue.tasks|
    && var p, m := s.queue.tasks[a.i].phase, s.queue.tasks[a.i].mutation;
       match a
       case ReadConfig(_) => p.Started?
       case Fail(_) => p.Started? || p.HasRead?
       case Persist(_, _) => p.Written? && m.Delete?
       case Publish(_) => p.Persisted? || (p.Written? && m.Save?)
       case PublishThrows(_) => p.Persisted? || (p.Written? && m.Save?)
       case CloseDeleted(_, _) => p.Published? && m.Delete?
       case CloseFails(_) => p.Published? && m.Delete?
       case Settle(_, _) => p.Cleaning? || (p.Published? && m.Save?)
  }

  /** The operation after its step. A delete asks for the selection to be moved when
      the deleted endpoint was the one shown as selected. */
  function MovedTask(s: System, a: Action): Task
    requires Moves(a) && CanMove(s, a)
  {
    var t := s.queue.tasks[a.i];
    match a
    case ReadConfig(_) => t.(phase := HasRead(s.config))
    case Fail(_) => t.(phase := Done(FailedBefore))
    case Persist(_, ok) =>
      if !OfSelected(t.mutation) then t.(phase := Persisted(t.phase.next))
      else if ok then t.(phase := Persisted(t.phase.next), persist := Cleared)
      else t.(phase := Persisted(t.phase.next), persist := Refused, complete := false)
    case Publish(_) => t.(phase := Published)
    case PublishThrows(_) => t.(phase := Done(PublishThrew))
    case CloseDeleted(_, ok) => t.(phase := Cleaning, groupClosed := true, complete := t.complete && ok)
    case CloseFails(_) => t.(phase := Cleaning, complete := false)
    case Settle(_, ok) => t.(phase := Done(Succeeded), complete := t.complete && ok)
  }

  ghost predicate Enabled(rules: Cfg.Rules, s: System, a: Action) {
    match a
    case Load(_) => true
    case Select(e) => s.shown.Some? && Cfg.Has(s.shown.value, e)
    case Repair => Displayed(s) != s.selected
    case Submit(m) => s.shown.Some? && (m.Delete? ==> m.selected == Displayed(s))
    case Start(i) => CanStart(s.queue, i)
    case WriteConfig(i) => PhaseOf(s, i).HasRead? && Outcome(rules, s.queue.tasks[i].mutation, PhaseOf(s, i).read).Some?
    case WriteFailsAfter(i) => PhaseOf(s, i).HasRead? && Outcome(rules, s.queue.tasks[i].mutation, PhaseOf(s, i).read).Some?
    case OpenEndpoint(task, e) => task !in s.opens && AcceptedByBridge(e)
    case OpenRead(task) => task in s.opens && s.opens[task].Captured? && Cfg.HasRemote(s.config, s.opens[task].e)
    case OpenFail(task) => task in s.opens && (s.opens[task].Captured? || s.opens[task].Handshaking?)
    case Handshake(task) => task in s.opens && s.opens[task].Handshaking?
    case InsertSession(task) => task in s.opens && s.opens[task].Established?
    case OpenLocal(task) => task !in s.opens
    case AllocateLocal(task) => task in s.opens && s.opens[task].LocalEstablished?
    case InsertLocal(task) => task in s.opens && s.opens[task].LocalAllocated?
    case CloseSession(id) => true
    case CloseEndpoint(e) => AcceptedByBridge(e) && e != LOCAL
    case ClearAll => true
    case FinishClose(token) => token in s.closing
    case _ => CanMove(s, a)
  }

  function Move(place: map<Token, Place>, tokens: set<Token>, to: Place): map<Token, Place> {
    map t | t in place :: if t in tokens then to else place[t]
  }

  /** A removal hands its sessions to the caller, which closes them. */
  function Release(s: System, p: PoolState, taken: map<SessionId, Token>): System {
    s.(pool := p, closing := s.closing + taken.Values, place := Move(s.place, taken.Values, Closing))
  }

  function CloseGroupOf(s: System, e: EndpointId): System {
    Release(s, CloseGroup(s.pool, e), Taken(s.pool, Group(s.pool, e))).(
      groupCloses := s.groupCloses[e := Closes(s, e) + 1])
  }

  /** The file is replaced by what operation `i` makes of what it read. */
  function Land(rules: Cfg.Rules, s: System, i: nat, fails: bool): System
    requires PhaseOf(s, i).HasRead? && Outcome(rules, s.queue.tasks[i].mutation, PhaseOf(s, i).read).Some?
  {
    var next := Outcome(rules, s.queue.tasks[i].mutation, PhaseOf(s, i).read).value;
    s.(config := next,
       queue := Moved(s.queue, i, s.queue.tasks[i].(phase := if fails then Done(FailedAfter) else Written(next), landed := true)))
  }

  /** An operation takes its step; publishing shows what it wrote, and a delete that
      asked moves the stored selection. */
  function Step(s: System, a: Action): System
    requires Moves(a) && CanMove(s, a)
  {
    var t := s.queue.tasks[a.i];
    var next := MovedTask(s, a);
    var q := s.(queue := Moved(s.queue, a.i, next));
    if a.Publish? then q.(shown := Some(t.phase.next))
    else if a.Persist? && next.persist.Cleared? then
      q.(selected := Cfg.Reselect(t.mutation.selected, t.mutation.id), writes := s.writes + [ClearedBy(a.i)])
    else q
  }

  /** An open's session enters the pool, or is closed when its generation is out of date. */
  function Admit(s: System, task: TaskId): System
    requires task in s.opens && s.opens[task].Established?
  {
    var o := s.opens[task];
    match InsertCurrent(s.pool, o.token, o.e, o.gen)
    case Some(p) =>
      s.(pool := p, opens := s.opens - {task}, used := s.used + {p.nextId}, place := s.place[o.token := Pooled(p.nextId)])
    case None =>
      s.(opens := s.opens - {task}, closing := s.closing + {o.token}, place := s.place[o.token := Closing])
  }

  function AdmitLocal(s: System, task: TaskId): System
    requires task in s.opens && s.opens[task].LocalAllocated?
  {
    var o := s.opens[task];
    s.(pool := Insert(s.pool, o.id, o.token, LOCAL), opens := s.opens - {task},
       used := s.used + {o.id}, place := s.place[o.token := Pooled(o.id)])
  }

  ghost function Apply(rules: Cfg.Rules, s: System, a: Action): System
    requires Enabled(rules, s, a)
  {
    match a
    case Load(ok) => s.(shown := if ok then Some(s.config) else None)
    case Select(e) => s.(selected := e, writes := s.writes + [Chosen(e)])
    case Repair => s.(selected := Displayed(s), writes := s.writes + [Repaired])
    case Submit(m) => s.(queue := Submitted(s.queue, m))
    case Start(i) => s.(queue := Begun(s.queue, i))
    case WriteConfig(i) => Land(rules, s, i, false)
    case WriteFailsAfter(i) => Land(rules, s, i, true)
    case CloseDeleted(i, _) => Step(CloseGroupOf(s, s.queue.tasks[i].mutation.id), a)
    case OpenEndpoint(task, e) => s.(opens := s.opens[task := Captured(e, Generation(s.pool, e), Closes(s, e))])
    case OpenRead(task) =>
      var o := s.opens[task];
      s.(opens := s.opens[task := Handshaking(o.e, o.gen, o.closes)])
    case OpenFail(task) => s.(opens := s.opens - {task})
    case Handshake(task) =>
      var o := s.opens[task];
      s.(opens := s.opens[task := Established(o.e, o.gen, o.closes, s.minted)],
         minted := s.minted + 1, place := s.place[s.minted := Awaiting(task)])
    case InsertSession(task) => Admit(s, task)
    case OpenLocal(task) =>
      s.(opens := s.opens[task := LocalEstablished(s.minted)],
         minted := s.minted + 1, place := s.place[s.minted := Awaiting(task)])
    case AllocateLocal(task) =>
      s.(pool := Allocate(s.pool), opens := s.opens[task := LocalAllocated(s.opens[task].token, s.pool.nextId + 1)])
    case InsertLocal(task) => AdmitLocal(s, task)
    case CloseSession(id) => Release(s, Remove(s.pool, id), Taken(s.pool, {id}))
    case CloseEndpoint(e) => CloseGroupOf(s, e)
    case ClearAll => Release(s, Drain(s.pool), s.pool.sessions)
    case FinishClose(token) =>
      s.(closing := s.closing - {token}, closed := s.closed + [token], place := s.place[token := Closed])
    case _ => Step(s, a)
  }

  /** The state after a run, when every action was enabled. */
  ghost function Exec(rules: Cfg.Rules, s: System, run: seq<Action>): Option<System>
    decreases |run|
  {
    if run == [] then Some(s)
    else if !Enabled(rules, s, run[0]) then None
    else Exec(rules, Apply(rules, s, run[0]), run[1..])
  }

  // ----- the pool and its sessions -----

  type Places = map<Token, Place>

  ghost predicate AwaitingPlaced(opens: map<TaskId, Open>, place: Places) {
    && (forall task :: task in opens && HasToken(opens[task]) ==>
          opens[task].token in place && place[opens[task].token] == Awaiting(task))
    && (forall t :: t in place && place[t].Awaiting? ==>
          place[t].task in opens && HasToken(opens[place[t].task]) && opens[place[t].task].token == t)
  }

  ghost predicate PooledPlaced(sessions: map<SessionId, Token>, place: Places) {
    && (forall id :: id in sessions ==> sessions[id] in place && place[sessions[id]] == Pooled(id))
    && (forall t :: t in place && place[t].Pooled? ==> place[t].id in sessions && sessions[place[t].id] == t)
  }

  ghost predicate ClosingPlaced(closing: set<Token>, place: Places) {
    && (forall t :: t in closing ==> t in place && place[t].Closing?)
    && (forall t :: t in place && place[t].Closing? ==> t in closing)
  }

  ghost predicate ClosedPlaced(closed: seq<Token>, place: Places) {
    && (forall t :: t in closed ==> t in place && place[t].Closed?)
    && (forall t :: t in place && place[t].Closed? ==> t in closed)
    && (forall i, j :: 0 <= i < j < |closed| ==> closed[i] != closed[j])
  }

  /** Tokens are handed out in order, and every one of them is somewhere. */
  ghost predicate AllPlaced(place: Places, minted: nat) { forall t: Token :: t in place <==> t < minted }

  /** Nothing is lost and nothing is shared: every established session is in
      exactly one place, the place it is said to be in is where it really is, and
      no session is closed twice. */
  ghost predicate Conserved(s: System) {
    && AllPlaced(s.place, s.minted)
    && AwaitingPlaced(s.opens, s.place)
    && PooledPlaced(s.pool.sessions, s.place)
    && ClosingPlaced(s.closing, s.place)
    && ClosedPlaced(s.closed, s.place)
  }

  /** Session ids come from a counter and are used once. */
  ghost predicate IdsFresh(s: System) {
    && (forall id :: id in s.used ==> id <= s.pool.nextId)
    && s.pool.sessions.Keys <= s.used
    && (forall task :: task in s.opens && s.opens[task].LocalAllocated? ==>
          1 <= s.opens[task].id <= s.pool.nextId && s.opens[task].id !in s.used)
    && (forall t1, t2 ::
          (&& t1 in s.opens && s.opens[t1].LocalAllocated?
           && t2 in s.opens && s.opens[t2].LocalAllocated?
           && s.opens[t1].id == s.opens[t2].id) ==> t1 == t2)
  }

  /** The actions of the front end, apart from the group close of a delete. */
  predicate OfQueue(a: Action) {
    || a.Load? || a.Select? || a.Repair? || a.Submit? || a.Start? || a.ReadConfig? || a.WriteConfig? || a.WriteFailsAfter?
    || a.Fail? || a.Persist? || a.Publish? || a.PublishThrows? || a.CloseFails? || a.Settle?
  }

  lemma QueueActions(rules: Cfg.Rules, s: System, a: Action)
    requires Enabled(rules, s, a) && OfQueue(a)
    ensures var q := Apply(rules, s, a);
      q == s.(config := q.config, queue := q.queue, selected := q.selected, shown := q.shown, writes := q.writes)
  {
    hide Outcome, Submitted, Begun, Moved, MovedTask, Displayed;
  }

  lemma IdsFreshStep(rules: Cfg.Rules, s: System, a: Action)
    requires IdsFresh(s) && Enabled(rules, s, a)
    ensures IdsFresh(Apply(rules, s, a))
  {
    if OfQueue(a) {
      QueueActions(rules, s, a);
      hide Apply, Enabled;
    } else if a.AllocateLocal? {
      IdsAllocate(rules, s, a);
    } else if a.InsertSession? || a.InsertLocal? {
      IdsInsert(rules, s, a);
    } else {
      hide IdsFresh, Outcome, CloseGroup, Remove;
      if a.CloseSession? { RemovalShrinks(s.pool, a.id, LOCAL); }
      if a.CloseEndpoint? { RemovalShrinks(s.pool, 0, a.e); }
      if a.CloseDeleted? { RemovalShrinks(s.pool, 0, s.queue.tasks[a.i].mutation.id); }
      IdsShrink(s, Apply(rules, s, a));
    }
  }

  lemma IdsAllocate(rules: Cfg.Rules, s: System, a: Action)
    requires IdsFresh(s) && Enabled(rules, s, a) && a.AllocateLocal?
    ensures IdsFresh(Apply(rules, s, a))
  {
  }

  lemma IdsInsert(rules: Cfg.Rules, s: System, a: Action)
    requires IdsFresh(s) && Enabled(rules, s, a) && (a.InsertSession? || a.InsertLocal?)
    ensures IdsFresh(Apply(rules, s, a))
  {
  }

  lemma IdsShrink(s: System, q: System)
    requires IdsFresh(s)
    requires q.used == s.used && q.pool.nextId == s.pool.nextId && q.pool.sessions.Keys <= s.pool.sessions.Keys
    requires forall task :: task in q.opens && q.opens[task].LocalAllocated? ==> task in s.opens && s.opens[task] == q.opens[task]
    ensures IdsFresh(q)
  {
  }

  lemma RemovalShrinks(p: PoolState, id: SessionId, e: EndpointId)
    ensures Remove(p, id).sessions.Keys <= p.sessions.Keys && Remove(p, id).nextId == p.nextId
    ensures CloseGroup(p, e).sessions.Keys <= p.sessions.Keys && CloseGroup(p, e).nextId == p.nextId
  {
  }

  lemma IndexedStep(rules: Cfg.Rules, s: System, a: Action)
    requires IdsFresh(s) && Indexed(s.pool) && Enabled(rules, s, a)
    ensures Indexed(Apply(rules, s, a).pool)
  {
    if OfQueue(a) {
      QueueActions(rules, s, a);
      hide Apply, Enabled;
    } else {
      PoolIndexed(rules, s, a);
    }
  }

  lemma PoolIndexed(rules: Cfg.Rules, s: System, a: Action)
    requires IdsFresh(s) && Indexed(s.pool) && Enabled(rules, s, a) && !OfQueue(a)
    ensures Indexed(Apply(rules, s, a).pool)
  {
    hide Indexed, Insert, CloseGroup, Remove, Drain, IdsFresh, Outcome, Taken;
    AllocateIndexed(s.pool);
    DrainIndexed(s.pool);
    match a
    case InsertSession(task) =>
      var o := s.opens[task];
      InsertIndexed(Allocate(s.pool), s.pool.nextId + 1, o.token, o.e);
    case InsertLocal(task) =>
      AllocatedIdFree(s, task);
      InsertIndexed(s.pool, s.opens[task].id, s.opens[task].token, LOCAL);
    case CloseSession(id) => RemoveIndexed(s.pool, id);
    case CloseEndpoint(e) => CloseGroupIndexed(s.pool, e);
    case CloseDeleted(i, _) => CloseGroupIndexed(s.pool, s.queue.tasks[i].mutation.id);
    case _ =>
  }

  lemma DrainIndexed(p: PoolState)
    requires Indexed(p)
    ensures Indexed(Drain(p))
  {
  }

  lemma AllocatedIdFree(s: System, task: TaskId)
    requires IdsFresh(s) && task in s.opens && s.opens[task].LocalAllocated?
    ensures s.opens[task].id !in s.pool.sessions && 1 <= s.opens[task].id <= s.pool.nextId
  {
  }

  lemma AllocateIndexed(p: PoolState)
    requires Indexed(p)
    ensures Indexed(Allocate(p)) && p.nextId + 1 !in p.sessions
  {
  }

  /** Moving sessions from the pool to the caller, seen from each place. */
  lemma MoveKeeps(opens: map<TaskId, Open>, closed: seq<Token>, place: Places, tokens: set<Token>)
    requires AwaitingPlaced(opens, place) && ClosedPlaced(closed, place)
    requires forall t :: t in tokens ==> t in place && place[t].Pooled?
    ensures AwaitingPlaced(opens, Move(place, tokens, Closing))
    ensures ClosedPlaced(closed, Move(place, tokens, Closing))
  {
  }

  lemma MoveClosing(closing: set<Token>, place: Places, tokens: set<Token>)
    requires ClosingPlaced(closing, place)
    requires forall t :: t in tokens ==> t in place
    ensures ClosingPlaced(closing + tokens, Move(place, tokens, Closing))
  {
  }

  lemma MovePooled(sessions: map<SessionId, Token>, place: Places, ids: set<SessionId>, tokens: set<Token>)
    requires PooledPlaced(sessions, place)
    requires forall id :: id in sessions ==> (sessions[id] in tokens <==> id in ids)
    ensures PooledPlaced(sessions - ids, Move(place, tokens, Closing))
  {
  }

  /** Taking sessions out of the pool and handing them to the caller keeps every
      session accounted for. */
  lemma ReleaseConserved(s: System, p: PoolState, ids: set<SessionId>)
    requires Conserved(s) && p.sessions == s.pool.sessions - ids
    ensures Conserved(Release(s, p, Taken(s.pool, ids)))
  {
    var taken := Taken(s.pool, ids);
    assert PooledPlaced(s.pool.sessions, s.place);
    forall t | t in taken.Values ensures t in s.place && s.place[t].Pooled? {
      var id :| id in taken && taken[id] == t;
      assert s.place[s.pool.sessions[id]] == Pooled(id);
    }
    forall id | id in s.pool.sessions ensures s.pool.sessions[id] in taken.Values <==> id in ids {
      if id in ids { assert taken[id] == s.pool.sessions[id]; }
      if k :| k in taken && taken[k] == s.pool.sessions[id] { assert s.place[s.pool.sessions[k]] == Pooled(k); }
    }
    hide AwaitingPlaced, ClosedPlaced, ClosingPlaced, PooledPlaced;
    MoveKeeps(s.opens, s.closed, s.place, taken.Values);
    MoveClosing(s.closing, s.place, taken.Values);
    MovePooled(s.pool.sessions, s.place, ids, taken.Values);
  }

  /** A session that leaves its open task for another place. */
  lemma TakeFromTask(opens: map<TaskId, Open>, place: Places, task: TaskId, to: Place)
    requires AwaitingPlaced(opens, place) && task in opens && HasToken(opens[task]) && !to.Awaiting?
    ensures AwaitingPlaced(opens - {task}, place[opens[task].token := to])
  {
  }

  lemma PutElsewhere(s: System, token: Token, to: Place)
    requires Conserved(s) && token in s.place && s.place[token].Awaiting?
    ensures var place := s.place[token := to];
      && AllPlaced(place, s.minted)
      && (!to.Pooled? ==> PooledPlaced(s.pool.sessions, place))
      && (to.Closing? ==> ClosingPlaced(s.closing + {token}, place))
      && (to.Pooled? ==> ClosingPlaced(s.closing, place))
      && (!to.Closed? ==> ClosedPlaced(s.closed, place))
      && (to.Pooled? && to.id !in s.pool.sessions ==> PooledPlaced(s.pool.sessions[to.id := token], place))
  {
  }

  lemma AdmitConserved(s: System, task: TaskId)
    requires Conserved(s) && Indexed(s.pool) && task in s.opens && s.opens[task].Established?
    ensures Conserved(Admit(s, task))
  {
    var o := s.opens[task];
    AllocateIndexed(s.pool);
    InsertedIs(s.pool, o.token, o.e, o.gen);
    hide Indexed, AllPlaced, AwaitingPlaced, ClosedPlaced, ClosingPlaced, PooledPlaced, InsertCurrent;
    TakenKeeps(s, task, s.pool.nextId + 1);
  }

  lemma InsertedIs(p: PoolState, token: Token, e: EndpointId, gen: nat)
    ensures var r := InsertCurrent(p, token, e, gen);
      r.Some? ==> r.value.nextId == p.nextId + 1 && r.value.sessions == p.sessions[p.nextId + 1 := token]
  {
  }

  lemma AdmitLocalConserved(s: System, task: TaskId)
    requires Conserved(s) && IdsFresh(s) && task in s.opens && s.opens[task].LocalAllocated?
    ensures Conserved(AdmitLocal(s, task))
  {
    AllocatedIdFree(s, task);
    hide IdsFresh, AllPlaced, AwaitingPlaced, ClosedPlaced, ClosingPlaced, PooledPlaced;
    TakenKeeps(s, task, s.opens[task].id);
  }

  /** An open hands its session to the pool under a free id, or to be closed. */
  lemma TakenKeeps(s: System, task: TaskId, id: SessionId)
    requires Conserved(s) && task in s.opens && HasToken(s.opens[task]) && id !in s.pool.sessions
    ensures var token := s.opens[task].token;
      var pooled, closing := s.place[token := Pooled(id)], s.place[token := Closing];
      && AllPlaced(pooled, s.minted) && AllPlaced(closing, s.minted)
      && AwaitingPlaced(s.opens - {task}, pooled) && AwaitingPlaced(s.opens - {task}, closing)
      && PooledPlaced(s.pool.sessions[id := token], pooled) && PooledPlaced(s.pool.sessions, closing)
      && ClosingPlaced(s.closing, pooled) && ClosingPlaced(s.closing + {token}, closing)
      && ClosedPlaced(s.closed, pooled) && ClosedPlaced(s.closed, closing)
  {
    hide AllPlaced, AwaitingPlaced, ClosedPlaced, ClosingPlaced, PooledPlaced;
    TokenAwaits(s, task);
    TakeFromTask(s.opens, s.place, task, Pooled(id));
    TakeFromTask(s.opens, s.place, task, Closing);
    PutElsewhere(s, s.opens[task].token, Pooled(id));
    PutElsewhere(s, s.opens[task].token, Closing);
  }

  lemma TokenAwaits(s: System, task: TaskId)
    requires Conserved(s) && task in s.opens && HasToken(s.opens[task])
    ensures s.opens[task].token in s.place && s.place[s.opens[task].token] == Awaiting(task)
  {
  }

  lemma NewToken(s: System, task: TaskId, o: Open)
    requires Conserved(s) && HasToken(o) && o.token == s.minted
    requires task in s.opens ==> !HasToken(s.opens[task])
    ensures Conserved(s.(opens := s.opens[task := o], minted := s.minted + 1, place := s.place[s.minted := Awaiting(task)]))
  {
  }

  /** A task that keeps its token, or still has none. */
  lemma SameToken(s: System, task: TaskId, o: Open)
    requires Conserved(s)
    requires task in s.opens && HasToken(s.opens[task]) ==> HasToken(o) && o.token == s.opens[task].token
    requires task !in s.opens || !HasToken(s.opens[task]) ==> !HasToken(o)
    ensures Conserved(s.(opens := s.opens[task := o]))
  {
  }

  lemma CloseConserved(s: System, token: Token)
    requires Conserved(s) && token in s.closing
    ensures Conserved(s.(closing := s.closing - {token}, closed := s.closed + [token], place := s.place[token := Closed]))
  {
    assert token !in s.closed;
  }

  /** Every action keeps the accounting. */
  lemma ConservedStep(rules: Cfg.Rules, s: System, a: Action)
    requires Conserved(s) && IdsFresh(s) && Indexed(s.pool) && Enabled(rules, s, a)
    ensures Conserved(Apply(rules, s, a))
  {
    hide Indexed, IdsFresh, Outcome, Submitted, Begun, Moved;
    if OfQueue(a) {
      QueueActions(rules, s, a);
      hide Apply, Enabled;
    } else {
      PoolConserved(rules, s, a);
    }
  }

  lemma PoolConserved(rules: Cfg.Rules, s: System, a: Action)
    requires Conserved(s) && IdsFresh(s) && Indexed(s.pool) && Enabled(rules, s, a) && !OfQueue(a)
    ensures Conserved(Apply(rules, s, a))
  {
    hide Indexed, IdsFresh, Outcome, Submitted, Begun, Moved, Admit, AdmitLocal;
    match a
    case InsertSession(task) => AdmitConserved(s, task);
    case InsertLocal(task) => AdmitLocalConserved(s, task);
    case OpenEndpoint(task, e) => SameToken(s, task, Apply(rules, s, a).opens[task]);
    case OpenRead(task) => SameToken(s, task, Apply(rules, s, a).opens[task]);
    case AllocateLocal(task) => SameToken(s, task, Apply(rules, s, a).opens[task]);
    case Handshake(task) => NewToken(s, task, Apply(rules, s, a).opens[task]);
    case OpenLocal(task) => NewToken(s, task, Apply(rules, s, a).opens[task]);
    case CloseSession(id) => ReleaseConserved(s, Remove(s.pool, id), {id});
    case CloseEndpoint(e) => ReleaseConserved(s, CloseGroup(s.pool, e), Group(s.pool, e));
    case CloseDeleted(i, _) =>
      var e := s.queue.tasks[i].mutation.id;
      ReleaseConserved(s, CloseGroup(s.pool, e), Group(s.pool, e));
    case ClearAll =>
      assert Taken(s.pool, s.pool.sessions.Keys) == s.pool.sessions;
      ReleaseConserved(s, Drain(s.pool), s.pool.sessions.Keys);
    case FinishClose(token) => CloseConserved(s, token);
    case _ =>
  }
}
