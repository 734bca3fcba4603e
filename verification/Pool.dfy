/** The registry of live sessions: who owns each one, which sessions an endpoint
    has, and the generation that group closes bump. */
module Pool {
  import opened Results
  import opened EndpointIds

  type SessionId = nat
  /** One established session. Two sessions never share a token. */
  type Token = nat

  /** Generations are 64-bit and wrap around. */
  const GENERATIONS := 0x1_0000_0000_0000_0000

  datatype PoolError = EndpointNotFound | KindUnsupported | IdInvalid

  datatype PoolState = PoolState(
    sessions: map<SessionId, Token>,
    owners: map<SessionId, EndpointId>,
    endpointSessions: map<EndpointId, set<SessionId>>,
    generations: map<EndpointId, nat>,
    nextId: nat)

  const EMPTY := PoolState(map[], map[], map[], map[], 0)

  function Generation(p: PoolState, e: EndpointId): nat {
    if e in p.generations then p.generations[e] else 0
  }

  function Group(p: PoolState, e: EndpointId): set<SessionId> {
    if e in p.endpointSessions then p.endpointSessions[e] else {}
  }

  /** `sessions` and `owners` have the same keys, and `endpointSessions` is exactly
      the inverse of `owners`, without empty groups. */
  ghost predicate Indexed(p: PoolState) {
    && p.sessions.Keys == p.owners.Keys
    && (forall e :: e in p.endpointSessions ==> p.endpointSessions[e] != {})
    && (forall e, id :: e in p.endpointSessions && id in p.endpointSessions[e] ==> id in p.owners && p.owners[id] == e)
    && (forall id :: id in p.owners ==> p.owners[id] in p.endpointSessions && id in p.endpointSessions[p.owners[id]])
    && (forall id :: id in p.sessions ==> 1 <= id <= p.nextId)
    && (forall e :: e in p.generations ==> p.generations[e] < GENERATIONS)
  }

  // ----- the locked sections as functions -----

  function Allocate(p: PoolState): PoolState { p.(nextId := p.nextId + 1) }

  function Insert(p: PoolState, id: SessionId, token: Token, e: EndpointId): PoolState {
    p.(sessions := p.sessions[id := token],
       owners := p.owners[id := e],
       endpointSessions := p.endpointSessions[e := Group(p, e) + {id}])
  }

  /** The generation check and the insertion, under one lock. */
  function InsertCurrent(p: PoolState, token: Token, e: EndpointId, captured: nat): Option<PoolState> {
    if Generation(p, e) != captured then None
    else Some(Insert(Allocate(p), p.nextId + 1, token, e))
  }

  function WithoutId(groups: map<EndpointId, set<SessionId>>, e: EndpointId, id: SessionId): map<EndpointId, set<SessionId>> {
    if e !in groups then groups
    else if groups[e] - {id} == {} then groups - {e}
    else groups[e := groups[e] - {id}]
  }

  function Remove(p: PoolState, id: SessionId): PoolState {
    p.(sessions := p.sessions - {id},
       owners := p.owners - {id},
       endpointSessions := if id in p.owners then WithoutId(p.endpointSessions, p.owners[id], id) else p.endpointSessions)
  }

  /** Bump the generation, then take every session of the endpoint out. */
  function CloseGroup(p: PoolState, e: EndpointId): PoolState {
    p.(generations := p.generations[e := (Generation(p, e) + 1) % GENERATIONS],
       endpointSessions := p.endpointSessions - {e},
       sessions := p.sessions - Group(p, e),
       owners := p.owners - Group(p, e))
  }

  function Drain(p: PoolState): PoolState {
    p.(sessions := map[], owners := map[], endpointSessions := map[])
  }

  /** The sessions a removal of `ids` takes out of the pool. */
  function Taken(p: PoolState, ids: set<SessionId>): map<SessionId, Token> {
    map id | id in ids && id in p.sessions :: p.sessions[id]
  }

  // ----- the registry object -----

  class SessionPool {
    var sessions: map<SessionId, Token>
    var owners: map<SessionId, EndpointId>
    var endpointSessions: map<EndpointId, set<SessionId>>
    var endpointGenerations: map<EndpointId, nat>
    var nextId: nat

    ghost function State(): PoolState
      reads this
    {
      PoolState(sessions, owners, endpointSessions, endpointGenerations, nextId)
    }

    constructor ()
      ensures State() == EMPTY && Indexed(State())
    {
      sessions, owners, endpointSessions, endpointGenerations, nextId := map[], map[], map[], map[], 0;
    }

    method CaptureGeneration(e: EndpointId) returns (r: Result<nat, PoolError>)
      ensures r == if AcceptedByBridge(e) then Success(Generation(State(), e)) else Failure(IdInvalid)
    {
      if !AcceptedByBridge(e) {
        return Failure(IdInvalid);
      }
      return Success(if e in endpointGenerations then endpointGenerations[e] else 0);
    }

    method AllocateId() returns (id: SessionId)
      modifies this
      ensures State() == Allocate(old(State())) && id == nextId
    {
      nextId := nextId + 1;
      id := nextId;
    }

    /** The locked section that records a session under an id that is already allocated. */
    method InsertEstablished(id: SessionId, token: Token, e: EndpointId)
      requires Indexed(State()) && id !in sessions && 1 <= id <= nextId
      modifies this
      ensures State() == Insert(old(State()), id, token, e) && Indexed(State())
    {
      InsertIndexed(State(), id, token, e);
      sessions := sessions[id := token];
      owners := owners[id := e];
      var ids := if e in endpointSessions then endpointSessions[e] else {};
      endpointSessions := endpointSessions[e := ids + {id}];
    }

    method InsertEstablishedIfCurrent(token: Token, e: EndpointId, captured: nat) returns (r: Result<SessionId, PoolError>)
      requires Indexed(State())
      modifies this
      ensures Indexed(State())
      ensures InsertCurrent(old(State()), token, e, captured) == if r.Success? then Some(State()) else None
      ensures r.Failure? ==> State() == old(State()) && r.error == EndpointNotFound
      ensures r.Success? ==> r.value == nextId && r.value !in old(sessions)
    {
      var current := if e in endpointGenerations then endpointGenerations[e] else 0;
      if current != captured {
        return Failure(EndpointNotFound);
      }
      var id := AllocateId();
      InsertEstablished(id, token, e);
      return Success(id);
    }

    /** The locked section of `close`; the caller then closes what it returns. */
    method Close(id: SessionId) returns (taken: Option<Token>)
      requires Indexed(State())
      modifies this
      ensures State() == Remove(old(State()), id) && Indexed(State())
      ensures taken == if id in old(sessions) then Some(old(sessions)[id]) else None
    {
      RemoveIndexed(State(), id);
      taken := if id in sessions then Some(sessions[id]) else None;
      sessions := sessions - {id};
      if id in owners {
        var e := owners[id];
        owners := owners - {id};
        if e in endpointSessions {
          var ids := endpointSessions[e] - {id};
          endpointSessions := endpointSessions[e := ids];
          if ids == {} {
            endpointSessions := endpointSessions - {e};
          }
        }
      }
      assert owners == old(owners) - {id};
      assert State().endpointSessions == Remove(old(State()), id).endpointSessions;
    }

    /** The locked section of `close_endpoint`. */
    method CloseEndpoint(e: EndpointId) returns (r: Result<map<SessionId, Token>, PoolError>)
      requires Indexed(State())
      modifies this
      ensures Indexed(State())
      ensures r.Success? <==> AcceptedByBridge(e) && e != LOCAL
      ensures r.Success? ==> State() == CloseGroup(old(State()), e) && r.value == Taken(old(State()), Group(old(State()), e))
      ensures r.Failure? ==> State() == old(State()) && r.error == if e == LOCAL then KindUnsupported else IdInvalid
    {
      if !AcceptedByBridge(e) {
        return Failure(IdInvalid);
      }
      if e == LOCAL {
        return Failure(KindUnsupported);
      }
      CloseGroupIndexed(State(), e);
      hide Indexed, CloseGroup;
      var taken := TakeGroup(e);
      return Success(taken);
    }

    /** The locked section of `close_endpoint`, once the id is accepted. */
    method TakeGroup(e: EndpointId) returns (taken: map<SessionId, Token>)
      modifies this
      ensures State() == CloseGroup(old(State()), e) && taken == Taken(old(State()), Group(old(State()), e))
    {
      ghost var before := State();
      var generation := if e in endpointGenerations then endpointGenerations[e] else 0;
      endpointGenerations := endpointGenerations[e := (generation + 1) % GENERATIONS];
      var ids := if e in endpointSessions then endpointSessions[e] else {};
      endpointSessions := endpointSessions - {e};
      assert ids == Group(before, e);
      taken := TakeAll(ids);
    }

    /** The loop of `close_endpoint` over the sessions of the group. */
    method TakeAll(group: set<SessionId>) returns (taken: map<SessionId, Token>)
      modifies `sessions, `owners
      ensures sessions == old(sessions) - group && owners == old(owners) - group
      ensures taken == Taken(old(State()), group)
    {
      var ids := group;
      taken := map[];
      while ids != {}
        invariant ids <= group
        invariant sessions == old(sessions) - (group - ids)
        invariant owners == old(owners) - (group - ids)
        invariant taken == Taken(old(State()), group - ids)
        decreases ids
      {
        var id :| id in ids;
        owners := owners - {id};
        if id in sessions {
          taken := taken[id := sessions[id]];
          sessions := sessions - {id};
        }
        ids := ids - {id};
      }
      assert group - ids == group;
    }

    method Clear() returns (taken: map<SessionId, Token>)
      modifies this
      ensures State() == Drain(old(State()))
      ensures taken == old(sessions)
      ensures old(Indexed(State())) ==> Indexed(State())
    {
      owners := map[];
      endpointSessions := map[];
      taken := sessions;
      sessions := map[];
    }
  }

  // ----- the index invariant -----

  lemma InsertIndexed(p: PoolState, id: SessionId, token: Token, e: EndpointId)
    requires Indexed(p) && id !in p.sessions && 1 <= id <= p.nextId
    ensures Indexed(Insert(p, id, token, e))
  {
  }

  lemma RemoveIndexed(p: PoolState, id: SessionId)
    requires Indexed(p)
    ensures Indexed(Remove(p, id))
  {
    if id in p.owners {
      var e := p.owners[id];
      var q := Remove(p, id);
      forall k | k in q.owners ensures q.owners[k] in q.endpointSessions && k in q.endpointSessions[q.owners[k]] {
        if q.owners[k] == e {
          assert k in p.endpointSessions[e] - {id};
        }
      }
    }
  }

  lemma CloseGroupIndexed(p: PoolState, e: EndpointId)
    requires Indexed(p)
    ensures Indexed(CloseGroup(p, e))
    ensures forall id :: id in p.sessions ==> (id in Group(p, e) <==> p.owners[id] == e)
    ensures forall id :: id in CloseGroup(p, e).owners ==> CloseGroup(p, e).owners[id] == p.owners[id] != e
  {
    var q := CloseGroup(p, e);
    forall k, id | k in q.endpointSessions && id in q.endpointSessions[k] ensures id in q.owners && q.owners[id] == k {
      assert id in p.endpointSessions[k];
      assert p.owners[id] == k != e;
      assert id !in Group(p, e);
    }
  }

  /** After a group close nothing in the pool belongs to that endpoint, and every
      other session stays where it was. */
  lemma CloseGroupScoped(p: PoolState, e: EndpointId, id: SessionId)
    requires Indexed(p) && id in p.sessions
    ensures id in CloseGroup(p, e).sessions <==> p.owners[id] != e
    ensures p.owners[id] != e ==> CloseGroup(p, e).sessions[id] == p.sessions[id] && CloseGroup(p, e).owners[id] == p.owners[id]
  {
    CloseGroupIndexed(p, e);
  }
}
