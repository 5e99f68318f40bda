/** Remote agents connected over WebSocket: which one a task is routed to, and how their load is
    counted. Each function is one lock section of the registry. */
module AgentRegistry {

  import opened Types

  type AgentId = string

  // Connections are numbered; two connections never share a number.
  type Conn = nat

  datatype AgentStatus = Idle | Busy | Draining

  datatype Agent = Agent(
    conn: Conn,
    maxParallel: int,
    skills: set<string>,
    active: int,
    status: AgentStatus,
    lastSeen: int)

  type Agents = map<AgentId, Agent>

  const MaxInt: int := 0x7FFF_FFFF_FFFF_FFFF

  // A parallelism of zero or less means no limit; no required skills means any agent.
  predicate Fits(a: Agent, skills: seq<string>) {
    && a.status != Draining
    && (a.maxParallel > 0 ==> a.active < a.maxParallel)
    && (forall s :: s in skills ==> s in a.skills)
    && a.active < MaxInt
  }

  ghost predicate NoneFits(agents: Agents, skills: seq<string>) {
    forall id :: id in agents ==> !Fits(agents[id], skills)
  }

  // Of the agents that fit, one with the least load.
  ghost predicate IsBest(agents: Agents, skills: seq<string>, best: AgentId) {
    && best in agents && Fits(agents[best], skills)
    && forall id :: id in agents && Fits(agents[id], skills) ==> agents[best].active <= agents[id].active
  }

  function Joined(agents: Agents, id: AgentId, conn: Conn, maxParallel: int, skills: set<string>, now: int): Agents {
    agents[id := Agent(conn, maxParallel, skills, 0, Idle, now)]
  }

  function Left(agents: Agents, id: AgentId, conn: Conn): Agents {
    if id in agents && agents[id].conn == conn then agents - {id} else agents
  }

  function Incremented(agents: Agents, id: AgentId): Agents {
    if id !in agents then agents
    else agents[id := agents[id].(active := agents[id].active + 1, status := Busy)]
  }

  function Decremented(agents: Agents, id: AgentId): Agents {
    if id !in agents then agents
    else if agents[id].active - 1 <= 0 then agents[id := agents[id].(active := 0, status := Idle)]
    else agents[id := agents[id].(active := agents[id].active - 1)]
  }

  // A negative count only refreshes the time.
  function Beaten(agents: Agents, id: AgentId, active: int, now: int): Agents {
    if id !in agents then agents
    else
      var a := agents[id].(lastSeen := now);
      agents[id := if active < 0 then a else a.(active := active, status := if active > 0 then Busy else Idle)]
  }

  function WithoutStale(agents: Agents, cutoff: int): Agents {
    map id | id in agents && agents[id].lastSeen >= cutoff :: agents[id]
  }

  class Registry {
    var agents: Agents

    constructor ()
      ensures agents == map[]
    {
      agents := map[];
    }

    /** Visits the agents in any order and keeps a running minimum. */
    method Route(skills: seq<string>) returns (best: Option<AgentId>)
      ensures best.None? <==> NoneFits(agents, skills)
      ensures best.Some? ==> IsBest(agents, skills, best.value)
      ensures best.Some? ==>
        && best.value in agents
        && var a := agents[best.value];
           && a.status != Draining && !(0 < a.maxParallel <= a.active) && (forall s :: s in skills ==> s in a.skills)
      // Whoever is less loaded, and whoever is there if none is taken, is not available.
      ensures forall id :: id in agents && (if best.Some? then agents[id].active < agents[best.value].active else agents[id].active < MaxInt) ==>
        || agents[id].status == Draining || 0 < agents[id].maxParallel <= agents[id].active
        || exists s :: s in skills && s !in agents[id].skills
    {
      best := None;
      var bestLoad := MaxInt;
      var todo := agents.Keys;
      while todo != {}
        invariant todo <= agents.Keys
        invariant best.None? ==> bestLoad == MaxInt
        invariant best.Some? ==>
          best.value in agents && Fits(agents[best.value], skills) && bestLoad == agents[best.value].active
        invariant forall id :: id in agents && id !in todo && Fits(agents[id], skills) ==>
          best.Some? && bestLoad <= agents[id].active
        decreases todo
      {
        var id :| id in todo;
        todo := todo - {id};
        var a := agents[id];
        if a.status == Draining {
          continue;
        }
        if a.maxParallel > 0 && a.active >= a.maxParallel {
          continue;
        }
        var all := HasAllSkills(a.skills, skills);
        if |skills| > 0 && !all {
          continue;
        }
        if a.active < bestLoad {
          best, bestLoad := Some(id), a.active;
        }
      }
    }

    method HasAllSkills(agentSkills: set<string>, required: seq<string>) returns (all: bool)
      ensures all <==> forall s :: s in required ==> s in agentSkills
    {
      for i := 0 to |required|
        invariant forall k :: 0 <= k < i ==> required[k] in agentSkills
      {
        if required[i] !in agentSkills {
          return false;
        }
      }
      return true;
    }

    method RegisterOrReplace(id: AgentId, conn: Conn, maxParallel: int, skills: set<string>, now: int) returns (oldConn: Option<Conn>)
      modifies this
      ensures agents == Joined(old(agents), id, conn, maxParallel, skills, now)
      ensures agents == old(agents)[id := Agent(conn, maxParallel, skills, 0, Idle, now)]
      ensures oldConn == if id in old(agents) then Some(old(agents)[id].conn) else None
    {
      oldConn := None;
      if id in agents {
        oldConn := Some(agents[id].conn);
      }
      agents := agents[id := Agent(conn, maxParallel, skills, 0, Idle, now)];
    }

    method Deregister(id: AgentId, conn: Conn)
      modifies this
      ensures agents == Left(old(agents), id, conn)
      ensures forall x :: x in agents ==> x in old(agents) && agents[x] == old(agents)[x]
      ensures forall x :: x in old(agents) && x !in agents <==> x == id && id in old(agents) && old(agents)[id].conn == conn
    {
      if id !in agents {
        return;
      }
      if agents[id].conn == conn {
        agents := agents - {id};
      }
    }

    method IncrementTasks(id: AgentId)
      modifies this
      ensures agents == Incremented(old(agents), id) && agents.Keys == old(agents).Keys
      ensures forall x :: x in agents && x != id ==> agents[x] == old(agents)[x]
      ensures id in agents ==> agents[id] == old(agents)[id].(active := old(agents)[id].active + 1, status := Busy)
    {
      if id !in agents {
        return;
      }
      var a := agents[id];
      a := a.(active := a.active + 1);
      a := a.(status := Busy);
      agents := agents[id := a];
    }

    method DecrementTasks(id: AgentId)
      modifies this
      ensures agents == Decremented(old(agents), id) && agents.Keys == old(agents).Keys
      ensures forall x :: x in agents && x != id ==> agents[x] == old(agents)[x]
      ensures id in agents ==>
        var n := old(agents)[id].active - 1;
        agents[id] == old(agents)[id].(active := if n > 0 then n else 0, status := if n > 0 then old(agents)[id].status else Idle)
    {
      if id !in agents {
        return;
      }
      var a := agents[id];
      a := a.(active := a.active - 1);
      if a.active <= 0 {
        a := a.(active := 0, status := Idle);
      }
      agents := agents[id := a];
    }

    method UpdateHeartbeat(id: AgentId, activeTasks: int, now: int)
      modifies this
      ensures agents == Beaten(old(agents), id, activeTasks, now) && agents.Keys == old(agents).Keys
      ensures forall x :: x in agents && x != id ==> agents[x] == old(agents)[x]
      ensures id in agents && activeTasks < 0 ==> agents[id] == old(agents)[id].(lastSeen := now)
      ensures id in agents && activeTasks >= 0 ==>
        agents[id] == old(agents)[id].(lastSeen := now, active := activeTasks, status := if activeTasks == 0 then Idle else Busy)
    {
      if id !in agents {
        return;
      }
      var a := agents[id].(lastSeen := now);
      if activeTasks >= 0 {
        a := a.(active := activeTasks);
        if activeTasks > 0 {
          a := a.(status := Busy);
        } else {
          a := a.(status := Idle);
        }
      }
      agents := agents[id := a];
    }

    method RemoveStale(cutoff: int) returns (stale: set<AgentId>)
      modifies this
      ensures agents == WithoutStale(old(agents), cutoff)
      ensures forall x :: x in agents <==> x in old(agents) && old(agents)[x].lastSeen >= cutoff
      ensures forall x :: x in agents ==> agents[x] == old(agents)[x]
      ensures stale == old(agents).Keys - agents.Keys
    {
      stale := {};
      var todo := agents.Keys;
      while todo != {}
        invariant todo <= agents.Keys <= old(agents).Keys
        invariant forall id :: id in agents ==> agents[id] == old(agents)[id]
        invariant forall id :: id in old(agents) ==> (id in agents <==> id in todo || old(agents)[id].lastSeen >= cutoff)
        invariant stale == old(agents).Keys - agents.Keys
        decreases todo
      {
        var id :| id in todo;
        todo := todo - {id};
        if agents[id].lastSeen < cutoff {
          stale := stale + {id};
          agents := agents - {id};
        }
      }
    }
  }
}
