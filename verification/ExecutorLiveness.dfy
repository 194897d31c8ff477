/** Executor liveness on the server: heartbeat deadlines, registration, and
    deregistration that persists before it forgets. Times are milliseconds. */
module ExecutorLiveness {

  const EXECUTOR_TIMEOUT: nat := 30_000
  const REQUEUE_DELAY: nat := 1_000
  const FAR_FUTURE: nat := 24 * 60 * 60 * 1_000

  type ExecutorId = string

  // ---------------------------------------------------------------
  // The deadline queue: a max-queue over reversed instants
  // ---------------------------------------------------------------

  datatype ReverseInstant = ReverseInstant(at: nat)

  /** Negative, zero or positive as `a` is below, equal to or above `b`; an
      earlier instant is above a later one. */
  function Compare(a: ReverseInstant, b: ReverseInstant): int
  {
    b.at - a.at
  }

  type Queue = map<ExecutorId, ReverseInstant>

  /** `id` may be returned by a peek: nothing in the queue is above it. */
  ghost predicate OnTop(q: Queue, id: ExecutorId)
  {
    id in q && forall other | other in q :: Compare(q[other], q[id]) <= 0
  }

  lemma {:induction false} TopExists(q: Queue)
    requires q != map[]
    ensures exists id :: OnTop(q, id)
    decreases |q|
  {
    var id :| id in q;
    var rest := q - {id};
    if rest == map[] {
      assert q.Keys == rest.Keys + {id};
      assert OnTop(q, id);
    } else {
      assert q.Keys == rest.Keys + {id};
      TopExists(rest);
      var top :| OnTop(rest, top);
      if q[id].at < q[top].at {
        forall other | other in q ensures Compare(q[other], q[id]) <= 0 {
          if other != id { assert other in rest; }
        }
        assert OnTop(q, id);
      } else {
        forall other | other in q ensures Compare(q[other], q[top]) <= 0 {
          if other != id { assert other in rest; }
        }
        assert OnTop(q, top);
      }
    }
  }

  /** The deadline a peek reports, or the given far-future instant. */
  ghost function NextDeadline(q: Queue, far: nat): (deadline: nat)
    ensures q == map[] ==> deadline == far
    ensures q != map[] ==> (exists id | id in q :: q[id].at == deadline)
    ensures forall id | id in q :: deadline <= q[id].at
  {
    if q == map[] then far
    else
      TopExists(q);
      var id :| OnTop(q, id);
      q[id].at
  }

  // ---------------------------------------------------------------
  // Manager state
  // ---------------------------------------------------------------

  /** What became durable or visible, in order. */
  datatype Record = Registered(id: ExecutorId) | Tombstoned(id: ExecutorId) | Forgotten(id: ExecutorId)

  /** `wakeup` is the last published deadline; `journal` and `lastHeard` are
      history. */
  datatype Manager = Manager(
    queue: Queue,
    runtime: map<ExecutorId, nat>,
    wakeup: nat,
    journal: seq<Record>,
    lastHeard: map<ExecutorId, nat>)

  const INIT_MANAGER := Manager(map[], map[], 0, [], map[])

  ghost function Publish(m: Manager, now: nat): Manager
  {
    m.(wakeup := NextDeadline(m.queue, now + FAR_FUTURE))
  }

  /** A heartbeat or poll is heard. */
  ghost function Touch(m: Manager, id: ExecutorId, now: nat): Manager
  {
    Publish(m.(queue := m.queue[id := ReverseInstant(now + EXECUTOR_TIMEOUT)],
               lastHeard := m.lastHeard[id := now]), now)
  }

  function Register(m: Manager, id: ExecutorId, clock: nat): Manager
  {
    m.(runtime := m.runtime[id := clock],
       journal := if id in m.runtime then m.journal else m.journal + [Registered(id)])
  }

  /** Whether deregistration fails: the tombstone of a registered executor could
      not be written. */
  predicate Blocked(m: Manager, id: ExecutorId, persisted: bool)
  {
    id in m.runtime && !persisted
  }

  /** The tombstone is written before anything is forgotten. */
  ghost function Deregister(m: Manager, id: ExecutorId, persisted: bool, now: nat): Manager
  {
    if Blocked(m, id, persisted) then m
    else if id in m.runtime then
      Publish(m.(queue := m.queue - {id},
                 runtime := m.runtime - {id},
                 journal := m.journal + [Tombstoned(id), Forgotten(id)]), now)
    else
      Publish(m.(queue := m.queue - {id}), now)
  }

  ghost function Requeue(m: Manager, id: ExecutorId, now: nat): Manager
  {
    Publish(m.(queue := m.queue[id := ReverseInstant(now + REQUEUE_DELAY)]), now)
  }

  /** Deregister one lapsed executor, or put it back for a retry. */
  ghost function Lapse(m: Manager, id: ExecutorId, persisted: bool, now: nat): Manager
  {
    if Blocked(m, id, persisted) then Requeue(m, id, now) else Deregister(m, id, persisted, now)
  }

  predicate Expired(q: Queue, id: ExecutorId, now: nat)
  {
    id in q && q[id].at <= now
  }

  // ---------------------------------------------------------------
  // The manager in its own form
  // ---------------------------------------------------------------

  class ExecutorManager {
    var queue: Queue
    var runtime: map<ExecutorId, nat>
    var wakeup: nat
    ghost var journal: seq<Record>
    ghost var lastHeard: map<ExecutorId, nat>

    ghost function View(): Manager
      reads this
    {
      Manager(queue, runtime, wakeup, journal, lastHeard)
    }

    constructor ()
      ensures View() == INIT_MANAGER
    {
      queue, runtime, wakeup, journal, lastHeard := map[], map[], 0, [], map[];
    }

    /** The entry on top of the queue: the earliest deadline. */
    method Peek(far: nat) returns (deadline: nat)
      ensures deadline == NextDeadline(queue, far)
    {
      if queue == map[] {
        return far;
      }
      TopExists(queue);
      var id :| id in queue && forall other | other in queue :: Compare(queue[other], queue[id]) <= 0;
      deadline := queue[id].at;
      ghost var first :| first in queue && queue[first].at == NextDeadline(queue, far);
      assert Compare(queue[first], queue[id]) <= 0;
    }

    method HeartbeatV2(id: ExecutorId, now: nat)
      modifies this
      ensures View() == Touch(old(View()), id, now)
      ensures id in queue && queue[id].at == now + 30_000
    {
      queue := queue[id := ReverseInstant(now + EXECUTOR_TIMEOUT)];
      lastHeard := lastHeard[id := now];
      wakeup := Peek(now + FAR_FUTURE);
    }

    method RegisterExecutor(id: ExecutorId, clock: nat)
      modifies this
      ensures View() == Register(old(View()), id, clock)
    {
      if id !in runtime {
        journal := journal + [Registered(id)];
      }
      runtime := runtime[id := clock];
    }

    method DeregisterExecutor(id: ExecutorId, persisted: bool, now: nat) returns (ok: bool)
      modifies this
      ensures ok == !Blocked(old(View()), id, persisted)
      ensures View() == Deregister(old(View()), id, persisted, now)
    {
      var wasRegistered := id in runtime;
      if wasRegistered {
        if !persisted {
          return false;
        }
        journal := journal + [Tombstoned(id)];
      }
      queue := queue - {id};
      wakeup := Peek(now + FAR_FUTURE);
      if wasRegistered {
        runtime := runtime - {id};
        journal := journal + [Forgotten(id)];
      }
      assert wasRegistered ==> journal == old(journal) + [Tombstoned(id), Forgotten(id)];
      return true;
    }

    /** Pop every entry whose deadline has passed and publish the next deadline. */
    method PopLapsed(now: nat) returns (lapsed: seq<ExecutorId>)
      modifies this`queue, this`wakeup
      ensures View() == Scan(old(View()), now)
      ensures forall id :: id in lapsed <==> Expired(old(queue), id, now)
      ensures forall i, j | 0 <= i < j < |lapsed| :: lapsed[i] != lapsed[j]
    {
      lapsed := [];
      while queue != map[]
        invariant queue.Keys <= old(queue).Keys
        invariant forall id | id in queue :: queue[id] == old(queue)[id]
        invariant forall id | id in old(queue) :: id in queue || id in lapsed
        invariant forall id | id in lapsed :: Expired(old(queue), id, now) && id !in queue
        invariant forall i, j | 0 <= i < j < |lapsed| :: lapsed[i] != lapsed[j]
        decreases |queue|
      {
        TopExists(queue);
        var top :| top in queue && forall other | other in queue :: Compare(queue[other], queue[top]) <= 0;
        if queue[top].at > now {
          forall id | id in queue ensures queue[id].at > now {
            assert Compare(queue[id], queue[top]) <= 0;
          }
          break;
        }
        ghost var before := queue;
        queue := queue - {top};
        assert before.Keys == queue.Keys + {top};
        lapsed := lapsed + [top];
      }
      assert queue == Remaining(old(queue), now);
      wakeup := Peek(now + FAR_FUTURE);
    }

    /** Deregister one lapsed executor; if that fails, queue it for a retry. */
    method LapseOne(id: ExecutorId, persisted: bool, now: nat)
      modifies this
      ensures View() == Lapse(old(View()), id, persisted, now)
    {
      var ok := DeregisterExecutor(id, persisted, now);
      if !ok {
        queue := queue[id := ReverseInstant(now + REQUEUE_DELAY)];
        wakeup := Peek(now + FAR_FUTURE);
      }
    }

    /** One pass over the lapsed executors. `unwritable` are the executors whose
        tombstone cannot be written; `later` is the clock during the second half
        of the pass. */
    method ProcessLapsed(now: nat, later: nat, unwritable: set<ExecutorId>) returns (lapsed: seq<ExecutorId>)
      requires now <= later
      modifies this
      ensures forall id :: id in lapsed <==> Expired(old(queue), id, now)
      ensures forall i, j | 0 <= i < j < |lapsed| :: lapsed[i] != lapsed[j]
      ensures View() == LapseAll(Scan(old(View()), now), lapsed, unwritable, later)
    {
      lapsed := PopLapsed(now);
      ghost var m := View();
      var i := 0;
      while i < |lapsed|
        invariant 0 <= i <= |lapsed|
        invariant View() == LapseAll(m, lapsed[..i], unwritable, later)
      {
        var id := lapsed[i];
        LapseOne(id, id !in unwritable, later);
        assert lapsed[..i + 1][..i] == lapsed[..i];
        i := i + 1;
      }
      assert lapsed[..i] == lapsed;
    }
  }

  /** The entries a scan leaves in the queue. */
  ghost function Remaining(q: Queue, now: nat): Queue
  {
    map id | id in q && q[id].at > now :: q[id]
  }

  ghost function Scan(m: Manager, now: nat): Manager
  {
    Publish(m.(queue := Remaining(m.queue, now)), now)
  }

  ghost function LapseAll(m: Manager, ids: seq<ExecutorId>, unwritable: set<ExecutorId>, now: nat): Manager
  {
    if ids == [] then m
    else
      var id := ids[|ids| - 1];
      Lapse(LapseAll(m, ids[..|ids| - 1], unwritable, now), id, id !in unwritable, now)
  }

  // ---------------------------------------------------------------
  // What a whole pass does
  // ---------------------------------------------------------------

  /** Lapsing distinct executors that are not queued: exactly those registered
      with an unwritable tombstone are requeued and stay registered, the others
      are gone, and nobody else is touched. */
  lemma {:induction false} LapseAllEffect(m: Manager, ids: seq<ExecutorId>, unwritable: set<ExecutorId>, now: nat)
    requires forall i, j | 0 <= i < j < |ids| :: ids[i] != ids[j]
    requires forall id | id in ids :: id !in m.queue
    ensures var t := LapseAll(m, ids, unwritable, now);
            && (forall id :: id in t.queue <==> id in m.queue || (id in ids && id in m.runtime && id in unwritable))
            && (forall id | id in m.queue :: t.queue[id] == m.queue[id])
            && (forall id | id in t.queue && id in ids :: t.queue[id].at == now + REQUEUE_DELAY)
            && (forall id :: id in t.runtime <==> id in m.runtime && (id in ids ==> id in unwritable))
            && (forall id | id in t.runtime :: t.runtime[id] == m.runtime[id])
            && (ids == [] || t.wakeup == NextDeadline(t.queue, now + FAR_FUTURE))
  {
    if ids != [] {
      var init := ids[..|ids| - 1];
      var id := ids[|ids| - 1];
      assert id !in init;
      assert forall x :: x in ids <==> x in init || x == id;
      LapseAllEffect(m, init, unwritable, now);
    }
  }

  /** The outcome of one lapse pass over the queue and the registrations. */
  lemma {:induction false} LapsePass(m: Manager, lapsed: seq<ExecutorId>, unwritable: set<ExecutorId>, now: nat, later: nat)
    requires now <= later
    requires forall id :: id in lapsed <==> Expired(m.queue, id, now)
    requires forall i, j | 0 <= i < j < |lapsed| :: lapsed[i] != lapsed[j]
    ensures var t := LapseAll(Scan(m, now), lapsed, unwritable, later);
            && (forall id | id in m.queue && !Expired(m.queue, id, now) :: id in t.queue && t.queue[id] == m.queue[id])
            && (forall id | Expired(m.queue, id, now) && id in m.runtime && id in unwritable ::
                  id in t.runtime && id in t.queue && t.queue[id].at == later + REQUEUE_DELAY)
            && (forall id | Expired(m.queue, id, now) && !(id in m.runtime && id in unwritable) ::
                  id !in t.runtime && id !in t.queue)
            && (forall id | id in m.runtime && !Expired(m.queue, id, now) :: id in t.runtime)
            && (t.queue != map[] ==> forall id | id in t.queue :: t.wakeup <= t.queue[id].at)
            && (t.queue != map[] ==> exists id | id in t.queue :: t.queue[id].at == t.wakeup)
  {
    var s := Scan(m, now);
    forall id | id in lapsed ensures id !in s.queue {
      assert Expired(m.queue, id, now);
    }
    LapseAllEffect(s, lapsed, unwritable, later);
    var t := LapseAll(s, lapsed, unwritable, later);
    if lapsed == [] {
      assert t.wakeup == NextDeadline(t.queue, now + FAR_FUTURE);
    }
  }
}
