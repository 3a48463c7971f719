/**
 The pending-request table of internal/cdp/correlator.go. The source drops expired entries
 only when an operation runs; `LazyIsEager` shows that nobody can tell.
 */
module Correlator {
  import opened Prelude
  import opened RequestId

  datatype Scope = Scope(owner: string, generation: nat)

  datatype PendingKey = PendingKey(scope: Scope, id: string)

  datatype Request = Request(id: Id, method_: string)

  datatype Pending = Pending(request: Request, expiresAt: int)

  type Table = map<PendingKey, Pending>

  function ScopedKey(scope: Scope, id: Id): PendingKey { PendingKey(scope, IDKey(id).0) }

  /** Every entry sits under the key of its own request. */
  predicate Keyed(t: Table) {
    forall k | k in t :: k.id == IDKey(t[k].request.id).0
  }

  /** The entries whose deadline has not been reached. */
  function Live(t: Table, now: int): Table {
    map k | k in t && t[k].expiresAt > now :: t[k]
  }

  predicate Fresh(t: Table, now: int) {
    forall k | k in t :: t[k].expiresAt > now
  }

  lemma FreshLive(t: Table, now: int)
    requires Fresh(t, now)
    ensures Live(t, now) == t
  {
  }

  function InScope(t: Table, scope: Scope): set<PendingKey> {
    set k | k in t && k.scope == scope
  }

  // ---------------------------------------------------------------- operations on a table without expired entries

  predicate Full(t: Table, key: PendingKey, max: nat) { key !in t && |t| >= max }

  function Add(t: Table, max: nat, scope: Scope, request: Request, expiresAt: int): Table {
    var key := ScopedKey(scope, request.id);
    if Full(t, key, max) then t else t[key := Pending(request, expiresAt)]
  }

  function Without(t: Table, keys: set<PendingKey>): Table { t - keys }

  // ---------------------------------------------------------------- the class

  class Correlator {
    var pending: Table
    const maxPending: nat
    const pendingTTL: nat

    ghost predicate Valid()
      reads this
    {
      Keyed(pending) && |pending| <= maxPending
    }

    /** NewCorrelatorWithOptions: limits outside [1, 65536] and TTLs below 1 take the defaults. */
    constructor (max: int, ttl: int)
      ensures Valid() && pending == map[]
      ensures maxPending == (if max <= 0 || max > 65536 then 4096 else max)
      ensures pendingTTL == (if ttl <= 0 then 300_000_000_000 else ttl)
    {
      pending := map[];
      maxPending := if max <= 0 || max > 65536 then 4096 else max;
      pendingTTL := if ttl <= 0 then 300_000_000_000 else ttl;
    }

    /** pruneExpiredLocked. */
    method PruneExpired(now: int) returns (pruned: nat)
      requires Valid()
      modifies this
      ensures Valid()
      ensures pending == Live(old(pending), now)
      ensures pruned == |old(pending)| - |pending|
    {
      pruned := 0;
      ghost var all := pending;
      var todo := pending.Keys;
      while todo != {}
        invariant Pruning(all, pending, todo, now)
        invariant pruned == |all| - |pending|
        decreases todo
      {
        var k :| k in todo;
        PruneTurn(all, pending, todo, now, k);
        todo := todo - {k};
        if !(pending[k].expiresAt > now) {
          pending := pending - {k};
          pruned := pruned + 1;
        }
      }
      SmallerTable(pending, all);
    }

    /** TryAddFor. */
    method TryAddFor(now: int, scope: Scope, request: Request) returns (ok: bool)
      requires Valid()
      modifies this
      ensures Valid()
      ensures ok == !Full(Live(old(pending), now), ScopedKey(scope, request.id), maxPending)
      ensures pending == Add(Live(old(pending), now), maxPending, scope, request, now + pendingTTL)
    {
      var _ := PruneExpired(now);
      var key := ScopedKey(scope, request.id);
      if key !in pending && |pending| >= maxPending {
        return false;
      }
      ghost var before := pending;
      pending := pending[key := Pending(request, now + pendingTTL)];
      assert pending.Keys == before.Keys + {key};
      return true;
    }

    /** ResolveFor. */
    method ResolveFor(now: int, scope: Scope, id: Id) returns (request: Option<Request>)
      requires Valid()
      modifies this
      ensures Valid()
      ensures var live, key := Live(old(pending), now), ScopedKey(scope, id);
              && pending == Without(live, {key})
              && request == if key in live then Some(live[key].request) else None
    {
      var _ := PruneExpired(now);
      var key := ScopedKey(scope, id);
      if key !in pending {
        assert pending - {key} == pending;
        return None;
      }
      request := Some(pending[key].request);
      SmallerTable(pending - {key}, pending);
      pending := pending - {key};
    }

    /** CancelFor. */
    method CancelFor(now: int, scope: Scope, id: Id) returns (removed: bool)
      requires Valid()
      modifies this
      ensures Valid()
      ensures var live, key := Live(old(pending), now), ScopedKey(scope, id);
              pending == Without(live, {key}) && removed == (key in live)
    {
      var r := ResolveFor(now, scope, id);
      removed := r.Some?;
    }

    /** DrainFor: each request of the scope once, in no particular order. */
    method DrainFor(now: int, scope: Scope) returns (drained: seq<Request>)
      requires Valid()
      modifies this
      ensures Valid()
      ensures var live := Live(old(pending), now);
              pending == Without(live, InScope(live, scope)) && IsDrain(live, scope, drained)
    {
      var _ := PruneExpired(now);
      var left;
      left, drained := DrainTable(pending, scope);
      SmallerTable(left, pending);
      pending := left;
    }

    /** Drain: every request once, in no particular order; keys says under which key each was pending. */
    method Drain(now: int) returns (drained: seq<Request>, ghost keys: seq<PendingKey>)
      requires Valid()
      modifies this
      ensures Valid() && pending == map[]
      ensures Lists(Live(old(pending), now), keys, drained) && |drained| == |Live(old(pending), now)|
    {
      var _ := PruneExpired(now);
      drained, keys := ListTable(pending);
      pending := map[];
    }

    /** Clear. */
    method Clear(now: int) returns (n: nat)
      requires Valid()
      modifies this
      ensures Valid() && pending == map[] && n == |Live(old(pending), now)|
    {
      var drained, _ := Drain(now);
      n := |drained|;
    }

    /** LenFor. */
    method LenFor(now: int, scope: Scope) returns (count: nat)
      requires Valid()
      modifies this
      ensures Valid() && pending == Live(old(pending), now) && count == |InScope(pending, scope)|
    {
      var _ := PruneExpired(now);
      count := 0;
      var todo := pending.Keys;
      ghost var seen: set<PendingKey> := {};
      while todo != {}
        invariant todo <= pending.Keys && seen == set k | k in pending && k !in todo && k.scope == scope
        invariant count == |seen|
        decreases todo
      {
        var k :| k in todo;
        todo := todo - {k};
        if k.scope == scope {
          count := count + 1;
          seen := seen + {k};
        }
      }
      assert seen == InScope(pending, scope);
    }
  }

  /** The loop of DrainFor over the table it is given. */
  method DrainTable(table: Table, scope: Scope) returns (left: Table, drained: seq<Request>)
    requires Keyed(table)
    ensures left == Without(table, InScope(table, scope)) && IsDrain(table, scope, drained)
  {
    left, drained := table, [];
    ghost var done: Table := map[];
    var todo := table.Keys;
    while todo != {}
      invariant todo <= table.Keys && Portion(done, table, todo)
      invariant left == Without(table, InScope(done, scope))
      invariant IsDrain(done, scope, drained)
      decreases todo
    {
      var k :| k in todo;
      PortionMore(done, table, todo, k);
      todo := todo - {k};
      if k.scope == scope {
        assert k == ScopedKey(scope, table[k].request.id);
        DrainGrows(done, scope, drained, k, table[k]);
        WithoutMore(table, InScope(done, scope), k);
        drained := drained + [table[k].request];
        left := left - {k};
      } else {
        DrainSkips(done, scope, drained, k, table[k]);
      }
      done := done[k := table[k]];
    }
    assert done == table;
  }

  /** The part of the table outside todo. */
  ghost predicate Portion(part: Table, table: Table, todo: set<PendingKey>) {
    part.Keys == table.Keys - todo && forall k | k in part :: part[k] == table[k]
  }

  lemma PortionMore(part: Table, table: Table, todo: set<PendingKey>, k: PendingKey)
    requires Portion(part, table, todo) && k in todo && todo <= table.Keys
    ensures k !in part && Portion(part[k := table[k]], table, todo - {k})
  {
  }

  /** The requests of the table, one for each key. */
  ghost predicate Lists(t: Table, keys: seq<PendingKey>, requests: seq<Request>) {
    && |keys| == |requests|
    && (forall k | k in t :: k in keys)
    && (forall i, j | 0 <= i < j < |keys| :: keys[i] != keys[j])
    && (forall i | 0 <= i < |keys| :: keys[i] in t && requests[i] == t[keys[i]].request)
  }

  /** The loop of Drain. */
  method ListTable(table: Table) returns (drained: seq<Request>, ghost keys: seq<PendingKey>)
    ensures Lists(table, keys, drained) && |drained| == |table|
  {
    drained, keys := [], [];
    var todo := table.Keys;
    while todo != {}
      invariant todo <= table.Keys && |drained| + |todo| == |table.Keys|
      invariant |keys| == |drained|
      invariant forall k | k in table :: k in todo || k in keys
      invariant forall i, j | 0 <= i < j < |keys| :: keys[i] != keys[j]
      invariant forall i | 0 <= i < |keys| :: keys[i] in table && keys[i] !in todo && drained[i] == table[keys[i]].request
      decreases todo
    {
      var k :| k in todo;
      todo := todo - {k};
      drained, keys := drained + [table[k].request], keys + [k];
    }
  }

  /** Of all, the expired entries outside todo are gone from t. */
  ghost predicate Pruning(all: Table, t: Table, todo: set<PendingKey>, now: int) {
    && todo <= t.Keys <= all.Keys && (forall k | k in t :: t[k] == all[k])
    && forall k | k in all && k !in todo :: k in t <==> all[k].expiresAt > now
  }

  lemma PruneTurn(all: Table, t: Table, todo: set<PendingKey>, now: int, k: PendingKey)
    requires Pruning(all, t, todo, now) && k in todo
    ensures Pruning(all, if t[k].expiresAt > now then t else t - {k}, todo - {k}, now)
    ensures |t - {k}| == |t| - 1
  {
    assert t.Keys == (t - {k}).Keys + {k};
  }

  lemma SmallerTable(s: Table, t: Table)
    requires s.Keys <= t.Keys
    ensures |s| <= |t|
  {
    assert |t.Keys| == |t.Keys - s.Keys| + |s.Keys|;
  }

  function KeysOf(scope: Scope, requests: seq<Request>): set<PendingKey> {
    if requests == [] then {}
    else KeysOf(scope, requests[..|requests| - 1]) + {ScopedKey(scope, requests[|requests| - 1].id)}
  }

  /** drained lists the requests of the scope's entries, each once. */
  ghost predicate IsDrain(t: Table, scope: Scope, drained: seq<Request>) {
    && KeysOf(scope, drained) == InScope(t, scope)
    && |drained| == |InScope(t, scope)|
    && forall r | r in drained :: ScopedKey(scope, r.id) in t && t[ScopedKey(scope, r.id)].request == r
  }

  lemma WithoutMore(t: Table, keys: set<PendingKey>, k: PendingKey)
    ensures Without(t, keys) - {k} == Without(t, keys + {k})
  {
  }

  lemma DrainGrows(t: Table, scope: Scope, drained: seq<Request>, k: PendingKey, p: Pending)
    requires IsDrain(t, scope, drained) && k !in t && k == ScopedKey(scope, p.request.id)
    ensures IsDrain(t[k := p], scope, drained + [p.request])
    ensures InScope(t[k := p], scope) == InScope(t, scope) + {k}
  {
    var more := drained + [p.request];
    assert more[..|more| - 1] == drained;
    assert InScope(t[k := p], scope) == InScope(t, scope) + {k};
  }

  lemma DrainSkips(t: Table, scope: Scope, drained: seq<Request>, k: PendingKey, p: Pending)
    requires IsDrain(t, scope, drained) && k !in t && k.scope != scope
    ensures IsDrain(t[k := p], scope, drained)
    ensures InScope(t[k := p], scope) == InScope(t, scope)
  {
    assert InScope(t[k := p], scope) == InScope(t, scope);
  }

  // ---------------------------------------------------------------- lazy expiry refines eager expiry

  datatype Op =
    | TryAdd(scope: Scope, request: Request)
    | Resolve(scope: Scope, id: Id)
    | Cancel(scope: Scope, id: Id)
    | DrainScope(scope: Scope)
    | DrainAll
    | Len
    | LenScope(scope: Scope)

  /** What the caller sees. Drained requests come in no order, so they are shown as table entries. */
  datatype Answer = Flag(ok: bool) | Found(request: Option<Request>) | Entries(entries: Table) | Count(n: nat)

  /** Expiry is either checked by an operation or happens on its own as the clock moves. */
  datatype Event = Tick(now: int) | Do(op: Op)

  /** One operation on a table without expired entries. */
  function Perform(t: Table, now: int, max: nat, ttl: nat, op: Op): (Table, Answer) {
    match op
    case TryAdd(scope, request) =>
      (Add(t, max, scope, request, now + ttl), Flag(!Full(t, ScopedKey(scope, request.id), max)))
    case Resolve(scope, id) =>
      var key := ScopedKey(scope, id);
      (Without(t, {key}), Found(if key in t then Some(t[key].request) else None))
    case Cancel(scope, id) => (Without(t, {ScopedKey(scope, id)}), Flag(ScopedKey(scope, id) in t))
    case DrainScope(scope) =>
      (Without(t, InScope(t, scope)), Entries(map k | k in t && k.scope == scope :: t[k]))
    case DrainAll => (map[], Entries(t))
    case Len => (t, Count(|t|))
    case LenScope(scope) => (t, Count(|InScope(t, scope)|))
  }

  /** The source: a tick changes nothing but the clock, an operation prunes first. */
  function LazyRun(t: Table, clock: int, max: nat, ttl: nat, events: seq<Event>): seq<Answer>
    decreases |events|
  {
    if events == [] then []
    else
      match events[0]
      case Tick(now) => LazyRun(t, now, max, ttl, events[1..])
      case Do(op) =>
        var (t', answer) := Perform(Live(t, clock), clock, max, ttl, op);
        [answer] + LazyRun(t', clock, max, ttl, events[1..])
  }

  /** A table that drops entries as their deadline is reached, and whose operations never prune. */
  function EagerRun(t: Table, clock: int, max: nat, ttl: nat, events: seq<Event>): seq<Answer>
    decreases |events|
  {
    if events == [] then []
    else
      match events[0]
      case Tick(now) => EagerRun(Live(t, now), now, max, ttl, events[1..])
      case Do(op) =>
        var (t', answer) := Perform(t, clock, max, ttl, op);
        [answer] + EagerRun(t', clock, max, ttl, events[1..])
  }

  /** The clock never goes back. */
  predicate Forward(clock: int, events: seq<Event>)
    decreases |events|
  {
    events == [] ||
    match events[0]
    case Tick(now) => clock <= now && Forward(now, events[1..])
    case Do(_) => Forward(clock, events[1..])
  }

  lemma LiveTwice(t: Table, a: int, b: int)
    requires a <= b
    ensures Live(Live(t, a), b) == Live(t, b)
  {
  }

  lemma PerformFresh(t: Table, now: int, max: nat, ttl: nat, op: Op)
    requires Fresh(t, now) && ttl > 0
    ensures Fresh(Perform(t, now, max, ttl, op).0, now)
  {
  }

  /** With a clock that never goes back, lazy and eager expiry give the same answers. */
  lemma {:induction false} LazyIsEager(t: Table, clock: int, max: nat, ttl: nat, events: seq<Event>)
    requires Forward(clock, events) && ttl > 0
    ensures LazyRun(t, clock, max, ttl, events) == EagerRun(Live(t, clock), clock, max, ttl, events)
    decreases |events|
  {
    if events != [] {
      match events[0]
      case Tick(now) =>
        LiveTwice(t, clock, now);
        LazyIsEager(t, now, max, ttl, events[1..]);
      case Do(op) =>
        var t' := Perform(Live(t, clock), clock, max, ttl, op).0;
        PerformFresh(Live(t, clock), clock, max, ttl, op);
        FreshLive(t', clock);
        LazyIsEager(t', clock, max, ttl, events[1..]);
    }
  }

  /** t' is t with entries only of the given scope gained, changed or lost, and no more than max in all. */
  ghost predicate Isolated(t: Table, t': Table, max: nat, scope: Scope) {
    |t'| <= max && forall k: PendingKey | k.scope != scope :: (k in t' <==> k in t) && (k in t ==> t'[k] == t[k])
  }

  lemma AddIsolated(t: Table, max: nat, scope: Scope, request: Request, expiresAt: int)
    requires |t| <= max
    ensures Isolated(t, Add(t, max, scope, request, expiresAt), max, scope)
  {
    SizeMore(t, ScopedKey(scope, request.id), Pending(request, expiresAt));
  }

  lemma SizeMore(t: Table, key: PendingKey, p: Pending)
    ensures |t[key := p]| == if key in t then |t| else |t| + 1
  {
    assert t[key := p].Keys == t.Keys + {key};
  }

  lemma WithoutIsolated(t: Table, max: nat, scope: Scope, keys: set<PendingKey>)
    requires |t| <= max && forall k | k in keys :: k.scope == scope
    ensures Isolated(t, Without(t, keys), max, scope)
  {
    SmallerTable(Without(t, keys), t);
  }

  /** An operation in one scope leaves the entries of every other scope as they were, and keeps the limit. */
  lemma PerformIsolated(t: Table, now: int, max: nat, ttl: nat, op: Op)
    requires |t| <= max && (op.TryAdd? || op.Resolve? || op.Cancel? || op.DrainScope? || op.LenScope?)
    ensures Isolated(t, Perform(t, now, max, ttl, op).0, max, op.scope)
  {
    match op
    case TryAdd(scope, request) => AddIsolated(t, max, scope, request, now + ttl);
    case Resolve(scope, id) => WithoutIsolated(t, max, scope, {ScopedKey(scope, id)});
    case Cancel(scope, id) => WithoutIsolated(t, max, scope, {ScopedKey(scope, id)});
    case DrainScope(scope) => WithoutIsolated(t, max, scope, InScope(t, scope));
    case _ =>
  }
}
