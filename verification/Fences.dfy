/**
 Fence safety over every run: an answer to a request of controller generation k reaches
 nobody while another generation is installed, and settles exactly its own request while k is.
 The claim rests on `Guarded`. `StepExact` says which steps keep it and hand no answer to a
 stranger, `Exactness` in Exactness.dfy that nothing weaker would do, and
 FenceCounterexamples.dfy what a step outside `Tolerated` leads to.
 */
module Fences {
  import opened Prelude
  import opened RequestId
  import opened Correlator
  import opened Bridge
  import opened Ownership
  import opened Orders

  // ---------------------------------------------------------------- the invariant

  /** Bootstrap and SDK IDs lie in `internal`, controller IDs outside. */
  ghost predicate Spaces(core: Core, flights: multiset<Flight>, internal: iset<string>) {
    && (forall k | k in core.requests :: Ctl(k.scope) <==> k.id !in internal)
    && (forall f | f in flights :: Ctl(f.scope) <==> f.key !in internal)
    && (forall x | x in core.fences :: x !in internal)
  }

  /** A controller's request on its way is fenced, or pending in its own scope. */
  predicate Guard(core: Core, f: Flight) { f.key in core.fences || PendingKey(f.scope, f.key) in core.requests }

  ghost predicate Covered(core: Core, flights: multiset<Flight>) {
    forall f | f in flights && Ctl(f.scope) :: Guard(core, f)
  }

  /** No key is on its way twice for controllers, of whatever generations. */
  ghost predicate Single(flights: multiset<Flight>) {
    && (forall f | f in flights && Ctl(f.scope) :: flights[f] == 1)
    && (forall f, g | f in flights && g in flights :: Ctl(f.scope) && Ctl(g.scope) && f.key == g.key ==> f == g)
  }

  /** The bridge is blocked, or every controller's request on its way is covered, by itself. */
  ghost predicate Guarded(core: Core, flights: multiset<Flight>) {
    core.blocked || (Covered(core, flights) && Single(flights))
  }

  ghost predicate Safe(s: Bridge, internal: iset<string>) {
    Orderly(s) && Spaces(s.core, s.flights, internal) && Guarded(s.core, s.flights)
  }

  // ---------------------------------------------------------------- what must not happen

  /** The step hands the answer to a controller's request to another controller. */
  predicate Astray(s: Bridge, a: Action) {
    && a.Answer? && a.flight in s.flights && Ctl(a.flight.scope)
    && s.core.cdp.owner.Some? && !Current(s.core, a.flight.scope)
    && Arrival(s.core, a.flight.key, a.legible, a.now).Broadcast?
  }

  // ---------------------------------------------------------------- what the environment must not do

  /** The step uses IDs of the right space: controllers outside `internal`, bridge and SDK inside. */
  ghost predicate RightSpace(a: Action, internal: iset<string>) {
    match a
    case Frame(_, id, _, _, _, _) => id.Some? ==> IDKey(id.value).0 !in internal
    case Untracked(_, id, _) => IDKey(id).0 !in internal
    case Inject(id, _, _, _, _) => id.Some? ==> IDKey(id.value).0 in internal
    case EnableRuntime(id, _, _) => IDKey(id).0 in internal
    case CancelCall(id, _) => IDKey(id).0 in internal
    case _ => true
  }

  /** A controller's request with this key is on its way. */
  ghost predicate Traveling(flights: multiset<Flight>, key: string) {
    exists f :: f in flights && Ctl(f.scope) && f.key == key
  }

  /** Entries past their deadline whose key is still on its way. */
  ghost function Overdue(core: Core, flights: multiset<Flight>, now: int): set<PendingKey> {
    set k | k in core.requests && Ctl(k.scope) && core.requests[k].expiresAt <= now && Traveling(flights, k.id)
  }

  /** A frame is tolerated unless it prunes a request on its way, or repeats one. */
  ghost predicate FrameTolerated(core: Core, flights: multiset<Flight>, sender: Sender, id: Option<Id>, now: int,
                                 subscribed: bool, delivered: bool)
  {
    Tries(core, sender, id, now, subscribed) ==>
      var key := ScopedKey(SenderScope(sender), id.value);
      && Overdue(core, flights, now) <= (if Refused(core, sender, id, now, subscribed).None? then {key} else {})
      && (Departs(core, sender, id, now, subscribed, delivered) && sender.FromController? ==> !Traveling(flights, key.id))
  }

  /** A frame without a method is tolerated if its ID is not on its way, and fenced or pending already. */
  ghost predicate UntrackedTolerated(core: Core, flights: multiset<Flight>, key: string) {
    core.blocked
    || (!Traveling(flights, key)
        && (key in core.fences || PendingKey(ControllerScope(core.cdp.generation), key) in core.requests))
  }

  /** Leaving is tolerated unless a request on its way was pruned unfenced. */
  ghost predicate LeaveTolerated(core: Core, flights: multiset<Flight>, now: int) {
    var left := InScope(Live(core.requests, now), ControllerScope(core.cdp.generation));
    Overdue(core, flights, now) == {} || |core.fences.Keys + Ids(left)| > MAX_FENCES
  }

  /**
   An answer is tolerated if it is legible and prunes no other request on its way; an
   illegible one, if its own controller is installed, or none.
   */
  ghost predicate AnswerTolerated(core: Core, flights: multiset<Flight>, f: Flight, legible: bool, now: int) {
    if legible then IsFenced(core, f.key) || Overdue(core, flights, now) <= {PendingKey(f.scope, f.key)}
    else !Ctl(f.scope) || Current(core, f.scope) || core.cdp.owner.None?
  }

  /** A response nobody waits for is tolerated unless a request with its ID is on its way. */
  ghost predicate EchoTolerated(core: Core, flights: multiset<Flight>, key: string, now: int) {
    core.blocked || (!Traveling(flights, key) && (key in core.fences || Overdue(core, flights, now) == {}))
  }

  /** The connection speaks for its side. */
  predicate Speaks(s: Bridge, c: nat) { c in s.conns && Owns(s.core, s.conns[c].kind, c, s.conns[c].generation) }

  ghost predicate Tolerated(s: Bridge, a: Action) {
    match a
    case Leave(c, now) => Speaks(s, c) && s.conns[c].kind.Cdp? ==> LeaveTolerated(s.core, s.flights, now)
    case Frame(c, id, _, now, subscribed, delivered) =>
      Speaks(s, c) ==>
        FrameTolerated(s.core, s.flights, FromController(s.conns[c].generation), id, now, subscribed, delivered)
    case Inject(id, _, now, subscribed, delivered) =>
      FrameTolerated(s.core, s.flights, FromSdk, id, now, subscribed, delivered)
    case EnableRuntime(id, now, delivered) =>
      FrameTolerated(s.core, s.flights, FromBridge, Some(id), now, true, delivered)
    case Untracked(c, id, delivered) =>
      Speaks(s, c) && delivered && s.core.debug.owner.Some? ==> UntrackedTolerated(s.core, s.flights, IDKey(id).0)
    case Answer(f, legible, now) => AnswerTolerated(s.core, s.flights, f, legible, now)
    case Echo(key, legible, now) => legible ==> EchoTolerated(s.core, s.flights, key, now)
    case CancelCall(_, now) => Overdue(s.core, s.flights, now) == {}
    case _ => true
  }

  // ---------------------------------------------------------------- pruning

  /** No request on its way loses its entry. */
  ghost predicate Kept(core: Core, flights: multiset<Flight>, table: Table) {
    forall k | k in core.requests && Ctl(k.scope) && Traveling(flights, k.id) :: k in table
  }

  /** The entry of a request on its way is that request's own. */
  lemma OwnEntry(core: Core, f: Flight, k: PendingKey)
    requires OnlyCurrent(core) && !core.blocked && k in core.requests && Ctl(k.scope) && Ctl(f.scope) && f.key == k.id
    ensures k.id !in core.fences
    ensures PendingKey(f.scope, f.key) in core.requests ==> PendingKey(f.scope, f.key) == k
  {
  }

  /** Dropping entries is harmless exactly if no request on its way loses its own. */
  lemma ShrinkExact(core: Core, flights: multiset<Flight>, table: Table)
    requires OnlyCurrent(core) && !core.blocked && Covered(core, flights)
    requires forall k | k in table :: k in core.requests
    ensures Covered(core.(requests := table), flights) <==> Kept(core, flights, table)
  {
    var core' := core.(requests := table);
    if k :| k in core.requests && Ctl(k.scope) && Traveling(flights, k.id) && k !in table {
      var f :| f in flights && Ctl(f.scope) && f.key == k.id;
      OwnEntry(core, f, k);
      assert !Guard(core', f);
    } else {
      forall f | f in flights && Ctl(f.scope) ensures Guard(core', f) {
        assert Guard(core, f) && Traveling(flights, f.key);
      }
    }
  }

  /** If the overdue entries go, and no other of a request on its way. */
  lemma KeptExact(core: Core, flights: multiset<Flight>, table: Table, now: int)
    requires forall k | k in table :: k in core.requests && core.requests[k].expiresAt > now
    requires forall k | k in core.requests && core.requests[k].expiresAt > now ::
               Ctl(k.scope) && Traveling(flights, k.id) ==> k in table
    ensures Kept(core, flights, table) <==> Overdue(core, flights, now) == {}
  {
    if k :| k in Overdue(core, flights, now) {
      assert k !in table;
    } else {
      forall k | k in core.requests && Ctl(k.scope) && Traveling(flights, k.id) ensures k in table {
        assert k !in Overdue(core, flights, now);
      }
    }
  }

  lemma PruneExact(core: Core, flights: multiset<Flight>, now: int)
    requires OnlyCurrent(core) && !core.blocked && Covered(core, flights)
    ensures Covered(core.(requests := Live(core.requests, now)), flights) <==> Overdue(core, flights, now) == {}
  {
    ShrinkExact(core, flights, Live(core.requests, now));
    KeptExact(core, flights, Live(core.requests, now), now);
  }

  /** While the bridge is blocked, no controller has anything pending. */
  lemma BlockedNotOverdue(core: Core, flights: multiset<Flight>, now: int)
    requires OnlyCurrent(core) && core.blocked
    ensures Overdue(core, flights, now) == {}
  {
  }

  // ---------------------------------------------------------------- frames

  function With(flights: multiset<Flight>, own: Flight, departs: bool): multiset<Flight> {
    if departs then flights + multiset{own} else flights
  }

  /** A further request leaves each key single exactly if its key is not on its way. */
  lemma SingleMore(flights: multiset<Flight>, own: Flight)
    requires Single(flights) && Ctl(own.scope)
    ensures Single(flights + multiset{own}) <==> !Traveling(flights, own.key)
  {
    var more := flights + multiset{own};
    assert forall f | f in flights :: f in more && more[f] == flights[f] + (if f == own then 1 else 0);
    if f :| f in flights && Ctl(f.scope) && f.key == own.key {
      assert own in more && (f == own ==> more[own] == 2);
    } else {
      assert forall f | f in more :: f in flights || f == own;
    }
  }

  lemma SingleSame(flights: multiset<Flight>, own: Flight)
    requires Single(flights) && !Ctl(own.scope)
    ensures Single(flights + multiset{own})
  {
    var more := flights + multiset{own};
    assert forall f | f in more && Ctl(f.scope) :: f in flights && more[f] == flights[f];
  }

  /** Every request on its way keeps its cover, and the new one has its own. */
  lemma EnterCovers(core: Core, flights: multiset<Flight>, key: PendingKey, p: Pending, now: int, departs: bool)
    requires Covered(core, flights) && Overdue(core, flights, now) <= {key}
    ensures Covered(Entered(core, key, p, now), With(flights, Flight(key.scope, key.id, true), departs))
  {
    var core' := Entered(core, key, p, now);
    forall f | f in With(flights, Flight(key.scope, key.id, true), departs) && Ctl(f.scope) ensures Guard(core', f) {
      if f in flights {
        assert Guard(core, f) && Traveling(flights, f.key);
        assert PendingKey(f.scope, f.key) in Overdue(core, flights, now) ==> PendingKey(f.scope, f.key) == key;
      }
    }
  }

  /** Unless one on its way is pruned. */
  lemma EnterUncovers(core: Core, flights: multiset<Flight>, key: PendingKey, p: Pending, now: int, departs: bool)
    requires OnlyCurrent(core) && !core.blocked && Covered(core, flights) && !(Overdue(core, flights, now) <= {key})
    requires Ctl(key.scope) ==> Current(core, key.scope)
    ensures !Covered(Entered(core, key, p, now), With(flights, Flight(key.scope, key.id, true), departs))
  {
    var core' := Entered(core, key, p, now);
    var k :| k in Overdue(core, flights, now) && k != key;
    var f :| f in flights && Ctl(f.scope) && f.key == k.id;
    OwnEntry(core, f, k);
    assert Guard(core, f);
    assert f in With(flights, Flight(key.scope, key.id, true), departs);
    assert !Guard(core', f);
  }

  lemma EnterExact(core: Core, flights: multiset<Flight>, key: PendingKey, p: Pending, now: int, departs: bool)
    requires OnlyCurrent(core) && !core.blocked && Covered(core, flights) && Single(flights)
    requires Ctl(key.scope) ==> Current(core, key.scope)
    ensures Guarded(Entered(core, key, p, now), With(flights, Flight(key.scope, key.id, true), departs))
            <==> Overdue(core, flights, now) <= {key} && (departs && Ctl(key.scope) ==> !Traveling(flights, key.id))
  {
    var own := Flight(key.scope, key.id, true);
    if Overdue(core, flights, now) <= {key} {
      EnterCovers(core, flights, key, p, now, departs);
    } else {
      EnterUncovers(core, flights, key, p, now, departs);
    }
    if Ctl(key.scope) {
      SingleMore(flights, own);
    } else {
      SingleSame(flights, own);
    }
  }

  lemma SendExact(core: Core, flights: multiset<Flight>, sender: Sender, id: Option<Id>, m: string, now: int,
                  subscribed: bool, delivered: bool)
    requires OrderlyCore(core) && Guarded(core, flights)
    requires sender.FromController? ==> Current(core, ControllerScope(sender.generation))
    ensures Guarded(Send(core, sender, id, m, now, subscribed), Depart(core, flights, sender, id, now, subscribed, delivered))
            <==> FrameTolerated(core, flights, sender, id, now, subscribed, delivered)
  {
    SendParts(core, sender, id, m, now, subscribed);
    if core.blocked {
      BlockedNotOverdue(core, flights, now);
    } else if Tries(core, sender, id, now, subscribed) {
      var key := ScopedKey(SenderScope(sender), id.value);
      if Refused(core, sender, id, now, subscribed).None? {
        EnterExact(core, flights, key, Pending(Request(id.value, m), now + PENDING_TTL), now,
                   Departs(core, sender, id, now, subscribed, delivered));
      } else {
        PruneExact(core, flights, now);
      }
    }
  }

  /** A frame without a method leaves everything guarded exactly if its ID is free, and fenced or pending. */
  lemma UntrackedExact(core: Core, flights: multiset<Flight>, key: string)
    requires OnlyCurrent(core) && core.cdp.owner.Some? && Guarded(core, flights)
    ensures Guarded(core, flights + multiset{Flight(ControllerScope(core.cdp.generation), key, false)})
            <==> UntrackedTolerated(core, flights, key)
  {
    var own := Flight(ControllerScope(core.cdp.generation), key, false);
    var more := flights + multiset{own};
    if !core.blocked {
      SingleMore(flights, own);
      assert own in more && forall f | f in flights :: f in more;
      assert forall f | f in more :: f in flights || f == own;
      assert Covered(core, more) <==> Guard(core, own);
    }
  }

  // ---------------------------------------------------------------- responses

  /** A request that is answered or lost leaves the rest covered and single. */
  lemma FewerFlights(core: Core, flights: multiset<Flight>, f: Flight)
    requires Covered(core, flights) && Single(flights)
    ensures Covered(core, flights - multiset{f}) && Single(flights - multiset{f})
    ensures f in flights && Ctl(f.scope) ==> !Traveling(flights - multiset{f}, f.key)
  {
    var rest := flights - multiset{f};
    assert forall g | g in rest :: g in flights && rest[g] <= flights[g];
  }

  lemma ConsumeExact(core: Core, flights: multiset<Flight>, key: string)
    requires OnlyCurrent(core) && !core.blocked && Covered(core, flights) && key in core.fences
    ensures Covered(ConsumeFence(core, key), flights) <==> !Traveling(flights, key)
  {
    var core' := ConsumeFence(core, key);
    if f :| f in flights && Ctl(f.scope) && f.key == key {
      assert PendingKey(f.scope, f.key) !in core.requests;
      assert !Guard(core', f);
    } else {
      forall f | f in flights && Ctl(f.scope) ensures Guard(core', f) {
        assert Guard(core, f) && Traveling(flights, f.key);
      }
    }
  }

  /** A tracked request of the installed controller finds its own entry, or none if that is overdue. */
  lemma FindsOwn(core: Core, flights: multiset<Flight>, f: Flight, now: int, internal: iset<string>)
    requires Spaces(core, flights, internal) && OnlyCurrent(core) && !IsFenced(core, f.key)
    requires f in flights && Ctl(f.scope) && Guard(core, f)
    ensures Current(core, f.scope)
    ensures ResolvedScope(core, f.key, now)
            == if PendingKey(f.scope, f.key) in Live(core.requests, now) then Some(f.scope) else None
  {
    assert !Ctl(BOOTSTRAP) && !Ctl(UNSCOPED);
  }

  /** What a response that is not fenced leaves of the table. */
  lemma Settled(core: Core, key: string, now: int)
    requires !IsFenced(core, key)
    ensures Respond(core, key, now) == core.(requests := Respond(core, key, now).requests)
    ensures forall k | k in core.requests && core.requests[k].expiresAt > now && k.id != key :: k in Respond(core, key, now).requests
    ensures forall k | k in Respond(core, key, now).requests :: k in core.requests && core.requests[k].expiresAt > now
    ensures core.cdp.owner.Some? && PendingKey(BOOTSTRAP, key) !in core.requests ==>
              PendingKey(ControllerScope(core.cdp.generation), key) !in Respond(core, key, now).requests
  {
  }

  /** The answered request may be overdue itself. */
  lemma AnswerOverdue(core: Core, flights: multiset<Flight>, f: Flight, now: int)
    requires OnlyCurrent(core) && !IsFenced(core, f.key) && Covered(core, flights) && Single(flights) && f in flights
    ensures Overdue(core, flights - multiset{f}, now) <= Overdue(core, flights, now)
    ensures Overdue(core, flights, now) - {PendingKey(f.scope, f.key)} <= Overdue(core, flights - multiset{f}, now)
    ensures Ctl(f.scope) ==> PendingKey(f.scope, f.key) !in Overdue(core, flights - multiset{f}, now)
  {
    var rest := flights - multiset{f};
    FewerFlights(core, flights, f);
    forall k | k in Overdue(core, rest, now) ensures k in Overdue(core, flights, now) {
      var g :| g in rest && Ctl(g.scope) && g.key == k.id;
      assert g in flights;
    }
    forall k | k in Overdue(core, flights, now) && k != PendingKey(f.scope, f.key) ensures k in Overdue(core, rest, now) {
      var g :| g in flights && Ctl(g.scope) && g.key == k.id;
      assert Guard(core, g);
      OwnEntry(core, g, k);
      assert g in rest;
    }
  }

  /** No other request on its way has an entry under the answered key. */
  lemma KeyApart(core: Core, flights: multiset<Flight>, f: Flight, internal: iset<string>)
    requires Spaces(core, flights, internal) && Covered(core, flights) && Single(flights) && f in flights
    ensures forall k | k in core.requests && Ctl(k.scope) && Traveling(flights - multiset{f}, k.id) :: k.id != f.key
    ensures !Ctl(f.scope) ==> f.key !in core.fences
  {
    FewerFlights(core, flights, f);
  }

  lemma AnswerExact(core: Core, flights: multiset<Flight>, f: Flight, now: int, internal: iset<string>)
    requires Spaces(core, flights, internal) && OnlyCurrent(core) && Guarded(core, flights) && f in flights
    ensures Guarded(Respond(core, f.key, now), flights - multiset{f})
            <==> IsFenced(core, f.key) || Overdue(core, flights, now) <= {PendingKey(f.scope, f.key)}
  {
    if !core.blocked {
      FewerFlights(core, flights, f);
      KeyApart(core, flights, f, internal);
      if f.key in core.fences {
        ConsumeExact(core, flights - multiset{f}, f.key);
      } else {
        AnswerResolved(core, flights, f, now, internal);
      }
    }
  }

  lemma AnswerResolved(core: Core, flights: multiset<Flight>, f: Flight, now: int, internal: iset<string>)
    requires Spaces(core, flights, internal) && OnlyCurrent(core) && !IsFenced(core, f.key)
    requires Covered(core, flights) && Single(flights) && f in flights
    ensures Covered(Respond(core, f.key, now), flights - multiset{f})
            <==> Overdue(core, flights, now) <= {PendingKey(f.scope, f.key)}
  {
    var rest, table := flights - multiset{f}, Respond(core, f.key, now).requests;
    FewerFlights(core, flights, f);
    KeyApart(core, flights, f, internal);
    Settled(core, f.key, now);
    ShrinkExact(core, rest, table);
    KeptExact(core, rest, table, now);
    AnswerOverdue(core, flights, f, now);
  }

  lemma EchoExact(core: Core, flights: multiset<Flight>, key: string, now: int, internal: iset<string>)
    requires Spaces(core, flights, internal) && OnlyCurrent(core) && Guarded(core, flights)
    ensures Guarded(Respond(core, key, now), flights) <==> EchoTolerated(core, flights, key, now)
  {
    if !core.blocked {
      if key in core.fences {
        ConsumeExact(core, flights, key);
      } else {
        EchoResolved(core, flights, key, now, internal);
      }
    }
  }

  lemma EchoResolved(core: Core, flights: multiset<Flight>, key: string, now: int, internal: iset<string>)
    requires Spaces(core, flights, internal) && OnlyCurrent(core) && !IsFenced(core, key) && Covered(core, flights)
    ensures Covered(Respond(core, key, now), flights) <==> !Traveling(flights, key) && Overdue(core, flights, now) == {}
  {
    var table := Respond(core, key, now).requests;
    Settled(core, key, now);
    ShrinkExact(core, flights, table);
    if f :| f in flights && Ctl(f.scope) && f.key == key {
      assert Guard(core, f);
      assert PendingKey(f.scope, f.key) !in table;
    } else {
      KeptExact(core, flights, table, now);
    }
  }

  // ---------------------------------------------------------------- cancelling, leaving

  lemma CancelExact(core: Core, flights: multiset<Flight>, id: Id, now: int, internal: iset<string>)
    requires Spaces(core, flights, internal) && OnlyCurrent(core) && Guarded(core, flights) && IDKey(id).0 in internal
    ensures Guarded(CancelRequest(core, id, now), flights) <==> Overdue(core, flights, now) == {}
  {
    if core.blocked {
      BlockedNotOverdue(core, flights, now);
    } else {
      ShrinkExact(core, flights, CancelRequest(core, id, now).requests);
      KeptExact(core, flights, CancelRequest(core, id, now).requests, now);
    }
  }

  lemma LeaveExact(core: Core, flights: multiset<Flight>, conn: nat, now: int)
    requires OrderlyCore(core) && Guarded(core, flights) && Owns(core, Cdp, conn, core.cdp.generation)
    ensures Guarded(ReleaseController(core, conn, core.cdp.generation, now), flights) <==> LeaveTolerated(core, flights, now)
  {
    var core' := ReleaseController(core, conn, core.cdp.generation, now);
    var left := InScope(Live(core.requests, now), ControllerScope(core.cdp.generation));
    LeaveParts(core, conn, now, left);
    if core.blocked {
      BlockedNotOverdue(core, flights, now);
    } else if !core'.blocked {
      LeftCovered(core, core', flights, left, now);
    }
  }

  lemma LeftCovered(core: Core, core': Core, flights: multiset<Flight>, left: set<PendingKey>, now: int)
    requires Covered(core, flights) && OnlyCurrent(core) && !core.blocked
    requires left == InScope(Live(core.requests, now), ControllerScope(core.cdp.generation))
    requires core'.requests == Without(Live(core.requests, now), left)
    requires core'.fences.Keys == core.fences.Keys + Ids(left)
    ensures Covered(core', flights) <==> Overdue(core, flights, now) == {}
  {
    if k :| k in Overdue(core, flights, now) {
      var f :| f in flights && Ctl(f.scope) && f.key == k.id;
      LeftUnfenced(core, left, k, now);
      OwnEntry(core, f, k);
      assert !Guard(core', f);
    } else {
      forall f | f in flights && Ctl(f.scope) ensures Guard(core', f) {
        assert Guard(core, f);
        LeftFenced(core, flights, f, left, now);
      }
    }
  }

  /** An overdue entry makes no fence. */
  lemma LeftUnfenced(core: Core, left: set<PendingKey>, k: PendingKey, now: int)
    requires OnlyCurrent(core) && !core.blocked && k in core.requests && Ctl(k.scope) && core.requests[k].expiresAt <= now
    requires left == InScope(Live(core.requests, now), ControllerScope(core.cdp.generation))
    ensures k.id !in core.fences && k.id !in Ids(left)
  {
    assert Current(core, k.scope);
    forall j | j in left ensures j.id != k.id {
      assert j.scope == k.scope && core.requests[j].expiresAt > now;
    }
  }

  lemma LeftFenced(core: Core, flights: multiset<Flight>, f: Flight, left: set<PendingKey>, now: int)
    requires Guard(core, f) && f in flights && Ctl(f.scope) && Overdue(core, flights, now) == {}
    requires OnlyCurrent(core) && left == InScope(Live(core.requests, now), ControllerScope(core.cdp.generation))
    ensures f.key in core.fences.Keys + Ids(left)
  {
    var k := PendingKey(f.scope, f.key);
    if k in core.requests {
      assert Traveling(flights, k.id);
      assert k !in Overdue(core, flights, now);
      assert k in left;
    }
  }

  // ---------------------------------------------------------------- installing, losing, moving

  /** A newly installed controller has nothing pending and nothing on its way, and changes no cover. */
  lemma InstallController(core: Core, flights: multiset<Flight>, conn: nat)
    requires OrderlyCore(core) && AllDated(core, flights) && Guarded(core, flights) && CanInstall(core, Cdp)
    ensures var core' := Install(core, Cdp, conn);
            && Guarded(core', flights)
            && (forall k | k in core'.requests :: !Ctl(k.scope))
            && (forall f | f in flights :: !Current(core', f.scope))
            && (!core'.blocked ==> forall f | f in flights && Ctl(f.scope) :: f.key in core'.fences)
  {
    InstallOrderly(core, flights, Cdp, conn);
    var core' := Install(core, Cdp, conn);
    SameGuarded(core, core', flights);
    if !core.blocked {
      forall f | f in flights && Ctl(f.scope) ensures f.key in core.fences {
        assert Guard(core, f);
      }
    }
  }

  /** Without an upstream nothing is on its way, so a new one starts without fences. */
  lemma InstallUpstream(core: Core, flights: multiset<Flight>, conn: nat)
    requires OrderlyCore(core) && AllDated(core, flights) && Guarded(core, flights)
    ensures Guarded(Install(core, Upstream, conn), flights)
    ensures CanInstall(core, Upstream) ==> flights == multiset{} && Install(core, Upstream, conn).fences == map[]
  {
    InstallOrderly(core, flights, Upstream, conn);
    if !CanInstall(core, Upstream) {
      SameGuarded(core, Install(core, Upstream, conn), flights);
    }
  }

  /** Owners and flags do not matter to the cover. */
  lemma SameGuarded(core: Core, core': Core, flights: multiset<Flight>)
    requires Guarded(core, flights)
    requires core'.requests == core.requests && core'.fences == core.fences && core'.blocked == core.blocked
    ensures Guarded(core', flights)
  {
    if !core.blocked {
      forall f | f in flights && Ctl(f.scope) ensures Guard(core', f) {
        assert Guard(core, f);
      }
    }
  }

  // ---------------------------------------------------------------- the two spaces of IDs

  lemma FewerSpaces(core: Core, core': Core, flights: multiset<Flight>, flights': multiset<Flight>, internal: iset<string>)
    requires Spaces(core, flights, internal)
    requires core'.requests.Keys <= core.requests.Keys && core'.fences.Keys <= core.fences.Keys
    requires forall f | f in flights' :: f in flights
    ensures Spaces(core', flights', internal)
  {
    forall k | k in core'.requests ensures Ctl(k.scope) <==> k.id !in internal {
      assert k in core.requests;
    }
  }

  lemma SendSpaces(core: Core, flights: multiset<Flight>, sender: Sender, id: Option<Id>, m: string, now: int,
                   subscribed: bool, delivered: bool, internal: iset<string>)
    requires Spaces(core, flights, internal)
    requires id.Some? ==> (sender.FromController? <==> IDKey(id.value).0 !in internal)
    ensures Spaces(Send(core, sender, id, m, now, subscribed), Depart(core, flights, sender, id, now, subscribed, delivered), internal)
  {
    SendParts(core, sender, id, m, now, subscribed);
    var core' := Send(core, sender, id, m, now, subscribed);
    forall k | k in core'.requests ensures Ctl(k.scope) <==> k.id !in internal {
      assert k in core.requests || (id.Some? && k == ScopedKey(SenderScope(sender), id.value));
    }
  }

  lemma LeaveSpaces(core: Core, flights: multiset<Flight>, conn: nat, now: int, internal: iset<string>)
    requires Spaces(core, flights, internal) && Sized(core) && Owns(core, Cdp, conn, core.cdp.generation)
    ensures Spaces(ReleaseController(core, conn, core.cdp.generation, now), flights, internal)
  {
    var core' := ReleaseController(core, conn, core.cdp.generation, now);
    var left := InScope(Live(core.requests, now), ControllerScope(core.cdp.generation));
    LeaveParts(core, conn, now, left);
    forall x | x in core'.fences ensures x !in internal {
      if x in Ids(left) {
        var k :| k in left && k.id == x;
        assert k in core.requests && Ctl(k.scope);
      }
    }
    forall k | k in core'.requests ensures Ctl(k.scope) <==> k.id !in internal {
      assert k in core.requests;
    }
  }

  lemma FrameSpaces(s: Bridge, a: Action, internal: iset<string>)
    requires Spaces(s.core, s.flights, internal) && Enabled(s, a) && RightSpace(a, internal)
    requires a.Frame? || a.Inject? || a.EnableRuntime? || a.Untracked?
    ensures Spaces(Next(s, a).core, Next(s, a).flights, internal)
  {
    match a
    case Frame(c, id, m, now, ok, delivered) =>
      SendSpaces(s.core, s.flights, FromController(s.conns[c].generation), id, m, now, ok, delivered, internal);
    case Inject(id, m, now, ok, delivered) => SendSpaces(s.core, s.flights, FromSdk, id, m, now, ok, delivered, internal);
    case EnableRuntime(id, now, delivered) =>
      SendSpaces(s.core, s.flights, FromBridge, Some(id), "Runtime.enable", now, true, delivered, internal);
    case Untracked(c, id, delivered) =>
      assert forall f | f in Next(s, a).flights :: f in s.flights || f == Flight(ControllerScope(s.conns[c].generation), IDKey(id).0, false);
  }

  lemma StepKeepsSpaces(s: Bridge, a: Action, internal: iset<string>)
    requires Orderly(s) && Spaces(s.core, s.flights, internal) && Enabled(s, a) && RightSpace(a, internal)
    ensures Spaces(Next(s, a).core, Next(s, a).flights, internal)
  {
    var s' := Next(s, a);
    if OnlyShrinks(a) {
      QuietShrinks(s, a);
      FewerSpaces(s.core, s'.core, s.flights, s'.flights, internal);
    } else if a.BecomeOwner? {
      FewerSpaces(s.core, s'.core, s.flights, s'.flights, internal);
    } else if a.Leave? {
      assert Reflected(s.core, a.conn, s.conns[a.conn]);
      if s.conns[a.conn].kind.Cdp? {
        LeaveSpaces(s.core, s.flights, a.conn, a.now, internal);
      } else {
        FewerSpaces(s.core, s'.core, s.flights, s'.flights, internal);
      }
    } else {
      FrameSpaces(s, a, internal);
    }
  }

  // ---------------------------------------------------------------- steps and runs

  lemma FrameExact(s: Bridge, a: Action, internal: iset<string>)
    requires Safe(s, internal) && Enabled(s, a) && (a.Frame? || a.Inject? || a.EnableRuntime? || a.Untracked?)
    ensures Guarded(Next(s, a).core, Next(s, a).flights) <==> Tolerated(s, a)
  {
    match a
    case Frame(c, id, m, now, ok, delivered) =>
      assert Reflected(s.core, c, s.conns[c]);
      SendExact(s.core, s.flights, FromController(s.conns[c].generation), id, m, now, ok, delivered);
    case Inject(id, m, now, ok, delivered) => SendExact(s.core, s.flights, FromSdk, id, m, now, ok, delivered);
    case EnableRuntime(id, now, delivered) =>
      SendExact(s.core, s.flights, FromBridge, Some(id), "Runtime.enable", now, true, delivered);
    case Untracked(c, id, delivered) =>
      assert Reflected(s.core, c, s.conns[c]);
      UntrackedExact(s.core, s.flights, IDKey(id).0);
  }

  lemma ResponseExact(s: Bridge, a: Action, internal: iset<string>)
    requires Safe(s, internal) && Enabled(s, a) && RightSpace(a, internal) && (a.Echo? || a.CancelCall?)
    ensures Guarded(Next(s, a).core, Next(s, a).flights) <==> Tolerated(s, a)
  {
    match a
    case Echo(key, legible, now) =>
      if legible {
        EchoExact(s.core, s.flights, key, now, internal);
      }
    case CancelCall(id, now) => CancelExact(s.core, s.flights, id, now, internal);
  }

  /** An answer keeps the cover and reaches no stranger exactly if it is tolerated. */
  lemma AnswerStepExact(s: Bridge, a: Action, internal: iset<string>)
    requires Safe(s, internal) && Enabled(s, a) && a.Answer?
    ensures Guarded(Next(s, a).core, Next(s, a).flights) && !Astray(s, a) <==> Tolerated(s, a)
  {
    var f := a.flight;
    if a.legible {
      AnswerExact(s.core, s.flights, f, a.now, internal);
      if Ctl(f.scope) && !IsFenced(s.core, f.key) {
        FindsOwn(s.core, s.flights, f, a.now, internal);
      }
    } else if !s.core.blocked {
      FewerFlights(s.core, s.flights, f);
    }
  }

  lemma LeaveStepExact(s: Bridge, a: Action, internal: iset<string>)
    requires Safe(s, internal) && Enabled(s, a) && a.Leave?
    ensures Guarded(Next(s, a).core, Next(s, a).flights) <==> Tolerated(s, a)
  {
    var c := a.conn;
    assert Reflected(s.core, c, s.conns[c]);
    if s.conns[c].kind.Cdp? {
      LeaveExact(s.core, s.flights, c, a.now);
    }
  }

  lemma InstallKeeps(s: Bridge, a: Action, internal: iset<string>)
    requires Safe(s, internal) && Enabled(s, a) && a.BecomeOwner?
    ensures Guarded(Next(s, a).core, Next(s, a).flights)
  {
    if s.conns[a.conn].kind.Upstream? {
      InstallUpstream(s.core, s.flights, a.conn);
    } else {
      SameGuarded(s.core, Next(s, a).core, s.flights);
    }
  }

  /** At the end of Close both owners are gone, and with them every request. */
  lemma ClearKeeps(s: Bridge, internal: iset<string>)
    requires Safe(s, internal) && Enabled(s, FinalClear)
    ensures Guarded(Next(s, FinalClear).core, s.flights)
  {
    assert s.core.debug.owner.None?;
    assert forall f | f in s.flights :: Dated(s.core, f);
  }

  lemma ClaimKeeps(s: Bridge, a: Action)
    requires Guarded(s.core, s.flights) && Enabled(s, a) && (a.Claim? || a.UpgradeFails?)
    ensures Guarded(Next(s, a).core, Next(s, a).flights)
  {
    SameGuarded(s.core, Next(s, a).core, s.flights);
  }

  lemma CloseKeeps(s: Bridge, a: Action)
    requires Guarded(s.core, s.flights) && Enabled(s, a) && (a.FinishLeaving? || a.BeginClose?)
    ensures Guarded(Next(s, a).core, Next(s, a).flights)
  {
    SameGuarded(s.core, Next(s, a).core, s.flights);
  }

  /** A step keeps the invariant and hands no answer to a stranger exactly when it is tolerated. */
  lemma StepExact(s: Bridge, a: Action, internal: iset<string>)
    requires Safe(s, internal) && Enabled(s, a) && RightSpace(a, internal)
    ensures Safe(Next(s, a), internal) && !Astray(s, a) <==> Tolerated(s, a)
  {
    StepKeepsOrderly(s, a);
    StepKeepsSpaces(s, a, internal);
    if a.Frame? || a.Inject? || a.EnableRuntime? || a.Untracked? {
      FrameExact(s, a, internal);
    } else if a.Answer? {
      AnswerStepExact(s, a, internal);
    } else if a.Echo? || a.CancelCall? {
      ResponseExact(s, a, internal);
    } else if a.Leave? {
      LeaveStepExact(s, a, internal);
    } else if a.BecomeOwner? {
      InstallKeeps(s, a, internal);
    } else if a.FinalClear? {
      ClearKeeps(s, internal);
    } else if a.Claim? || a.UpgradeFails? {
      ClaimKeeps(s, a);
    } else {
      CloseKeeps(s, a);
    }
  }

  /** Every step of the run uses the right IDs and is tolerated. */
  ghost predicate Fair(s: Bridge, steps: seq<Action>, internal: iset<string>)
    requires Legal(s, steps)
    decreases |steps|
  {
    steps == [] ||
    (RightSpace(steps[0], internal) && Tolerated(s, steps[0]) && Fair(Next(s, steps[0]), steps[1..], internal))
  }

  /** No step of the run hands an answer to a stranger. */
  predicate NoneAstray(s: Bridge, steps: seq<Action>)
    requires Legal(s, steps)
    decreases |steps|
  {
    steps == [] || (!Astray(s, steps[0]) && NoneAstray(Next(s, steps[0]), steps[1..]))
  }

  lemma {:induction false} RunSafe(s: Bridge, steps: seq<Action>, internal: iset<string>)
    requires Safe(s, internal) && Legal(s, steps) && Fair(s, steps, internal)
    ensures Safe(Run(s, steps), internal) && NoneAstray(s, steps)
    decreases |steps|
  {
    if steps != [] {
      StepExact(s, steps[0], internal);
      RunSafe(Next(s, steps[0]), steps[1..], internal);
    }
  }

  lemma InitiallySafe(internal: iset<string>)
    ensures Safe(INITIAL, internal)
  {
    InitiallyOwned();
  }

  /** Fence safety: a fair run hands no answer to a controller's request to another controller. */
  lemma FenceSafety(steps: seq<Action>, internal: iset<string>)
    requires Legal(INITIAL, steps) && Fair(INITIAL, steps, internal)
    ensures NoneAstray(INITIAL, steps) && Safe(Run(INITIAL, steps), internal)
  {
    InitiallySafe(internal);
    RunSafe(INITIAL, steps, internal);
  }

  /**
   What becomes of each answer after a fair run. A legible one settles exactly its own entry
   and is passed on if its controller is installed and the table took the request; it is
   dropped if that controller is not installed, whether another is or none.
   */
  lemma AnswersSettle(steps: seq<Action>, internal: iset<string>, f: Flight, now: int)
    requires Legal(INITIAL, steps) && Fair(INITIAL, steps, internal)
    ensures var s := Run(INITIAL, steps);
            f in s.flights && Ctl(f.scope) ==>
              && (Current(s.core, f.scope) && f.tracked ==>
                    OutcomeOf(s.core, f.key, now)
                    == Broadcast(if PendingKey(f.scope, f.key) in Live(s.core.requests, now) then Some(f.scope) else None))
              && (!Current(s.core, f.scope) ==> OutcomeOf(s.core, f.key, now) == Fenced)
  {
    FenceSafety(steps, internal);
    var s := Run(INITIAL, steps);
    if f in s.flights && Ctl(f.scope) && !IsFenced(s.core, f.key) {
      FindsOwn(s.core, s.flights, f, now, internal);
    }
    if f in s.flights && Current(s.core, f.scope) {
      assert Dated(s.core, f);
    }
  }
}
