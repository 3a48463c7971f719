/**
 Nothing weaker than `Guarded` would do. From any state a run can reach in which it does not
 hold, while the app is not closing and no deadline has passed, some continuation of tolerated
 steps hands a legible answer to a controller that did not ask.
 */
module Exactness {
  import opened Prelude
  import opened RequestId
  import opened Correlator
  import opened Bridge
  import opened Ownership
  import opened Orders
  import opened Fences

  /** A continuation of tolerated steps, the last of which hands f's answer to a stranger. */
  ghost predicate Harmful(s: Bridge, steps: seq<Action>, f: Flight, now: int, internal: iset<string>) {
    && Legal(s, steps) && Fair(s, steps, internal)
    && Astray(Run(s, steps), Answer(f, true, now)) && Tolerated(Run(s, steps), Answer(f, true, now))
  }

  /** What is known of a reachable state of an open, unblocked bridge none of whose entries is past its deadline. */
  ghost predicate Ready(s: Bridge, now: int, internal: iset<string>) {
    Orderly(s) && Spaces(s.core, s.flights, internal) && !s.core.closing && !s.core.blocked && Fresh(s.core.requests, now)
  }

  predicate Exposed(s: Bridge, f: Flight) { f in s.flights && Ctl(f.scope) && !Guard(s.core, f) }

  lemma First(s: Bridge, a: Action, rest: seq<Action>, f: Flight, now: int, internal: iset<string>)
    requires Enabled(s, a) && RightSpace(a, internal) && Tolerated(s, a) && Harmful(Next(s, a), rest, f, now, internal)
    ensures Harmful(s, [a] + rest, f, now, internal)
  {
    assert ([a] + rest)[0] == a && ([a] + rest)[1..] == rest;
  }

  lemma NothingOverdue(core: Core, flights: multiset<Flight>, now: int)
    requires Fresh(core.requests, now)
    ensures Overdue(core, flights, now) == {}
  {
  }

  // ---------------------------------------------------------------- an exposed request, and another controller

  lemma Strike(s: Bridge, f: Flight, now: int, internal: iset<string>)
    requires Ready(s, now, internal) && Exposed(s, f) && s.core.cdp.owner.Some? && !Current(s.core, f.scope)
    ensures Harmful(s, [], f, now, internal)
  {
    NothingOverdue(s.core, s.flights, now);
    assert Run(s, []) == s;
    assert PendingKey(BOOTSTRAP, f.key) !in s.core.requests;
  }

  // ---------------------------------------------------------------- an exposed request, and no controller

  lemma {:induction false} Beyond(conns: map<nat, Conn>) returns (n: nat)
    ensures n !in conns && forall c | c in conns :: c < n
    decreases |conns|
  {
    n := 0;
    if conns != map[] {
      var c :| c in conns;
      var rest := conns - {c};
      assert conns.Keys == rest.Keys + {c};
      n := Beyond(rest);
      if c >= n {
        n := c + 1;
      }
    }
  }

  /** The steps of connecting touch neither table nor fences nor what is on its way. */
  predicate Unchanged(s: Bridge, s': Bridge) {
    && s'.core.requests == s.core.requests && s'.core.fences == s.core.fences && s'.core.blocked == s.core.blocked
    && s'.core.closing == s.core.closing && s'.flights == s.flights
  }

  lemma StaysReady(s: Bridge, a: Action, now: int, internal: iset<string>)
    requires Ready(s, now, internal) && Enabled(s, a) && RightSpace(a, internal) && Unchanged(s, Next(s, a))
    ensures Ready(Next(s, a), now, internal)
  {
    StepKeepsOrderly(s, a);
    StepKeepsSpaces(s, a, internal);
  }

  /** A reserved controller connection becomes the owner. */
  lemma Become(s: Bridge, c: nat, f: Flight, now: int, internal: iset<string>)
    requires Ready(s, now, internal) && Exposed(s, f) && s.core.cdp.owner.None?
    requires InPhase(s, c, Reserved) && s.conns[c].kind.Cdp?
    ensures Harmful(s, [BecomeOwner(c)], f, now, internal)
  {
    var s' := Next(s, BecomeOwner(c));
    assert Dated(s.core, f);
    StaysReady(s, BecomeOwner(c), now, internal);
    Strike(s', f, now, internal);
    First(s, BecomeOwner(c), [], f, now, internal);
  }

  /** A free side is claimed first. */
  lemma Arrive(s: Bridge, f: Flight, now: int, internal: iset<string>) returns (steps: seq<Action>)
    requires Ready(s, now, internal) && Exposed(s, f) && CanReserve(s.core, Cdp)
    ensures Harmful(s, steps, f, now, internal)
  {
    var n := Beyond(s.conns);
    var a := Claim(n, Cdp);
    StaysReady(s, a, now, internal);
    Become(Next(s, a), n, f, now, internal);
    steps := [a] + [BecomeOwner(n)];
    First(s, a, [BecomeOwner(n)], f, now, internal);
  }

  lemma Reconnect(s: Bridge, f: Flight, now: int, internal: iset<string>) returns (steps: seq<Action>)
    requires Ready(s, now, internal) && Exposed(s, f) && s.core.cdp.owner.None?
    ensures Harmful(s, steps, f, now, internal)
  {
    if !s.core.cdp.claimed {
      steps := Arrive(s, f, now, internal);
    } else {
      ClaimedExactly(s, Cdp);
      var c :| c in s.conns && s.conns[c].kind.Cdp? && s.conns[c].phase in {Reserved, Releasing};
      if s.conns[c].phase.Reserved? {
        Become(s, c, f, now, internal);
        steps := [BecomeOwner(c)];
      } else {
        var a := FinishLeaving(c);
        assert Reflected(s.core, c, s.conns[c]);
        StaysReady(s, a, now, internal);
        var rest := Arrive(Next(s, a), f, now, internal);
        First(s, a, rest, f, now, internal);
        steps := [a] + rest;
      }
    }
  }

  // ---------------------------------------------------------------- an exposed request of the installed controller

  /** Without fences, leaving fences what is pending and nothing else, and cannot overflow. */
  lemma LeftCore(core: Core, flights: multiset<Flight>, c: nat, f: Flight, now: int)
    requires OrderlyCore(core) && !core.blocked && Fresh(core.requests, now) && core.fences == map[]
    requires Owns(core, Cdp, c, core.cdp.generation) && Current(core, f.scope) && !Guard(core, f)
    ensures var core' := ReleaseController(core, c, core.cdp.generation, now);
            && core'.closing == core.closing && core'.cdp.owner.None? && !core'.blocked && !Guard(core', f)
            && Fresh(core'.requests, now)
  {
    var left := InScope(Live(core.requests, now), ControllerScope(core.cdp.generation));
    LeaveParts(core, c, now, left);
    FewIds(core.requests, left);
    NoFences(core.fences, Ids(left));
    Unlisted(core, f, left);
    StaysOpen(core, c, now);
  }

  lemma StaysOpen(core: Core, c: nat, now: int)
    ensures ReleaseController(core, c, core.cdp.generation, now).closing == core.closing
  {
  }

  lemma LeftExposed(s: Bridge, c: nat, f: Flight, now: int, internal: iset<string>)
    requires Ready(s, now, internal) && Exposed(s, f) && Current(s.core, f.scope) && s.core.fences == map[]
    requires s.core.cdp.owner == Some(c)
    ensures Enabled(s, Leave(c, now)) && Tolerated(s, Leave(c, now))
    ensures var s' := Next(s, Leave(c, now)); Ready(s', now, internal) && Exposed(s', f) && s'.core.cdp.owner.None?
  {
    assert Reflected(s.core, c, s.conns[c]);
    NothingOverdue(s.core, s.flights, now);
    LeftCore(s.core, s.flights, c, f, now);
    StepKeepsOrderly(s, Leave(c, now));
    StepKeepsSpaces(s, Leave(c, now), internal);
  }

  lemma NoFences(fences: map<string, nat>, ids: set<string>)
    requires fences == map[]
    ensures fences.Keys + ids == ids
  {
  }

  lemma LeaveExposed(s: Bridge, f: Flight, now: int, internal: iset<string>) returns (steps: seq<Action>)
    requires Ready(s, now, internal) && Exposed(s, f) && Current(s.core, f.scope) && s.core.fences == map[]
    ensures Harmful(s, steps, f, now, internal)
  {
    var a := Leave(s.core.cdp.owner.value, now);
    LeftExposed(s, s.core.cdp.owner.value, f, now, internal);
    var rest := Reconnect(Next(s, a), f, now, internal);
    First(s, a, rest, f, now, internal);
    steps := [a] + rest;
  }

  lemma FewIds(t: Table, left: set<PendingKey>)
    requires left <= t.Keys
    ensures |Ids(left)| <= |t|
  {
    IdsSize(left);
    assert |t.Keys| == |t.Keys - left| + |left|;
  }

  lemma {:induction false} IdsSize(keys: set<PendingKey>)
    ensures |Ids(keys)| <= |keys|
    decreases |keys|
  {
    if keys != {} {
      var k :| k in keys;
      IdsSize(keys - {k});
      assert Ids(keys) == Ids(keys - {k}) + {k.id};
    }
  }

  lemma Unlisted(core: Core, f: Flight, left: set<PendingKey>)
    requires !Guard(core, f) && Current(core, f.scope) && left <= core.requests.Keys
    requires forall k | k in left :: k.scope == ControllerScope(core.cdp.generation)
    ensures f.key !in Ids(left)
  {
  }

  /** A response with this key takes its fence, and neither the exposed request nor any entry. */
  predicate Takes(s: Bridge, a: Action, x: string, f: Flight, now: int) {
    a == Echo(x, true, now) || (a.Answer? && a.flight in s.flights && a.flight.key == x && a.legible && a.now == now && a.flight != f)
  }

  lemma TakeFence(s: Bridge, a: Action, x: string, f: Flight, now: int, internal: iset<string>)
    requires Ready(s, now, internal) && Exposed(s, f) && x in s.core.fences && Takes(s, a, x, f, now)
    ensures Enabled(s, a) && RightSpace(a, internal)
    ensures var s' := Next(s, a);
            && Ready(s', now, internal) && Exposed(s', f) && s'.core.cdp == s.core.cdp
            && s'.core.fences == s.core.fences - {x}
  {
    StepKeepsOrderly(s, a);
    StepKeepsSpaces(s, a, internal);
  }

  /** Fence after fence is consumed, by the answer to a request on its way or by an unasked-for response. */
  lemma {:induction false} Drain(s: Bridge, f: Flight, now: int, internal: iset<string>) returns (steps: seq<Action>)
    requires Ready(s, now, internal) && Exposed(s, f) && Current(s.core, f.scope)
    ensures Harmful(s, steps, f, now, internal)
    decreases s.core.fences.Keys
  {
    if s.core.fences == map[] {
      steps := LeaveExposed(s, f, now, internal);
    } else {
      var x :| x in s.core.fences;
      var a := Echo(x, true, now);
      if Traveling(s.flights, x) {
        var g :| g in s.flights && Ctl(g.scope) && g.key == x;
        a := Answer(g, true, now);
      }
      TakeFence(s, a, x, f, now, internal);
      var rest := Drain(Next(s, a), f, now, internal);
      First(s, a, rest, f, now, internal);
      steps := [a] + rest;
    }
  }

  lemma Finish(s: Bridge, f: Flight, now: int, internal: iset<string>) returns (steps: seq<Action>)
    requires Ready(s, now, internal) && Exposed(s, f)
    ensures Harmful(s, steps, f, now, internal)
  {
    if s.core.cdp.owner.None? {
      steps := Reconnect(s, f, now, internal);
    } else if Current(s.core, f.scope) {
      steps := Drain(s, f, now, internal);
    } else {
      Strike(s, f, now, internal);
      steps := [];
    }
  }

  // ---------------------------------------------------------------- two requests under one key

  /** The answer to one of two requests under a key takes the cover of the other. */
  lemma UncoverCore(core: Core, flights: multiset<Flight>, g: Flight, f: Flight, now: int, internal: iset<string>)
    requires Spaces(core, flights, internal) && OnlyCurrent(core) && !core.blocked && Fresh(core.requests, now)
    requires g in flights && f in flights && Ctl(g.scope) && Ctl(f.scope) && f.key == g.key && Guard(core, f) && Guard(core, g)
    ensures var core' := Respond(core, g.key, now);
            !Guard(core', f) && !core'.blocked && core'.closing == core.closing && Fresh(core'.requests, now)
  {
    if g.key in core.fences {
      assert PendingKey(f.scope, f.key) !in core.requests;
    } else {
      Settled(core, g.key, now);
      assert PendingKey(BOOTSTRAP, g.key) !in core.requests;
      assert Current(core, f.scope);
    }
  }

  lemma Uncover(s: Bridge, g: Flight, f: Flight, now: int, internal: iset<string>)
    requires Ready(s, now, internal) && Covered(s.core, s.flights)
    requires g in s.flights && Ctl(g.scope) && Ctl(f.scope) && f.key == g.key && f in s.flights - multiset{g}
    ensures Tolerated(s, Answer(g, true, now))
    ensures var s' := Next(s, Answer(g, true, now)); Ready(s', now, internal) && Exposed(s', f)
  {
    var a := Answer(g, true, now);
    NothingOverdue(s.core, s.flights, now);
    StepKeepsOrderly(s, a);
    StepKeepsSpaces(s, a, internal);
    assert f in s.flights && Guard(s.core, f) && Guard(s.core, g);
    UncoverCore(s.core, s.flights, g, f, now, internal);
  }

  /** From a state that is not guarded, some continuation is harmful. */
  lemma Breakable(s: Bridge, now: int, internal: iset<string>) returns (steps: seq<Action>, f: Flight)
    requires Ready(s, now, internal) && !Guarded(s.core, s.flights)
    ensures Harmful(s, steps, f, now, internal)
  {
    if !Covered(s.core, s.flights) {
      f :| f in s.flights && Ctl(f.scope) && !Guard(s.core, f);
      steps := Finish(s, f, now, internal);
    } else {
      var g: Flight;
      f, g := Twins(s.flights);
      var a := Answer(g, true, now);
      Uncover(s, g, f, now, internal);
      var rest := Finish(Next(s, a), f, now, internal);
      First(s, a, rest, f, now, internal);
      steps := [a] + rest;
    }
  }

  lemma Twins(flights: multiset<Flight>) returns (f: Flight, g: Flight)
    requires !Single(flights)
    ensures g in flights && f in flights - multiset{g} && Ctl(f.scope) && Ctl(g.scope) && f.key == g.key
  {
    if h :| h in flights && Ctl(h.scope) && flights[h] != 1 {
      f, g := h, h;
    } else {
      f, g :| f in flights && g in flights && Ctl(f.scope) && Ctl(g.scope) && f.key == g.key && f != g;
    }
  }

  /**
   The invariant is exact. In a reachable state of an open bridge, blocked or not, with nothing
   past its deadline, it holds if and only if no continuation of tolerated steps hands a
   legible answer to a stranger.
   */
  lemma Exactness(steps: seq<Action>, now: int, internal: iset<string>)
    requires Legal(INITIAL, steps) && UsesOwn(steps, internal)
    ensures var s := Run(INITIAL, steps);
            !s.core.closing && Fresh(s.core.requests, now) ==>
              (Safe(s, internal) <==> !exists more, f :: Harmful(s, more, f, now, internal))
  {
    var s := Run(INITIAL, steps);
    RunOrderly(steps);
    RunSpaces(INITIAL, steps, internal);
    if !s.core.closing && Fresh(s.core.requests, now) {
      if Safe(s, internal) {
        forall more, f ensures !Harmful(s, more, f, now, internal) {
          SafeHarmless(s, more, f, now, internal);
        }
      } else {
        var more, f := Breakable(s, now, internal);
      }
    }
  }

  /** Every step uses IDs of the right space. */
  ghost predicate UsesOwn(steps: seq<Action>, internal: iset<string>) { forall a | a in steps :: RightSpace(a, internal) }

  lemma {:induction false} RunSpaces(s: Bridge, steps: seq<Action>, internal: iset<string>)
    requires Orderly(s) && Spaces(s.core, s.flights, internal) && Legal(s, steps) && UsesOwn(steps, internal)
    ensures Spaces(Run(s, steps).core, Run(s, steps).flights, internal)
    decreases |steps|
  {
    if steps != [] {
      StepKeepsOrderly(s, steps[0]);
      StepKeepsSpaces(s, steps[0], internal);
      RunSpaces(Next(s, steps[0]), steps[1..], internal);
    }
  }

  lemma SafeHarmless(s: Bridge, steps: seq<Action>, f: Flight, now: int, internal: iset<string>)
    requires Safe(s, internal)
    ensures !Harmful(s, steps, f, now, internal)
  {
    if Harmful(s, steps, f, now, internal) {
      RunSafe(s, steps, internal);
      StepExact(Run(s, steps), Answer(f, true, now), internal);
    }
  }
}
