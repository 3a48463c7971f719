/**
 Why fence safety needs its assumptions. Each run below breaks one of them, with a request ID
 of anyone's choice, and hands the answer to the first controller's request to the second.
 */
module FenceCounterexamples {
  import opened Prelude
  import opened RequestId
  import opened Correlator
  import opened Bridge
  import opened Orders
  import opened Fences

  lemma {:induction false} RunConcat(s: Bridge, a: seq<Action>, b: seq<Action>)
    requires Legal(s, a) && Legal(Run(s, a), b)
    ensures Legal(s, a + b) && Run(s, a + b) == Run(Run(s, a), b)
    decreases |a|
  {
    if a == [] {
      assert a + b == b;
    } else {
      RunConcat(Next(s, a[0]), a[1..], b);
      assert (a + b)[0] == a[0] && (a + b)[1..] == a[1..] + b;
    }
  }

  lemma Then(s: Bridge, steps: seq<Action>, a: Action)
    requires Legal(s, steps) && Enabled(Run(s, steps), a)
    ensures Legal(s, steps + [a]) && Run(s, steps + [a]) == Next(Run(s, steps), a)
  {
    assert [a][1..] == [];
    RunConcat(s, steps, [a]);
  }

  /** The step keeps to the assumptions of fence safety; sealed, since runs only count. */
  ghost predicate Proper(s: Bridge, a: Action, internal: iset<string>) {
    forall question: nat {:trigger Asked(question)} | Asked(question) :: RightSpace(a, internal) && Tolerated(s, a)
  }

  lemma ProperIs(s: Bridge, a: Action, internal: iset<string>)
    ensures Proper(s, a, internal) <==> RightSpace(a, internal) && Tolerated(s, a)
  {
    assert Asked(0);
  }

  /** 1 if the step breaks an assumption. */
  ghost function Fault(s: Bridge, a: Action, internal: iset<string>): nat {
    if Proper(s, a, internal) then 0 else 1
  }

  /** How many steps of the run do. */
  ghost function Faults(s: Bridge, steps: seq<Action>, internal: iset<string>): nat
    requires Legal(s, steps)
    decreases |steps|
  {
    if steps == [] then 0 else Fault(s, steps[0], internal) + Faults(Next(s, steps[0]), steps[1..], internal)
  }

  lemma {:induction false} FaultsConcat(s: Bridge, a: seq<Action>, b: seq<Action>, internal: iset<string>)
    requires Legal(s, a) && Legal(Run(s, a), b)
    ensures Legal(s, a + b) && Faults(s, a + b, internal) == Faults(s, a, internal) + Faults(Run(s, a), b, internal)
    decreases |a|
  {
    if a == [] {
      assert a + b == b;
    } else {
      FaultsConcat(Next(s, a[0]), a[1..], b, internal);
      FaultFirst(s, a, b, internal);
    }
  }

  lemma FaultFirst(s: Bridge, a: seq<Action>, b: seq<Action>, internal: iset<string>)
    requires a != [] && Enabled(s, a[0]) && Legal(Next(s, a[0]), a[1..] + b)
    ensures Legal(s, a + b)
    ensures Faults(s, a + b, internal) == Fault(s, a[0], internal) + Faults(Next(s, a[0]), a[1..] + b, internal)
  {
    assert (a + b)[0] == a[0] && (a + b)[1..] == a[1..] + b;
  }

  lemma FaultThen(s: Bridge, steps: seq<Action>, a: Action, internal: iset<string>)
    requires Legal(s, steps) && Enabled(Run(s, steps), a)
    ensures Legal(s, steps + [a]) && Faults(s, steps + [a], internal) == Faults(s, steps, internal) + Fault(Run(s, steps), a, internal)
  {
    assert [a][1..] == [];
    FaultsConcat(s, steps, [a], internal);
  }

  lemma {:induction false} FaultlessIsFair(s: Bridge, steps: seq<Action>, internal: iset<string>)
    requires Legal(s, steps) && Faults(s, steps, internal) == 0
    ensures Fair(s, steps, internal)
    decreases |steps|
  {
    if steps != [] {
      ProperIs(s, steps[0], internal);
      FaultlessIsFair(Next(s, steps[0]), steps[1..], internal);
    }
  }

  /** Whoever gets a foreign answer, some step of the run was at fault. */
  lemma MisdeliveryNeedsFault(steps: seq<Action>, a: Action, internal: iset<string>)
    requires Legal(INITIAL, steps) && Astray(Run(INITIAL, steps), a)
    ensures Legal(INITIAL, steps + [a]) && Faults(INITIAL, steps + [a], internal) >= 1
  {
    FaultThen(INITIAL, steps, a, internal);
    if Faults(INITIAL, steps, internal) == 0 {
      FaultlessIsFair(INITIAL, steps, internal);
      FenceSafety(steps, internal);
      ProperIs(Run(INITIAL, steps), a, internal);
      StepExact(Run(INITIAL, steps), a, internal);
    }
  }

  /** A run whose last step hands an answer to a stranger, and of which exactly one step is at fault. */
  ghost predicate Blunder(steps: seq<Action>, a: Action) {
    && Legal(INITIAL, steps) && Astray(Run(INITIAL, steps), a)
    && Legal(INITIAL, steps + [a]) && Faults(INITIAL, steps + [a], iset{}) == 1
  }

  // ---------------------------------------------------------------- paths

  /** The step leads from s to t and breaks at most n assumptions; sealed. */
  ghost predicate Leads(s: Bridge, a: Action, t: Bridge, n: nat) {
    forall question: nat {:trigger Asked(question)} | Asked(question) ::
      Enabled(s, a) && Next(s, a) == t && Fault(s, a, iset{}) <= n
  }

  /** So do the steps. */
  ghost predicate Path(s: Bridge, steps: seq<Action>, t: Bridge, n: nat) {
    forall question: nat {:trigger Asked(question)} | Asked(question) ::
      Legal(s, steps) && Run(s, steps) == t && Faults(s, steps, iset{}) <= n
  }

  /** A step that keeps to the assumptions. */
  lemma Fine(s: Bridge, a: Action, t: Bridge)
    requires Enabled(s, a) && Next(s, a) == t && RightSpace(a, iset{}) && Tolerated(s, a)
    ensures Leads(s, a, t, 0)
  {
    ProperIs(s, a, iset{});
  }

  lemma Faulty(s: Bridge, a: Action, t: Bridge)
    requires Enabled(s, a) && Next(s, a) == t
    ensures Leads(s, a, t, 1)
  {
  }

  lemma Nowhere(s: Bridge)
    ensures Path(s, [], s, 0)
  {
  }

  lemma Extend(s: Bridge, steps: seq<Action>, t: Bridge, n: nat, a: Action, u: Bridge, m: nat)
    requires Path(s, steps, t, n) && Leads(t, a, u, m)
    ensures Path(s, steps + [a], u, n + m)
  {
    assert Asked(0);
    Then(s, steps, a);
    FaultThen(s, steps, a, iset{});
  }

  lemma Join(s: Bridge, a: seq<Action>, t: Bridge, n: nat, b: seq<Action>, u: Bridge, m: nat)
    requires Path(s, a, t, n) && Path(t, b, u, m)
    ensures Path(s, a + b, u, n + m)
  {
    assert Asked(0);
    RunConcat(s, a, b);
    FaultsConcat(s, a, b, iset{});
  }

  lemma Two(s: Bridge, a: Action, t: Bridge, n: nat, b: Action, u: Bridge, m: nat)
    requires Leads(s, a, t, n) && Leads(t, b, u, m)
    ensures Path(s, [a, b], u, n + m)
  {
    Nowhere(s);
    Extend(s, [], s, 0, a, t, n);
    assert [] + [a] == [a] && [a] + [b] == [a, b];
    Extend(s, [a], t, n, b, u, m);
  }

  // ---------------------------------------------------------------- both sides connect

  const OPENING := [Claim(1, Upstream), BecomeOwner(1), Claim(2, Cdp), BecomeOwner(2)]

  const CONNECTED := Bridge(
    Core(false, Side(false, Some(1), 1), Side(false, Some(2), 1), map[], map[], false),
    map[1 := Conn(Upstream, Installed, 1), 2 := Conn(Cdp, Installed, 1)], multiset{})

  const CLAIMED := Bridge(NEW_CORE.(debug := Side(true, None, 0)), map[1 := Conn(Upstream, Reserved, 0)], multiset{})

  const HALF := Bridge(NEW_CORE.(debug := Side(false, Some(1), 1)), map[1 := Conn(Upstream, Installed, 1)], multiset{})

  const BOTH_CLAIMED := Bridge(
    NEW_CORE.(debug := Side(false, Some(1), 1), cdp := Side(true, None, 0)),
    map[1 := Conn(Upstream, Installed, 1), 2 := Conn(Cdp, Reserved, 0)], multiset{})

  lemma UpstreamOpens()
    ensures Path(INITIAL, [Claim(1, Upstream), BecomeOwner(1)], HALF, 0)
  {
    Fine(INITIAL, Claim(1, Upstream), CLAIMED);
    Fine(CLAIMED, BecomeOwner(1), HALF);
    Two(INITIAL, Claim(1, Upstream), CLAIMED, 0, BecomeOwner(1), HALF, 0);
  }

  lemma ControllerOpens()
    ensures Path(HALF, [Claim(2, Cdp), BecomeOwner(2)], CONNECTED, 0)
  {
    Fine(HALF, Claim(2, Cdp), BOTH_CLAIMED);
    Fine(BOTH_CLAIMED, BecomeOwner(2), CONNECTED);
    Two(HALF, Claim(2, Cdp), BOTH_CLAIMED, 0, BecomeOwner(2), CONNECTED, 0);
  }

  lemma Opening()
    ensures Path(INITIAL, OPENING, CONNECTED, 0)
  {
    UpstreamOpens();
    ControllerOpens();
    Join(INITIAL, [Claim(1, Upstream), BecomeOwner(1)], HALF, 0, [Claim(2, Cdp), BecomeOwner(2)], CONNECTED, 0);
    assert OPENING == [Claim(1, Upstream), BecomeOwner(1)] + [Claim(2, Cdp), BecomeOwner(2)];
  }

  // ---------------------------------------------------------------- one controller follows the other

  const LEFT: map<nat, Conn> := map[1 := Conn(Upstream, Installed, 1), 2 := Conn(Cdp, Releasing, 1)]

  /** The first controller is gone, and left this table, these fences and these requests on their way. */
  function Gone(requests: Table, fences: map<string, nat>, flights: multiset<Flight>): Bridge {
    Bridge(Core(false, Side(false, Some(1), 1), Side(true, None, 1), requests, fences, false), LEFT, flights)
  }

  /** The second is there. */
  function Followed(s: Bridge): Bridge {
    Bridge(s.core.(cdp := Side(false, Some(3), 2)), s.conns[2 := Conn(Cdp, Phase.Gone, 1)][3 := Conn(Cdp, Installed, 2)], s.flights)
  }

  const TURNOVER := [FinishLeaving(2), Claim(3, Cdp), BecomeOwner(3)]

  lemma Turnover(s: Bridge)
    requires s == Gone(s.core.requests, s.core.fences, s.flights)
    ensures Path(s, TURNOVER, Followed(s), 0)
  {
    var s1 := Bridge(s.core.(cdp := Side(false, None, 1)), s.conns[2 := Conn(Cdp, Phase.Gone, 1)], s.flights);
    var s2 := Bridge(s.core.(cdp := Side(true, None, 1)), s1.conns[3 := Conn(Cdp, Reserved, 0)], s.flights);
    FinishTurn(s, s1);
    ClaimTurn(s1, s2);
    BecomeTurn(s2, Followed(s));
    Two(s, FinishLeaving(2), s1, 0, Claim(3, Cdp), s2, 0);
    Extend(s, [FinishLeaving(2), Claim(3, Cdp)], s2, 0, BecomeOwner(3), Followed(s), 0);
    assert TURNOVER == [FinishLeaving(2), Claim(3, Cdp)] + [BecomeOwner(3)];
  }

  lemma FinishTurn(s: Bridge, t: Bridge)
    requires s == Gone(s.core.requests, s.core.fences, s.flights)
    requires t == Bridge(s.core.(cdp := Side(false, None, 1)), s.conns[2 := Conn(Cdp, Phase.Gone, 1)], s.flights)
    ensures Leads(s, FinishLeaving(2), t, 0)
  {
    Fine(s, FinishLeaving(2), t);
  }

  lemma ClaimTurn(s: Bridge, t: Bridge)
    requires !s.core.closing && s.core.cdp == Side(false, None, 1) && 3 !in s.conns
    requires t == Bridge(s.core.(cdp := Side(true, None, 1)), s.conns[3 := Conn(Cdp, Reserved, 0)], s.flights)
    ensures Leads(s, Claim(3, Cdp), t, 0)
  {
    Fine(s, Claim(3, Cdp), t);
  }

  lemma BecomeTurn(s: Bridge, t: Bridge)
    requires !s.core.closing && s.core.cdp == Side(true, None, 1) && 3 in s.conns && s.conns[3] == Conn(Cdp, Reserved, 0)
    requires t.core == s.core.(cdp := Side(false, Some(3), 2)) && t.conns == s.conns[3 := Conn(Cdp, Installed, 2)] && t.flights == s.flights
    ensures Leads(s, BecomeOwner(3), t, 0)
  {
    Fine(s, BecomeOwner(3), t);
  }

  /** The second controller gets the answer, unless it is legible and fenced. */
  lemma Delivered(s: Bridge, f: Flight, legible: bool, now: int)
    requires s == Gone(s.core.requests, s.core.fences, s.flights) && f in s.flights && f.scope == ControllerScope(1)
    requires (forall k | k in s.core.requests :: k.scope == UNSCOPED) && (legible ==> f.key !in s.core.fences)
    ensures Astray(Followed(s), Answer(f, legible, now))
    ensures legible ==> Proper(Followed(s), Answer(f, legible, now), iset{})
  {
    assert Overdue(s.core, s.flights, now) == {};
    ProperIs(Followed(s), Answer(f, legible, now), iset{});
  }

  /** A run that strands the request, installs the next controller, and answers. */
  lemma Finish(steps: seq<Action>, s: Bridge, n: nat, f: Flight, legible: bool, now: int)
    requires Path(CONNECTED, steps, s, n) && n + (if legible then 0 else 1) <= 1
    requires s == Gone(s.core.requests, s.core.fences, s.flights) && f in s.flights && f.scope == ControllerScope(1)
    requires (forall k | k in s.core.requests :: k.scope == UNSCOPED) && (legible ==> f.key !in s.core.fences)
    ensures Blunder(OPENING + steps + TURNOVER, Answer(f, legible, now))
  {
    Opening();
    Turnover(s);
    Join(INITIAL, OPENING, CONNECTED, 0, steps, s, n);
    Join(INITIAL, OPENING + steps, s, n, TURNOVER, Followed(s), 0);
    Delivered(s, f, legible, now);
    LastStep(OPENING + steps + TURNOVER, Followed(s), n, Answer(f, legible, now));
  }

  lemma LastStep(steps: seq<Action>, s: Bridge, n: nat, a: Action)
    requires Path(INITIAL, steps, s, n) && Astray(s, a)
    requires n == 0 || (n == 1 && Proper(s, a, iset{}))
    ensures Blunder(steps, a)
  {
    assert Asked(0);
    FaultThen(INITIAL, steps, a, iset{});
    MisdeliveryNeedsFault(steps, a, iset{});
  }

  // ---------------------------------------------------------------- the first request

  function Sent(id: Id): Action { Frame(2, Some(id), "m", 0, true, true) }

  function FlightOf(id: Id): Flight { Flight(ControllerScope(1), IDKey(id).0, true) }

  function Waiting(id: Id): Table {
    map[ScopedKey(ControllerScope(1), id) := Pending(Request(id, "m"), PENDING_TTL)]
  }

  /** The first controller is connected, with this table and these requests on their way. */
  function Busy(requests: Table, flights: multiset<Flight>): Bridge {
    Bridge(CONNECTED.core.(requests := requests), CONNECTED.conns, flights)
  }

  lemma WaitingLive(id: Id)
    ensures Live(Waiting(id), 0) == Waiting(id) && |Waiting(id)| == 1 && Live(Waiting(id), PENDING_TTL) == map[]
    ensures Without(Waiting(id), {ScopedKey(ControllerScope(1), id)}) == map[]
  {
  }

  /** A request of the first controller that is not on its way already enters the table. */
  lemma FirstSent(id: Id)
    ensures Leads(CONNECTED, Sent(id), Busy(Waiting(id), multiset{FlightOf(id)}), 0)
  {
    assert Live(map[], 0) == map[];
    SendParts(CONNECTED.core, FromController(1), Some(id), "m", 0, true);
    assert Overdue(CONNECTED.core, multiset{}, 0) == {};
    Fine(CONNECTED, Sent(id), Busy(Waiting(id), multiset{FlightOf(id)}));
  }

  lemma Resent(id: Id)
    ensures Leads(Busy(Waiting(id), multiset{FlightOf(id)}), Sent(id), Busy(Waiting(id), multiset{FlightOf(id), FlightOf(id)}), 1)
  {
    var s := Busy(Waiting(id), multiset{FlightOf(id)});
    WaitingLive(id);
    SendParts(s.core, FromController(1), Some(id), "m", 0, true);
    Faulty(s, Sent(id), Busy(Waiting(id), multiset{FlightOf(id), FlightOf(id)}));
  }

  // ---------------------------------------------------------------- how the first controller leaves

  /** With nothing pending. */
  lemma LeftNothing(flights: multiset<Flight>)
    ensures Leads(Busy(map[], flights), Leave(2, 0), Gone(map[], map[], flights), 0)
  {
    var s := Busy(map[], flights);
    assert InScope(map[], ControllerScope(1)) == {} && Ids({}) == {};
    assert Overdue(s.core, flights, 0) == {};
    Fine(s, Leave(2, 0), Gone(map[], map[], flights));
  }

  /** With its request pending past the deadline. */
  lemma LeftLate(id: Id)
    ensures Leads(Busy(Waiting(id), multiset{FlightOf(id)}), Leave(2, PENDING_TTL), Gone(map[], map[], multiset{FlightOf(id)}), 1)
  {
    WaitingLive(id);
    assert InScope(map[], ControllerScope(1)) == {} && Ids({}) == {};
    Faulty(Busy(Waiting(id), multiset{FlightOf(id)}), Leave(2, PENDING_TTL), Gone(map[], map[], multiset{FlightOf(id)}));
  }

  /** With its request pending among others, which are not controllers': it becomes the one fence. */
  lemma LeftPending(id: Id, requests: Table, rest: Table, flights: multiset<Flight>)
    requires ScopedKey(ControllerScope(1), id) in requests && |requests| <= MAX_PENDING && Fresh(requests, 0)
    requires rest == requests - {ScopedKey(ControllerScope(1), id)} && forall k | k in rest :: k.scope == UNSCOPED
    ensures Leads(Busy(requests, flights), Leave(2, 0), Gone(rest, map[IDKey(id).0 := 1], flights), 0)
  {
    var s := Busy(requests, flights);
    FreshLive(requests, 0);
    OnlyOwn(id, requests, rest);
    OneFence(ReleaseOwner(s.core, Cdp, 2, 1).(requests := rest), IDKey(id).0, 1);
    assert Overdue(s.core, flights, 0) == {};
    LeaveTurn(s, 0, Gone(rest, map[IDKey(id).0 := 1], flights));
  }

  lemma LeaveTurn(s: Bridge, now: int, t: Bridge)
    requires s == Busy(s.core.requests, s.flights) && Overdue(s.core, s.flights, now) == {}
    requires t.core == ReleaseController(s.core, 2, 1, now) && t.conns == LEFT && t.flights == s.flights
    ensures Leads(s, Leave(2, now), t, 0)
  {
    Fine(s, Leave(2, now), t);
  }

  lemma OnlyOwn(id: Id, requests: Table, rest: Table)
    requires ScopedKey(ControllerScope(1), id) in requests && rest == requests - {ScopedKey(ControllerScope(1), id)}
    requires forall k | k in rest :: k.scope == UNSCOPED
    ensures var own := InScope(requests, ControllerScope(1));
            && own == {ScopedKey(ControllerScope(1), id)} && Ids(own) == {IDKey(id).0}
            && Without(requests, own) == rest
  {
    var key := ScopedKey(ControllerScope(1), id);
    assert forall k | k in requests :: k in rest || k == key;
    assert InScope(requests, ControllerScope(1)) == {key};
    assert key in InScope(requests, ControllerScope(1));
  }

  lemma OneFence(core: Core, key: string, generation: nat)
    requires core.fences == map[] && !core.blocked
    ensures AddFences(core, {key}, generation) == core.(fences := map[key := generation])
  {
    assert core.fences.Keys + {key} == {key};
    assert Marked(map[], {key}, generation) == map[key := generation];
  }

  // ---------------------------------------------------------------- the seven runs

  /** The entry has expired when the controller leaves, so no fence is made of it. */
  lemma AfterExpiry(id: Id, now: int)
    ensures Blunder(OPENING + [Sent(id), Leave(2, PENDING_TTL)] + TURNOVER, Answer(FlightOf(id), true, now))
  {
    var s1, s2 := Busy(Waiting(id), multiset{FlightOf(id)}), Gone(map[], map[], multiset{FlightOf(id)});
    FirstSent(id);
    LeftLate(id);
    Two(CONNECTED, Sent(id), s1, 0, Leave(2, PENDING_TTL), s2, 1);
    Finish([Sent(id), Leave(2, PENDING_TTL)], s2, 1, FlightOf(id), true, now);
  }

  /** The installed controller's only request is resolved. */
  lemma Resolved(id: Id, flights: multiset<Flight>)
    ensures Received(Busy(Waiting(id), flights).core, IDKey(id).0, true, 0) == CONNECTED.core
  {
    WaitingLive(id);
  }

  lemma AnsweredOnce(id: Id)
    ensures Leads(Busy(Waiting(id), multiset{FlightOf(id), FlightOf(id)}), Answer(FlightOf(id), true, 0), Busy(map[], multiset{FlightOf(id)}), 0)
  {
    var s := Busy(Waiting(id), multiset{FlightOf(id), FlightOf(id)});
    Resolved(id, s.flights);
    assert Overdue(s.core, s.flights, 0) == {};
    Fine(s, Answer(FlightOf(id), true, 0), Busy(map[], multiset{FlightOf(id)}));
  }

  /** The controller sent its ID twice: one answer removes the entry both need. */
  lemma AfterRepeatedId(id: Id, now: int)
    ensures Blunder(OPENING + [Sent(id), Sent(id), Answer(FlightOf(id), true, 0), Leave(2, 0)] + TURNOVER, Answer(FlightOf(id), true, now))
  {
    var f, a := FlightOf(id), Answer(FlightOf(id), true, 0);
    var s1, s2, s3 := Busy(Waiting(id), multiset{f}), Busy(Waiting(id), multiset{f, f}), Busy(map[], multiset{f});
    FirstSent(id);
    Resent(id);
    AnsweredOnce(id);
    LeftNothing(multiset{f});
    Two(CONNECTED, Sent(id), s1, 0, Sent(id), s2, 1);
    Extend(CONNECTED, [Sent(id), Sent(id)], s2, 1, a, s3, 0);
    Extend(CONNECTED, [Sent(id), Sent(id)] + [a], s3, 1, Leave(2, 0), Gone(map[], map[], multiset{f}), 0);
    assert [Sent(id), Sent(id)] + [a] + [Leave(2, 0)] == [Sent(id), Sent(id), a, Leave(2, 0)];
    Finish([Sent(id), Sent(id), a, Leave(2, 0)], Gone(map[], map[], multiset{f}), 1, f, true, now);
  }

  /** A step that takes the pending entry although its request is on its way. */
  lemma Robbed(id: Id, a: Action, now: int)
    requires Leads(Busy(Waiting(id), multiset{FlightOf(id)}), a, Busy(map[], multiset{FlightOf(id)}), 1)
    ensures Blunder(OPENING + [Sent(id), a, Leave(2, 0)] + TURNOVER, Answer(FlightOf(id), true, now))
  {
    var f := FlightOf(id);
    FirstSent(id);
    LeftNothing(multiset{f});
    Two(CONNECTED, Sent(id), Busy(Waiting(id), multiset{f}), 0, a, Busy(map[], multiset{f}), 1);
    Extend(CONNECTED, [Sent(id), a], Busy(map[], multiset{f}), 1, Leave(2, 0), Gone(map[], map[], multiset{f}), 0);
    assert [Sent(id), a] + [Leave(2, 0)] == [Sent(id), a, Leave(2, 0)];
    Finish([Sent(id), a, Leave(2, 0)], Gone(map[], map[], multiset{f}), 1, f, true, now);
  }

  /** The upstream answered twice: the first answer removes the entry. */
  lemma AfterSecondAnswer(id: Id, now: int)
    ensures Blunder(OPENING + [Sent(id), Echo(IDKey(id).0, true, 0), Leave(2, 0)] + TURNOVER, Answer(FlightOf(id), true, now))
  {
    Resolved(id, multiset{FlightOf(id)});
    Faulty(Busy(Waiting(id), multiset{FlightOf(id)}), Echo(IDKey(id).0, true, 0), Busy(map[], multiset{FlightOf(id)}));
    Robbed(id, Echo(IDKey(id).0, true, 0), now);
  }

  /** The SDK cancelled an ID of the controller's. */
  lemma AfterCancel(id: Id, now: int)
    ensures Blunder(OPENING + [Sent(id), CancelCall(id, 0), Leave(2, 0)] + TURNOVER, Answer(FlightOf(id), true, now))
  {
    WaitingLive(id);
    Faulty(Busy(Waiting(id), multiset{FlightOf(id)}), CancelCall(id, 0), Busy(map[], multiset{FlightOf(id)}));
    Robbed(id, CancelCall(id, 0), now);
  }

  function SdkEntry(id: Id): Table { map[ScopedKey(UNSCOPED, id) := Pending(Request(id, "m"), PENDING_TTL)] }

  function Both(id: Id): Table { Waiting(id)[ScopedKey(UNSCOPED, id) := Pending(Request(id, "m"), PENDING_TTL)] }

  lemma BothLive(id: Id)
    ensures Live(Both(id), 0) == Both(id) && |Both(id)| <= 2 && Fresh(Both(id), 0)
    ensures Both(id) - {ScopedKey(ControllerScope(1), id)} == SdkEntry(id)
  {
  }

  lemma Injected(id: Id)
    ensures var own := Flight(UNSCOPED, IDKey(id).0, true);
            Leads(Busy(Waiting(id), multiset{FlightOf(id)}), Inject(Some(id), "m", 0, true, true),
                  Busy(Both(id), multiset{FlightOf(id), own}), 1)
  {
    var s := Busy(Waiting(id), multiset{FlightOf(id)});
    WaitingLive(id);
    SendParts(s.core, FromSdk, Some(id), "m", 0, true);
    Faulty(s, Inject(Some(id), "m", 0, true, true), Busy(Both(id), multiset{FlightOf(id), Flight(UNSCOPED, IDKey(id).0, true)}));
  }

  lemma FenceTaken(id: Id)
    ensures var own := Flight(UNSCOPED, IDKey(id).0, true);
            Leads(Gone(SdkEntry(id), map[IDKey(id).0 := 1], multiset{FlightOf(id), own}), Answer(own, true, 0),
                  Gone(SdkEntry(id), map[], multiset{FlightOf(id)}), 0)
  {
    var own := Flight(UNSCOPED, IDKey(id).0, true);
    var s := Gone(SdkEntry(id), map[IDKey(id).0 := 1], multiset{FlightOf(id), own});
    assert s.core.fences - {IDKey(id).0} == map[];
    Fine(s, Answer(own, true, 0), Gone(SdkEntry(id), map[], multiset{FlightOf(id)}));
  }

  /** The SDK used an ID of the controller's: its answer consumes the fence. */
  lemma AfterSharedId(id: Id, now: int)
    ensures var own := Flight(UNSCOPED, IDKey(id).0, true);
            Blunder(OPENING + [Sent(id), Inject(Some(id), "m", 0, true, true), Leave(2, 0), Answer(own, true, 0)] + TURNOVER,
                    Answer(FlightOf(id), true, now))
  {
    var f, own := FlightOf(id), Flight(UNSCOPED, IDKey(id).0, true);
    var a, b := Inject(Some(id), "m", 0, true, true), Answer(own, true, 0);
    var s2, s3 := Busy(Both(id), multiset{f, own}), Gone(SdkEntry(id), map[IDKey(id).0 := 1], multiset{f, own});
    FirstSent(id);
    Injected(id);
    BothLive(id);
    LeftPending(id, Both(id), SdkEntry(id), multiset{f, own});
    FenceTaken(id);
    Two(CONNECTED, Sent(id), Busy(Waiting(id), multiset{f}), 0, a, s2, 1);
    Extend(CONNECTED, [Sent(id), a], s2, 1, Leave(2, 0), s3, 0);
    Extend(CONNECTED, [Sent(id), a] + [Leave(2, 0)], s3, 1, b, Gone(SdkEntry(id), map[], multiset{f}), 0);
    assert [Sent(id), a] + [Leave(2, 0)] + [b] == [Sent(id), a, Leave(2, 0), b];
    Finish([Sent(id), a, Leave(2, 0), b], Gone(SdkEntry(id), map[], multiset{f}), 1, f, true, now);
  }

  /** Request, fence and turnover are as they should be, but the answer does not unmarshal: no fence is asked. */
  lemma AfterIllegibleAnswer(id: Id, now: int)
    ensures Blunder(OPENING + [Sent(id), Leave(2, 0)] + TURNOVER, Answer(FlightOf(id), false, now))
  {
    var f := FlightOf(id);
    var s1, s2 := Busy(Waiting(id), multiset{f}), Gone(map[], map[IDKey(id).0 := 1], multiset{f});
    FirstSent(id);
    WaitingLive(id);
    LeftPending(id, Waiting(id), map[], multiset{f});
    Two(CONNECTED, Sent(id), s1, 0, Leave(2, 0), s2, 0);
    Finish([Sent(id), Leave(2, 0)], s2, 0, f, false, now);
  }

  /** The controller's frame had an ID but no method: it was forwarded, and nothing is left to fence. */
  lemma AfterUntrackedFrame(id: Id, now: int)
    ensures Blunder(OPENING + [Untracked(2, id, true), Leave(2, 0)] + TURNOVER,
                    Answer(Flight(ControllerScope(1), IDKey(id).0, false), true, now))
  {
    var a, f := Untracked(2, id, true), Flight(ControllerScope(1), IDKey(id).0, false);
    Faulty(CONNECTED, a, Busy(map[], multiset{f}));
    LeftNothing(multiset{f});
    Two(CONNECTED, a, Busy(map[], multiset{f}), 1, Leave(2, 0), Gone(map[], map[], multiset{f}), 0);
    Finish([a, Leave(2, 0)], Gone(map[], map[], multiset{f}), 1, f, true, now);
  }
}
