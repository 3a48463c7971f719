/**
 What every run keeps, whatever controllers, SDK and upstream do: who may have requests
 pending, how old requests on their way can be, and the limits of table and fences.
 */
module Orders {
  import opened Prelude
  import opened RequestId
  import opened Correlator
  import opened Bridge
  import opened Ownership

  /** The scope of some controller generation. */
  predicate Ctl(scope: Scope) { scope.owner == "controller" }

  /** The scope of the controller that is installed. */
  predicate Current(core: Core, scope: Scope) {
    core.cdp.owner.Some? && scope == ControllerScope(core.cdp.generation)
  }

  /** Only the installed controller has pending requests, and none of them is fenced. */
  ghost predicate OnlyCurrent(core: Core) {
    forall k | k in core.requests && Ctl(k.scope) :: Current(core, k.scope) && !IsFenced(core, k.id)
  }

  predicate Sized(core: Core) {
    |core.requests| <= MAX_PENDING && |core.fences| <= MAX_FENCES && (core.blocked ==> core.fences == map[])
  }

  /**
   Requests are on their way only to an upstream, from no later controller than the last; what
   the installed one sent tracked was not fenced, and is not now.
   */
  predicate Dated(core: Core, f: Flight) {
    && core.debug.owner.Some?
    && (Ctl(f.scope) ==> f.scope.generation <= core.cdp.generation)
    && (Current(core, f.scope) && f.tracked ==> !IsFenced(core, f.key))
  }

  ghost predicate AllDated(core: Core, flights: multiset<Flight>) { forall f | f in flights :: Dated(core, f) }

  ghost predicate OrderlyCore(core: Core) { OnlyCurrent(core) && Sized(core) }

  ghost predicate Orderly(s: Bridge) { Owned(s) && OrderlyCore(s.core) && AllDated(s.core, s.flights) }

  // ---------------------------------------------------------------- sending, in parts

  /** The frame is looked up in the table of pending requests. */
  predicate Tries(core: Core, sender: Sender, id: Option<Id>, now: int, subscribed: bool) {
    id.Some? && Refused(core, sender, id, now, subscribed) in {None, Some(PendingLimit)}
  }

  /** The core once a request of the sender entered the table. */
  function Entered(core: Core, key: PendingKey, p: Pending, now: int): Core {
    core.(requests := Live(core.requests, now)[key := p])
  }

  /** What sending does to the core, by its verdict. */
  lemma SendParts(core: Core, sender: Sender, id: Option<Id>, m: string, now: int, subscribed: bool)
    ensures !Tries(core, sender, id, now, subscribed) ==> Send(core, sender, id, m, now, subscribed) == core
    ensures Tries(core, sender, id, now, subscribed) ==>
              var key := ScopedKey(SenderScope(sender), id.value);
              && (sender.FromController? ==> !IsFenced(core, key.id))
              && (Full(Live(core.requests, now), key, MAX_PENDING) <==> Refused(core, sender, id, now, subscribed).Some?)
              && Send(core, sender, id, m, now, subscribed)
                 == if Refused(core, sender, id, now, subscribed).Some? then core.(requests := Live(core.requests, now))
                    else Entered(core, key, Pending(Request(id.value, m), now + PENDING_TTL), now)
  {
  }

  lemma EnterSized(core: Core, key: PendingKey, p: Pending, now: int)
    requires Sized(core) && !Full(Live(core.requests, now), key, MAX_PENDING)
    ensures Sized(Entered(core, key, p, now))
  {
    var live := Live(core.requests, now);
    SmallerTable(live, core.requests);
    assert live[key := p].Keys == live.Keys + {key};
  }

  // ---------------------------------------------------------------- leaving, in parts

  /** The core a controller leaves behind that left these keys pending. */
  lemma LeaveParts(core: Core, conn: nat, now: int, left: set<PendingKey>)
    requires Owns(core, Cdp, conn, core.cdp.generation) && Sized(core)
    requires left == InScope(Live(core.requests, now), ControllerScope(core.cdp.generation))
    ensures var core' := ReleaseController(core, conn, core.cdp.generation, now);
            && core'.debug == core.debug && core'.cdp == Side(true, None, core.cdp.generation)
            && core'.requests == Without(Live(core.requests, now), left)
            && (core'.blocked <==> core.blocked || |core.fences.Keys + Ids(left)| > MAX_FENCES)
            && core'.fences.Keys == (if core'.blocked then {} else core.fences.Keys + Ids(left))
  {
    var freed := ReleaseOwner(core, Cdp, conn, core.cdp.generation).(requests := Without(Live(core.requests, now), left));
    FenceParts(freed, Ids(left), core.cdp.generation);
  }

  lemma FenceParts(core: Core, ids: set<string>, generation: nat)
    requires core.blocked ==> core.fences == map[]
    requires |core.fences| <= MAX_FENCES
    ensures var core' := AddFences(core, ids, generation);
            && core'.debug == core.debug && core'.cdp == core.cdp && core'.requests == core.requests
            && (core'.blocked <==> core.blocked || |core.fences.Keys + ids| > MAX_FENCES)
            && core'.fences.Keys == (if core'.blocked then {} else core.fences.Keys + ids)
  {
    assert core.fences.Keys + {} == core.fences.Keys;
  }

  // ---------------------------------------------------------------- the core stays orderly

  /** Nothing pending or fenced is gained, and the controller stays. */
  predicate Shrinks(core: Core, core': Core) {
    && core'.requests.Keys <= core.requests.Keys && core'.fences.Keys <= core.fences.Keys
    && core'.cdp.owner == core.cdp.owner && core'.cdp.generation == core.cdp.generation
    && (core'.blocked ==> core.blocked)
  }

  lemma ShrinkOrderly(core: Core, core': Core)
    requires OrderlyCore(core) && Shrinks(core, core')
    ensures OrderlyCore(core')
  {
    SmallerTable(core'.requests, core.requests);
    assert |core.fences.Keys| == |core.fences.Keys - core'.fences.Keys| + |core'.fences.Keys|;
    forall k | k in core'.requests && Ctl(k.scope) ensures Current(core', k.scope) && !IsFenced(core', k.id) {
      assert k in core.requests;
    }
  }

  /** And what is on its way stays dated, unless the upstream goes. */
  lemma ShrinkDated(core: Core, core': Core, flights: multiset<Flight>, flights': multiset<Flight>)
    requires AllDated(core, flights) && Shrinks(core, core') && (core.debug.owner.Some? ==> core'.debug.owner.Some?)
    requires forall f | f in flights' :: f in flights
    ensures AllDated(core', flights')
  {
    forall f | f in flights' ensures Dated(core', f) {
      assert Dated(core, f);
    }
  }

  lemma SendOrderly(core: Core, sender: Sender, id: Option<Id>, m: string, now: int, subscribed: bool)
    requires OrderlyCore(core) && (sender.FromController? ==> Current(core, ControllerScope(sender.generation)))
    ensures OrderlyCore(Send(core, sender, id, m, now, subscribed))
  {
    var core' := Send(core, sender, id, m, now, subscribed);
    SendParts(core, sender, id, m, now, subscribed);
    if Tries(core, sender, id, now, subscribed) && Refused(core, sender, id, now, subscribed).None? {
      EnterSized(core, ScopedKey(SenderScope(sender), id.value), Pending(Request(id.value, m), now + PENDING_TTL), now);
      forall k | k in core'.requests && Ctl(k.scope) ensures Current(core', k.scope) && !IsFenced(core', k.id) {
        assert k in core.requests || k == ScopedKey(SenderScope(sender), id.value);
      }
    } else {
      ShrinkOrderly(core, core');
    }
  }

  lemma SendDated(core: Core, flights: multiset<Flight>, sender: Sender, id: Option<Id>, m: string, now: int,
                  subscribed: bool, delivered: bool)
    requires AllDated(core, flights) && (sender.FromController? ==> Current(core, ControllerScope(sender.generation)))
    ensures AllDated(Send(core, sender, id, m, now, subscribed), Depart(core, flights, sender, id, now, subscribed, delivered))
  {
    SendParts(core, sender, id, m, now, subscribed);
    var core', flights' := Send(core, sender, id, m, now, subscribed), Depart(core, flights, sender, id, now, subscribed, delivered);
    forall f | f in flights' ensures Dated(core', f) {
      assert f in flights ==> Dated(core, f);
    }
  }

  lemma LeaveOrderly(core: Core, conn: nat, generation: nat, now: int)
    requires OrderlyCore(core)
    ensures OrderlyCore(ReleaseController(core, conn, generation, now))
    ensures Owns(core, Cdp, conn, generation) ==>
              forall k | k in ReleaseController(core, conn, generation, now).requests :: !Ctl(k.scope)
  {
    if Owns(core, Cdp, conn, generation) {
      var core' := ReleaseController(core, conn, generation, now);
      var left := InScope(Live(core.requests, now), ControllerScope(generation));
      LeaveParts(core, conn, now, left);
      SmallerTable(core'.requests, core.requests);
      assert |core'.fences| == |core'.fences.Keys|;
      forall k | k in core'.requests ensures !Ctl(k.scope) {
        assert k in core.requests;
        assert Ctl(k.scope) ==> Current(core, k.scope) && k in left;
      }
    }
  }

  lemma LeaveDated(core: Core, flights: multiset<Flight>, conn: nat, generation: nat, now: int)
    requires OrderlyCore(core) && AllDated(core, flights)
    ensures AllDated(ReleaseController(core, conn, generation, now), flights)
  {
    if Owns(core, Cdp, conn, generation) {
      LeaveParts(core, conn, now, InScope(Live(core.requests, now), ControllerScope(generation)));
    }
    var core' := ReleaseController(core, conn, generation, now);
    forall f | f in flights ensures Dated(core', f) {
      assert Dated(core, f);
    }
  }

  /** A new generation is nobody's yet, and a new upstream has nothing on its way. */
  lemma InstallOrderly(core: Core, flights: multiset<Flight>, kind: Kind, conn: nat)
    requires OrderlyCore(core) && AllDated(core, flights)
    ensures OrderlyCore(Install(core, kind, conn)) && AllDated(Install(core, kind, conn), flights)
    ensures kind.Cdp? && CanInstall(core, Cdp) ==>
              && (forall k | k in core.requests :: !Ctl(k.scope))
              && (forall f | f in flights :: !Current(Install(core, kind, conn), f.scope))
    ensures kind.Upstream? && CanInstall(core, Upstream) ==> flights == multiset{}
  {
    var core' := Install(core, kind, conn);
    if kind.Cdp? && CanInstall(core, Cdp) {
      forall k | k in core.requests ensures !Ctl(k.scope) {
        assert Ctl(k.scope) ==> Current(core, k.scope);
      }
    } else {
      ShrinkOrderly(core, core');
    }
    if f :| f in flights {
      assert Dated(core, f);
    }
    forall f | f in flights ensures Dated(core', f) && (kind.Cdp? && CanInstall(core, Cdp) ==> !Current(core', f.scope)) {
      assert Dated(core, f);
    }
  }

  /** The steps that leave requests and fences of the core alone or only take from them. */
  predicate OnlyShrinks(a: Action) {
    a.Claim? || a.UpgradeFails? || a.FinishLeaving? || a.BeginClose? || a.Answer? || a.Echo? || a.CancelCall? || a.FinalClear?
  }

  lemma QuietShrinks(s: Bridge, a: Action)
    requires Enabled(s, a) && OnlyShrinks(a)
    ensures var s' := Next(s, a);
            && Shrinks(s.core, s'.core) && s'.core.debug.owner == s.core.debug.owner
            && forall f | f in s'.flights :: f in s.flights
  {
    match a
    case Answer(f, _, now) => RespondShrinks(s.core, f.key, now);
    case Echo(key, _, now) => RespondShrinks(s.core, key, now);
    case _ =>
  }

  lemma RespondShrinks(core: Core, key: string, now: int)
    ensures Shrinks(core, Respond(core, key, now)) && Respond(core, key, now).debug == core.debug
  {
  }

  lemma LeaveKeepsOrderly(s: Bridge, c: nat, now: int)
    requires Orderly(s) && Enabled(s, Leave(c, now))
    ensures var s' := Next(s, Leave(c, now)); OrderlyCore(s'.core) && AllDated(s'.core, s'.flights)
  {
    if s.conns[c].kind.Cdp? {
      LeaveOrderly(s.core, c, s.conns[c].generation, now);
      LeaveDated(s.core, s.flights, c, s.conns[c].generation, now);
    } else {
      ShrinkOrderly(s.core, Next(s, Leave(c, now)).core);
    }
  }

  lemma FrameKeepsOrderly(s: Bridge, a: Action)
    requires Orderly(s) && Enabled(s, a) && (a.Frame? || a.Inject? || a.EnableRuntime? || a.Untracked?)
    ensures var s' := Next(s, a); OrderlyCore(s'.core) && AllDated(s'.core, s'.flights)
  {
    match a
    case Frame(c, id, m, now, ok, delivered) =>
      var sender := FromController(s.conns[c].generation);
      assert Reflected(s.core, c, s.conns[c]);
      SendOrderly(s.core, sender, id, m, now, ok);
      SendDated(s.core, s.flights, sender, id, m, now, ok, delivered);
    case Inject(id, m, now, ok, delivered) =>
      SendOrderly(s.core, FromSdk, id, m, now, ok);
      SendDated(s.core, s.flights, FromSdk, id, m, now, ok, delivered);
    case EnableRuntime(id, now, delivered) =>
      SendOrderly(s.core, FromBridge, Some(id), "Runtime.enable", now, true);
      SendDated(s.core, s.flights, FromBridge, Some(id), "Runtime.enable", now, true, delivered);
    case Untracked(c, _, _) =>
      assert Reflected(s.core, c, s.conns[c]);
  }

  /** Every step keeps all of this. */
  lemma StepKeepsOrderly(s: Bridge, a: Action)
    requires Orderly(s) && Enabled(s, a)
    ensures Orderly(Next(s, a))
  {
    StepKeepsOwned(s, a);
    if a.BecomeOwner? {
      InstallOrderly(s.core, s.flights, s.conns[a.conn].kind, a.conn);
    } else if a.Leave? {
      LeaveKeepsOrderly(s, a.conn, a.now);
    } else if OnlyShrinks(a) {
      QuietShrinks(s, a);
      ShrinkOrderly(s.core, Next(s, a).core);
      ShrinkDated(s.core, Next(s, a).core, s.flights, Next(s, a).flights);
    } else {
      FrameKeepsOrderly(s, a);
    }
  }

  lemma {:induction false} RunKeepsOrderly(s: Bridge, steps: seq<Action>)
    requires Orderly(s) && Legal(s, steps)
    ensures Orderly(Run(s, steps))
    decreases |steps|
  {
    if steps != [] {
      StepKeepsOrderly(s, steps[0]);
      RunKeepsOrderly(Next(s, steps[0]), steps[1..]);
    }
  }

  /**
   After every run of the bridge, with no assumption on anyone: only the installed controller
   has requests pending, none of them is fenced, and table and fences keep their limits.
   */
  lemma RunOrderly(steps: seq<Action>)
    requires Legal(INITIAL, steps)
    ensures Orderly(Run(INITIAL, steps))
  {
    InitiallyOwned();
    RunKeepsOrderly(INITIAL, steps);
  }
}
