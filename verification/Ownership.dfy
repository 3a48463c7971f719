/**
 The ownership protocol of internal/app/hardening.go over every interleaving of any number
 of connections: one busy connection a side, and generations that only grow.
 */
module Ownership {
  import opened Prelude
  import opened RequestId
  import opened Bridge

  predicate Busy(phase: Phase) { phase != Gone }

  /** What a connection's phase says about its side. */
  predicate Reflected(core: Core, c: nat, conn: Conn) {
    var side := SideOf(core, conn.kind);
    && conn.generation <= side.generation
    && (conn.phase.Reserved? ==> side.claimed && side.owner.None? && conn.generation == 0)
    && (conn.phase.Installed? ==>
          !side.claimed && side.owner == Some(c) && side.generation == conn.generation && conn.generation > 0)
    && (conn.phase.Releasing? ==> side.claimed && side.owner.None? && side.generation == conn.generation)
  }

  /** What a side says about its connections. */
  ghost predicate Backed(s: Bridge, kind: Kind) {
    var side := SideOf(s.core, kind);
    && (side.owner.Some? ==> InPhase(s, side.owner.value, Installed) && s.conns[side.owner.value].kind == kind)
    && (side.claimed ==>
          exists c :: c in s.conns && s.conns[c].kind == kind && s.conns[c].phase in {Reserved, Releasing})
  }

  /** Of each side at most one connection is reserved, installed or releasing. */
  ghost predicate OneBusy(s: Bridge) {
    forall c, d | c in s.conns && d in s.conns && s.conns[c].kind == s.conns[d].kind ::
      Busy(s.conns[c].phase) && Busy(s.conns[d].phase) ==> c == d
  }

  /** No two connections of a side were ever installed under the same generation. */
  ghost predicate OwnGenerations(s: Bridge) {
    forall c, d | c in s.conns && d in s.conns && s.conns[c].kind == s.conns[d].kind ::
      s.conns[c].generation == s.conns[d].generation != 0 ==> c == d
  }

  ghost predicate Owned(s: Bridge) {
    && (forall c | c in s.conns :: Reflected(s.core, c, s.conns[c]))
    && Backed(s, Upstream) && Backed(s, Cdp)
    && OneBusy(s) && OwnGenerations(s)
  }

  /** The flag is set exactly while a connection of the side is reserved or releasing. */
  lemma ClaimedExactly(s: Bridge, kind: Kind)
    requires Owned(s)
    ensures SideOf(s.core, kind).claimed
            <==> exists c :: c in s.conns && s.conns[c].kind == kind && s.conns[c].phase in {Reserved, Releasing}
  {
  }

  ghost predicate OthersGone(s: Bridge, c: nat, kind: Kind) {
    forall d | d in s.conns && d != c && s.conns[d].kind == kind :: s.conns[d].phase.Gone?
  }

  function Other(kind: Kind): Kind { if kind.Upstream? then Cdp else Upstream }

  /** A step that moves one connection and touches its side alone. */
  lemma Moved(s: Bridge, s': Bridge, c: nat, conn: Conn)
    requires Owned(s) && s'.conns == s.conns[c := conn] && OthersGone(s, c, conn.kind)
    requires c in s.conns ==> s.conns[c].kind == conn.kind
    requires SideOf(s'.core, Other(conn.kind)) == SideOf(s.core, Other(conn.kind))
    requires SideOf(s'.core, conn.kind).generation >= SideOf(s.core, conn.kind).generation
    requires Reflected(s'.core, c, conn)
    requires conn.generation in {0, if c in s.conns then s.conns[c].generation else 0}
             || conn.generation > SideOf(s.core, conn.kind).generation
    requires SideOf(s'.core, conn.kind).owner.Some? ==> SideOf(s'.core, conn.kind).owner == Some(c) && conn.phase.Installed?
    requires SideOf(s'.core, conn.kind).claimed ==> conn.phase in {Reserved, Releasing}
    ensures Owned(s')
  {
    forall d | d in s'.conns ensures Reflected(s'.core, d, s'.conns[d]) {
      if d != c {
        assert Reflected(s.core, d, s.conns[d]);
      }
    }
    BackedMoved(s, s', c, conn);
    BusyMoved(s, s', c, conn);
    NumberedMoved(s, s', c, conn);
  }

  lemma BusyMoved(s: Bridge, s': Bridge, c: nat, conn: Conn)
    requires OneBusy(s) && s'.conns == s.conns[c := conn] && OthersGone(s, c, conn.kind)
    requires c in s.conns ==> s.conns[c].kind == conn.kind
    ensures OneBusy(s')
  {
  }

  lemma NumberedMoved(s: Bridge, s': Bridge, c: nat, conn: Conn)
    requires OwnGenerations(s) && s'.conns == s.conns[c := conn] && (c in s.conns ==> s.conns[c].kind == conn.kind)
    requires forall d | d in s.conns && s.conns[d].kind == conn.kind :: s.conns[d].generation <= SideOf(s.core, conn.kind).generation
    requires conn.generation in {0, if c in s.conns then s.conns[c].generation else 0}
             || conn.generation > SideOf(s.core, conn.kind).generation
    ensures OwnGenerations(s')
  {
  }

  lemma BackedMoved(s: Bridge, s': Bridge, c: nat, conn: Conn)
    requires Backed(s, Other(conn.kind)) && s'.conns == s.conns[c := conn]
    requires c in s.conns ==> s.conns[c].kind == conn.kind
    requires SideOf(s'.core, Other(conn.kind)) == SideOf(s.core, Other(conn.kind))
    requires SideOf(s'.core, conn.kind).owner.Some? ==> SideOf(s'.core, conn.kind).owner == Some(c) && conn.phase.Installed?
    requires SideOf(s'.core, conn.kind).claimed ==> conn.phase in {Reserved, Releasing}
    ensures Backed(s', Upstream) && Backed(s', Cdp)
  {
    var kind := Other(conn.kind);
    if SideOf(s'.core, kind).claimed {
      var d :| d in s.conns && s.conns[d].kind == kind && s.conns[d].phase in {Reserved, Releasing};
      assert d in s'.conns && s'.conns[d] == s.conns[d];
    }
    assert Backed(s', kind);
    assert c in s'.conns && s'.conns[c] == conn;
    assert Backed(s', conn.kind);
  }

  /** A connection that is neither refused nor gone is the only busy one of its side. */
  lemma Alone(s: Bridge, c: nat)
    requires Owned(s) && c in s.conns && Busy(s.conns[c].phase)
    ensures OthersGone(s, c, s.conns[c].kind) && Reflected(s.core, c, s.conns[c])
  {
  }

  lemma Nobody(s: Bridge, c: nat, kind: Kind)
    requires Owned(s) && c !in s.conns && !SideOf(s.core, kind).claimed && SideOf(s.core, kind).owner.None?
    ensures OthersGone(s, c, kind)
  {
    forall d | d in s.conns && s.conns[d].kind == kind ensures s.conns[d].phase.Gone? {
      assert Reflected(s.core, d, s.conns[d]);
    }
  }

  /** A connection that finds its side taken is gone at once. */
  lemma TurnedAway(s: Bridge, s': Bridge, c: nat, kind: Kind)
    requires Owned(s) && c !in s.conns && s'.conns == s.conns[c := Conn(kind, Gone, 0)]
    requires SameSides(s'.core, s.core)
    ensures Owned(s')
  {
    forall d | d in s'.conns ensures Reflected(s'.core, d, s'.conns[d]) {
      if d != c {
        assert Reflected(s.core, d, s.conns[d]);
      }
    }
    BackedUnmoved(s, s', c, Upstream);
    BackedUnmoved(s, s', c, Cdp);
  }

  lemma BackedUnmoved(s: Bridge, s': Bridge, c: nat, kind: Kind)
    requires Backed(s, kind) && SideOf(s'.core, kind) == SideOf(s.core, kind)
    requires forall d | d in s.conns :: d in s'.conns && s'.conns[d] == s.conns[d]
    ensures Backed(s', kind)
  {
    if SideOf(s.core, kind).claimed {
      var d :| d in s.conns && s.conns[d].kind == kind && s.conns[d].phase in {Reserved, Releasing};
      assert d in s'.conns && s'.conns[d] == s.conns[d];
    }
  }

  lemma Unmoved(s: Bridge, s': Bridge)
    requires Owned(s) && s'.conns == s.conns && SameSides(s'.core, s.core)
    ensures Owned(s')
  {
    forall d | d in s'.conns ensures Reflected(s'.core, d, s'.conns[d]) {
      assert Reflected(s.core, d, s.conns[d]);
    }
    BackedUnmoved(s, s', 0, Upstream);
    BackedUnmoved(s, s', 0, Cdp);
  }

  lemma ClaimKeepsOwned(s: Bridge, c: nat, kind: Kind)
    requires Owned(s) && Enabled(s, Claim(c, kind))
    ensures Owned(Next(s, Claim(c, kind)))
  {
    if CanReserve(s.core, kind) {
      Nobody(s, c, kind);
      Moved(s, Next(s, Claim(c, kind)), c, Conn(kind, Reserved, 0));
    } else {
      TurnedAway(s, Next(s, Claim(c, kind)), c, kind);
    }
  }

  /** The steps a connection takes by itself. */
  lemma ConnKeepsOwned(s: Bridge, a: Action)
    requires Owned(s) && Enabled(s, a) && (a.UpgradeFails? || a.FinishLeaving?)
    ensures Owned(Next(s, a))
  {
    Alone(s, a.conn);
    Moved(s, Next(s, a), a.conn, Next(s, a).conns[a.conn]);
  }

  lemma BecomeKeepsOwned(s: Bridge, a: Action)
    requires Owned(s) && Enabled(s, a) && a.BecomeOwner?
    ensures Owned(Next(s, a))
  {
    Alone(s, a.conn);
    Moved(s, Next(s, a), a.conn, Next(s, a).conns[a.conn]);
  }

  lemma LeaveKeepsOwned(s: Bridge, a: Action)
    requires Owned(s) && Enabled(s, a) && a.Leave?
    ensures Owned(Next(s, a))
  {
    Alone(s, a.conn);
    ReleaseSides(s, a.conn, a);
    Moved(s, Next(s, a), a.conn, s.conns[a.conn].(phase := Releasing));
  }

  /** Every step of every interleaving keeps the ownership protocol. */
  lemma StepKeepsOwned(s: Bridge, a: Action)
    requires Owned(s) && Enabled(s, a)
    ensures Owned(Next(s, a))
  {
    if a.Claim? {
      ClaimKeepsOwned(s, a.conn, a.kind);
    } else if a.UpgradeFails? || a.FinishLeaving? {
      ConnKeepsOwned(s, a);
    } else if a.BecomeOwner? {
      BecomeKeepsOwned(s, a);
    } else if a.Leave? {
      LeaveKeepsOwned(s, a);
    } else {
      Quiet(s, a);
      Unmoved(s, Next(s, a));
    }
  }

  /** The steps of the protocol itself; all others leave connections and owners alone. */
  predicate Moves(a: Action) {
    a.Claim? || a.UpgradeFails? || a.BecomeOwner? || a.Leave? || a.FinishLeaving?
  }

  lemma Quiet(s: Bridge, a: Action)
    requires Enabled(s, a) && !Moves(a)
    ensures var s' := Next(s, a); s'.conns == s.conns && SameSides(s'.core, s.core)
  {
    match a
    case Frame(c, id, m, now, ok, _) => SendSides(s.core, FromController(s.conns[c].generation), id, m, now, ok);
    case Inject(id, m, now, ok, _) => SendSides(s.core, FromSdk, id, m, now, ok);
    case EnableRuntime(id, now, _) => SendSides(s.core, FromBridge, Some(id), "Runtime.enable", now, true);
    case Answer(f, _, now) => RespondSides(s.core, f.key, now);
    case Echo(key, _, now) => RespondSides(s.core, key, now);
    case _ =>
  }

  predicate SameSides(core: Core, core': Core) { core.debug == core'.debug && core.cdp == core'.cdp }

  lemma SendSides(core: Core, sender: Sender, id: Option<Id>, m: string, now: int, ok: bool)
    ensures SameSides(Send(core, sender, id, m, now, ok), core)
  {
  }

  lemma RespondSides(core: Core, id: string, now: int)
    ensures SameSides(Respond(core, id, now), core)
  {
  }

  lemma ReleaseSides(s: Bridge, c: nat, a: Action)
    requires Enabled(s, a) && a.Leave? && a.conn == c && Reflected(s.core, c, s.conns[c])
    ensures var kind, s' := s.conns[c].kind, Next(s, a);
            && s'.conns == s.conns[c := s.conns[c].(phase := Releasing)]
            && SideOf(s'.core, kind) == Side(true, None, s.conns[c].generation)
            && SideOf(s'.core, Other(kind)) == SideOf(s.core, Other(kind))
  {
  }

  /** The ownership protocol holds after every run. */
  lemma {:induction false} RunKeepsOwned(s: Bridge, steps: seq<Action>)
    requires Owned(s) && Legal(s, steps)
    ensures Owned(Run(s, steps))
    decreases |steps|
  {
    if steps != [] {
      StepKeepsOwned(s, steps[0]);
      RunKeepsOwned(Next(s, steps[0]), steps[1..]);
    }
  }

  lemma InitiallyOwned()
    ensures Owned(INITIAL)
  {
  }

  // ---------------------------------------------------------------- generations

  /** The generation a connection was installed under, 0 for none. */
  function GenerationOf(s: Bridge, c: nat): nat { if c in s.conns then s.conns[c].generation else 0 }

  /** One step: a generation is given once, and beyond all generations of the side so far. */
  lemma StepGenerations(s: Bridge, a: Action, c: nat)
    requires Owned(s) && Enabled(s, a)
    ensures var s' := Next(s, a);
            && (c in s.conns ==> c in s'.conns && s'.conns[c].kind == s.conns[c].kind)
            && (GenerationOf(s, c) != 0 ==> GenerationOf(s', c) == GenerationOf(s, c))
            && (GenerationOf(s, c) == 0 != GenerationOf(s', c) ==>
                  forall d | d in s.conns && s.conns[d].kind == s'.conns[c].kind :: s.conns[d].generation < GenerationOf(s', c))
  {
    if Moves(a) {
      if GenerationOf(s, c) == 0 && a == BecomeOwner(c) {
        forall d | d in s.conns && s.conns[d].kind == s.conns[c].kind
          ensures s.conns[d].generation < s.conns[c].generation + 1 + SideOf(s.core, s.conns[c].kind).generation
        {
          assert Reflected(s.core, d, s.conns[d]);
        }
      } else if a.BecomeOwner? {
        assert Reflected(s.core, a.conn, s.conns[a.conn]);
      }
    } else {
      Quiet(s, a);
    }
  }

  /** Generations order the connections of a side by when they were installed. */
  lemma {:induction false} GenerationsIncrease(s: Bridge, steps: seq<Action>, earlier: nat, later: nat)
    requires Owned(s) && Legal(s, steps)
    requires GenerationOf(s, earlier) != 0 == GenerationOf(s, later)
    requires GenerationOf(Run(s, steps), later) != 0
    requires Run(s, steps).conns[later].kind == s.conns[earlier].kind
    ensures GenerationOf(Run(s, steps), earlier) == GenerationOf(s, earlier) < GenerationOf(Run(s, steps), later)
    decreases |steps|
  {
    var s' := Next(s, steps[0]);
    StepKeepsOwned(s, steps[0]);
    StepGenerations(s, steps[0], earlier);
    StepGenerations(s, steps[0], later);
    if GenerationOf(s', later) == 0 {
      GenerationsIncrease(s', steps[1..], earlier, later);
    } else {
      GenerationKept(s', steps[1..], earlier);
      GenerationKept(s', steps[1..], later);
    }
  }

  lemma {:induction false} GenerationKept(s: Bridge, steps: seq<Action>, c: nat)
    requires Owned(s) && Legal(s, steps) && GenerationOf(s, c) != 0
    ensures var t := Run(s, steps); GenerationOf(t, c) == GenerationOf(s, c) && t.conns[c].kind == s.conns[c].kind
    decreases |steps|
  {
    if steps != [] {
      StepKeepsOwned(s, steps[0]);
      StepGenerations(s, steps[0], c);
      GenerationKept(Next(s, steps[0]), steps[1..], c);
    }
  }
}
