/**
 The bridge of internal/app as a state machine. Each step is one critical section of the
 source: everything it does under `dispatchMu`, or one section under `connMu` alone.

 `Core` holds the fields of App that decide where a message goes. Its functions say what
 each section does to them; class App in App.dfy carries them out on its fields. `Bridge`
 adds what the sections see only through their callers: how far each connection's
 goroutine has got, and the requests that travelled upstream and are not yet answered.
 */
module Bridge {
  import opened Prelude
  import opened RequestId
  import opened Correlator

  const MAX_PENDING := 4096
  const PENDING_TTL := 300_000_000_000
  const MAX_FENCES := 4096

  datatype Kind = Upstream | Cdp

  /** One side's ownership fields: claimed flag, owner and generation counter. */
  datatype Side = Side(claimed: bool, owner: Option<nat>, generation: nat)

  datatype Core = Core(
    closing: bool, debug: Side, cdp: Side, requests: Table, fences: map<string, nat>, blocked: bool)

  const NEW_CORE := Core(false, Side(false, None, 0), Side(false, None, 0), map[], map[], false)

  function SideOf(core: Core, kind: Kind): Side { if kind.Upstream? then core.debug else core.cdp }

  function WithSide(core: Core, kind: Kind, side: Side): Core {
    if kind.Upstream? then core.(debug := side) else core.(cdp := side)
  }

  function ControllerScope(generation: nat): Scope { Scope("controller", generation) }

  const BOOTSTRAP := Scope("bootstrap", 0)
  const UNSCOPED := Scope("", 0)

  // ---------------------------------------------------------------- ownership

  predicate CanReserve(core: Core, kind: Kind) {
    !core.closing && !SideOf(core, kind).claimed && SideOf(core, kind).owner.None?
  }

  function Reserve(core: Core, kind: Kind): Core {
    if CanReserve(core, kind) then WithSide(core, kind, SideOf(core, kind).(claimed := true)) else core
  }

  function Unreserve(core: Core, kind: Kind): Core {
    WithSide(core, kind, SideOf(core, kind).(claimed := false))
  }

  predicate CanInstall(core: Core, kind: Kind) { !core.closing && SideOf(core, kind).owner.None? }

  /** installOwner: the claim ends either way; a new upstream transport ends all fences. */
  function Install(core: Core, kind: Kind, conn: nat): Core {
    var side := SideOf(core, kind);
    if !CanInstall(core, kind) then Unreserve(core, kind)
    else
      var installed := WithSide(core, kind, Side(false, Some(conn), side.generation + 1));
      if kind.Upstream? then installed.(fences := map[], blocked := false) else installed
  }

  predicate Owns(core: Core, kind: Kind, conn: nat, generation: nat) {
    SideOf(core, kind).owner == Some(conn) && SideOf(core, kind).generation == generation
  }

  function ReleaseOwner(core: Core, kind: Kind, conn: nat, generation: nat): Core {
    if Owns(core, kind, conn, generation) then WithSide(core, kind, Side(true, None, generation)) else core
  }

  function FinishRelease(core: Core, kind: Kind, generation: nat): Core {
    var side := SideOf(core, kind);
    if side.owner.None? && side.generation == generation then WithSide(core, kind, side.(claimed := false)) else core
  }

  // ---------------------------------------------------------------- fences

  function Ids(keys: set<PendingKey>): set<string> { set k | k in keys :: k.id }

  function Marked(fences: map<string, nat>, ids: set<string>, generation: nat): map<string, nat> {
    fences + (map k | k in ids :: generation)
  }

  /** addCDPResponseFencesLocked: more than MAX_FENCES distinct keys block the bridge instead. */
  function AddFences(core: Core, ids: set<string>, generation: nat): Core {
    if ids == {} || core.blocked then core
    else if |core.fences.Keys + ids| > MAX_FENCES then core.(fences := map[], blocked := true)
    else core.(fences := Marked(core.fences, ids, generation))
  }

  predicate IsFenced(core: Core, id: string) { core.blocked || id in core.fences }

  function ConsumeFence(core: Core, id: string): Core {
    if core.blocked then core else core.(fences := core.fences - {id})
  }

  // ---------------------------------------------------------------- the two release paths

  /** The deferred section of readCDP: the requests left behind become fences. */
  function ReleaseController(core: Core, conn: nat, generation: nat, now: int): Core {
    if !Owns(core, Cdp, conn, generation) then core
    else
      var live := Live(core.requests, now);
      var left := InScope(live, ControllerScope(generation));
      AddFences(ReleaseOwner(core, Cdp, conn, generation).(requests := Without(live, left)), Ids(left), generation)
  }

  /** The entries failCurrentControllerRequestsLocked answers with an error. */
  function FailedKeys(core: Core, now: int): set<PendingKey> {
    if core.cdp.owner.Some? && core.cdp.generation != 0
    then InScope(Live(core.requests, now), ControllerScope(core.cdp.generation)) else {}
  }

  /** The deferred section of readDebug: no response can come any more. */
  function ReleaseUpstream(core: Core, conn: nat, generation: nat): Core {
    if !Owns(core, Upstream, conn, generation) then core
    else ReleaseOwner(core, Upstream, conn, generation).(requests := map[], fences := map[], blocked := false)
  }

  // ---------------------------------------------------------------- responses

  /** What becomes of a response frame with an ID. */
  datatype Outcome =
    | Fenced                                // dropped at a fence
    | Swallowed                             // it was the bridge's own bootstrap request
    | Broadcast(resolved: Option<Scope>)    // passed on; the pending entry it resolved, if any

  /** The scope in which resolveCDPResponse finds the entry, in its order of preference. */
  function ResolvedScope(core: Core, id: string, now: int): Option<Scope> {
    var live := Live(core.requests, now);
    var current := ControllerScope(core.cdp.generation);
    if PendingKey(BOOTSTRAP, id) in live then Some(BOOTSTRAP)
    else if core.cdp.owner.Some? && PendingKey(current, id) in live then Some(current)
    else if PendingKey(UNSCOPED, id) in live then Some(UNSCOPED)
    else None
  }

  function OutcomeOf(core: Core, id: string, now: int): Outcome {
    if IsFenced(core, id) then Fenced
    else
      var scope := ResolvedScope(core, id, now);
      if scope == Some(BOOTSTRAP) then Swallowed else Broadcast(scope)
  }

  /** The result branch of handleUnwrappedDebugForGeneration. */
  function Respond(core: Core, id: string, now: int): Core {
    if IsFenced(core, id) then ConsumeFence(core, id)
    else
      var live := Live(core.requests, now);
      match ResolvedScope(core, id, now)
      case None => core.(requests := live)
      case Some(scope) => core.(requests := Without(live, {PendingKey(scope, id)}))
  }

  /**
   A frame whose result is no object, or whose error has the wrong shape, does not unmarshal:
   it passes by the fences and the table, blocked or not, and is passed on. All others are legible.
   */
  function Arrival(core: Core, id: string, legible: bool, now: int): Outcome {
    if legible then OutcomeOf(core, id, now) else Broadcast(None)
  }

  function Received(core: Core, id: string, legible: bool, now: int): Core {
    if legible then Respond(core, id, now) else core
  }

  // ---------------------------------------------------------------- requests

  datatype Refusal = Disconnected | Ambiguous | SubscriptionLimit | PendingLimit

  /** Who sends: a network controller, the SDK, or the bridge itself. */
  datatype Sender = FromController(generation: nat) | FromSdk | FromBridge

  function SenderScope(sender: Sender): Scope {
    match sender
    case FromController(g) => ControllerScope(g)
    case FromSdk => UNSCOPED
    case FromBridge => BOOTSTRAP
  }

  /**
   sendCDPToContextLocked: why the frame is refused, if it is. `id` is None for a frame
   without a method or without a usable id; `subscribed` is trackSubscriptionLocked's verdict.
   */
  function Refused(core: Core, sender: Sender, id: Option<Id>, now: int, subscribed: bool): Option<Refusal> {
    if id.Some? && sender.FromController? && core.debug.owner.None? then Some(Disconnected)
    else if id.Some? && sender.FromController? && IsFenced(core, IDKey(id.value).0) then Some(Ambiguous)
    else if !subscribed then Some(SubscriptionLimit)
    else if id.Some? && Full(Live(core.requests, now), ScopedKey(SenderScope(sender), id.value), MAX_PENDING)
    then Some(PendingLimit)
    else None
  }

  /** The request table behind sendCDPToContextLocked: only a try to add prunes it. */
  function Send(core: Core, sender: Sender, id: Option<Id>, method_: string, now: int, subscribed: bool): Core {
    var refused := Refused(core, sender, id, now, subscribed);
    if id.None? || (refused.Some? && refused.value != PendingLimit) then core
    else
      core.(requests := Add(Live(core.requests, now), MAX_PENDING, SenderScope(sender),
                            Request(id.value, method_), now + PENDING_TTL))
  }

  /** CancelCDPRequest. */
  function CancelScope(core: Core): Scope {
    if core.cdp.owner.Some? then ControllerScope(core.cdp.generation) else UNSCOPED
  }

  function CancelRequest(core: Core, id: Id, now: int): Core {
    core.(requests := Without(Live(core.requests, now), {ScopedKey(CancelScope(core), id)}))
  }

  // ---------------------------------------------------------------- the protocol

  /** How far a connection's goroutine has got. */
  datatype Phase = Reserved | Installed | Releasing | Gone

  datatype Conn = Conn(kind: Kind, phase: Phase, generation: nat)

  /** A request on its way: sent upstream under this key, not yet answered; tracked if the table took it. */
  datatype Flight = Flight(scope: Scope, key: string, tracked: bool)

  datatype Bridge = Bridge(core: Core, conns: map<nat, Conn>, flights: multiset<Flight>)

  const INITIAL := Bridge(NEW_CORE, map[], multiset{})

  datatype Action =
    | Claim(conn: nat, kind: Kind)
    | UpgradeFails(conn: nat)
    | BecomeOwner(conn: nat)
    | Leave(conn: nat, now: int)
    | FinishLeaving(conn: nat)
    | BeginClose
    // `delivered`: the upstream connection's queue took the frame
    | Frame(conn: nat, id: Option<Id>, method_: string, now: int, subscribed: bool, delivered: bool)
    | Inject(id: Option<Id>, method_: string, now: int, subscribed: bool, delivered: bool)
    | EnableRuntime(requestId: Id, now: int, delivered: bool)
    // a controller's frame with an ID but no usable method, which is forwarded and not tracked
    | Untracked(conn: nat, requestId: Id, delivered: bool)
    // the upstream answers a request
    | Answer(flight: Flight, legible: bool, now: int)
    // a response frame that answers no request on its way: a repeat, or a replayed capture
    | Echo(key: string, legible: bool, now: int)
    | CancelCall(requestId: Id, now: int)
    // the end of Close, behind connectionWG.Wait()
    | FinalClear

  predicate InPhase(s: Bridge, conn: nat, phase: Phase) { conn in s.conns && s.conns[conn].phase == phase }

  predicate Enabled(s: Bridge, a: Action) {
    match a
    case Claim(c, _) => c !in s.conns
    case UpgradeFails(c) => InPhase(s, c, Reserved)
    case BecomeOwner(c) => InPhase(s, c, Reserved)
    case Leave(c, _) => InPhase(s, c, Installed)
    case FinishLeaving(c) => InPhase(s, c, Releasing)
    case Frame(c, _, _, _, _, _) => InPhase(s, c, Installed) && s.conns[c].kind.Cdp?
    case Untracked(c, _, _) => InPhase(s, c, Installed) && s.conns[c].kind.Cdp?
    case Answer(f, _, _) => f in s.flights
    case FinalClear => s.core.closing && forall c | c in s.conns :: s.conns[c].phase !in {Installed, Releasing}
    case _ => true
  }

  /** A frame is on its way once it is forwarded and an upstream connection took it. */
  predicate Departs(core: Core, sender: Sender, id: Option<Id>, now: int, subscribed: bool, delivered: bool) {
    id.Some? && Refused(core, sender, id, now, subscribed).None? && delivered && core.debug.owner.Some?
  }

  function Depart(core: Core, flights: multiset<Flight>, sender: Sender, id: Option<Id>, now: int,
                  subscribed: bool, delivered: bool): multiset<Flight>
  {
    if Departs(core, sender, id, now, subscribed, delivered)
    then flights + multiset{Flight(SenderScope(sender), IDKey(id.value).0, true)}
    else flights
  }

  function Next(s: Bridge, a: Action): Bridge
    requires Enabled(s, a)
  {
    match a
    case Claim(c, kind) =>
      var phase := if CanReserve(s.core, kind) then Reserved else Gone;
      s.(core := Reserve(s.core, kind), conns := s.conns[c := Conn(kind, phase, 0)])
    case UpgradeFails(c) =>
      s.(core := Unreserve(s.core, s.conns[c].kind), conns := s.conns[c := s.conns[c].(phase := Gone)])
    case BecomeOwner(c) =>
      var kind := s.conns[c].kind;
      var conn := if CanInstall(s.core, kind) then Conn(kind, Installed, SideOf(s.core, kind).generation + 1)
                  else s.conns[c].(phase := Gone);
      s.(core := Install(s.core, kind, c), conns := s.conns[c := conn])
    case Leave(c, now) =>
      var conn := s.conns[c];
      var conns := s.conns[c := conn.(phase := if Owns(s.core, conn.kind, c, conn.generation) then Releasing else Gone)];
      if conn.kind.Cdp? then s.(core := ReleaseController(s.core, c, conn.generation, now), conns := conns)
      else
        Bridge(ReleaseUpstream(s.core, c, conn.generation), conns,
               if Owns(s.core, Upstream, c, conn.generation) then multiset{} else s.flights)
    case FinishLeaving(c) =>
      var conn := s.conns[c];
      s.(core := FinishRelease(s.core, conn.kind, conn.generation), conns := s.conns[c := conn.(phase := Gone)])
    case BeginClose => s.(core := s.core.(closing := true))
    case Frame(c, id, method_, now, subscribed, delivered) =>
      var sender := FromController(s.conns[c].generation);
      if !Owns(s.core, Cdp, c, s.conns[c].generation) then s
      else s.(core := Send(s.core, sender, id, method_, now, subscribed),
              flights := Depart(s.core, s.flights, sender, id, now, subscribed, delivered))
    case Inject(id, method_, now, subscribed, delivered) =>
      s.(core := Send(s.core, FromSdk, id, method_, now, subscribed),
         flights := Depart(s.core, s.flights, FromSdk, id, now, subscribed, delivered))
    case EnableRuntime(id, now, delivered) =>
      s.(core := Send(s.core, FromBridge, Some(id), "Runtime.enable", now, true),
         flights := Depart(s.core, s.flights, FromBridge, Some(id), now, true, delivered))
    case Untracked(c, id, delivered) =>
      var scope := ControllerScope(s.conns[c].generation);
      if Owns(s.core, Cdp, c, s.conns[c].generation) && delivered && s.core.debug.owner.Some?
      then s.(flights := s.flights + multiset{Flight(scope, IDKey(id).0, false)})
      else s
    case Answer(f, legible, now) => s.(core := Received(s.core, f.key, legible, now), flights := s.flights - multiset{f})
    case Echo(key, legible, now) => s.(core := Received(s.core, key, legible, now))
    case CancelCall(id, now) => s.(core := CancelRequest(s.core, id, now))
    case FinalClear => s.(core := s.core.(requests := map[]))
  }

  /** The steps can be taken one after the other. */
  predicate Legal(s: Bridge, steps: seq<Action>)
    decreases |steps|
  {
    steps == [] || (Enabled(s, steps[0]) && Legal(Next(s, steps[0]), steps[1..]))
  }

  function Run(s: Bridge, steps: seq<Action>): Bridge
    requires Legal(s, steps)
    decreases |steps|
  {
    if steps == [] then s else Run(Next(s, steps[0]), steps[1..])
  }
}
