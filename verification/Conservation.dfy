/**
 What becomes of a controller's requests. A frame with an ID is either refused with one error
 reply or enters the table, and every entry leaves the table by exactly one of seven causes.
 None of this needs the assumptions of fence safety: it holds over every run.
 */
module Conservation {
  import opened Prelude
  import opened RequestId
  import opened Correlator
  import opened Bridge
  import opened Ownership
  import opened Orders

  /** The pending requests of controllers. */
  function CtlKeys(core: Core): set<PendingKey> { set k | k in core.requests && Ctl(k.scope) }

  // ---------------------------------------------------------------- the blocked bridge

  predicate ChangesUpstream(s: Bridge, a: Action)
    requires Enabled(s, a)
  {
    (a.BecomeOwner? || a.Leave?) && s.conns[a.conn].kind.Upstream?
  }

  predicate SameUpstream(s: Bridge, steps: seq<Action>)
    requires Legal(s, steps)
    decreases |steps|
  {
    steps == [] || (!ChangesUpstream(s, steps[0]) && SameUpstream(Next(s, steps[0]), steps[1..]))
  }

  /** Sending changes neither fences nor the blocked state. */
  lemma SendKeepsFences(s: Bridge, a: Action)
    requires Enabled(s, a) && (a.Frame? || a.Inject? || a.EnableRuntime? || a.Untracked?)
    ensures Next(s, a).core.fences == s.core.fences && Next(s, a).core.blocked == s.core.blocked
  {
    match a
    case Frame(c, id, m, now, ok, _) => SendParts(s.core, FromController(s.conns[c].generation), id, m, now, ok);
    case Inject(id, m, now, ok, _) => SendParts(s.core, FromSdk, id, m, now, ok);
    case EnableRuntime(id, now, _) => SendParts(s.core, FromBridge, Some(id), "Runtime.enable", now, true);
    case Untracked(_, _, _) =>
  }

  lemma StepStaysBlocked(s: Bridge, a: Action)
    requires s.core.blocked && Enabled(s, a) && !ChangesUpstream(s, a)
    ensures Next(s, a).core.blocked
  {
    if a.Frame? || a.Inject? || a.EnableRuntime? || a.Untracked? {
      SendKeepsFences(s, a);
    }
  }

  /**
   After a fence overflow the bridge fails closed: until the upstream changes, every legible
   response is dropped, and every request of a controller refused. An illegible response, which
   no fence is asked about, is passed on all the same.
   */
  lemma {:induction false} FailsClosed(s: Bridge, steps: seq<Action>, id: Id, generation: nat, legible: bool, now: int, subscribed: bool)
    requires s.core.blocked && Legal(s, steps) && SameUpstream(s, steps)
    ensures var t := Run(s, steps);
            && t.core.blocked
            && Arrival(t.core, IDKey(id).0, legible, now) == (if legible then Fenced else Broadcast(None))
            && Received(t.core, IDKey(id).0, legible, now) == t.core
            && Refused(t.core, FromController(generation), Some(id), now, subscribed) in {Some(Disconnected), Some(Ambiguous)}
    decreases |steps|
  {
    if steps != [] {
      StepStaysBlocked(s, steps[0]);
      FailsClosed(Next(s, steps[0]), steps[1..], id, generation, legible, now, subscribed);
    }
  }

  /** A legible response with this key arrives. */
  predicate Responds(a: Action, key: string) {
    (a.Answer? && a.legible && a.flight.key == key) || (a.Echo? && a.legible && a.key == key)
  }

  predicate NoResponse(steps: seq<Action>, key: string) { forall a | a in steps :: !Responds(a, key) }

  lemma StepStaysFenced(s: Bridge, a: Action, key: string)
    requires IsFenced(s.core, key) && Enabled(s, a) && !ChangesUpstream(s, a) && !Responds(a, key)
    requires Sized(s.core)
    ensures IsFenced(Next(s, a).core, key)
  {
    if a.Leave? {
      LeaveStaysFenced(s.core, a.conn, s.conns[a.conn].generation, a.now, key);
    } else if a.Frame? || a.Inject? || a.EnableRuntime? || a.Untracked? {
      SendKeepsFences(s, a);
    } else if a.Answer? || a.Echo? {
      ResponseStaysFenced(s, a, key);
    } else if a.Claim? || a.UpgradeFails? || a.BecomeOwner? || a.FinishLeaving? {
      ChangeStaysFenced(s, a, key);
    }
  }

  lemma ResponseStaysFenced(s: Bridge, a: Action, key: string)
    requires IsFenced(s.core, key) && Enabled(s, a) && (a.Answer? || a.Echo?) && !Responds(a, key)
    ensures IsFenced(Next(s, a).core, key)
  {
  }

  lemma ChangeStaysFenced(s: Bridge, a: Action, key: string)
    requires IsFenced(s.core, key) && Enabled(s, a) && !ChangesUpstream(s, a)
    requires a.Claim? || a.UpgradeFails? || a.BecomeOwner? || a.FinishLeaving?
    ensures IsFenced(Next(s, a).core, key)
  {
  }

  lemma LeaveStaysFenced(core: Core, conn: nat, generation: nat, now: int, key: string)
    requires IsFenced(core, key) && Sized(core)
    ensures IsFenced(ReleaseController(core, conn, generation, now), key)
  {
    if Owns(core, Cdp, conn, generation) {
      LeaveParts(core, conn, now, InScope(Live(core.requests, now), ControllerScope(generation)));
    }
  }

  /** A fence stands, and its ID stays refused, until a legible response with that ID or a change of the upstream. */
  lemma {:induction false} FenceLasts(s: Bridge, steps: seq<Action>, id: Id, generation: nat, now: int, subscribed: bool)
    requires Orderly(s) && IsFenced(s.core, IDKey(id).0)
    requires Legal(s, steps) && SameUpstream(s, steps) && NoResponse(steps, IDKey(id).0)
    ensures var t := Run(s, steps);
            && IsFenced(t.core, IDKey(id).0)
            && Refused(t.core, FromController(generation), Some(id), now, subscribed) in {Some(Disconnected), Some(Ambiguous)}
    decreases |steps|
  {
    if steps != [] {
      StepStaysFenced(s, steps[0], IDKey(id).0);
      StepKeepsOrderly(s, steps[0]);
      assert forall a | a in steps[1..] :: a in steps;
      FenceLasts(Next(s, steps[0]), steps[1..], id, generation, now, subscribed);
    }
  }

  /** A new upstream, or the loss of the old one, ends every fence: no ID is ambiguous behind it. */
  lemma ChangeReopens(s: Bridge, a: Action, id: Id)
    requires Orderly(s) && Enabled(s, a) && ChangesUpstream(s, a)
    requires a.BecomeOwner? ==> !s.core.closing
    ensures !IsFenced(Next(s, a).core, IDKey(id).0)
  {
    assert Reflected(s.core, a.conn, s.conns[a.conn]);
  }

  // ---------------------------------------------------------------- frames

  /** The local error reply a controller's frame gets, if any: the frame's ID and the reason. */
  function Reply(s: Bridge, a: Action): Option<(Id, Refusal)>
    requires a.Frame? && Enabled(s, a)
  {
    var conn := s.conns[a.conn];
    if a.id.None? || !Owns(s.core, Cdp, a.conn, conn.generation) then None
    else
      match Refused(s.core, FromController(conn.generation), a.id, a.now, a.subscribed)
      case None => None
      case Some(r) => Some((a.id.value, r))
  }

  /**
   A controller's frame with an ID is refused with one error reply, puts nothing on its way
   and adds nothing to the table; or it gets no reply, and is pending under its own key.
   */
  lemma FrameOutcome(s: Bridge, a: Action)
    requires Owned(s) && a.Frame? && Enabled(s, a) && a.id.Some?
    ensures var s' := Next(s, a);
            var key := ScopedKey(ControllerScope(s.core.cdp.generation), a.id.value);
            if Reply(s, a).Some?
            then s'.flights == s.flights && Reply(s, a).value.0 == a.id.value
                 && (forall k | k in s'.core.requests :: k in s.core.requests && s'.core.requests[k] == s.core.requests[k])
            else key in s'.core.requests && s'.core.requests[key].request == Request(a.id.value, a.method_)
                 && (forall k | k in s'.core.requests && k != key :: k in s.core.requests && s'.core.requests[k] == s.core.requests[k])
                 && s'.flights
                    == (if a.delivered && s.core.debug.owner.Some? then s.flights + multiset{Flight(key.scope, key.id, true)}
                        else s.flights)
  {
    assert Reflected(s.core, a.conn, s.conns[a.conn]);
    SendParts(s.core, FromController(s.core.cdp.generation), a.id, a.method_, a.now, a.subscribed);
  }

  /** A frame with an ID but no method is neither refused nor tracked, fenced or blocked as its ID may be. */
  lemma UntrackedOutcome(s: Bridge, a: Action)
    requires Owned(s) && a.Untracked? && Enabled(s, a)
    ensures Next(s, a).core == s.core
    ensures Next(s, a).flights
            == if a.delivered && s.core.debug.owner.Some?
               then s.flights + multiset{Flight(ControllerScope(s.core.cdp.generation), IDKey(a.requestId).0, false)}
               else s.flights
  {
    assert Reflected(s.core, a.conn, s.conns[a.conn]);
  }

  // ---------------------------------------------------------------- the ledger

  datatype Cause =
    | Resolved      // its response was passed on
    | Cancelled     // CancelCDPRequest
    | Replaced      // the controller sent the ID again
    | Pruned        // its deadline had passed
    | UpstreamLost  // answered with an error as the upstream left
    | MadeFence     // its controller left: the ID is fenced
    | MadeBlock     // its controller left, and the fences overflowed

  predicate Expired(core: Core, k: PendingKey, now: int) { k in core.requests && core.requests[k].expiresAt <= now }

  function SendCause(core: Core, sender: Sender, id: Option<Id>, now: int, subscribed: bool, k: PendingKey): Option<Cause> {
    if !Tries(core, sender, id, now, subscribed) then None
    else if Expired(core, k, now) then Some(Pruned)
    else if Refused(core, sender, id, now, subscribed).None? && k == ScopedKey(SenderScope(sender), id.value) then Some(Replaced)
    else None
  }

  function RespondCause(core: Core, key: string, now: int, k: PendingKey): Option<Cause> {
    if IsFenced(core, key) then None
    else if Expired(core, k, now) then Some(Pruned)
    else if ResolvedScope(core, key, now) == Some(k.scope) && k.id == key then Some(Resolved)
    else None
  }

  /** Why the step takes the controller entry k out of the table, if it does. */
  function CauseOf(s: Bridge, a: Action, k: PendingKey): Option<Cause>
    requires Enabled(s, a)
  {
    match a
    case Leave(c, now) =>
      var conn := s.conns[c];
      if !Owns(s.core, conn.kind, c, conn.generation) then None
      else if Expired(s.core, k, now) then Some(Pruned)
      else if conn.kind.Upstream? then Some(UpstreamLost)
      else if ReleaseController(s.core, c, conn.generation, now).blocked then Some(MadeBlock)
      else Some(MadeFence)
    case Frame(c, id, _, now, ok, _) =>
      if !Owns(s.core, Cdp, c, s.conns[c].generation) then None
      else SendCause(s.core, FromController(s.conns[c].generation), id, now, ok, k)
    case Inject(id, _, now, ok, _) => SendCause(s.core, FromSdk, id, now, ok, k)
    case EnableRuntime(id, now, _) => SendCause(s.core, FromBridge, Some(id), now, true, k)
    case Answer(f, legible, now) => if legible then RespondCause(s.core, f.key, now, k) else None
    case Echo(key, legible, now) => if legible then RespondCause(s.core, key, now, k) else None
    case CancelCall(id, now) =>
      if Expired(s.core, k, now) then Some(Pruned)
      else if k == ScopedKey(CancelScope(s.core), id) then Some(Cancelled)
      else None
    case _ => None
  }

  function Departed(s: Bridge, a: Action): set<PendingKey>
    requires Enabled(s, a)
  {
    set k | k in CtlKeys(s.core) && CauseOf(s, a, k).Some?
  }

  /** The entry a frame of a controller adds. */
  function Admitted(s: Bridge, a: Action): set<PendingKey>
    requires Enabled(s, a)
  {
    if a.Frame? && a.id.Some? && Owns(s.core, Cdp, a.conn, s.conns[a.conn].generation) && Reply(s, a).None?
    then {ScopedKey(ControllerScope(s.core.cdp.generation), a.id.value)} else {}
  }

  function SendAdds(core: Core, sender: Sender, id: Option<Id>, now: int, subscribed: bool): set<PendingKey> {
    if sender.FromController? && id.Some? && Refused(core, sender, id, now, subscribed).None?
    then {ScopedKey(SenderScope(sender), id.value)} else {}
  }

  lemma SendLedgerAt(core: Core, sender: Sender, id: Option<Id>, m: string, now: int, subscribed: bool, k: PendingKey)
    ensures k in CtlKeys(Send(core, sender, id, m, now, subscribed))
            <==> (k in CtlKeys(core) && SendCause(core, sender, id, now, subscribed, k).None?)
                 || k in SendAdds(core, sender, id, now, subscribed)
    ensures k in CtlKeys(core) && SendCause(core, sender, id, now, subscribed, k).None? ==>
              k !in SendAdds(core, sender, id, now, subscribed)
  {
    SendParts(core, sender, id, m, now, subscribed);
  }

  lemma SendLedger(core: Core, sender: Sender, id: Option<Id>, m: string, now: int, subscribed: bool)
    ensures var gone := set k | k in CtlKeys(core) && SendCause(core, sender, id, now, subscribed, k).Some?;
            var added := SendAdds(core, sender, id, now, subscribed);
            CtlKeys(Send(core, sender, id, m, now, subscribed)) == (CtlKeys(core) - gone) + added && (CtlKeys(core) - gone) !! added
  {
    forall k ensures k in CtlKeys(Send(core, sender, id, m, now, subscribed))
                     <==> (k in CtlKeys(core) && SendCause(core, sender, id, now, subscribed, k).None?)
                          || k in SendAdds(core, sender, id, now, subscribed)
    {
      SendLedgerAt(core, sender, id, m, now, subscribed, k);
    }
    forall k | k in CtlKeys(core) && SendCause(core, sender, id, now, subscribed, k).None?
      ensures k !in SendAdds(core, sender, id, now, subscribed)
    {
      SendLedgerAt(core, sender, id, m, now, subscribed, k);
    }
  }

  lemma RespondLedger(core: Core, key: string, now: int)
    ensures CtlKeys(Respond(core, key, now)) == CtlKeys(core) - set k | k in CtlKeys(core) && RespondCause(core, key, now, k).Some?
  {
  }

  /** The step accounts for every entry: those before, less the departed, plus the admitted. */
  ghost predicate Balanced(s: Bridge, a: Action)
    requires Enabled(s, a)
  {
    && CtlKeys(Next(s, a).core) == (CtlKeys(s.core) - Departed(s, a)) + Admitted(s, a)
    && (CtlKeys(s.core) - Departed(s, a)) !! Admitted(s, a)
  }

  lemma FrameBalanced(s: Bridge, a: Action)
    requires Orderly(s) && Enabled(s, a) && a.Frame?
    ensures Balanced(s, a)
  {
    assert Reflected(s.core, a.conn, s.conns[a.conn]);
    SendLedger(s.core, FromController(s.conns[a.conn].generation), a.id, a.method_, a.now, a.subscribed);
  }

  lemma InjectBalanced(s: Bridge, a: Action)
    requires Orderly(s) && Enabled(s, a) && a.Inject?
    ensures Balanced(s, a)
  {
    SendLedger(s.core, FromSdk, a.id, a.method_, a.now, a.subscribed);
  }

  lemma EnableBalanced(s: Bridge, a: Action)
    requires Orderly(s) && Enabled(s, a) && a.EnableRuntime?
    ensures Balanced(s, a)
  {
    SendLedger(s.core, FromBridge, Some(a.requestId), "Runtime.enable", a.now, true);
  }

  lemma LeaveBalanced(s: Bridge, c: nat, now: int)
    requires Orderly(s) && Enabled(s, Leave(c, now))
    ensures Balanced(s, Leave(c, now))
  {
    assert Reflected(s.core, c, s.conns[c]);
    if s.conns[c].kind.Cdp? {
      LeaveOrderly(s.core, c, s.conns[c].generation, now);
    }
    assert Departed(s, Leave(c, now)) == CtlKeys(s.core);
  }

  lemma AnswerBalanced(s: Bridge, a: Action)
    requires Enabled(s, a) && (a.Answer? || a.Echo?)
    ensures Balanced(s, a)
  {
    var key := if a.Answer? then a.flight.key else a.key;
    if a.legible {
      RespondLedger(s.core, key, a.now);
    } else {
      assert Departed(s, a) == {};
    }
  }

  lemma QuietBalanced(s: Bridge, a: Action)
    requires Enabled(s, a) && (a.Claim? || a.UpgradeFails? || a.BecomeOwner? || a.FinishLeaving? || a.BeginClose? || a.CancelCall? || a.Untracked?)
    ensures Balanced(s, a)
  {
    if a.CancelCall? {
      CancelBalanced(s, a);
    } else {
      assert Next(s, a).core.requests == s.core.requests;
      assert Departed(s, a) == {} && Admitted(s, a) == {};
    }
  }

  lemma CancelBalanced(s: Bridge, a: Action)
    requires Enabled(s, a) && a.CancelCall?
    ensures Balanced(s, a)
  {
  }

  /** At the end of Close no controller has anything pending. */
  lemma ClearBalanced(s: Bridge)
    requires Orderly(s) && Enabled(s, FinalClear)
    ensures CtlKeys(s.core) == {} && Balanced(s, FinalClear)
  {
    assert s.core.cdp.owner.None?;
  }

  lemma StepBalanced(s: Bridge, a: Action)
    requires Orderly(s) && Enabled(s, a)
    ensures Balanced(s, a)
  {
    if a.Frame? {
      FrameBalanced(s, a);
    } else if a.Inject? {
      InjectBalanced(s, a);
    } else if a.EnableRuntime? {
      EnableBalanced(s, a);
    } else if a.Leave? {
      LeaveBalanced(s, a.conn, a.now);
    } else if a.Answer? || a.Echo? {
      AnswerBalanced(s, a);
    } else if a.FinalClear? {
      ClearBalanced(s);
    } else {
      QuietBalanced(s, a);
    }
  }

  /** The steps that look at the clock. */
  predicate Looks(a: Action) {
    a.Leave? || a.Frame? || a.Inject? || a.EnableRuntime? || a.Answer? || a.Echo? || a.CancelCall?
  }

  /** What the end of an entry leaves to see, cause by cause. */
  ghost predicate Evident(s: Bridge, a: Action, k: PendingKey, cause: Cause)
    requires Enabled(s, a)
  {
    var core' := Next(s, a).core;
    match cause
    case Resolved =>
      && (a.Answer? || a.Echo?) && a.legible && k.id == (if a.Answer? then a.flight.key else a.key)
      && OutcomeOf(s.core, k.id, a.now) == Broadcast(Some(k.scope))
    case Cancelled => a.CancelCall? && k.id == IDKey(a.requestId).0
    case Replaced => a.Frame? && a.id.Some? && k.id == IDKey(a.id.value).0 && Reply(s, a).None? && k in core'.requests
    case Pruned => Looks(a) && Expired(s.core, k, a.now)
    case UpstreamLost => a.Leave? && k in FailedKeys(s.core, a.now) && core'.debug.owner.None?
    case MadeFence => a.Leave? && core'.cdp.owner.None? && !core'.blocked && k.id in core'.fences
    case MadeBlock => a.Leave? && core'.cdp.owner.None? && core'.blocked
  }

  lemma LeaveEvident(s: Bridge, a: Action, k: PendingKey)
    requires Orderly(s) && Enabled(s, a) && a.Leave? && k in Departed(s, a)
    ensures Evident(s, a, k, CauseOf(s, a, k).value)
  {
    assert Current(s.core, k.scope);
    assert Reflected(s.core, a.conn, s.conns[a.conn]);
    if s.conns[a.conn].kind.Cdp? {
      var left := InScope(Live(s.core.requests, a.now), ControllerScope(s.core.cdp.generation));
      LeaveParts(s.core, a.conn, a.now, left);
      assert !Expired(s.core, k, a.now) ==> k in left;
    }
  }

  lemma FrameEvident(s: Bridge, a: Action, k: PendingKey)
    requires Orderly(s) && Enabled(s, a) && a.Frame? && k in Departed(s, a)
    ensures Evident(s, a, k, CauseOf(s, a, k).value)
  {
    assert Reflected(s.core, a.conn, s.conns[a.conn]);
    SendParts(s.core, FromController(s.conns[a.conn].generation), a.id, a.method_, a.now, a.subscribed);
  }

  lemma CausesEvident(s: Bridge, a: Action, k: PendingKey)
    requires Orderly(s) && Enabled(s, a) && k in Departed(s, a)
    ensures Evident(s, a, k, CauseOf(s, a, k).value)
  {
    assert Current(s.core, k.scope) && !IsFenced(s.core, k.id);
    if a.Leave? {
      LeaveEvident(s, a, k);
    } else if a.Frame? {
      FrameEvident(s, a, k);
    }
  }

  function AdmittedIn(s: Bridge, steps: seq<Action>): nat
    requires Legal(s, steps)
    decreases |steps|
  {
    if steps == [] then 0 else |Admitted(s, steps[0])| + AdmittedIn(Next(s, steps[0]), steps[1..])
  }

  function DepartedIn(s: Bridge, steps: seq<Action>): nat
    requires Legal(s, steps)
    decreases |steps|
  {
    if steps == [] then 0 else |Departed(s, steps[0])| + DepartedIn(Next(s, steps[0]), steps[1..])
  }

  /** Over every run: each admitted request has departed by one cause, or is still pending. */
  lemma {:induction false} RequestsConserved(s: Bridge, steps: seq<Action>)
    requires Orderly(s) && Legal(s, steps)
    ensures |CtlKeys(s.core)| + AdmittedIn(s, steps) == DepartedIn(s, steps) + |CtlKeys(Run(s, steps).core)|
    decreases |steps|
  {
    if steps != [] {
      var a := steps[0];
      StepBalanced(s, a);
      var kept := CtlKeys(s.core) - Departed(s, a);
      assert CtlKeys(s.core) == kept + Departed(s, a);
      StepKeepsOrderly(s, a);
      RequestsConserved(Next(s, a), steps[1..]);
    }
  }

  // ---------------------------------------------------------------- the fate of one request

  /** The state before the i-th step of a run. */
  function At(s: Bridge, steps: seq<Action>, i: nat): (t: Bridge)
    requires Legal(s, steps) && i <= |steps|
    ensures i < |steps| ==> Enabled(t, steps[i])
    decreases i
  {
    if i == 0 then s else At(Next(s, steps[0]), steps[1..], i - 1)
  }

  /** The first step of the run at which the entry departs; the length of the run if none does. */
  function Fate(s: Bridge, steps: seq<Action>, k: PendingKey): (i: nat)
    requires Legal(s, steps)
    ensures i <= |steps|
    decreases |steps|
  {
    if steps == [] || k in Departed(s, steps[0]) then 0 else 1 + Fate(Next(s, steps[0]), steps[1..], k)
  }

  /** The entry is pending before the step, which neither ends nor admits it. */
  predicate Waits(s: Bridge, a: Action, k: PendingKey)
    requires Enabled(s, a)
  {
    k in CtlKeys(s.core) && k !in Departed(s, a) && k !in Admitted(s, a)
  }

  /** The entry is pending before the step, which ends it by one cause, with what that cause leaves to see. */
  ghost predicate Ends(s: Bridge, a: Action, k: PendingKey)
    requires Enabled(s, a)
  {
    k in CtlKeys(s.core) && k in Departed(s, a) && Evident(s, a, k, CauseOf(s, a, k).value)
  }

  /** One step: the entry waits or ends. */
  lemma StepFate(s: Bridge, a: Action, k: PendingKey)
    requires Orderly(s) && Enabled(s, a) && k in CtlKeys(s.core)
    ensures Orderly(Next(s, a))
    ensures if k in Departed(s, a) then Ends(s, a, k) else Waits(s, a, k) && k in CtlKeys(Next(s, a).core)
  {
    StepBalanced(s, a);
    StepKeepsOrderly(s, a);
    if k in Departed(s, a) {
      CausesEvident(s, a, k);
    }
  }

  /** The entry waits during the first n steps; the next ends it, or there is none and it is still pending. */
  ghost predicate IsFate(s: Bridge, steps: seq<Action>, k: PendingKey, n: nat)
    requires Legal(s, steps)
  {
    && n <= |steps| && (forall i: nat | i < n :: Waits(At(s, steps, i), steps[i], k))
    && (if n < |steps| then Ends(At(s, steps, n), steps[n], k) else k in CtlKeys(Run(s, steps).core))
  }

  /**
   The fate of every pending request, over every run: it waits, and is not admitted again, up
   to one step that ends it by one evident cause, or up to the end of the run.
   */
  lemma {:induction false} EveryFate(s: Bridge, steps: seq<Action>, k: PendingKey)
    requires Orderly(s) && Legal(s, steps) && k in CtlKeys(s.core)
    ensures IsFate(s, steps, k, Fate(s, steps, k))
    decreases |steps|
  {
    if steps != [] {
      StepFate(s, steps[0], k);
    }
    if steps == [] || k in Departed(s, steps[0]) {
      FateNow(s, steps, k, Fate(s, steps, k));
    } else {
      var s' := Next(s, steps[0]);
      EveryFate(s', steps[1..], k);
      Shifted(s, steps, k, Fate(s', steps[1..], k), Fate(s, steps, k));
    }
  }

  lemma FateNow(s: Bridge, steps: seq<Action>, k: PendingKey, n: nat)
    requires Legal(s, steps) && k in CtlKeys(s.core) && n == 0
    requires steps != [] ==> Ends(s, steps[0], k)
    ensures IsFate(s, steps, k, n)
  {
  }

  /** What holds of each step of the rest holds of the run from its second step on. */
  lemma Shifted(s: Bridge, steps: seq<Action>, k: PendingKey, m: nat, n: nat)
    requires Legal(s, steps) && steps != [] && Waits(s, steps[0], k) && IsFate(Next(s, steps[0]), steps[1..], k, m)
    requires n == m + 1
    ensures IsFate(s, steps, k, n)
  {
    var s' := Next(s, steps[0]);
    forall i: nat | i < n ensures Waits(At(s, steps, i), steps[i], k) {
      if i > 0 {
        AtLater(s, steps, i);
        assert Waits(At(s', steps[1..], i - 1), steps[1..][i - 1], k);
      }
    }
    AtLater(s, steps, n);
  }

  lemma AtLater(s: Bridge, steps: seq<Action>, i: nat)
    requires Legal(s, steps) && 0 < i <= |steps|
    ensures At(s, steps, i) == At(Next(s, steps[0]), steps[1..], i - 1)
  {
  }

  /** And a frame that is not refused makes such a request: what it admits is pending behind it. */
  lemma AdmittedPending(s: Bridge, a: Action, k: PendingKey)
    requires Orderly(s) && Enabled(s, a) && k in Admitted(s, a)
    ensures k in CtlKeys(Next(s, a).core) && Orderly(Next(s, a))
  {
    StepBalanced(s, a);
    StepKeepsOrderly(s, a);
  }
}
