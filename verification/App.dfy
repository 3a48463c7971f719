/**
 class App: the critical sections of internal/app on App's own fields. Each method does what
 the function of Bridge.dfy with the matching name says; Ownership, Fences and Conservation
 prove what these functions keep.
 */
module App {
  import opened Prelude
  import opened RequestId
  import opened Correlator
  import opened Bridge
  import B = Bridge

  class App {
    var closing: bool
    var debugClaimed: bool
    var debugOwner: Option<nat>
    var debugGeneration: nat
    var cdpClaimed: bool
    var cdpOwner: Option<nat>
    var cdpGeneration: nat
    var cdpResponseFences: map<string, nat>
    var cdpResponseFenceBlocked: bool
    const requests: Correlator

    ghost predicate Valid()
      reads this, requests
    {
      && requests.Valid() && requests.maxPending == MAX_PENDING && requests.pendingTTL == PENDING_TTL
      && |cdpResponseFences| <= MAX_FENCES && (cdpResponseFenceBlocked ==> cdpResponseFences == map[])
    }

    ghost function View(): Core
      reads this, requests
    {
      Core(closing, Side(debugClaimed, debugOwner, debugGeneration), Side(cdpClaimed, cdpOwner, cdpGeneration),
           requests.pending, cdpResponseFences, cdpResponseFenceBlocked)
    }

    constructor ()
      ensures Valid() && View() == NEW_CORE && fresh(requests)
    {
      closing := false;
      debugClaimed, debugOwner, debugGeneration := false, None, 0;
      cdpClaimed, cdpOwner, cdpGeneration := false, None, 0;
      cdpResponseFences, cdpResponseFenceBlocked := map[], false;
      requests := new Correlator(0, 0);
    }

    // -------------------------------------------------------------- ownership (under connMu)

    method ReserveOwner(kind: Kind) returns (ok: bool)
      requires Valid()
      modifies this
      ensures Valid() && View() == Reserve(old(View()), kind) && ok == CanReserve(old(View()), kind)
    {
      if closing { return false; }
      if kind.Upstream? {
        if debugClaimed || debugOwner.Some? { return false; }
        debugClaimed := true;
        return true;
      }
      if cdpClaimed || cdpOwner.Some? { return false; }
      cdpClaimed := true;
      return true;
    }

    method ReleaseReservation(kind: Kind)
      requires Valid()
      modifies this
      ensures Valid() && View() == Unreserve(old(View()), kind)
    {
      if kind.Upstream? {
        debugClaimed := false;
      } else {
        cdpClaimed := false;
      }
    }

    /** Under dispatchMu too. The generation the client gets is returned. */
    method InstallOwner(kind: Kind, client: nat) returns (ok: bool, generation: nat)
      requires Valid()
      modifies this
      ensures Valid() && View() == Install(old(View()), kind, client) && ok == CanInstall(old(View()), kind)
      ensures ok ==> Owns(View(), kind, client, generation)
    {
      generation := 0;
      if kind.Upstream? {
        debugClaimed := false;
        if closing || debugOwner.Some? { return false, 0; }
        ClearCDPResponseFences();
        debugGeneration := debugGeneration + 1;
        generation := debugGeneration;
        debugOwner := Some(client);
        assert View() == old(View()).(debug := Side(false, debugOwner, generation), fences := map[], blocked := false);
      } else {
        cdpClaimed := false;
        if closing || cdpOwner.Some? { return false, 0; }
        cdpGeneration := cdpGeneration + 1;
        generation := cdpGeneration;
        cdpOwner := Some(client);
        assert View() == old(View()).(cdp := Side(false, cdpOwner, generation));
      }
      return true, generation;
    }

    method OwnerCurrent(kind: Kind, client: nat, generation: nat) returns (current: bool)
      ensures current == (generation == 0 || Owns(View(), kind, client, generation))
    {
      if generation == 0 { return true; }
      if kind.Upstream? { return debugOwner == Some(client) && debugGeneration == generation; }
      return cdpOwner == Some(client) && cdpGeneration == generation;
    }

    method ReleaseOwner(kind: Kind, client: nat, generation: nat) returns (released: bool)
      requires Valid()
      modifies this
      ensures Valid() && View() == B.ReleaseOwner(old(View()), kind, client, generation)
      ensures released == Owns(old(View()), kind, client, generation)
    {
      if kind.Upstream? {
        if debugOwner != Some(client) || debugGeneration != generation { return false; }
        debugClaimed := true;
        debugOwner := None;
        return true;
      }
      if cdpOwner != Some(client) || cdpGeneration != generation { return false; }
      cdpClaimed := true;
      cdpOwner := None;
      return true;
    }

    method FinishOwnerRelease(kind: Kind, generation: nat)
      requires Valid()
      modifies this
      ensures Valid() && View() == FinishRelease(old(View()), kind, generation)
    {
      if kind.Upstream? {
        if debugOwner.None? && debugGeneration == generation {
          debugClaimed := false;
        }
        return;
      }
      if cdpOwner.None? && cdpGeneration == generation {
        cdpClaimed := false;
      }
    }

    // -------------------------------------------------------------- fences (under dispatchMu)

    /** addCDPResponseFencesLocked. */
    method AddCDPResponseFences(left: seq<Request>, generation: nat)
      requires Valid()
      modifies this
      ensures Valid() && View() == AddFences(old(View()), IdKeys(left), generation)
    {
      if left == [] || cdpResponseFenceBlocked { return; }
      ghost var ids := IdKeys(left);
      assert ids != {} by {
        assert left[0] in left;
        assert IDKey(left[0].id).0 in ids;
      }
      var fences, overflow := MarkAll(cdpResponseFences, left, generation);
      if overflow {
        cdpResponseFences := map[];
        cdpResponseFenceBlocked := true;
      } else {
        cdpResponseFences := fences;
      }
    }

    /** cdpResponseFencedLocked. */
    method CDPResponseFenced(id: Id) returns (fenced: bool, generation: nat)
      ensures fenced == IsFenced(View(), IDKey(id).0) && generation == FenceGeneration(View(), IDKey(id).0)
    {
      if cdpResponseFenceBlocked { return true, 0; }
      var key := IDKey(id).0;
      if key !in cdpResponseFences { return false, 0; }
      return true, cdpResponseFences[key];
    }

    /** consumeCDPResponseFenceLocked. */
    method ConsumeCDPResponseFence(id: Id) returns (fenced: bool, generation: nat)
      requires Valid()
      modifies this
      ensures Valid() && fenced == IsFenced(old(View()), IDKey(id).0) && generation == FenceGeneration(old(View()), IDKey(id).0)
      ensures View() == if fenced then ConsumeFence(old(View()), IDKey(id).0) else old(View())
    {
      if cdpResponseFenceBlocked { return true, 0; }
      var key := IDKey(id).0;
      if key !in cdpResponseFences { return false, 0; }
      generation := cdpResponseFences[key];
      assert (cdpResponseFences - {key}).Keys + {key} == cdpResponseFences.Keys;
      cdpResponseFences := cdpResponseFences - {key};
      return true, generation;
    }

    /** clearCDPResponseFencesLocked. */
    method ClearCDPResponseFences()
      requires Valid()
      modifies this`cdpResponseFences, this`cdpResponseFenceBlocked
      ensures Valid() && View() == old(View()).(fences := map[], blocked := false)
    {
      cdpResponseFences := map[];
      cdpResponseFenceBlocked := false;
    }

    /** failCurrentControllerRequestsLocked: the requests answered with an error, each once. */
    method FailCurrentControllerRequests(now: int) returns (failed: seq<Request>)
      requires Valid()
      modifies requests
      ensures Valid()
      ensures var scope := ControllerScope(old(cdpGeneration));
              var live := Live(old(requests.pending), now);
              if FailsSome(old(View()))
              then requests.pending == Without(live, InScope(live, scope)) && IsDrain(live, scope, failed)
              else requests.pending == old(requests.pending) && failed == []
    {
      failed := [];
      if cdpOwner.Some? && cdpGeneration != 0 {
        failed := requests.DrainFor(now, ControllerScope(cdpGeneration));
      }
    }

    // -------------------------------------------------------------- the release paths

    /** The deferred section of readDebug. */
    method LeaveUpstream(client: nat, generation: nat, now: int) returns (released: bool, failed: seq<Request>)
      requires Valid() && generation != 0
      modifies this, requests
      ensures Valid() && View() == ReleaseUpstream(old(View()), client, generation)
      ensures released == Owns(old(View()), Upstream, client, generation)
      ensures released ==> KeysOf(ControllerScope(old(cdpGeneration)), failed) == FailedKeys(old(View()), now)
                           && |failed| == |FailedKeys(old(View()), now)|
      ensures !released ==> failed == []
    {
      released := ReleaseOwner(Upstream, client, generation);
      failed := [];
      if released {
        failed := FailCurrentControllerRequests(now);
        var _ := ClearRequests(now);
        ClearCDPResponseFences();
      }
    }

    /** The deferred section of readCDP. */
    method LeaveController(client: nat, generation: nat, now: int) returns (released: bool)
      requires Valid() && generation != 0
      modifies this, requests
      ensures Valid() && View() == ReleaseController(old(View()), client, generation, now)
      ensures released == Owns(old(View()), Cdp, client, generation)
    {
      released := ReleaseOwner(Cdp, client, generation);
      if released {
        ghost var live := Live(requests.pending, now);
        var drained := requests.DrainFor(now, ControllerScope(generation));
        DrainIds(live, ControllerScope(generation), drained);
        AddCDPResponseFences(drained, generation);
      }
    }

    // -------------------------------------------------------------- responses

    /** The result branch of handleUnwrappedDebugForGeneration, for a frame with an ID; legible if it unmarshals. */
    method HandleResponse(id: Id, legible: bool, now: int) returns (outcome: Outcome)
      requires Valid()
      modifies this, requests
      ensures Valid() && View() == Received(old(View()), IDKey(id).0, legible, now)
      ensures outcome == Arrival(old(View()), IDKey(id).0, legible, now)
    {
      if !legible { return Broadcast(None); }
      var fenced, _ := ConsumeCDPResponseFence(id);
      if fenced { return Fenced; }
      var scope := ResolveCDPResponse(id, now);
      if scope == Some(BOOTSTRAP) { return Swallowed; }
      return Broadcast(scope);
    }

    /** resolveCDPResponse: one lookup after the other, each pruning the table first. */
    method ResolveCDPResponse(id: Id, now: int) returns (scope: Option<Scope>)
      requires Valid()
      modifies requests
      ensures Valid() && scope == ResolvedScope(old(View()), IDKey(id).0, now)
      ensures requests.pending
              == var live := Live(old(requests.pending), now);
                 if scope.None? then live else Without(live, {PendingKey(scope.value, IDKey(id).0)})
    {
      ghost var live := Live(requests.pending, now);
      FreshLive(live, now);
      WithoutAbsent(live, ScopedKey(BOOTSTRAP, id));
      WithoutAbsent(live, ScopedKey(ControllerScope(cdpGeneration), id));
      WithoutAbsent(live, ScopedKey(UNSCOPED, id));
      var found := requests.ResolveFor(now, BOOTSTRAP, id);
      if found.Some? { return Some(BOOTSTRAP); }
      assert requests.pending == live;
      if cdpOwner.Some? {
        found := requests.ResolveFor(now, ControllerScope(cdpGeneration), id);
        if found.Some? { return Some(ControllerScope(cdpGeneration)); }
        assert requests.pending == live;
      }
      found := requests.ResolveFor(now, UNSCOPED, id);
      if found.Some? { return Some(UNSCOPED); }
      return None;
    }

    // -------------------------------------------------------------- requests

    /** sendCDPToContextLocked: None if the frame is forwarded, or why it is not. */
    method SendCDP(sender: Sender, id: Option<Id>, method_: string, now: int, subscribed: bool) returns (refused: Option<Refusal>)
      requires Valid()
      modifies requests
      ensures Valid() && View() == Send(old(View()), sender, id, method_, now, subscribed)
      ensures refused == Refused(old(View()), sender, id, now, subscribed)
    {
      if id.Some? && sender.FromController? && debugOwner.None? { return Some(Disconnected); }
      if id.Some? && sender.FromController? {
        var fenced, _ := CDPResponseFenced(id.value);
        if fenced { return Some(Ambiguous); }
      }
      if !subscribed { return Some(SubscriptionLimit); }
      if id.Some? {
        var ok := Register(SenderScope(sender), Request(id.value, method_), now);
        if !ok { return Some(PendingLimit); }
      }
      return None;
    }

    /** The request enters the table, if it is not full. */
    method Register(scope: Scope, request: Request, now: int) returns (ok: bool)
      requires Valid()
      modifies requests
      ensures Valid()
      ensures View() == old(View()).(requests := Add(Live(old(requests.pending), now), MAX_PENDING, scope, request, now + PENDING_TTL))
      ensures ok == !Full(Live(old(requests.pending), now), ScopedKey(scope, request.id), MAX_PENDING)
    {
      ok := requests.TryAddFor(now, scope, request);
    }

    /** The start of Close: no connection is claimed or installed from here on. */
    method BeginClose()
      requires Valid()
      modifies this`closing
      ensures Valid() && View() == old(View()).(closing := true)
    {
      closing := true;
    }

    /** ClearRequests, the end of Close. */
    method ClearRequests(now: int) returns (n: nat)
      requires Valid()
      modifies requests
      ensures Valid() && View() == old(View()).(requests := map[]) && n == |Live(old(requests.pending), now)|
    {
      n := requests.Clear(now);
    }

    method CancelCDPRequest(id: Id, now: int) returns (removed: bool)
      requires Valid()
      modifies requests
      ensures Valid() && View() == CancelRequest(old(View()), id, now)
      ensures removed == (ScopedKey(CancelScope(old(View())), id) in Live(old(requests.pending), now))
    {
      var scope := if cdpOwner.Some? then ControllerScope(cdpGeneration) else UNSCOPED;
      removed := requests.CancelFor(now, scope, id);
      assert View() == old(View()).(requests := requests.pending);
    }
  }

  /** The loop of addCDPResponseFencesLocked. */
  method MarkAll(before: map<string, nat>, left: seq<Request>, generation: nat) returns (fences: map<string, nat>, overflow: bool)
    requires |before| <= MAX_FENCES
    ensures overflow <==> |before.Keys + IdKeys(left)| > MAX_FENCES
    ensures !overflow ==> fences == Marked(before, IdKeys(left), generation) && |fences| <= MAX_FENCES
  {
    fences := before;
    MarkedNone(before, generation);
    for i := 0 to |left|
      invariant fences == Marked(before, IdKeys(left[..i]), generation) && |fences| <= MAX_FENCES
    {
      var key := IDKey(left[i].id).0;
      MarkStep(before, left, i, fences, generation);
      if key !in fences && |fences| >= MAX_FENCES {
        return fences, true;
      }
      fences := fences[key := generation];
    }
    assert left[..|left|] == left;
    MarkedKeys(before, IdKeys(left), generation);
    return fences, false;
  }

  lemma MarkedNone(before: map<string, nat>, generation: nat)
    ensures before == Marked(before, IdKeys([]), generation)
  {
  }

  lemma MarkedKeys(before: map<string, nat>, ids: set<string>, generation: nat)
    ensures Marked(before, ids, generation).Keys == before.Keys + ids
    ensures |Marked(before, ids, generation)| == |before.Keys + ids|
  {
    assert |Marked(before, ids, generation)| == |Marked(before, ids, generation).Keys|;
  }

  lemma MarkedMore(before: map<string, nat>, ids: set<string>, key: string, generation: nat)
    ensures Marked(before, ids, generation)[key := generation] == Marked(before, ids + {key}, generation)
  {
  }

  /** One turn of the loop: the map grows by the key, or is full while the keys are not through. */
  lemma MarkStep(before: map<string, nat>, left: seq<Request>, i: nat, fences: map<string, nat>, generation: nat)
    requires i < |left| && fences == Marked(before, IdKeys(left[..i]), generation)
    ensures var key := IDKey(left[i].id).0;
            && fences[key := generation] == Marked(before, IdKeys(left[..i + 1]), generation)
            && |fences[key := generation]| == |fences| + (if key in fences then 0 else 1)
            && (key !in fences ==> |fences| < |before.Keys + IdKeys(left)|)
  {
    IdKeysGrow(left, i);
    MarkOne(before, IdKeys(left[..i]), IDKey(left[i].id).0, IdKeys(left), generation);
  }

  lemma MarkOne(before: map<string, nat>, ids: set<string>, key: string, all: set<string>, generation: nat)
    requires ids + {key} <= all
    ensures var fences := Marked(before, ids, generation);
            && fences[key := generation] == Marked(before, ids + {key}, generation)
            && |fences[key := generation]| == |fences| + (if key in fences then 0 else 1)
            && (key !in fences ==> |fences| < |before.Keys + all|)
  {
    var fences := Marked(before, ids, generation);
    MarkedKeys(before, ids, generation);
    MarkedMore(before, ids, key, generation);
    assert (fences[key := generation]).Keys == fences.Keys + {key};
    if key !in fences {
      Larger(fences.Keys, key, before.Keys + all);
    }
  }

  lemma WithoutAbsent(t: Table, key: PendingKey)
    ensures key !in t ==> Without(t, {key}) == t
  {
  }

  /** The generation that left the fence; 0 for none, and while the bridge is blocked. */
  function FenceGeneration(core: Core, key: string): nat {
    if !core.blocked && key in core.fences then core.fences[key] else 0
  }

  function IdKeys(left: seq<Request>): set<string> { set r | r in left :: IDKey(r.id).0 }

  predicate FailsSome(core: Core) { core.cdp.owner.Some? && core.cdp.generation != 0 }

  lemma IdKeysGrow(left: seq<Request>, i: nat)
    requires i < |left|
    ensures IdKeys(left[..i + 1]) == IdKeys(left[..i]) + {IDKey(left[i].id).0}
    ensures IdKeys(left[..i + 1]) <= IdKeys(left)
  {
    assert left[..i + 1] == left[..i] + [left[i]];
  }

  lemma Larger(some: set<string>, more: string, all: set<string>)
    requires some + {more} <= all && more !in some
    ensures |all| > |some|
  {
    assert |all| == |all - (some + {more})| + |some + {more}|;
  }

  /** The drained requests have the IDs of the scope's entries. */
  lemma DrainIds(t: Table, scope: Scope, drained: seq<Request>)
    requires IsDrain(t, scope, drained)
    ensures IdKeys(drained) == Ids(InScope(t, scope))
  {
    KeysOfIds(scope, drained);
  }

  lemma {:induction false} KeysOfIds(scope: Scope, drained: seq<Request>)
    ensures Ids(KeysOf(scope, drained)) == IdKeys(drained)
  {
    if drained != [] {
      var n := |drained| - 1;
      KeysOfIds(scope, drained[..n]);
      IdKeysGrow(drained, n);
      assert drained[..n + 1] == drained;
    }
  }
}
