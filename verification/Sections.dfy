/**
 Each critical section field by field, without the functions of Bridge.dfy: who may claim,
 install and release; which frames are refused, why, and what becomes of the table; where a
 response goes; what a cancellation and the two release paths take away.
 */
module Sections {
  import opened Prelude
  import opened RequestId
  import opened Correlator
  import opened Bridge

  // ---------------------------------------------------------------- ownership

  /** A side can be claimed exactly if nobody claims or owns it, and the app is not closing; only its flag changes. */
  lemma ReserveExact(core: Core, kind: Kind)
    ensures var side, other := if kind.Upstream? then core.debug else core.cdp, if kind.Upstream? then core.cdp else core.debug;
            var core' := Reserve(core, kind);
            var side', other' := if kind.Upstream? then core'.debug else core'.cdp, if kind.Upstream? then core'.cdp else core'.debug;
            && (CanReserve(core, kind) <==> !core.closing && !side.claimed && side.owner == None)
            && side' == Side(side.claimed || CanReserve(core, kind), side.owner, side.generation) && other' == other
            && core'.closing == core.closing && core'.requests == core.requests
            && core'.fences == core.fences && core'.blocked == core.blocked
  {
  }

  lemma UnreserveExact(core: Core, kind: Kind)
    ensures Unreserve(core, kind)
            == if kind.Upstream? then core.(debug := Side(false, core.debug.owner, core.debug.generation))
               else core.(cdp := Side(false, core.cdp.owner, core.cdp.generation))
  {
  }

  /** The claim ends either way. A free side gets the owner under the next generation; a new upstream ends all fences. */
  lemma InstallExact(core: Core, kind: Kind, conn: nat)
    ensures var side, other := if kind.Upstream? then core.debug else core.cdp, if kind.Upstream? then core.cdp else core.debug;
            var core' := Install(core, kind, conn);
            var side', other' := if kind.Upstream? then core'.debug else core'.cdp, if kind.Upstream? then core'.cdp else core'.debug;
            && (CanInstall(core, kind) <==> !core.closing && side.owner == None)
            && side' == (if CanInstall(core, kind) then Side(false, Some(conn), side.generation + 1)
                         else Side(false, side.owner, side.generation))
            && other' == other && core'.closing == core.closing && core'.requests == core.requests
            && (core'.fences, core'.blocked)
               == if CanInstall(core, kind) && kind.Upstream? then (map[], false) else (core.fences, core.blocked)
  {
  }

  /** Only the owner under its own generation releases, and leaves the side claimed. */
  lemma ReleaseExact(core: Core, kind: Kind, conn: nat, generation: nat)
    ensures var side := if kind.Upstream? then core.debug else core.cdp;
            && (Owns(core, kind, conn, generation) <==> side.owner == Some(conn) && side.generation == generation)
            && ReleaseOwner(core, kind, conn, generation)
               == if side != Side(side.claimed, Some(conn), generation) then core
                  else if kind.Upstream? then core.(debug := Side(true, None, generation))
                  else core.(cdp := Side(true, None, generation))
  {
  }

  /** The claim a release left ends, if nobody was installed since. */
  lemma FinishExact(core: Core, kind: Kind, generation: nat)
    ensures var side := if kind.Upstream? then core.debug else core.cdp;
            FinishRelease(core, kind, generation)
            == if side != Side(side.claimed, None, generation) then core
               else if kind.Upstream? then core.(debug := Side(false, None, generation))
               else core.(cdp := Side(false, None, generation))
  {
  }

  // ---------------------------------------------------------------- the table

  /** The entries whose deadline is still to come. */
  function Waiting(core: Core, now: int): set<PendingKey> {
    set k | k in core.requests && now < core.requests[k].expiresAt
  }

  /** The table holds these keys, each with the entry it had. */
  predicate Kept(before: Table, after: Table, keys: set<PendingKey>) {
    after.Keys == keys && forall k | k in keys :: k in before && after[k] == before[k]
  }

  function OwnKey(sender: Sender, key: string): PendingKey {
    match sender
    case FromController(generation) => PendingKey(Scope("controller", generation), key)
    case FromSdk => PendingKey(Scope("", 0), key)
    case FromBridge => PendingKey(Scope("bootstrap", 0), key)
  }

  lemma LiveIsWaiting(core: Core, now: int)
    ensures Kept(core.requests, Live(core.requests, now), Waiting(core, now))
    ensures |Live(core.requests, now)| == |Waiting(core, now)|
  {
    assert Live(core.requests, now).Keys == Waiting(core, now);
  }

  // ---------------------------------------------------------------- frames

  /**
   Why a frame with an ID is refused. Only a controller's frame meets the first two reasons: no
   upstream, or its ID fenced or everything blocked. Then comes the subscription limit, and then
   the table, full of unexpired entries without this key. No other frame is refused.
   */
  lemma RefusedExact(core: Core, sender: Sender, id: Id, now: int, subscribed: bool)
    ensures var key := IDKey(id).0;
            var offline := sender.FromController? && core.debug.owner == None;
            var fenced := sender.FromController? && core.debug.owner != None && (core.blocked || key in core.fences);
            var full := |Waiting(core, now)| >= 4096 && OwnKey(sender, key) !in Waiting(core, now);
            var refused := Refused(core, sender, Some(id), now, subscribed);
            && (refused == Some(Disconnected) <==> offline)
            && (refused == Some(Ambiguous) <==> fenced)
            && (refused == Some(SubscriptionLimit) <==> !offline && !fenced && !subscribed)
            && (refused == Some(PendingLimit) <==> !offline && !fenced && subscribed && full)
            && (refused == None <==> !offline && !fenced && subscribed && !full)
  {
    LiveIsWaiting(core, now);
  }

  /** A frame without a tracked ID meets the subscription limit alone. */
  lemma RefusedUntracked(core: Core, sender: Sender, now: int, subscribed: bool)
    ensures Refused(core, sender, None, now, subscribed) == if subscribed then None else Some(SubscriptionLimit)
  {
  }

  /**
   A frame that is not refused is pending behind the section, for five minutes, under its own
   key; one the table refused leaves it pruned; every other frame leaves everything as it was.
   */
  lemma SendsExactly(core: Core, sender: Sender, id: Option<Id>, method_: string, now: int, subscribed: bool)
    ensures var refused := Refused(core, sender, id, now, subscribed);
            var core' := Send(core, sender, id, method_, now, subscribed);
            && core' == core.(requests := core'.requests)
            && (id == None || refused in {Some(Disconnected), Some(Ambiguous), Some(SubscriptionLimit)} ==> core' == core)
            && (id != None && refused == Some(PendingLimit) ==> Kept(core.requests, core'.requests, Waiting(core, now)))
            && (id != None && refused == None ==>
                  var own := OwnKey(sender, IDKey(id.value).0);
                  && own in core'.requests
                  && core'.requests[own] == Pending(Request(id.value, method_), now + 300_000_000_000)
                  && Kept(core.requests, core'.requests - {own}, Waiting(core, now) - {own}))
  {
    LiveIsWaiting(core, now);
  }

  // ---------------------------------------------------------------- responses

  /**
   Where a response that unmarshals goes. It is dropped if its ID is fenced or everything is
   blocked. Otherwise the first of these entries still waiting settles it: the bridge's own, in
   which case it is swallowed; the installed controller's; the unscoped one. Without any it is
   passed on all the same.
   */
  lemma OutcomeExact(core: Core, key: string, now: int)
    ensures var bootstrap, unscoped := Scope("bootstrap", 0), Scope("", 0);
            var current := Scope("controller", core.cdp.generation);
            var fenced := core.blocked || key in core.fences;
            var waits := (scope: Scope) => PendingKey(scope, key) in Waiting(core, now);
            var mine := core.cdp.owner != None && waits(current);
            OutcomeOf(core, key, now)
            == if fenced then Fenced
               else if waits(bootstrap) then Swallowed
               else Broadcast(if mine then Some(current) else if waits(unscoped) then Some(unscoped) else None)
  {
    LiveIsWaiting(core, now);
  }

  /** A fenced response consumes its fence, and nothing else; a blocked bridge stays as it is. */
  lemma FencedExact(core: Core, key: string, now: int)
    requires core.blocked || key in core.fences
    ensures var core' := Respond(core, key, now);
            && core' == core.(fences := core'.fences)
            && core'.fences.Keys == (if core.blocked then core.fences.Keys else core.fences.Keys - {key})
            && forall x | x in core'.fences :: core'.fences[x] == core.fences[x]
  {
  }

  /** The entry that settles a response, if there is one. */
  function Settling(core: Core, key: string, now: int): set<PendingKey> {
    match OutcomeOf(core, key, now)
    case Fenced => {}
    case Swallowed => {PendingKey(Scope("bootstrap", 0), key)}
    case Broadcast(None) => {}
    case Broadcast(Some(scope)) => {PendingKey(scope, key)}
  }

  /** Any other prunes the table and takes the entry that settles it. */
  lemma RespondExact(core: Core, key: string, now: int)
    requires !core.blocked && key !in core.fences
    ensures var core' := Respond(core, key, now);
            core' == core.(requests := core'.requests) && Kept(core.requests, core'.requests, Waiting(core, now) - Settling(core, key, now))
  {
    var live := Live(core.requests, now);
    LiveIsWaiting(core, now);
    match ResolvedScope(core, key, now) {
      case None =>
        assert Settling(core, key, now) == {};
        assert Respond(core, key, now) == core.(requests := live);
      case Some(scope) =>
        assert Settling(core, key, now) == {PendingKey(scope, key)};
        WithoutKept(core, now, {PendingKey(scope, key)});
        assert Respond(core, key, now) == core.(requests := Without(live, {PendingKey(scope, key)}));
    }
  }

  lemma WithoutKept(core: Core, now: int, keys: set<PendingKey>)
    ensures Kept(core.requests, Without(Live(core.requests, now), keys), Waiting(core, now) - keys)
  {
    LiveIsWaiting(core, now);
  }

  /** A cancellation takes the installed controller's entry, or else the unscoped one, and prunes. */
  lemma CancelExact(core: Core, id: Id, now: int)
    ensures var core' := CancelRequest(core, id, now);
            var scope := if core.cdp.owner != None then Scope("controller", core.cdp.generation) else Scope("", 0);
            && core' == core.(requests := core'.requests)
            && Kept(core.requests, core'.requests, Waiting(core, now) - {PendingKey(scope, IDKey(id).0)})
  {
    LiveIsWaiting(core, now);
  }

  // ---------------------------------------------------------------- the release paths

  /**
   A controller that leaves: its unexpired entries go, and their IDs become fences of its
   generation; if that makes more than 4096, all fences go and everything is blocked.
   */
  lemma LeaveControllerExact(core: Core, conn: nat, generation: nat, now: int)
    requires core.blocked ==> core.fences == map[]
    requires |core.fences| <= 4096
    ensures var core' := ReleaseController(core, conn, generation, now);
            var own := set k | k in Waiting(core, now) && k.scope == Scope("controller", generation);
            var ids := set k | k in own :: k.id;
            if core.cdp.owner != Some(conn) || core.cdp.generation != generation then core' == core
            else
              && core' == core.(cdp := Side(true, None, generation), requests := core'.requests, fences := core'.fences, blocked := core'.blocked)
              && Kept(core.requests, core'.requests, Waiting(core, now) - own)
              && (core'.blocked <==> core.blocked || |core.fences.Keys + ids| > 4096)
              && core'.fences.Keys == (if core'.blocked then {} else core.fences.Keys + ids)
              && forall x | x in core'.fences :: core'.fences[x] == if x in ids then generation else core.fences[x]
  {
    var live := Live(core.requests, now);
    var own := InScope(live, ControllerScope(generation));
    LiveIsWaiting(core, now);
    assert own == set k | k in Waiting(core, now) && k.scope == Scope("controller", generation);
    AddFencesExact(ReleaseOwner(core, Cdp, conn, generation).(requests := Without(live, own)), Ids(own), generation);
  }

  lemma AddFencesExact(core: Core, ids: set<string>, generation: nat)
    requires core.blocked ==> core.fences == map[]
    requires |core.fences| <= 4096
    ensures var core' := AddFences(core, ids, generation);
            && core' == core.(fences := core'.fences, blocked := core'.blocked)
            && (core'.blocked <==> core.blocked || |core.fences.Keys + ids| > 4096)
            && core'.fences.Keys == (if core'.blocked then {} else core.fences.Keys + ids)
            && forall x | x in core'.fences :: core'.fences[x] == if x in ids then generation else core.fences[x]
  {
    if ids == {} {
      assert core.fences.Keys + ids == core.fences.Keys;
    } else if !core.blocked {
      assert Marked(core.fences, ids, generation).Keys == core.fences.Keys + ids;
    }
  }

  /** An upstream that leaves takes table, fences and block with it; the unexpired entries of the installed controller are failed. */
  lemma LeaveUpstreamExact(core: Core, conn: nat, generation: nat, now: int)
    ensures ReleaseUpstream(core, conn, generation)
            == if core.debug.owner != Some(conn) || core.debug.generation != generation then core
               else Core(core.closing, Side(true, None, generation), core.cdp, map[], map[], false)
    ensures FailedKeys(core, now)
            == set k | k in Waiting(core, now) && core.cdp.owner != None && core.cdp.generation != 0
                       && k.scope == Scope("controller", core.cdp.generation)
  {
    LiveIsWaiting(core, now);
  }
}
