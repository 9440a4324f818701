/** The routing state as the program keeps it: one object whose methods are the critical sections, and
    one object per lease. Each method is proved to do what module RouteProtocol says. */
module RouteTable {
  import opened Domain
  import opened Selection
  import opened SelectionLoops
  import opened RouteProtocol

  /** A stored session binding and when it expires. */
  datatype SavedBinding = SavedBinding(binding: Binding, expiresAt: int)

  /** The part of the store that keeps session bindings; a save may fail. */
  class BindingStore {
    var saved: map<string, SavedBinding>
    var failing: bool

    constructor ()
      ensures saved == map[]
    {
      saved := map[];
    }

    /** A binding needs an account with a subject; it expires `ttl` seconds after it was saved. */
    method SetSessionBinding(key: string, a: Account, now: int, ttl: int) returns (ok: bool)
      modifies this`saved
      ensures ok == (a.subject != "" && !failing)
      ensures saved == if ok then old(saved)[key := SavedBinding(Binding(a.provider, a.subject), now + ttl)] else old(saved)
    {
      if a.subject == "" { return false; }
      ok := !failing;
      if ok { saved := saved[key := SavedBinding(Binding(a.provider, a.subject), now + ttl)]; }
    }
  }

  class RouteTable {
    var loads: Loads
    var routeSeq: nat
    var claims: map<string, nat>
    var closed: map<nat, nat>
    var nextClaim: nat

    constructor ()
      ensures View() == Shared(Book(map[], 0), map[], map[], 0)
    {
      loads, routeSeq, claims, closed, nextClaim := map[], 0, map[], map[], 0;
    }

    ghost function View(): Shared
      reads this
    {
      Shared(Book(loads, routeSeq), claims, closed, nextClaim)
    }

    method LeaseAccount(a: Account, class_: string, affinityKey: string, claim: Option<nat>) returns (lease: Lease)
      modifies this
      ensures View() == old(View()).(book := Take(old(View()).book, LeaseKey(a, class_)))
      ensures lease == Lease(LeaseKey(a, class_), a, affinityKey, claim)
    {
      var key := LoadKey(a.provider, BucketKey(a), class_);
      if key !in loads { loads := loads[key := Load(0, 0)]; }
      routeSeq := routeSeq + 1;
      loads := loads[key := Load(loads[key].inflight + 1, routeSeq)];
      lease := Lease(key, a, affinityKey, claim);
      assert loads == old(loads)[key := loads[key]];
    }

    method ReleaseAffinityClaim(key: string, claim: Option<nat>)
      modifies this
      ensures View() == ReleaseClaim(old(View()), key, claim)
    {
      if key == "" || claim.None? || key !in claims || claims[key] != claim.value { return; }
      claims := claims - {key};
      closed := closed[claim.value := (if claim.value in closed then closed[claim.value] else 0) + 1];
    }

    /** acquireLocked: select an account and lease it. */
    method AcquireLocked(c: Context, order: seq<string>, bound: string, claim: Option<nat>)
      returns (error: PickError, granted: Option<Lease>)
      requires WellFormed(c.world) && IsOrder(order, c.world.accounts)
      modifies this
      ensures var p := PickAccount(c, order, old(loads), bound);
        if p.Pick? then
          && granted == Some(Lease(p.key, p.account, c.req.affinityKey, claim))
          && View() == old(View()).(book := Take(old(View()).book, p.key))
        else granted == None && error == p.error && View() == old(View())
    {
      var p := SelectAccount(c, order, loads, bound);
      error, granted := NoAccounts, None;
      if p.Pick? {
        var lease := LeaseAccount(p.account, p.key.class_, c.req.affinityKey, claim);
        granted := Some(lease);
        PickedKey(c, order, old(loads), bound);
      } else {
        error := p.error;
      }
    }

    /** The lock region of AcquireRoute, given the binding read before it. */
    method AcquireRegion(c: Context, o: Orders, read: Option<Binding>) returns (r: Region)
      requires Proper(c, o)
      modifies this
      ensures (View(), r) == LockRegion(old(View()), c, o, read)
    {
      var req := c.req;
      var binding := read;
      if req.mustContinue && req.affinityKey == "" {
        if req.hardAccount !in c.world.accounts || c.world.accounts[req.hardAccount].provider != c.drv.provider {
          return Failed(OwnerMissing);
        }
      }
      if binding.Some? && binding.value.provider != c.drv.provider {
        if req.mustContinue { return Failed(OwnerUnavailable); }
        binding := None;
      }
      var boundId := req.hardAccount;
      if boundId == "" && binding.Some? {
        boundId := AccountFor(c.world, o.lookup, binding.value);
        if boundId == "" && req.mustContinue { return Failed(OwnerUnavailable); }
      }
      if boundId != "" {
        var error, granted := AcquireLocked(c, o.bound, boundId, None);
        if granted.Some? { return Granted(granted.value); }
        if req.hardAccount != "" { return Failed(PickFailed(error)); }
        if req.mustContinue { return Failed(OwnerUnavailable); }
      }
      r := UnboundPart(c, o, binding);
    }

    method UnboundPart(c: Context, o: Orders, binding: Option<Binding>) returns (r: Region)
      requires Proper(c, o)
      modifies this
      ensures (View(), r) == UnboundRegion(old(View()), c.req, binding, PickUnbound(c, o.unbound, old(loads)))
    {
      var req := c.req;
      if req.affinityKey != "" && binding.None? && req.mustContinue { return Failed(OwnerMissing); }
      var claim := None;
      if req.affinityKey != "" {
        if req.affinityKey in claims { return Await(claims[req.affinityKey]); }
        claim := Some(nextClaim);
        claims := claims[req.affinityKey := nextClaim];
        nextClaim := nextClaim + 1;
      }
      var error, granted := AcquireLocked(c, o.unbound, "", claim);
      if granted.None? {
        ReleaseAffinityClaim(req.affinityKey, claim);
        return Failed(PickFailed(error));
      }
      r := Granted(granted.value);
    }

    method FinishLocked(lease: Lease)
      modifies this
      ensures View() == ReleaseClaim(old(View()).(book := GiveBack(old(View()).book, lease.key)), lease.affinityKey, lease.claim)
    {
      if lease.key in loads && loads[lease.key].inflight > 0 {
        loads := loads[lease.key := loads[lease.key].(inflight := loads[lease.key].inflight - 1)];
      }
      ReleaseAffinityClaim(lease.affinityKey, lease.claim);
    }
  }

  lemma PickedKey(c: Context, order: seq<string>, loads: Loads, bound: string)
    requires WellFormed(c.world) && IsOrder(order, c.world.accounts)
    ensures var p := PickAccount(c, order, loads, bound); p.Pick? ==> p.key == LeaseKey(p.account, p.key.class_)
  {
  }

  datatype AcceptResult = Accepted | AlreadyFinished | SaveFailed

  class AttemptLease {
    const table: RouteTable
    const lease: Lease
    var accepted: bool
    var terminal: bool

    constructor (table: RouteTable, lease: Lease)
      ensures this.table == table && this.lease == lease && !accepted && !terminal
    {
      this.table, this.lease, accepted, terminal := table, lease, false, false;
    }

    /** Accept saves the binding, then releases the claim; a failed save releases it too. */
    method Accept(store: BindingStore, now: int, ttl: int) returns (r: AcceptResult)
      modifies this`accepted, table, store`saved
      ensures old(terminal) ==> r == AlreadyFinished
      ensures !old(terminal) && old(accepted) ==> r == Accepted
      ensures old(terminal) || old(accepted) ==>
        table.View() == old(table.View()) && store.saved == old(store.saved) && accepted == old(accepted)
      ensures !old(terminal) && !old(accepted) ==>
        && table.View() == ReleaseClaim(old(table.View()), lease.affinityKey, lease.claim)
        && accepted == (r == Accepted)
        && r == (if lease.affinityKey == "" || (lease.account.subject != "" && !store.failing) then Accepted else SaveFailed)
        && store.saved == (if lease.affinityKey != "" && r == Accepted
             then old(store.saved)[lease.affinityKey := SavedBinding(Binding(lease.account.provider, lease.account.subject), now + ttl)]
             else old(store.saved))
    {
      if terminal { return AlreadyFinished; }
      if accepted { return Accepted; }
      if lease.affinityKey != "" {
        var ok := store.SetSessionBinding(lease.affinityKey, lease.account, now, ttl);
        if !ok {
          table.ReleaseAffinityClaim(lease.affinityKey, lease.claim);
          return SaveFailed;
        }
      }
      accepted := true;
      table.ReleaseAffinityClaim(lease.affinityKey, lease.claim);
      r := Accepted;
    }

    /** Finish and Abort: the first call gives the route back and releases the claim, later calls do nothing. */
    method Finish()
      modifies this`terminal, table
      ensures terminal
      ensures table.View() == if old(terminal) then old(table.View())
        else ReleaseClaim(old(table.View()).(book := GiveBack(old(table.View()).book, lease.key)), lease.affinityKey, lease.claim)
    {
      if terminal { return; }
      terminal := true;
      table.FinishLocked(lease);
    }
  }
}
