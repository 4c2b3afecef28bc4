/** The table of staged and active SSH sessions; every operation runs under one mutex. */
module SshSessions {

  const STAGE_SECONDS: int := 30

  // `serial` tells apart stagings that reuse a session id.
  datatype Staged = Staged(serial: nat, deadline: int)
  datatype Claim = Claim(id: string, serial: nat)

  function Unexpired(pending: map<string, Staged>, now: int): map<string, Staged> {
    map id | id in pending && pending[id].deadline > now :: pending[id]
  }

  predicate Admits(pending: map<string, Staged>, active: map<string, nat>, closed: bool, limit: nat, id: string) {
    !closed && id !in pending && id !in active && |pending.Keys| + |active.Keys| < limit
  }

  // A staged serial has not been claimed, and no later staging will reuse it.
  ghost predicate Unclaimed(pending: map<string, Staged>, next: nat, claimed: set<nat>, id: string) {
    id in pending ==> pending[id].serial < next && pending[id].serial !in claimed
  }

  ghost predicate Apart(pending: map<string, Staged>, i: string, j: string) {
    i in pending && j in pending && pending[i].serial == pending[j].serial ==> i == j
  }

  // An active entry is exactly a claim whose release has not run.
  ghost predicate Tracks(active: map<string, nat>, claimed: set<nat>, held: set<Claim>, c: Claim) {
    (c in held <==> c.id in active && active[c.id] == c.serial) && (c in held ==> c.serial in claimed)
  }

  ghost predicate Capacity(pending: map<string, Staged>, active: map<string, nat>, closed: bool, limit: nat) {
    pending.Keys !! active.Keys && |pending.Keys| + |active.Keys| <= limit && (closed ==> pending == map[])
  }

  ghost predicate Issued(next: nat, claimed: set<nat>) {
    forall n | n in claimed :: n < next
  }

  ghost predicate Fresh(pending: map<string, Staged>, next: nat, claimed: set<nat>) {
    && (forall id :: Unclaimed(pending, next, claimed, id))
    && (forall i, j :: Apart(pending, i, j))
    && Issued(next, claimed)
  }

  ghost predicate Tracked(active: map<string, nat>, claimed: set<nat>, held: set<Claim>) {
    forall c :: Tracks(active, claimed, held, c)
  }

  class Sessions {
    var pending: map<string, Staged>
    var active: map<string, nat>        // the serial of the claim that holds the id
    var closed: bool
    const limit: nat
    var cancelled: set<nat>             // serials whose session context was cancelled

    var next: nat
    ghost var claimed: set<nat>         // serials claimed so far
    ghost var held: set<Claim>          // claims whose release closure has not run

    ghost predicate Valid()
      reads this
    {
      Capacity(pending, active, closed, limit) && Fresh(pending, next, claimed) && Tracked(active, claimed, held)
    }

    constructor (maxConcurrency: int)
      ensures Valid() && !closed && pending == map[] && active == map[]
      ensures maxConcurrency < 1 ==> limit == 1
      ensures maxConcurrency > 32 ==> limit == 32
      ensures 1 <= maxConcurrency <= 32 ==> limit == maxConcurrency
    {
      var bounded := maxConcurrency;
      if bounded < 1 { bounded := 1; }
      if bounded > 32 { bounded := 32; }
      limit := bounded;
      pending, active, closed, next, claimed, held, cancelled := map[], map[], false, 0, {}, {}, {};
    }

    method DropExpired(now: int)
      requires Valid()
      modifies this`pending
      ensures Valid() && pending == Unexpired(old(pending), now)
    {
      UnexpiredKeeps(pending, active, closed, next, claimed, now, limit);
      var all, rest := pending, pending.Keys;
      while rest != {}
        invariant rest <= all.Keys
        invariant forall id :: id in pending <==> id in all && (id in rest || all[id].deadline > now)
        invariant forall id | id in pending :: pending[id] == all[id]
        decreases rest
      {
        var id :| id in rest;
        if all[id].deadline <= now { pending := pending - {id}; }
        rest := rest - {id};
      }
      assert pending == Unexpired(all, now);
    }

    // stage: refused when closed, full, or when the id is already staged or active.
    method Stage(id: string, now: int) returns (ok: bool)
      requires Valid()
      modifies this`pending, this`next
      ensures Valid()
      ensures ok <==> Admits(Unexpired(old(pending), now), active, closed, limit, id)
      ensures ok ==> pending == Unexpired(old(pending), now)[id := Staged(old(next), now + STAGE_SECONDS)]
      ensures !ok ==> pending == Unexpired(old(pending), now)
    {
      DropExpired(now);
      ok := !closed && |pending.Keys| + |active.Keys| < limit && id !in pending && id !in active;
      if ok {
        var entry := Staged(next, now + STAGE_SECONDS);
        var later := next + 1;
        StageKeeps(pending, active, closed, next, later, claimed, id, entry, limit);
        pending, next := pending[id := entry], later;
      }
    }

    // claim: an expired or unknown staging yields nothing; a staging is claimed at most once.
    method ClaimSession(id: string, now: int) returns (ok: bool, claim: Claim)
      requires Valid()
      modifies this`pending, this`active, this`claimed, this`held
      ensures Valid() && pending == old(pending) - {id}
      ensures ok <==> id in old(pending) && old(pending)[id].deadline > now
      ensures ok ==> claim == Claim(id, old(pending)[id].serial) && !closed
      ensures ok ==> claim.serial !in old(claimed) && claimed == old(claimed) + {claim.serial}
      ensures ok ==> active == old(active)[id := claim.serial] && held == old(held) + {claim}
      ensures !ok ==> active == old(active) && held == old(held) && claimed == old(claimed)
    {
      claim := Claim(id, 0);
      UnstageKeeps(pending, active, closed, next, claimed, id, limit);
      var found := id in pending;
      if found { claim := Claim(id, pending[id].serial); }
      var live := found && pending[id].deadline > now;
      if live { ClaimKeeps(pending, active, closed, next, claimed, held, id, limit); }
      pending := pending - {id};
      if !found || closed || !live { return false, claim; }
      active := active[id := claim.serial];
      claimed := claimed + {claim.serial};
      held := held + {claim};
      return true, claim;
    }

    // A claim's release closure deletes by id. Run once, it removes its own entry and nothing else;
    // run again after the id was claimed anew it would remove the other claim's entry, and only then
    // does the table stop matching the claims.
    method Release(claim: Claim)
      requires Valid()
      modifies this`active, this`held, this`cancelled
      ensures active == old(active) - {claim.id} && held == old(held) - {claim} &&
        cancelled == old(cancelled) + {claim.serial}
      ensures claim in old(held) ==> claim.id in old(active) && old(active)[claim.id] == claim.serial
      ensures Valid() <==> claim in old(held) || claim.id !in old(active)
    {
      assert Tracks(active, claimed, held, claim);
      ReleaseKeeps(active, claimed, held, claim);
      ReleaseFrees(pending, active, closed, limit, claim.id);
      cancelled := cancelled + {claim.serial};
      active := active - {claim.id};
      held := held - {claim};
    }

    // Close: afterwards pending stays empty, and by the contracts above nothing is staged or claimed.
    method Close()
      requires Valid()
      modifies this`closed, this`pending, this`cancelled
      ensures Valid() && closed && pending == map[]
      ensures cancelled == old(cancelled) + active.Values
    {
      closed := true;
      pending := map[];
      cancelled := cancelled + active.Values;
      forall id ensures Unclaimed(pending, next, claimed, id) {}
      forall i, j ensures Apart(pending, i, j) {}
    }
  }

  lemma UnstageKeeps(pending: map<string, Staged>, active: map<string, nat>, closed: bool, next: nat,
                     claimed: set<nat>, id: string, limit: nat)
    requires Capacity(pending, active, closed, limit) && Fresh(pending, next, claimed)
    ensures Capacity(pending - {id}, active, closed, limit) && Fresh(pending - {id}, next, claimed)
  {
    SubtableKeeps(pending, pending - {id}, active, closed, next, claimed, limit);
  }

  lemma UnexpiredKeeps(pending: map<string, Staged>, active: map<string, nat>, closed: bool, next: nat,
                       claimed: set<nat>, now: int, limit: nat)
    requires Capacity(pending, active, closed, limit) && Fresh(pending, next, claimed)
    ensures Capacity(Unexpired(pending, now), active, closed, limit) && Fresh(Unexpired(pending, now), next, claimed)
  {
    SubtableKeeps(pending, Unexpired(pending, now), active, closed, next, claimed, limit);
  }

  lemma SubtableKeeps(pending: map<string, Staged>, some: map<string, Staged>, active: map<string, nat>, closed: bool,
                      next: nat, claimed: set<nat>, limit: nat)
    requires Capacity(pending, active, closed, limit) && Fresh(pending, next, claimed)
    requires some.Keys <= pending.Keys && forall id | id in some :: some[id] == pending[id]
    ensures Capacity(some, active, closed, limit) && Fresh(some, next, claimed)
  {
    Fewer(some.Keys, pending.Keys);
    forall id ensures Unclaimed(some, next, claimed, id) { assert Unclaimed(pending, next, claimed, id); }
    forall i, j ensures Apart(some, i, j) { assert Apart(pending, i, j); }
  }

  lemma ClaimKeeps(pending: map<string, Staged>, active: map<string, nat>, closed: bool, next: nat,
                   claimed: set<nat>, held: set<Claim>, id: string, limit: nat)
    requires Capacity(pending, active, closed, limit) && Fresh(pending, next, claimed)
    requires Tracked(active, claimed, held) && id in pending
    ensures !closed && pending[id].serial !in claimed
    ensures var n := pending[id].serial;
      && Capacity(pending - {id}, active[id := n], closed, limit) && Fresh(pending - {id}, next, claimed + {n})
      && Tracked(active[id := n], claimed + {n}, held + {Claim(id, n)})
  {
    var n := pending[id].serial;
    assert (pending - {id}).Keys == pending.Keys - {id};
    assert active[id := n].Keys == active.Keys + {id};
    assert Unclaimed(pending, next, claimed, id);
    forall i ensures Unclaimed(pending - {id}, next, claimed + {n}, i) {
      assert Unclaimed(pending, next, claimed, i) && Apart(pending, i, id);
    }
    forall i, j ensures Apart(pending - {id}, i, j) { assert Apart(pending, i, j); }
    ClaimTracked(active, claimed, held, id, n);
  }

  lemma ClaimTracked(active: map<string, nat>, claimed: set<nat>, held: set<Claim>, id: string, n: nat)
    requires Tracked(active, claimed, held) && id !in active
    ensures Tracked(active[id := n], claimed + {n}, held + {Claim(id, n)})
  {
    var taken := active[id := n];
    forall c ensures Tracks(taken, claimed + {n}, held + {Claim(id, n)}, c) {
      assert Tracks(active, claimed, held, c);
    }
  }

  lemma StageKeeps(pending: map<string, Staged>, active: map<string, nat>, closed: bool, next: nat, later: nat,
                   claimed: set<nat>, id: string, entry: Staged, limit: nat)
    requires entry.serial == next < later && Capacity(pending, active, closed, limit) && Fresh(pending, next, claimed)
    requires Admits(pending, active, closed, limit, id)
    ensures Capacity(pending[id := entry], active, closed, limit) && Fresh(pending[id := entry], later, claimed)
  {
    var p := pending[id := entry];
    assert p.Keys == pending.Keys + {id};
    forall i ensures Unclaimed(p, later, claimed, i) { assert Unclaimed(pending, next, claimed, i); }
    forall i, j ensures Apart(p, i, j) {
      assert Apart(pending, i, j) && Unclaimed(pending, next, claimed, i) && Unclaimed(pending, next, claimed, j);
    }
  }

  // Dropping an id's entry and a claim leaves entries and claims matching exactly when the claim holds
  // the entry or there is no entry.
  lemma ReleaseKeeps(active: map<string, nat>, claimed: set<nat>, held: set<Claim>, claim: Claim)
    requires Tracked(active, claimed, held)
    ensures Tracked(active - {claim.id}, claimed, held - {claim}) <==> claim in held || claim.id !in active
  {
    if claim in held || claim.id !in active {
      forall c ensures Tracks(active - {claim.id}, claimed, held - {claim}, c) {
        assert Tracks(active, claimed, held, c) && Tracks(active, claimed, held, claim);
      }
    } else {
      var owner := Claim(claim.id, active[claim.id]);
      assert Tracks(active, claimed, held, owner);
      assert !Tracks(active - {claim.id}, claimed, held - {claim}, owner);
    }
  }

  lemma ReleaseFrees(pending: map<string, Staged>, active: map<string, nat>, closed: bool, limit: nat, id: string)
    requires Capacity(pending, active, closed, limit)
    ensures Capacity(pending, active - {id}, closed, limit)
  {
    Fewer((active - {id}).Keys, active.Keys);
  }

  lemma Fewer(a: set<string>, b: set<string>)
    requires a <= b
    ensures |a| <= |b|
  {
    assert b == a + (b - a);
  }

  datatype Operation = DoStage(id: string) | DoClaim(id: string) | DoRelease | DoClose

  // Each staging was claimed at most once.
  ghost predicate Once(claims: seq<Claim>, claimed: set<nat>) {
    && (forall i | 0 <= i < |claims| :: claims[i].serial in claimed)
    && (forall i, j | 0 <= i < j < |claims| :: claims[i].serial != claims[j].serial)
  }

  lemma OnceMore(claims: seq<Claim>, claimed: set<nat>, claim: Claim)
    requires Once(claims, claimed) && claim.serial !in claimed
    ensures Once(claims + [claim], claimed + {claim.serial})
  {
  }

  // Some request handler that still holds its claim runs its deferred release.
  method ReleaseAny(table: Sessions)
    requires table.Valid()
    modifies table
    ensures table.Valid() && table.closed == old(table.closed) && table.claimed == old(table.claimed)
  {
    if table.active != map[] {
      var id :| id in table.active;
      assert Tracks(table.active, table.claimed, table.held, Claim(id, table.active[id]));
      table.Release(Claim(id, table.active[id]));
    }
  }

  // Runs any operations in any order, releasing only held claims, as the request handler does.
  method Interleave(table: Sessions, operations: seq<Operation>, times: seq<int>)
    returns (staged: nat, claims: seq<Claim>)
    requires table.Valid() && |times| == |operations|
    modifies table
    ensures table.Valid()
    ensures table.pending.Keys !! table.active.Keys && |table.pending.Keys| + |table.active.Keys| <= table.limit
    ensures forall i, j | 0 <= i < j < |claims| :: claims[i].serial != claims[j].serial
    ensures old(table.closed) ==> table.closed && staged == 0 && claims == [] && table.pending == map[]
  {
    staged, claims := 0, [];
    for k := 0 to |operations|
      invariant table.Valid() && Once(claims, table.claimed)
      invariant old(table.closed) ==> table.closed && staged == 0 && claims == []
    {
      match operations[k] {
        case DoStage(id) =>
          var ok := table.Stage(id, times[k]);
          if ok { staged := staged + 1; }
        case DoClaim(id) =>
          ghost var before := table.claimed;
          var ok, claim := table.ClaimSession(id, times[k]);
          if ok {
            OnceMore(claims, before, claim);
            claims := claims + [claim];
          }
        case DoRelease => ReleaseAny(table);
        case DoClose => table.Close();
      }
    }
  }
}
