/** The manager's registry: the live streamers, the owner map, and its reconciliation with what
    the streamers say they hold (manager/registry.go, manager/router.go). */
module Registry {
  import opened Seqs
  import opened Placement
  import opened Decimal

  // ---------------------------------------------------------------- the owner map

  /** The owner map without the entries of some instances. */
  function Without(owners: Owners, ids: set<Id>): Owners {
    map h | h in owners && owners[h].id !in ids :: owners[h]
  }

  lemma WithoutTwice(owners: Owners, a: set<Id>, b: set<Id>)
    ensures Without(Without(owners, a), b) == Without(owners, a + b)
  {}

  /** The owner map after a round that found `found` and heard from `answered`. */
  function Rebuilt(owners: Owners, found: Owners, answered: set<Id>): Owners {
    Without(owners, answered) + found
  }

  /** What an instance says it holds; None if it could not be asked. */
  type Listings = map<Instance, Option<seq<Hash>>>

  predicate Answers(i: Instance, listings: Listings) {
    i in listings && listings[i].Some?
  }

  predicate Lists(i: Instance, h: Hash, listings: Listings) {
    Answers(i, listings) && h in listings[i].value
  }

  /** `found` and `answered` are what the listings of `asked` amount to: the one kept is the
      last that listed the torrent. */
  ghost predicate Gathered(asked: seq<Instance>, listings: Listings, found: Owners, answered: set<Id>) {
    && (forall i :: i in asked && Answers(i, listings) ==> i.id in answered)
    && (forall id :: id in answered ==> exists i :: i in asked && Answers(i, listings) && i.id == id)
    && (forall h :: h in found ==> found[h] in asked && Lists(found[h], h, listings))
    && (forall i, h :: i in asked && Lists(i, h, listings) ==> h in found)
  }

  lemma GatheredMore(asked: seq<Instance>, listings: Listings, found: Owners, answered: set<Id>,
                     i: Instance, found': Owners, answered': set<Id>)
    requires Gathered(asked, listings, found, answered)
    requires answered' == if Answers(i, listings) then answered + {i.id} else answered
    requires forall h :: h in found' <==> h in found || Lists(i, h, listings)
    requires forall h :: h in found' ==> found'[h] == if Lists(i, h, listings) then i else found[h]
    ensures Gathered(asked + [i], listings, found', answered')
  {
    assert i in asked + [i];
    forall id | id in answered' ensures exists j :: j in asked + [i] && Answers(j, listings) && j.id == id {
      if id in answered {
        var j :| j in asked && Answers(j, listings) && j.id == id;
        assert j in asked + [i];
      }
    }
  }

  /** What a reconciliation makes of the owner map: an entry of an instance that answered was
      listed by it, and so was everything listed given an owner; any other entry was there before,
      and its instance did not answer and nobody else listed the torrent. */
  lemma ReconciledOwners(owners: Owners, asked: seq<Instance>, listings: Listings,
                         found: Owners, answered: set<Id>, h: Hash)
    requires Gathered(asked, listings, found, answered)
    ensures var after := Rebuilt(owners, found, answered);
            && (h in after && after[h].id in answered ==> after[h] in asked && Lists(after[h], h, listings))
            && (h in after && after[h].id !in answered ==>
                  h in owners && after[h] == owners[h] && forall i :: i in asked ==> !Lists(i, h, listings))
            && ((exists i :: i in asked && Lists(i, h, listings)) ==> h in after && after[h].id in answered)
            && (h in owners && owners[h].id !in answered && (forall i :: i in asked ==> !Lists(i, h, listings)) ==>
                  h in after && after[h] == owners[h])
  {
    assert h in found ==> Answers(found[h], listings);
  }

  /** A torrent that an instance reported as gone is no longer counted against it. */
  lemma NoGhosts(owners: Owners, asked: seq<Instance>, listings: Listings,
                 found: Owners, answered: set<Id>, i: Instance)
    requires Gathered(asked, listings, found, answered) && ByOneId(asked)
    requires i in asked && Answers(i, listings)
    ensures forall h :: h in HashesOf(Rebuilt(owners, found, answered), i.id) ==> Lists(i, h, listings)
  {
    forall h | h in HashesOf(Rebuilt(owners, found, answered), i.id) ensures Lists(i, h, listings) {
      ReconciledOwners(owners, asked, listings, found, answered, h);
    }
  }

  // ---------------------------------------------------------------- during a round

  /** The registry's maps. */
  datatype Reg = Reg(instances: map<Id, Instance>, owners: Owners)

  /** What can come between two steps of an operation: an instance enters or leaves, by itself or
      because it has gone silent; an owner is recorded or forgotten; a round ends. */
  datatype Act =
    | Enter(i: Instance)
    | Leave(id: Id)
    | Own(h: Hash, at: Instance)
    | Disown(h: Hash)
    | Rebuild(found: Owners, answered: set<Id>)

  function ActOn(r: Reg, act: Act): Reg {
    match act
    case Enter(i) => r.(instances := r.instances[i.id := i])
    case Leave(id) => Reg(r.instances - {id}, Without(r.owners, {id}))
    case Own(h, at) => r.(owners := r.owners[h := at])
    case Disown(h) => r.(owners := r.owners - {h})
    case Rebuild(found, answered) => EndRound(r, found, answered)
  }

  function Acts(r: Reg, acts: seq<Act>): Reg {
    if acts == [] then r else ActOn(Acts(r, acts[..|acts| - 1]), acts[|acts| - 1])
  }

  /** The end of a round. */
  function EndRound(r: Reg, found: Owners, answered: set<Id>): Reg {
    r.(owners := Rebuilt(r.owners, found, answered))
  }

  /** The act changes the entry of `h`, or may do so by dropping what `id` owns. */
  predicate Touches(act: Act, h: Hash, id: Id) {
    match act
    case Enter(_) => false
    case Leave(j) => j == id
    case Own(g, _) => g == h
    case Disown(g) => g == h
    case Rebuild(found, answered) => h in found || id in answered
  }

  lemma {:induction false} OwnedUntouched(r: Reg, acts: seq<Act>, k: nat, h: Hash, i: Instance)
    requires k < |acts| && acts[k] == Own(h, i) && forall x :: k < x < |acts| ==> !Touches(acts[x], h, i.id)
    ensures h in Acts(r, acts).owners && Acts(r, acts).owners[h] == i
  {
    var n := |acts| - 1;
    if k < n { OwnedUntouched(r, acts[..n], k, h, i); }
  }

  /** An owner recorded during a round, and not touched since, is still the owner after it if and
      only if the round found the same owner, or found none and did not hear from this one. */
  lemma LateOwnerIsKeptIff(r: Reg, acts: seq<Act>, k: nat, h: Hash, i: Instance, found: Owners, answered: set<Id>)
    requires k < |acts| && acts[k] == Own(h, i) && forall x :: k < x < |acts| ==> !Touches(acts[x], h, i.id)
    ensures var after := EndRound(Acts(r, acts), found, answered).owners;
            h in after && after[h] == i <==> if h in found then found[h] == i else i.id !in answered
  {
    OwnedUntouched(r, acts, k, h, i);
  }

  /** It can be lost: the instance is asked first, and given the torrent then. */
  lemma LateOwnerCanBeLost(i: Instance, h: Hash)
    ensures var listings: Listings := map[i := Some([])];
            && Gathered([i], listings, map[], {i.id})
            && h in Acts(Reg(map[i.id := i], map[]), [Own(h, i)]).owners
            && h !in EndRound(Acts(Reg(map[i.id := i], map[]), [Own(h, i)]), map[], {i.id}).owners
  {
    var r := Reg(map[i.id := i], map[]);
    OwnedUntouched(r, [Own(h, i)], 0, h, i);
    LateOwnerIsKeptIff(r, [Own(h, i)], 0, h, i, map[], {i.id});
    var owners := Acts(r, [Own(h, i)]).owners;
    assert h in owners && owners[h] == i;
  }

  // ---------------------------------------------------------------- entries that outlive their instance

  /** The owner of `h` is `i`, which is not registered. */
  predicate Outlives(r: Reg, h: Hash, i: Instance) {
    h in r.owners && r.owners[h] == i && i.id !in r.instances
  }

  /** The owner of `h` is recorded as `i`. */
  predicate Records(act: Act, h: Hash, i: Instance) {
    act == Own(h, i) || (act.Rebuild? && h in act.found && act.found[h] == i)
  }

  /** The instance is back, or the entry is changed or dropped. */
  predicate Ends(act: Act, h: Hash, id: Id) {
    Touches(act, h, id) || (act.Enter? && act.i.id == id)
  }

  /** The act at `k` recorded `i`, not registered then, as the owner of `h`, and none since has ended
      that. */
  ghost predicate RecordedLate(r: Reg, acts: seq<Act>, k: nat, h: Hash, i: Instance) {
    && k < |acts| && Records(acts[k], h, i) && i.id !in Acts(r, acts[..k]).instances
    && forall x :: k < x < |acts| ==> !Ends(acts[x], h, i.id)
  }

  /** An owner entry outlives its instance, after whatever has been done, if and only if it was
      recorded when the instance was not registered, and since then neither has the instance come back
      nor has anything dropped or replaced the entry. */
  lemma {:induction false} OutlivesIff(r: Reg, acts: seq<Act>, h: Hash, i: Instance)
    requires !Outlives(r, h, i)
    ensures Outlives(Acts(r, acts), h, i) <==> exists k: nat :: RecordedLate(r, acts, k, h, i)
  {
    if acts != [] {
      var n := |acts| - 1;
      OutlivesIff(r, acts[..n], h, i);
      if Records(acts[n], h, i) && i.id !in Acts(r, acts[..n]).instances {
        assert RecordedLate(r, acts, n, h, i);
      }
      if k: nat :| RecordedLate(r, acts, k, h, i) && k < n {
        RecordedBefore(r, acts, k, h, i);
      }
      if k: nat :| RecordedLate(r, acts[..n], k, h, i) && !Ends(acts[n], h, i.id) {
        RecordedStill(r, acts, k, h, i);
      }
    }
  }

  lemma RecordedBefore(r: Reg, acts: seq<Act>, k: nat, h: Hash, i: Instance)
    requires RecordedLate(r, acts, k, h, i) && k < |acts| - 1
    ensures RecordedLate(r, acts[..|acts| - 1], k, h, i)
  {
    assert acts[..|acts| - 1][..k] == acts[..k];
  }

  lemma RecordedStill(r: Reg, acts: seq<Act>, k: nat, h: Hash, i: Instance)
    requires acts != [] && RecordedLate(r, acts[..|acts| - 1], k, h, i) && !Ends(acts[|acts| - 1], h, i.id)
    ensures RecordedLate(r, acts, k, h, i)
  {
    assert acts[..|acts| - 1][..k] == acts[..k];
    forall x | k < x < |acts| ensures !Ends(acts[x], h, i.id) {
      if x < |acts| - 1 { assert acts[..|acts| - 1][x] == acts[x]; }
    }
  }

  /** It happens when an add is forwarded to an instance that leaves before it has answered; */
  lemma LateAddOutlives(i: Instance, h: Hash)
    ensures Outlives(Acts(Reg(map[i.id := i], map[]), [Leave(i.id), Own(h, i)]), h, i)
  {
    var r, acts := Reg(map[i.id := i], map[]), [Leave(i.id), Own(h, i)];
    LeftAlone(r, acts, i);
    assert RecordedLate(r, acts, 1, h, i);
    OutlivesIff(r, acts, h, i);
  }

  /** when an instance leaves after it has been asked; */
  lemma FoundThenLeftOutlives(i: Instance, h: Hash)
    ensures Gathered([i], map[i := Some([h])], map[h := i], {i.id})
    ensures Outlives(Acts(Reg(map[i.id := i], map[]), [Leave(i.id), Rebuild(map[h := i], {i.id})]), h, i)
  {
    var r, acts := Reg(map[i.id := i], map[]), [Leave(i.id), Rebuild(map[h := i], {i.id})];
    LeftAlone(r, acts, i);
    assert RecordedLate(r, acts, 1, h, i);
    OutlivesIff(r, acts, h, i);
  }

  /** and such an entry survives the next round, which does not ask the instance. */
  lemma OutlivesNextRound(i: Instance, h: Hash)
    ensures Gathered([], map[], map[], {})
    ensures Outlives(Acts(Reg(map[i.id := i], map[]), [Leave(i.id), Own(h, i), Rebuild(map[], {})]), h, i)
  {
    var r, acts := Reg(map[i.id := i], map[]), [Leave(i.id), Own(h, i), Rebuild(map[], {})];
    LeftAlone(r, acts, i);
    assert RecordedLate(r, acts, 1, h, i);
    OutlivesIff(r, acts, h, i);
  }

  lemma LeftAlone(r: Reg, acts: seq<Act>, i: Instance)
    requires acts != [] && acts[0] == Leave(i.id)
    ensures i.id !in Acts(r, acts[..1]).instances
  {
    assert acts[..1] == [Leave(i.id)];
  }

  // ---------------------------------------------------------------- the registry

  function TrimSlash(s: string): (t: string)
    ensures t <= s && (t == "" || t[|t| - 1] != '/')
    ensures forall k :: |t| <= k < |s| ==> s[k] == '/'
  {
    if s != "" && s[|s| - 1] == '/' then TrimSlash(s[..|s| - 1]) else s
  }

  datatype Strategy = LeastTorrents | LeastBandwidth

  datatype Result = Existing(hash: Hash, at: Instance) | Added(hash: Hash, at: Instance) | NoInstance | AddFailed

  /** What a streamer answers to a delete, if it can be reached. */
  datatype Reply = Unreachable | Status(code: int)

  ghost predicate InFleet(i: Instance, instances: map<Id, Instance>, now: int, ttl: int)
    reads i
  {
    i.id in instances && instances[i.id] == i && i.Healthy(now, ttl)
  }

  /** `fleet` holds the healthy instances. */
  ghost predicate IsFleet(fleet: seq<Instance>, instances: map<Id, Instance>, now: int, ttl: int)
    reads instances.Values, set i | i in fleet
  {
    && (forall i :: i in fleet ==> InFleet(i, instances, now, ttl))
    && (forall id :: id in instances && instances[id].Healthy(now, ttl) ==> instances[id] in fleet)
  }

  /** Whom probe `k` would find with the torrent, and what others do before it is answered.  Probe 0
      is that of the cached owner. */
  datatype Probes = Probes(holds: nat -> set<Instance>, others: nat -> seq<Act>)

  /** What others do from probe `a` until probe `b` is made. */
  function Between(others: nat -> seq<Act>, a: nat, b: nat): seq<Act>
    requires a <= b
  {
    if a == b then [] else Between(others, a, b - 1) + others(b - 1)
  }

  /** The first `n` of the fleet were probed: the last of them has the torrent, or else nobody has. */
  ghost predicate ProbedTo(fleet: seq<Instance>, n: nat, at: Option<Instance>, probes: Probes) {
    && (if at.Some? then 0 < n <= |fleet| && at.value == fleet[n - 1] && at.value in probes.holds(n) else n == |fleet|)
    && forall j :: 0 <= j < n && !(at.Some? && j == n - 1) ==> fleet[j] !in probes.holds(j + 1)
  }

  /** What the outcome of the probes does to the owner map. */
  function Noted(h: Hash, at: Option<Instance>): Act {
    if at.Some? then Own(h, at.value) else Disown(h)
  }

  /** The owner is the cached one if that is healthy and has the torrent; or else the first of the
      healthy instances that has it, which becomes the owner, or nobody, and there is no owner then. */
  ghost predicate Resolves(before: Reg, after: Reg, h: Hash, at: Option<Instance>, fleet: seq<Instance>, n: nat,
                           probes: Probes, now: int, ttl: int)
    reads before.owners.Values, Acts(before, probes.others(0)).instances.Values, set i | i in fleet
  {
    if h in before.owners && before.owners[h].Healthy(now, ttl) && before.owners[h] in probes.holds(0) then
      at == Some(before.owners[h]) && after == Acts(before, probes.others(0))
    else
      && IsFleet(fleet, Acts(before, probes.others(0)).instances, now, ttl) && ProbedTo(fleet, n, at, probes)
      && after == ActOn(Acts(Acts(before, probes.others(0)), Between(probes.others, 1, n + 1)), Noted(h, at))
  }

  lemma {:induction false} ActsJoin(r: Reg, a: seq<Act>, b: seq<Act>)
    ensures Acts(Acts(r, a), b) == Acts(r, a + b)
  {
    if b == [] {
      NoneBefore(a);
    } else {
      var n := |b| - 1;
      ActsJoin(r, a, b[..n]);
      JoinLast(b);
      Assoc(a, b[..n], [b[n]]);
      SplitLast(a + b[..n], b[n]);
    }
  }

  lemma ActLast(r: Reg, acts: seq<Act>, act: Act)
    ensures Acts(r, acts + [act]) == ActOn(Acts(r, acts), act)
  {
    SplitLast(acts, act);
  }

  class Registry {
    const ttl: int
    var instances: map<Id, Instance>
    var owners: Owners

    constructor (ttl: int)
      ensures this.ttl == ttl && instances == map[] && owners == map[] && Valid()
    {
      this.ttl, instances, owners := ttl, map[], map[];
    }

    /** Instances are found by their own ID. */
    ghost predicate Valid()
      reads this
    {
      forall id :: id in instances ==> instances[id].id == id
    }

    method Register(id: Id, internalUrl: string, publicUrl: string, controlToken: string, session: string, now: int)
      returns (token: string)
      requires Valid()
      modifies this`instances, instances.Values
      ensures Valid() && id in instances && instances == old(instances)[id := instances[id]]
      ensures instances[id].lastSeen == now && token == instances[id].sessionToken
      ensures var i := instances[id];
              && i.internalUrl == TrimSlash(internalUrl) && i.publicUrl == TrimSlash(publicUrl)
              && i.controlToken == controlToken
      ensures var known := id in old(instances) && old(instances)[id].internalUrl == TrimSlash(internalUrl)
                           && old(instances)[id].publicUrl == TrimSlash(publicUrl)
                           && old(instances)[id].controlToken == controlToken;
              && (known ==> instances == old(instances))
              && (!known ==> fresh(instances[id]) && token == session)
      ensures forall j :: j in old(instances) && j != id ==> unchanged(old(instances)[j])
    {
      if id in instances && instances[id].internalUrl == TrimSlash(internalUrl)
         && instances[id].publicUrl == TrimSlash(publicUrl) && instances[id].controlToken == controlToken {
        instances[id].lastSeen := now;
        return instances[id].sessionToken;
      }
      var i := new Instance(id, TrimSlash(internalUrl), TrimSlash(publicUrl), controlToken, session, now);
      instances := instances[id := i];
      token := i.sessionToken;
    }

    method Heartbeat(id: Id, sessionToken: string, now: int) returns (ok: bool)
      modifies instances.Values
      ensures ok <==> id in instances && instances[id].sessionToken == sessionToken
      ensures ok ==> instances[id].lastSeen == now
      ensures forall j :: j in instances && !(ok && instances[j] == instances[id]) ==> unchanged(instances[j])
    {
      ok := id in instances && instances[id].sessionToken == sessionToken;
      if ok {
        instances[id].lastSeen := now;
      }
    }

    /** Deletes the owner entries of one instance. */
    method DropOwnersOf(id: Id)
      modifies this`owners
      ensures owners == Without(old(owners), {id})
    {
      var todo := owners.Keys;
      ghost var before := owners;
      while todo != {}
        invariant todo <= before.Keys
        invariant forall h :: h in owners <==> h in before && (h in todo || before[h].id != id)
        invariant forall h :: h in owners ==> owners[h] == before[h]
        decreases |todo|
      {
        var h :| h in todo;
        todo := todo - {h};
        if owners[h].id == id {
          owners := owners - {h};
        }
      }
    }

    method Deregister(id: Id)
      requires Valid()
      modifies this`instances, this`owners
      ensures Valid() && instances == old(instances) - {id} && owners == Without(old(owners), {id})
      ensures forall h :: h in owners <==> h in old(owners) && old(owners)[h].id != id
      ensures forall h :: h in owners ==> owners[h] == old(owners)[h]
    {
      instances := instances - {id};
      DropOwnersOf(id);
    }

    method DeregisterWithToken(id: Id, sessionToken: string) returns (ok: bool)
      requires Valid()
      modifies this
      ensures Valid() && (ok <==> id in old(instances) && old(instances)[id].sessionToken == sessionToken)
      ensures if ok then instances == old(instances) - {id} && owners == Without(old(owners), {id})
              else instances == old(instances) && owners == old(owners)
    {
      ok := id in instances && instances[id].sessionToken == sessionToken;
      if ok {
        Deregister(id);
      }
    }

    /** Drops the instances that have not been heard of for too long, and what they own. */
    method ExpireStale(now: int)
      requires Valid()
      modifies this
      ensures Valid()
      ensures instances == map id | id in old(instances) && old(instances)[id].Healthy(now, ttl) :: old(instances)[id]
      ensures owners == Without(old(owners), set id | id in old(instances) && !old(instances)[id].Healthy(now, ttl))
      ensures forall id :: id in instances <==> id in old(instances) && now - old(instances)[id].lastSeen <= ttl
      ensures forall id :: id in instances ==> instances[id] == old(instances)[id]
      ensures forall h :: h in owners <==>
                h in old(owners) && (old(owners)[h].id in old(instances) ==> old(owners)[h].id in instances)
      ensures forall h :: h in owners ==> owners[h] == old(owners)[h]
    {
      ghost var all, before := instances, owners;
      var todo := instances.Keys;
      ghost var dropped: set<Id> := {};
      while todo != {}
        invariant todo <= all.Keys && dropped == set id | id in all && id !in todo && !all[id].Healthy(now, ttl)
        invariant instances == all - dropped && owners == Without(before, dropped)
        decreases |todo|
      {
        var id :| id in todo;
        todo := todo - {id};
        if !instances[id].Healthy(now, ttl) {
          instances := instances - {id};
          DropOwnersOf(id);
          WithoutTwice(before, dropped, {id});
          dropped := dropped + {id};
        }
      }
    }

    method HealthyInstances(now: int) returns (fleet: seq<Instance>)
      requires Valid()
      ensures IsFleet(fleet, instances, now, ttl) && ByOneId(fleet)
      ensures forall i :: i in fleet <==> i in instances.Values && now - i.lastSeen <= ttl
    {
      fleet := [];
      var todo := instances.Keys;
      while todo != {}
        invariant todo <= instances.Keys
        invariant forall i :: i in fleet ==> InFleet(i, instances, now, ttl)
        invariant forall id :: id in instances && id !in todo && instances[id].Healthy(now, ttl) ==>
                    instances[id] in fleet
        decreases |todo|
      {
        var id :| id in todo;
        todo := todo - {id};
        if instances[id].Healthy(now, ttl) {
          fleet := fleet + [instances[id]];
        }
      }
    }

    /** How many torrents each instance owns. */
    method OwnerCounts() returns (counts: map<Id, int>)
      ensures AreCounts(counts, owners)
      ensures forall id :: At(counts, id) == |set h | h in owners && owners[h].id == id|
    {
      counts := map[];
      var todo := owners.Keys;
      ghost var done: Owners := map[];
      while todo != {}
        invariant todo <= owners.Keys && done == map h | h in owners && h !in todo :: owners[h]
        invariant AreCounts(counts, done)
        decreases |todo|
      {
        var h :| h in todo;
        todo := todo - {h};
        CountsWith(counts, done, h, owners[h]);
        counts := counts[owners[h].id := At(counts, owners[h].id) + 1];
        done := done[h := owners[h]];
      }
      assert done == owners;
    }

    method SetOwner(h: Hash, i: Instance)
      modifies this`owners
      ensures owners == old(owners)[h := i]
    {
      owners := owners[h := i];
    }

    method ClearOwner(h: Hash)
      modifies this`owners
      ensures owners == old(owners) - {h}
    {
      owners := owners - {h};
    }

    // -------------------------------------------------------------- reconciliation

    /** Asks every healthy instance what it holds, and how much it serves. */
    method Gather(asked: seq<Instance>, listings: Listings, loads: map<Instance, int>)
      returns (found: Owners, answered: set<Id>)
      modifies set i | i in asked
      ensures Gathered(asked, listings, found, answered)
      ensures forall i :: i in asked ==> i.lastSeen == old(i.lastSeen)
      ensures forall i :: i in asked ==> i.egress == if i in loads then loads[i] else old(i.egress)
    {
      found, answered := map[], {};
      var k := 0;
      while k < |asked|
        invariant 0 <= k <= |asked|
        invariant Gathered(asked[..k], listings, found, answered)
        invariant forall i :: i in asked ==> i.lastSeen == old(i.lastSeen)
        invariant forall i :: i in asked[..k] ==> i.egress == if i in loads then loads[i] else old(i.egress)
        invariant forall i :: i in asked && i !in asked[..k] ==> i.egress == old(i.egress)
      {
        var i := asked[k];
        if i in loads {
          i.egress := loads[i];
        }
        ghost var before, were := found, answered;
        if i in listings && listings[i].Some? {
          answered := answered + {i.id};
          found := FindAll(found, i, listings[i].value);
        }
        TakeMore(asked, k);
        GatheredMore(asked[..k], listings, before, were, i, found, answered);
        k := k + 1;
      }
    }

    method FindAll(found: Owners, i: Instance, hashes: seq<Hash>) returns (found': Owners)
      ensures forall h :: h in found' <==> h in found || h in hashes
      ensures forall h :: h in found' ==> found'[h] == if h in hashes then i else found[h]
    {
      found' := found;
      var k := 0;
      while k < |hashes|
        invariant 0 <= k <= |hashes|
        invariant forall h :: h in found' <==> h in found || h in hashes[..k]
        invariant forall h :: h in found' ==> found'[h] == if h in hashes[..k] then i else found[h]
      {
        found' := found'[hashes[k] := i];
        k := k + 1;
      }
    }

    /** Takes over what a round found, and keeps the entries of instances it did not hear from. */
    method RebuildOwners(found: Owners, answered: set<Id>)
      modifies this`owners
      ensures owners == Rebuilt(old(owners), found, answered)
      ensures forall h :: h in owners <==> h in found || (h in old(owners) && old(owners)[h].id !in answered)
      ensures forall h :: h in owners ==> owners[h] == if h in found then found[h] else old(owners)[h]
    {
      var newOwners := found;
      var todo := owners.Keys;
      while todo != {}
        invariant todo <= owners.Keys
        invariant forall h :: h in newOwners <==> h in found || (h in owners && h !in todo && owners[h].id !in answered)
        invariant forall h :: h in newOwners ==> newOwners[h] == if h in found then found[h] else owners[h]
        decreases |todo|
      {
        var h :| h in todo;
        todo := todo - {h};
        if owners[h].id !in answered && h !in newOwners {
          newOwners := newOwners[h := owners[h]];
        }
      }
      owners := newOwners;
    }

    ghost function Maps(): Reg
      reads this
    {
      Reg(instances, owners)
    }

    /** What others do. */
    method Perform(acts: seq<Act>)
      requires Valid()
      modifies this`instances, this`owners
      ensures Valid() && Maps() == Acts(old(Maps()), acts)
    {
      for k := 0 to |acts|
        invariant Valid() && Maps() == Acts(old(Maps()), acts[..k])
      {
        TakeMore(acts, k);
        SplitLast(acts[..k], acts[k]);
        match acts[k] {
          case Enter(i) => instances := instances[i.id := i];
          case Leave(id) => Deregister(id);
          case Own(h, at) => SetOwner(h, at);
          case Disown(h) => ClearOwner(h);
          case Rebuild(found, answered) => RebuildOwners(found, answered);
        }
      }
      assert acts[..|acts|] == acts;
    }

    /** One round.  The healthy instances are asked without the lock, so that others do `acts`
        before the owner map is rebuilt. */
    method ReconcileOnce(listings: Listings, loads: map<Instance, int>, now: int, acts: seq<Act>)
      returns (ghost asked: seq<Instance>, ghost found: Owners, ghost answered: set<Id>)
      requires Valid()
      modifies this`instances, this`owners, instances.Values
      ensures Valid()
      ensures forall i :: i in asked ==> i.id in old(instances) && old(instances)[i.id] == i && i.Healthy(now, ttl)
      ensures forall id :: id in old(instances) && old(instances)[id].Healthy(now, ttl) ==> old(instances)[id] in asked
      ensures ByOneId(asked) && Gathered(asked, listings, found, answered)
      ensures Maps() == EndRound(Acts(old(Maps()), acts), found, answered)
      ensures forall i :: i in asked ==> i.lastSeen == old(i.lastSeen)
      ensures forall i :: i in asked ==> i.egress == if i in loads then loads[i] else old(i.egress)
    {
      var fleet := HealthyInstances(now);
      forall i | i in fleet ensures i in instances.Values { assert InFleet(i, instances, now, ttl); }
      var f, a := Gather(fleet, listings, loads);
      asked, found, answered := fleet, f, a;
      forall i | i in asked ensures i.id in old(instances) && old(instances)[i.id] == i && i.Healthy(now, ttl) {
        assert InFleet(i, instances, now, ttl);
      }
      Perform(acts);
      RebuildOwners(f, a);
    }

    // -------------------------------------------------------------- placement

    /** Picks among the healthy instances by what they own; others act before that is counted. */
    method PickInstance(strategy: Strategy, now: int, beforeCount: seq<Act>)
      returns (best: Option<Instance>, ghost fleet: seq<Instance>, ghost counts: map<Id, int>)
      requires Valid()
      modifies this`instances, this`owners
      ensures Valid() && IsFleet(fleet, old(instances), now, ttl) && ByOneId(fleet)
      ensures best == None <==> fleet == []
      ensures Maps() == if best == None then old(Maps()) else Acts(old(Maps()), beforeCount)
      ensures best.Some? ==> best.value in fleet && AreCounts(counts, owners)
      ensures best.Some? && strategy == LeastTorrents ==> HasFewest(best.value, fleet, counts)
      ensures best.Some? && strategy == LeastBandwidth ==> IsIdlest(best.value, fleet, counts)
    {
      var healthy := HealthyInstances(now);
      fleet, counts := healthy, map[];
      if |healthy| == 0 {
        return None, fleet, counts;
      }
      Perform(beforeCount);
      var owned := OwnerCounts();
      counts := owned;
      var i;
      match strategy {
        case LeastTorrents => i := PickLeastTorrents(healthy, owned);
        case LeastBandwidth => i := PickLeastBandwidth(healthy, owned);
      }
      best := Some(i);
    }

    /** Where a torrent already is, if its owner is alive. */
    method DedupeAdd(magnet: Option<Hash>, now: int) returns (at: Option<Instance>)
      ensures at.Some? <==> magnet.Some? && magnet.value in owners && owners[magnet.value].Healthy(now, ttl)
      ensures at.Some? <==> magnet.Some? && magnet.value in owners && now - owners[magnet.value].lastSeen <= ttl
      ensures at.Some? ==> at.value == owners[magnet.value]
    {
      at := None;
      if magnet.Some? {
        if magnet.value in owners && owners[magnet.value].Healthy(now, ttl) {
          at := Some(owners[magnet.value]);
        }
      }
    }

    /** Forwards an add, while others act; `reply` is the infohash the streamer answers with, if it
        accepts.  The owner is recorded even if the instance has left by then. */
    method AddVia(i: Instance, reply: Option<Hash>, meanwhile: seq<Act>) returns (r: Result)
      requires Valid()
      modifies this`instances, this`owners
      ensures Valid() && r == if reply.Some? then Added(reply.value, i) else AddFailed
      ensures var r1 := Acts(old(Maps()), meanwhile);
              Maps() == if reply.Some? then ActOn(r1, Own(reply.value, i)) else r1
      ensures reply.Some? && i.id !in Acts(old(Maps()), meanwhile).instances ==> Outlives(Maps(), reply.value, i)
    {
      Perform(meanwhile);
      if reply == None {
        return AddFailed;
      }
      SetOwner(reply.value, i);
      r := Added(reply.value, i);
    }

    /** Adds a torrent once: where it already is, or else where the strategy puts it.  Others act
        before the healthy instances are listed, before what they own is counted, and while the add
        is forwarded.  A new torrent put where the fewest are would leave the fleet, as it was
        counted, as even as it was. */
    method PlaceAdd(magnet: Option<Hash>, reply: Option<Hash>, strategy: Strategy, now: int,
                    beforePick: seq<Act>, beforeCount: seq<Act>, meanwhile: seq<Act>)
      returns (r: Result, ghost fleet: seq<Instance>, ghost counted: Reg, ghost counts: map<Id, int>)
      requires Valid()
      modifies this`instances, this`owners
      ensures Valid()
      ensures r.Existing? <==>
                magnet.Some? && magnet.value in old(owners) && old(owners)[magnet.value].Healthy(now, ttl)
      ensures r.Existing? ==> r.hash == magnet.value && r.at == old(owners)[r.hash] && Maps() == old(Maps())
      ensures !r.Existing? ==> IsFleet(fleet, Acts(old(Maps()), beforePick).instances, now, ttl) && ByOneId(fleet)
      ensures !r.Existing? ==> (r == NoInstance <==> fleet == [])
      ensures r == NoInstance ==> Maps() == Acts(old(Maps()), beforePick)
      ensures r.Added? || r == AddFailed ==>
                counted == Acts(Acts(old(Maps()), beforePick), beforeCount) && AreCounts(counts, counted.owners)
      ensures r.Added? ==> reply == Some(r.hash) && r.at in fleet
      ensures r.Added? ==> Maps() == ActOn(Acts(counted, meanwhile), Own(r.hash, r.at))
      ensures r == AddFailed ==> reply == None && Maps() == Acts(counted, meanwhile)
      ensures r.Added? && strategy == LeastTorrents ==> HasFewest(r.at, fleet, counts)
      ensures r.Added? && strategy == LeastBandwidth ==> IsIdlest(r.at, fleet, counts)
      ensures r.Added? && r.hash !in counted.owners && strategy == LeastTorrents ==>
                forall d: nat :: d >= 1 && Within(counted.owners, fleet, d) ==>
                  Within(counted.owners[r.hash := r.at], fleet, d)
    {
      fleet, counted, counts := [], Maps(), map[];
      var at := DedupeAdd(magnet, now);
      if at.Some? {
        return Existing(magnet.value, at.value), fleet, counted, counts;
      }
      Perform(beforePick);
      var best;
      best, fleet, counts := PickInstance(strategy, now, beforeCount);
      if best == None {
        return NoInstance, fleet, counted, counts;
      }
      counted := Maps();
      r := AddVia(best.value, reply, meanwhile);
      if strategy == LeastTorrents && r.Added? && r.hash !in counted.owners {
        forall d: nat | d >= 1 && Within(counted.owners, fleet, d)
          ensures Within(counted.owners[r.hash := r.at], fleet, d)
        {
          PlacingKeepsSpread(counted.owners, r.hash, best.value, fleet, counts, d);
        }
      }
    }

    // -------------------------------------------------------------- finding the owner

    /** Probes the healthy instances for a torrent in turn, and records the first that has it. */
    method ReResolve(h: Hash, probes: Probes, now: int)
      returns (at: Option<Instance>, ghost fleet: seq<Instance>, ghost n: nat)
      requires Valid()
      modifies this`instances, this`owners
      ensures Valid() && IsFleet(fleet, old(instances), now, ttl) && ProbedTo(fleet, n, at, probes)
      ensures Maps() == ActOn(Acts(old(Maps()), Between(probes.others, 1, n + 1)), Noted(h, at))
      ensures if at.Some? then h in owners && owners[h] == at.value else h !in owners
    {
      var healthy := HealthyInstances(now);
      fleet, n := healthy, 0;
      var k := 0;
      while k < |healthy|
        invariant 0 <= k <= |healthy| && Valid() && fleet == healthy && n == k
        invariant Maps() == Acts(old(Maps()), Between(probes.others, 1, k + 1))
        invariant forall j :: 0 <= j < k ==> fleet[j] !in probes.holds(j + 1)
      {
        ActsJoin(old(Maps()), Between(probes.others, 1, k + 1), probes.others(k + 1));
        Perform(probes.others(k + 1));
        n := k + 1;
        if healthy[k] in probes.holds(k + 1) {
          SetOwner(h, healthy[k]);
          return Some(healthy[k]), fleet, n;
        }
        k := k + 1;
      }
      ClearOwner(h);
      at := None;
    }

    /** The instance that has a torrent.  The owner map is trusted only as far as a probe bears it
        out, and what another probe says is noted in it. */
    method ResolveOwner(h: Hash, probes: Probes, now: int)
      returns (at: Option<Instance>, ghost fleet: seq<Instance>, ghost n: nat)
      requires Valid()
      modifies this`instances, this`owners
      ensures Valid() && Resolves(old(Maps()), Maps(), h, at, fleet, n, probes, now, ttl)
      ensures at == None ==> h !in owners
      ensures at.Some? ==>
                || (h in owners && owners[h] == at.value)
                || (h in old(owners) && old(owners)[h] == at.value && now - at.value.lastSeen <= ttl
                    && at.value in probes.holds(0))
    {
      fleet, n := [], 0;
      var cached := h in owners && owners[h].Healthy(now, ttl);
      var i := if cached then Some(owners[h]) else None;
      Perform(probes.others(0));
      if cached && i.value in probes.holds(0) {
        return i, fleet, n;
      }
      at, fleet, n := ReResolve(h, probes, now);
    }

    /** Deletes a torrent where it is, while others act; one that nobody has is deleted already. */
    method DeleteTorrent(h: Hash, probes: Probes, reply: Reply, meanwhile: seq<Act>, now: int)
      returns (ok: bool, ghost at: Option<Instance>, ghost resolved: Reg, ghost fleet: seq<Instance>, ghost n: nat)
      requires Valid()
      modifies this`instances, this`owners
      ensures Valid() && Resolves(old(Maps()), resolved, h, at, fleet, n, probes, now, ttl)
      ensures Maps() == if at == None then resolved
                        else if reply == Unreachable then Acts(resolved, meanwhile)
                        else ActOn(Acts(resolved, meanwhile), Disown(h))
      ensures ok <==> at == None || (reply.Status? && (reply.code == 404 || 200 <= reply.code < 300))
      ensures ok ==> h !in owners
    {
      var i;
      i, fleet, n := ResolveOwner(h, probes, now);
      at, resolved := i, Maps();
      ghost var listed := Acts(old(Maps()), probes.others(0)).instances;
      ghost var isFleet := IsFleet(fleet, listed, now, ttl);
      if i == None {
        return true, at, resolved, fleet, n;
      }
      Perform(meanwhile);
      assert IsFleet(fleet, listed, now, ttl) == isFleet;
      if reply == Unreachable {
        return false, at, resolved, fleet, n;
      }
      ClearOwner(h);
      ok := reply.code == 404 || 200 <= reply.code < 300;
    }
  }
}
