/** Where a new torrent is placed (manager/loadbalance.go). */
module Placement {

  datatype Id = Id(text: string)
  datatype Hash = Hash(text: string)

  /** A streamer, as registered (manager/instance.go).  Registering it again with another address
      makes another object. */
  class Instance {
    const id: Id
    const internalUrl: string
    const publicUrl: string
    const controlToken: string
    const sessionToken: string
    var lastSeen: int
    var egress: int

    constructor (id: Id, internalUrl: string, publicUrl: string, controlToken: string, sessionToken: string, now: int)
      ensures this.id == id && this.internalUrl == internalUrl && this.publicUrl == publicUrl
      ensures this.controlToken == controlToken && this.sessionToken == sessionToken
      ensures lastSeen == now && egress == 0
    {
      this.id, this.internalUrl, this.publicUrl := id, internalUrl, publicUrl;
      this.controlToken, this.sessionToken := controlToken, sessionToken;
      lastSeen, egress := now, 0;
    }

    predicate Healthy(now: int, ttl: int)
      reads this
    {
      now - lastSeen <= ttl
    }
  }

  // ---------------------------------------------------------------- the order of loads

  /** The order of strings. */
  predicate StrLess(a: string, b: string) {
    b != "" && (a == "" || a[0] < b[0] || (a[0] == b[0] && StrLess(a[1..], b[1..])))
  }

  lemma {:induction false} StrLessIsStrict(a: string, b: string)
    ensures !StrLess(a, a)
    ensures !(StrLess(a, b) && StrLess(b, a))
    ensures a != b ==> StrLess(a, b) || StrLess(b, a)
  {
    if a != "" { StrLessIsStrict(a[1..], if b == "" then "" else b[1..]); }
    if a != "" && b != "" && a[0] == b[0] && a[1..] == b[1..] {
      assert a == [a[0]] + a[1..] && b == [b[0]] + b[1..];
    }
  }

  lemma {:induction false} StrLessTrans(a: string, b: string, c: string)
    requires StrLess(a, b) && StrLess(b, c)
    ensures StrLess(a, c)
  {
    if a != "" && a[0] == b[0] == c[0] { StrLessTrans(a[1..], b[1..], c[1..]); }
  }

  /** It is decided by the first place where two strings differ, and a string comes after its own
      beginnings. */
  lemma {:induction false} FirstDifferenceDecides(a: string, x: char, s: string, y: char, t: string)
    ensures StrLess(a, a + [x] + s)
    ensures x != y ==> (StrLess(a + [x] + s, a + [y] + t) <==> x < y)
  {
    if a != "" {
      FirstDifferenceDecides(a[1..], x, s, y, t);
      assert (a + [x] + s)[1..] == a[1..] + [x] + s && (a + [y] + t)[1..] == a[1..] + [y] + t;
    }
  }

  /** What an instance is compared by. */
  datatype Load = Load(egress: int, count: int, id: Id)

  predicate Less(a: Load, b: Load) {
    if a.egress != b.egress then a.egress < b.egress
    else if a.count != b.count then a.count < b.count
    else StrLess(a.id.text, b.id.text)
  }

  /** Of two different loads exactly one is less. */
  lemma LessIsStrict(a: Load, b: Load)
    ensures !Less(a, a)
    ensures !(Less(a, b) && Less(b, a))
    ensures a != b ==> Less(a, b) || Less(b, a)
  {
    StrLessIsStrict(a.id.text, b.id.text);
  }

  lemma LessTrans(a: Load, b: Load, c: Load)
    requires Less(a, b) && Less(b, c)
    ensures Less(a, c)
  {
    if a.egress == b.egress == c.egress && a.count == b.count == c.count {
      StrLessTrans(a.id.text, b.id.text, c.id.text);
    }
  }

  /** A count, zero for an instance that has none. */
  function At(counts: map<Id, int>, id: Id): int {
    if id in counts then counts[id] else 0
  }

  function Fewest(i: Instance, counts: map<Id, int>): Load {
    Load(0, At(counts, i.id), i.id)
  }

  function Idlest(i: Instance, counts: map<Id, int>): Load
    reads i
  {
    Load(i.egress, At(counts, i.id), i.id)
  }

  // ---------------------------------------------------------------- picking

  /** No instance has fewer torrents than `best`, nor as few and a lower ID. */
  ghost predicate HasFewest(best: Instance, instances: seq<Instance>, counts: map<Id, int>) {
    && best in instances
    && forall j :: 0 <= j < |instances| ==> !Less(Fewest(instances[j], counts), Fewest(best, counts))
  }

  /** No instance serves less than `best`, nor as much and is preferred by count and ID. */
  ghost predicate IsIdlest(best: Instance, instances: seq<Instance>, counts: map<Id, int>)
    reads best, set i | i in instances
  {
    && best in instances
    && forall j :: 0 <= j < |instances| ==> !Less(Idlest(instances[j], counts), Idlest(best, counts))
  }

  /** So the count decides, and between equal counts the ID. */
  lemma FewestMeans(best: Instance, instances: seq<Instance>, counts: map<Id, int>, i: Instance)
    requires HasFewest(best, instances, counts) && i in instances
    ensures At(counts, best.id) <= At(counts, i.id)
    ensures At(counts, best.id) == At(counts, i.id) && i.id != best.id ==> StrLess(best.id.text, i.id.text)
  {
    StrLessIsStrict(best.id.text, i.id.text);
  }

  /** So the egress decides, between equal egress the count, and between equal counts the ID. */
  lemma IdlestMeans(best: Instance, instances: seq<Instance>, counts: map<Id, int>, i: Instance)
    requires IsIdlest(best, instances, counts) && i in instances
    ensures best.egress <= i.egress
    ensures best.egress == i.egress ==> At(counts, best.id) <= At(counts, i.id)
    ensures best.egress == i.egress && At(counts, best.id) == At(counts, i.id) && i.id != best.id ==>
              StrLess(best.id.text, i.id.text)
  {
    StrLessIsStrict(best.id.text, i.id.text);
  }

  method PickLeastTorrents(instances: seq<Instance>, counts: map<Id, int>) returns (best: Instance)
    requires instances != []
    ensures HasFewest(best, instances, counts)
  {
    best := instances[0];
    var bestCount := At(counts, best.id);
    LessIsStrict(Fewest(best, counts), Fewest(best, counts));
    var i := 1;
    while i < |instances|
      invariant 1 <= i <= |instances| && bestCount == At(counts, best.id) && best in instances
      invariant forall j :: 0 <= j < i ==> !Less(Fewest(instances[j], counts), Fewest(best, counts))
    {
      var c := At(counts, instances[i].id);
      ghost var was := best;
      if c < bestCount || (c == bestCount && StrLess(instances[i].id.text, best.id.text)) {
        best, bestCount := instances[i], c;
        forall j | 0 <= j < i + 1 ensures !Less(Fewest(instances[j], counts), Fewest(best, counts)) {
          NotLessThan(Fewest(instances[j], counts), Fewest(best, counts), Fewest(was, counts));
        }
      }
      i := i + 1;
    }
  }

  /** What is not less than `was` is not less than something less than `was`. */
  lemma NotLessThan(x: Load, best: Load, was: Load)
    requires Less(best, was)
    ensures !Less(x, was) ==> !Less(x, best)
    ensures !Less(best, best)
  {
    LessIsStrict(best, best);
    if Less(x, best) { LessTrans(x, best, was); }
  }

  predicate LessLoaded(a: Instance, b: Instance, counts: map<Id, int>)
    reads a, b
  {
    if a.egress != b.egress then a.egress < b.egress
    else if At(counts, a.id) != At(counts, b.id) then At(counts, a.id) < At(counts, b.id)
    else StrLess(a.id.text, b.id.text)
  }

  method PickLeastBandwidth(instances: seq<Instance>, counts: map<Id, int>) returns (best: Instance)
    requires instances != []
    ensures IsIdlest(best, instances, counts)
  {
    best := instances[0];
    LessIsStrict(Idlest(best, counts), Idlest(best, counts));
    var i := 1;
    while i < |instances|
      invariant 1 <= i <= |instances| && best in instances
      invariant forall j :: 0 <= j < i ==> !Less(Idlest(instances[j], counts), Idlest(best, counts))
    {
      ghost var was := best;
      if LessLoaded(instances[i], best, counts) {
        best := instances[i];
        forall j | 0 <= j < i + 1 ensures !Less(Idlest(instances[j], counts), Idlest(best, counts)) {
          NotLessThan(Idlest(instances[j], counts), Idlest(best, counts), Idlest(was, counts));
        }
      }
      i := i + 1;
    }
  }

  /** Instances come out of a map by ID. */
  ghost predicate ByOneId(instances: seq<Instance>) {
    forall a, b :: a in instances && b in instances && a.id == b.id ==> a == b
  }

  /** The same instances, in any order. */
  ghost predicate SameFleet(xs: seq<Instance>, ys: seq<Instance>) {
    (forall i :: i in xs ==> i in ys) && (forall i :: i in ys ==> i in xs)
  }

  /** In whatever order the map yields the instances, the same one is picked. */
  lemma FewestIsUnique(best: Instance, best': Instance, xs: seq<Instance>, ys: seq<Instance>, counts: map<Id, int>)
    requires ByOneId(xs) && SameFleet(xs, ys)
    requires HasFewest(best, xs, counts) && HasFewest(best', ys, counts)
    ensures best == best'
  {
    LessIsStrict(Fewest(best, counts), Fewest(best', counts));
  }

  lemma IdlestIsUnique(best: Instance, best': Instance, xs: seq<Instance>, ys: seq<Instance>, counts: map<Id, int>)
    requires ByOneId(xs) && SameFleet(xs, ys)
    requires IsIdlest(best, xs, counts) && IsIdlest(best', ys, counts)
    ensures best == best'
  {
    LessIsStrict(Idlest(best, counts), Idlest(best', counts));
  }

  // ---------------------------------------------------------------- counting and spreading

  type Owners = map<Hash, Instance>

  function HashesOf(owners: Owners, id: Id): set<Hash> {
    set h | h in owners && owners[h].id == id
  }

  function CountOf(owners: Owners, id: Id): nat {
    |HashesOf(owners, id)|
  }

  /** The counts are those of the owner map. */
  ghost predicate AreCounts(counts: map<Id, int>, owners: Owners) {
    forall id :: At(counts, id) == CountOf(owners, id)
  }

  lemma CountWith(owners: Owners, h: Hash, i: Instance, id: Id)
    requires h !in owners
    ensures CountOf(owners[h := i], id) == CountOf(owners, id) + if i.id == id then 1 else 0
  {
    assert HashesOf(owners[h := i], id) == HashesOf(owners, id) + if i.id == id then {h} else {};
  }

  lemma CountsWith(counts: map<Id, int>, owners: Owners, h: Hash, i: Instance)
    requires h !in owners && AreCounts(counts, owners)
    ensures AreCounts(counts[i.id := At(counts, i.id) + 1], owners[h := i])
  {
    var counts' := counts[i.id := At(counts, i.id) + 1];
    forall id ensures At(counts', id) == CountOf(owners[h := i], id) {
      CountWith(owners, h, i, id);
      assert At(counts, id) == CountOf(owners, id);
    }
  }

  /** No instance of the fleet owns over `d` torrents more than another. */
  ghost predicate Within(owners: Owners, fleet: seq<Instance>, d: nat) {
    forall a, b :: a in fleet && b in fleet ==> CountOf(owners, a.id) <= CountOf(owners, b.id) + d
  }

  lemma FewestCount(best: Instance, a: Instance, fleet: seq<Instance>, counts: map<Id, int>, owners: Owners)
    requires HasFewest(best, fleet, counts) && AreCounts(counts, owners) && a in fleet
    ensures CountOf(owners, best.id) <= CountOf(owners, a.id)
  {
    assert At(counts, a.id) == CountOf(owners, a.id) && At(counts, best.id) == CountOf(owners, best.id);
  }

  /** A new torrent placed where the fewest are does not widen the spread. */
  lemma PlacingKeepsSpread(owners: Owners, h: Hash, best: Instance, fleet: seq<Instance>, counts: map<Id, int>, d: nat)
    requires HasFewest(best, fleet, counts) && AreCounts(counts, owners)
    requires h !in owners && d >= 1 && Within(owners, fleet, d)
    ensures Within(owners[h := best], fleet, d)
  {
    forall a, b | a in fleet && b in fleet
      ensures CountOf(owners[h := best], a.id) <= CountOf(owners[h := best], b.id) + d
    {
      CountWith(owners, h, best, a.id);
      CountWith(owners, h, best, b.id);
      FewestCount(best, b, fleet, counts, owners);
    }
  }

  /** Torrents placed one after the other, each new and put where the fewest were. */
  datatype Placed = Placed(h: Hash, at: Instance, fleet: seq<Instance>, counts: map<Id, int>)

  function AfterAll(owners: Owners, run: seq<Placed>): Owners
    decreases |run|
  {
    if run == [] then owners else AfterAll(owners[run[0].h := run[0].at], run[1..])
  }

  ghost predicate GreedyRun(owners: Owners, fleet: seq<Instance>, run: seq<Placed>)
    decreases |run|
  {
    run != [] ==>
      && var p := run[0];
         && p.h !in owners && SameFleet(p.fleet, fleet)
         && AreCounts(p.counts, owners) && HasFewest(p.at, p.fleet, p.counts)
         && GreedyRun(owners[p.h := p.at], fleet, run[1..])
  }

  /** However long the run, the spread is never over what it was, or one if it was even. */
  lemma {:induction false} GreedyRunStaysEven(owners: Owners, fleet: seq<Instance>, run: seq<Placed>, d: nat)
    requires GreedyRun(owners, fleet, run) && d >= 1 && Within(owners, fleet, d)
    ensures Within(AfterAll(owners, run), fleet, d)
    decreases |run|
  {
    if run != [] {
      var p := run[0];
      assert Within(owners, p.fleet, d);
      PlacingKeepsSpread(owners, p.h, p.at, p.fleet, p.counts, d);
      GreedyRunStaysEven(owners[p.h := p.at], fleet, run[1..], d);
    }
  }

  // ---------------------------------------------------------------- evening out

  ghost predicate NoneOver(owners: Owners, fleet: seq<Instance>, top: int) {
    forall i :: i in fleet ==> CountOf(owners, i.id) <= top
  }

  /** How many torrents the fleet is short of `top` on every instance. */
  function Shortfall(owners: Owners, fleet: seq<Instance>, top: int): nat {
    if fleet == [] then 0
    else
      var n := |fleet| - 1;
      var c := CountOf(owners, fleet[n].id);
      Shortfall(owners, fleet[..n], top) + if c < top then top - c else 0
  }

  lemma {:induction false} NoShortfall(owners: Owners, fleet: seq<Instance>, top: int)
    requires Shortfall(owners, fleet, top) == 0
    ensures forall i :: i in fleet ==> CountOf(owners, i.id) >= top
  {
    if fleet != [] { NoShortfall(owners, fleet[..|fleet| - 1], top); }
  }

  lemma {:induction false} SomeoneIsShort(owners: Owners, fleet: seq<Instance>, top: int) returns (i: Instance)
    requires Shortfall(owners, fleet, top) > 0
    ensures i in fleet && CountOf(owners, i.id) < top
  {
    i := fleet[|fleet| - 1];
    if CountOf(owners, i.id) >= top { i := SomeoneIsShort(owners, fleet[..|fleet| - 1], top); }
  }

  lemma {:induction false} ShortfallShrinks(owners: Owners, h: Hash, at: Instance, fleet: seq<Instance>, top: int)
    requires h !in owners
    ensures Shortfall(owners[h := at], fleet, top) <= Shortfall(owners, fleet, top)
    ensures at in fleet && CountOf(owners, at.id) < top ==>
              Shortfall(owners[h := at], fleet, top) < Shortfall(owners, fleet, top)
  {
    if fleet != [] {
      var n := |fleet| - 1;
      ShortfallShrinks(owners, h, at, fleet[..n], top);
      CountWith(owners, h, at, fleet[n].id);
      assert at in fleet ==> at in fleet[..n] || at == fleet[n];
    }
  }

  /** One placement in an uneven fleet: none goes over the top, and the shortfall shrinks. */
  lemma PlacingFills(owners: Owners, fleet: seq<Instance>, p: Placed, top: int)
    requires p.h !in owners && SameFleet(p.fleet, fleet)
    requires AreCounts(p.counts, owners) && HasFewest(p.at, p.fleet, p.counts)
    requires NoneOver(owners, fleet, top) && Shortfall(owners, fleet, top) > 0
    ensures NoneOver(owners[p.h := p.at], fleet, top)
    ensures Shortfall(owners[p.h := p.at], fleet, top) < Shortfall(owners, fleet, top)
  {
    var short := SomeoneIsShort(owners, fleet, top);
    FewestCount(p.at, short, p.fleet, p.counts, owners);
    ShortfallShrinks(owners, p.h, p.at, fleet, top);
    forall i | i in fleet ensures CountOf(owners[p.h := p.at], i.id) <= top { CountWith(owners, p.h, p.at, i.id); }
  }

  /** However uneven a fleet was, once as many new torrents have been placed as it was short of
      its fullest instance, no instance owns over one torrent more than another. */
  lemma {:induction false} GreedyRunEvensOut(owners: Owners, fleet: seq<Instance>, run: seq<Placed>, top: int)
    requires GreedyRun(owners, fleet, run) && NoneOver(owners, fleet, top)
    requires |run| >= Shortfall(owners, fleet, top)
    ensures Within(AfterAll(owners, run), fleet, 1)
    decreases |run|
  {
    if Shortfall(owners, fleet, top) == 0 {
      NoShortfall(owners, fleet, top);
      GreedyRunStaysEven(owners, fleet, run, 1);
    } else {
      var p := run[0];
      PlacingFills(owners, fleet, p, top);
      GreedyRunEvensOut(owners[p.h := p.at], fleet, run[1..], top);
    }
  }
}
