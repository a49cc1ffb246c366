/** The choice of a back end for one request: who is considered, who is set aside, and how the rest share. */
module Selection {
  import opened Collections
  import opened Health
  import RoundRobins

  const MAX_BACKENDS: nat := 16
  const TWO64: nat := 0x1_0000_0000_0000_0000
  const MIN_WEIGHT := 0.02
  const INFLIGHT_SHARE := 0.25
  const INFLIGHT_REFERENCE := 96.0

  datatype Policy = Performance | RoundRobin | LeastLoad

  /** A back end as one pick sees it. */
  datatype Candidate = Candidate(id: int, alive: bool, overloaded: bool, score: real, inflight: int)

  const NOBODY := Candidate(-1, false, false, 0.0, 0)

  function InstantScore(c: Candidate): real {
    (1.0 - INFLIGHT_SHARE) * c.score + INFLIGHT_SHARE * Clamp01(c.inflight as real / INFLIGHT_REFERENCE)
  }

  predicate Eligible(c: Candidate, exclude: int) {
    c.id != exclude && c.alive
  }

  /** The eligible back ends in order, as many as there is room for. */
  function Considered(all: seq<Candidate>, exclude: int): seq<Candidate> {
    if all == [] then []
    else
      var before, last := Considered(all[..|all| - 1], exclude), all[|all| - 1];
      if Eligible(last, exclude) && |before| < MAX_BACKENDS then before + [last] else before
  }

  /** Those not set aside; only the performance policy sets anybody aside. */
  function Pool(considered: seq<Candidate>, policy: Policy): seq<Candidate> {
    if considered == [] then []
    else
      var before, last := Pool(considered[..|considered| - 1], policy), considered[|considered| - 1];
      if !last.overloaded || policy != Performance then before + [last] else before
  }

  function Weight(c: Candidate, threshold: real): (w: real)
    ensures w >= MIN_WEIGHT
  {
    var headroom := threshold - InstantScore(c);
    if headroom < MIN_WEIGHT then MIN_WEIGHT else headroom
  }

  /** The weight of the first n. */
  function Sum(weights: seq<real>, n: nat): real
    requires n <= |weights|
  {
    if n == 0 then 0.0 else Sum(weights, n - 1) + weights[n - 1]
  }

  /** A random number of [0, 1) scaled to [0, total). */
  function Point(u: real, total: real): real {
    u * total
  }

  /** The first of those with the least load. */
  predicate Least(c: Candidate, among: seq<Candidate>) {
    exists i :: 0 <= i < |among| && among[i] == c && Earliest(i, among)
  }

  predicate Earliest(i: nat, among: seq<Candidate>)
    requires i < |among|
  {
    forall j :: 0 <= j < |among| ==>
      if j < i then InstantScore(among[i]) < InstantScore(among[j])
      else InstantScore(among[i]) <= InstantScore(among[j])
  }

  function Weights(pool: seq<Candidate>, threshold: real): (r: seq<real>)
    ensures |r| == |pool|
    ensures forall i :: 0 <= i < |r| ==> r[i] >= MIN_WEIGHT
  {
    seq(|pool|, i requires 0 <= i < |pool| => Weight(pool[i], threshold))
  }

  /** Whether a point of [0, total) falls into the interval of the i-th member. */
  predicate Falls(weights: seq<real>, point: real, i: nat)
    requires i < |weights|
  {
    (i == 0 || Sum(weights, i) < point) && point <= Sum(weights, i + 1)
  }

  /** What a pick must come to, given the pool and, for the weighted walk, the random point drawn. */
  ghost predicate Right(choice: Option<Candidate>, all: seq<Candidate>, exclude: int, policy: Policy,
                        threshold: real, turn: nat, u: real)
  {
    var considered := Considered(all, exclude);
    var pool := Pool(considered, policy);
    if considered == [] then choice.None?
    else
      choice.Some? &&
      if pool == [] then Least(choice.value, considered)
      else if |pool| == 1 then choice.value == pool[0]
      else
        match policy
        case RoundRobin => choice.value == pool[turn % |pool|]
        case LeastLoad => Least(choice.value, pool)
        case Performance =>
          var weights := Weights(pool, threshold);
          exists i :: 0 <= i < |pool| && Falls(weights, Point(u, Sum(weights, |pool|)), i) && choice.value == pool[i]
  }

  // ---------------------------------------------------------------- The method

  method LeastOf(a: array<Candidate>, n: nat) returns (best: Candidate)
    requires 0 < n <= a.Length
    ensures Least(best, a[..n])
  {
    best := a[0];
    var bestScore := InstantScore(best);
    ghost var at := 0;
    for i := 1 to n
      invariant 0 <= at < i && best == a[at] && bestScore == InstantScore(best)
      invariant forall j :: 0 <= j < at ==> bestScore < InstantScore(a[j])
      invariant forall j :: at <= j < i ==> bestScore <= InstantScore(a[j])
    {
      var score := InstantScore(a[i]);
      if score < bestScore {
        best, bestScore, at := a[i], score, i;
      }
    }
    assert Earliest(at, a[..n]);
  }

  lemma NobodyYet(exclude: int, policy: Policy)
    ensures Considered([], exclude) == [] && Pool([], policy) == []
  {}

  lemma ConsideredNext(all: seq<Candidate>, i: nat, exclude: int)
    requires i < |all|
    ensures Considered(all[..i + 1], exclude)
            == if all[i].id != exclude && all[i].alive && |Considered(all[..i], exclude)| < MAX_BACKENDS
               then Considered(all[..i], exclude) + [all[i]] else Considered(all[..i], exclude)
  {
    assert all[..i + 1][..i] == all[..i];
  }

  lemma PoolSnoc(before: seq<Candidate>, b: Candidate, policy: Policy)
    ensures Pool(before + [b], policy)
            == if !b.overloaded || policy != Performance then Pool(before, policy) + [b] else Pool(before, policy)
  {
    assert (before + [b])[..|before|] == before;
  }

  /** Sorts the back ends into the pool and the fallback. */
  method Gather(all: seq<Candidate>, exclude: int, policy: Policy, pool: array<Candidate>, fallback: array<Candidate>)
    returns (poolCount: nat, fallbackCount: nat)
    requires pool != fallback && pool.Length == fallback.Length == MAX_BACKENDS
    modifies pool, fallback
    ensures poolCount <= MAX_BACKENDS && pool[..poolCount] == Pool(Considered(all, exclude), policy)
    ensures fallbackCount <= MAX_BACKENDS && fallback[..fallbackCount] == Considered(all, exclude)
  {
    hide Considered, Pool;
    poolCount, fallbackCount := 0, 0;
    assert all[..0] == [];
    NobodyYet(exclude, policy);

    for i := 0 to |all|
      invariant poolCount <= fallbackCount <= MAX_BACKENDS
      invariant fallback[..fallbackCount] == Considered(all[..i], exclude)
      invariant pool[..poolCount] == Pool(Considered(all[..i], exclude), policy)
    {
      var b := all[i];
      ConsideredNext(all, i, exclude);
      if b.id == exclude || !b.alive || fallbackCount >= MAX_BACKENDS {
        continue;
      }
      PoolSnoc(Considered(all[..i], exclude), b, policy);
      fallback[fallbackCount] := b;
      fallbackCount := fallbackCount + 1;
      if !b.overloaded || policy != Performance {
        pool[poolCount] := b;
        poolCount := poolCount + 1;
      }
    }
    assert all[..|all|] == all;
  }

  /** `counter` is the shared round-robin counter before the pick, `u` a random number of [0, 1). */
  method Pick(all: seq<Candidate>, exclude: int, policy: Policy, threshold: real, counter: nat, u: real)
    returns (choice: Option<Candidate>, counter': nat)
    requires 0.0 <= u < 1.0
    ensures Right(choice, all, exclude, policy, threshold, counter', u)
    ensures counter' == if policy == RoundRobin && |Pool(Considered(all, exclude), policy)| > 1
                        then (counter + 1) % TWO64 else counter
  {
    hide Considered, Pool, Falls, Least;
    counter' := counter;
    var pool := new Candidate[MAX_BACKENDS](_ => NOBODY);
    var fallback := new Candidate[MAX_BACKENDS](_ => NOBODY);
    var poolCount, fallbackCount := Gather(all, exclude, policy, pool, fallback);
    PoolMembers(Considered(all, exclude), policy);
    assert poolCount > 0 ==> pool[..poolCount][0] in Considered(all, exclude);

    if poolCount == 0 {
      if fallbackCount == 0 {
        return None, counter';
      }
      var best := LeastOf(fallback, fallbackCount);
      return Some(best), counter';
    }
    if poolCount == 1 {
      return Some(pool[0]), counter';
    }
    match policy {
      case RoundRobin =>
        counter' := (counter + 1) % TWO64;
        return Some(pool[counter' % poolCount]), counter';
      case LeastLoad =>
        var best := LeastOf(pool, poolCount);
        return Some(best), counter';
      case Performance =>
        var k := Walk(pool, poolCount, threshold, u);
        ghost var members := pool[..poolCount];
        assert members == Pool(Considered(all, exclude), policy) && members[k] == pool[k];
        assert Falls(Weights(members, threshold), Point(u, Sum(Weights(members, threshold), |members|)), k);
        return Some(pool[k]), counter';
    }
  }

  method Headrooms(pool: array<Candidate>, n: nat, threshold: real) returns (weights: array<real>, total: real)
    requires n <= pool.Length && n <= MAX_BACKENDS
    ensures weights.Length == MAX_BACKENDS && weights[..n] == Weights(pool[..n], threshold)
    ensures total == Sum(Weights(pool[..n], threshold), n)
  {
    ghost var spec := Weights(pool[..n], threshold);
    weights := new real[MAX_BACKENDS](_ => 0.0);
    total := 0.0;
    for i := 0 to n
      invariant forall j :: 0 <= j < i ==> weights[j] == spec[j]
      invariant total == Sum(spec, i)
    {
      var headroom := threshold - InstantScore(pool[i]);
      if headroom < MIN_WEIGHT {
        headroom := MIN_WEIGHT;
      }
      weights[i] := headroom;
      total := total + headroom;
    }
  }

  /** Walks the weights until the random point is used up. */
  method Walk(pool: array<Candidate>, n: nat, threshold: real, u: real) returns (k: nat)
    requires 0 < n <= pool.Length && n <= MAX_BACKENDS && 0.0 <= u < 1.0
    ensures k < n
    ensures Falls(Weights(pool[..n], threshold), Point(u, Sum(Weights(pool[..n], threshold), n)), k)
  {
    var weights, total := Headrooms(pool, n, threshold);
    ghost var spec := Weights(pool[..n], threshold);
    hide Weights, InstantScore, Weight;
    TotalIsPositive(spec, n);
    PointIsInside(u, total);
    var point := Point(u, total);
    ghost var drawn := point;
    for i := 0 to n
      invariant point == drawn - Sum(spec, i)
      invariant i == 0 || point > 0.0
    {
      assert weights[i] == weights[..n][i];
      assert Sum(spec, i + 1) == Sum(spec, i) + spec[i];
      point := point - weights[i];
      if point <= 0.0 {
        assert Falls(spec, drawn, i);
        return i;
      }
    }
    assert false;
  }

  lemma PointIsInside(u: real, total: real)
    requires 0.0 <= u < 1.0 && total > 0.0
    ensures 0.0 <= Point(u, total) < total
  {
    assert (1.0 - u) * total > 0.0;
  }

  lemma {:induction false} TotalIsPositive(weights: seq<real>, n: nat)
    requires n <= |weights| && forall i :: 0 <= i < |weights| ==> weights[i] >= MIN_WEIGHT
    ensures Sum(weights, n) >= 0.0 && (n > 0 ==> Sum(weights, n) >= MIN_WEIGHT)
  {
    if n > 0 {
      TotalIsPositive(weights, n - 1);
    }
  }

  // -------------------------------------------------------------- What it means

  /** The load of a pick in units of a request in flight: 288 for a full score, and one for each request up to 96. */
  function Load(score: real, inflight: int): real {
    288.0 * score + (if inflight < 0 then 0 else if inflight > 96 then 96 else inflight) as real
  }

  /** Three quarters of the load is the score and one quarter the requests in flight. */
  lemma InstantScoreIsLoad(c: Candidate, threshold: real)
    ensures 384.0 * InstantScore(c) == Load(c.score, c.inflight)
    ensures 384.0 * Weight(c, threshold)
            == if 384.0 * threshold - Load(c.score, c.inflight) < 7.68 then 7.68
               else 384.0 * threshold - Load(c.score, c.inflight)
  {}

  /** So one back end counts as less loaded than another exactly when its lead in score outweighs its requests. */
  lemma LeastLoadIsLeast(a: Candidate, b: Candidate)
    ensures InstantScore(a) <= InstantScore(b) <==> Load(a.score, a.inflight) <= Load(b.score, b.inflight)
    ensures 0 <= a.inflight <= 96 && 0 <= b.inflight <= 96 ==>
              (InstantScore(a) <= InstantScore(b) <==> 288.0 * (a.score - b.score) <= (b.inflight - a.inflight) as real)
  {
    InstantScoreIsLoad(a, 0.0);
    InstantScoreIsLoad(b, 0.0);
  }

  /** Unless there are sixteen of them, every eligible back end is considered, and always the first ones. */
  lemma {:induction false} EveryoneIsConsidered(all: seq<Candidate>, exclude: int, n: nat)
    requires n <= |all|
    ensures |Considered(all, exclude)| < 16 ==>
              forall c :: c in all && c.id != exclude && c.alive ==> c in Considered(all, exclude)
    ensures Considered(all[..n], exclude) <= Considered(all, exclude)
  {
    if n < |all| {
      var before, last := all[..|all| - 1], all[|all| - 1];
      EveryoneIsConsidered(before, exclude, n);
      assert all == before + [last] && before[..n] == all[..n];
    } else {
      assert all[..n] == all;
      if all != [] {
        var before, last := all[..|all| - 1], all[|all| - 1];
        EveryoneIsConsidered(before, exclude, |before|);
        assert all == before + [last];
      }
    }
  }

  /** The rotation gives each member of the pool its turn in any |pool| turns. */
  lemma RotationReachesEveryone(all: seq<Candidate>, exclude: int, threshold: real, u: real, turn: nat, i: nat)
    returns (next: nat)
    requires i < |Pool(Considered(all, exclude), RoundRobin)| && |Pool(Considered(all, exclude), RoundRobin)| > 1
    ensures turn <= next < turn + |Pool(Considered(all, exclude), RoundRobin)|
    ensures forall choice :: Right(choice, all, exclude, RoundRobin, threshold, next, u) <==>
              choice == Some(Pool(Considered(all, exclude), RoundRobin)[i])
  {
    hide Considered, Pool;
    var pool := Pool(Considered(all, exclude), RoundRobin);
    PoolMembers(Considered(all, exclude), RoundRobin);
    assert pool[i] in Considered(all, exclude);
    RoundRobins.SlotReached(turn, i, |pool|);
    var r := turn % |pool|;
    next := if i >= r then turn + (i - r) else turn + (|pool| - r + i);
  }

  lemma {:induction false} ConsideredAreEligible(all: seq<Candidate>, exclude: int)
    ensures forall c :: c in Considered(all, exclude) ==> c in all && Eligible(c, exclude)
    ensures |Considered(all, exclude)| <= MAX_BACKENDS
    ensures Considered(all, exclude) == [] <==> forall c :: c in all ==> !Eligible(c, exclude)
  {
    if all != [] {
      var before, last := all[..|all| - 1], all[|all| - 1];
      ConsideredAreEligible(before, exclude);
      assert all == before + [last];
    }
  }

  lemma {:induction false} PoolMembers(considered: seq<Candidate>, policy: Policy)
    ensures forall c :: c in Pool(considered, policy) <==> c in considered && (!c.overloaded || policy != Performance)
  {
    if considered != [] {
      var before, last := considered[..|considered| - 1], considered[|considered| - 1];
      PoolMembers(before, policy);
      assert considered == before + [last];
    }
  }

  /** Nobody is picked exactly when nobody eligible is up. */
  lemma NobodyOnlyIfNobodyIsUp(choice: Option<Candidate>, all: seq<Candidate>, exclude: int, policy: Policy,
                               threshold: real, turn: nat, u: real)
    requires Right(choice, all, exclude, policy, threshold, turn, u)
    ensures choice.None? <==> forall c :: c in all ==> !Eligible(c, exclude)
    ensures choice.Some? ==> choice.value in all && Eligible(choice.value, exclude)
  {
    hide Falls;
    ConsideredAreEligible(all, exclude);
    PoolMembers(Considered(all, exclude), policy);
    var pool := Pool(Considered(all, exclude), policy);
    assert forall i :: 0 <= i < |pool| ==> pool[i] in pool;
  }

  /**
   Under the performance policy an overloaded back end is picked only when every
   back end considered is overloaded, and then it is one with the least load.
   */
  lemma OverloadedOnlyAsALastResort(choice: Option<Candidate>, all: seq<Candidate>, exclude: int,
                                    threshold: real, turn: nat, u: real)
    requires Right(choice, all, exclude, Performance, threshold, turn, u) && choice.Some?
    ensures var considered := Considered(all, exclude);
            choice.value.overloaded <==> forall c :: c in considered ==> c.overloaded
    ensures choice.value.overloaded ==> Least(choice.value, Considered(all, exclude))
  {
    hide Falls, Least;
    ConsideredAreEligible(all, exclude);
    var considered := Considered(all, exclude);
    var pool := Pool(considered, Performance);
    PoolMembers(considered, Performance);
    assert forall i :: 0 <= i < |pool| ==> pool[i] in pool;
    if pool == [] {
      assert choice.value in considered by { LeastIsMember(choice.value, considered); }
      assert forall c :: c in considered ==> c.overloaded;
    }
  }

  lemma LeastIsMember(c: Candidate, among: seq<Candidate>)
    requires Least(c, among)
    ensures c in among
  {}

  lemma {:induction false} SumsIncrease(weights: seq<real>, i: nat, j: nat)
    requires i <= j <= |weights| && forall k :: 0 <= k < |weights| ==> weights[k] >= MIN_WEIGHT
    ensures i < j ==> Sum(weights, i) < Sum(weights, j)
    decreases j
  {
    if i < j {
      SumsIncrease(weights, i, j - 1);
    }
  }

  lemma {:induction false} PointFalls(weights: seq<real>, point: real, n: nat) returns (i: nat)
    requires 0 < n <= |weights| && point <= Sum(weights, n)
    ensures i < n && Falls(weights, point, i)
  {
    if n == 1 || Sum(weights, n - 1) < point {
      i := n - 1;
    } else {
      i := PointFalls(weights, point, n - 1);
    }
  }

  /** The intervals of the walk are disjoint, as wide as the weights, and cover everything that can be drawn. */
  lemma ShareIsWeight(weights: seq<real>, i: nat, j: nat, point: real)
    requires i < |weights| && j < |weights| && forall k :: 0 <= k < |weights| ==> weights[k] >= MIN_WEIGHT
    ensures Falls(weights, point, i) && Falls(weights, point, j) ==> i == j
    ensures Sum(weights, i + 1) - Sum(weights, i) == weights[i]
    ensures point <= Sum(weights, |weights|) ==> exists k :: 0 <= k < |weights| && Falls(weights, point, k)
  {
    if point <= Sum(weights, |weights|) {
      var k := PointFalls(weights, point, |weights|);
    }
    if i < j {
      SumsIncrease(weights, i + 1, j);
    } else if j < i {
      SumsIncrease(weights, j + 1, i);
    }
  }

  /** The random number u makes the walk stop at the i-th member. */
  predicate Draws(weights: seq<real>, u: real, i: nat)
    requires i < |weights|
  {
    0.0 <= u < 1.0 && Falls(weights, Point(u, Sum(weights, |weights|)), i)
  }

  /** Every member of the pool is drawn by some random number. */
  lemma EveryoneIsReachable(weights: seq<real>, i: nat)
    requires i < |weights| && forall k :: 0 <= k < |weights| ==> weights[k] >= MIN_WEIGHT
    ensures exists u: real :: Draws(weights, u, i)
  {
    var total := Sum(weights, |weights|);
    TotalIsPositive(weights, |weights|);
    TotalIsPositive(weights, i);
    SumsIncrease(weights, i + 1, |weights|);
    var point := Sum(weights, i) + weights[i] / 2.0;
    var u := point / total;
    assert u * total == point;
    FractionIsSmall(point, total);
    assert Draws(weights, u, i);
  }

  /** With this random number the performance policy can pick c and nobody else. */
  ghost predicate Forces(u: real, all: seq<Candidate>, exclude: int, threshold: real, c: Candidate) {
    0.0 <= u < 1.0 &&
    forall choice, turn: nat ::
      Right(choice, all, exclude, Performance, threshold, turn, u) <==> choice == Some(c)
  }

  /** Every member of the pool is the pick of the performance policy for some random number. */
  lemma EveryMemberIsPicked(all: seq<Candidate>, exclude: int, threshold: real, i: nat)
    requires i < |Pool(Considered(all, exclude), Performance)|
    ensures exists u: real :: Forces(u, all, exclude, threshold, Pool(Considered(all, exclude), Performance)[i])
  {
    hide Considered, Pool, Falls, Sum, Weights;
    var considered := Considered(all, exclude);
    var pool := Pool(considered, Performance);
    PoolMembers(considered, Performance);
    assert pool[i] in considered;
    var weights := Weights(pool, threshold);
    EveryoneIsReachable(weights, i);
    var u: real :| Draws(weights, u, i);
    forall j | 0 <= j < |pool| && Falls(weights, Point(u, Sum(weights, |weights|)), j)
      ensures j == i
    {
      ShareIsWeight(weights, i, j, Point(u, Sum(weights, |weights|)));
    }
    assert Forces(u, all, exclude, threshold, pool[i]);
  }

  lemma FractionIsSmall(point: real, total: real)
    requires 0.0 <= point < total
    ensures 0.0 <= point / total < 1.0
  {}
}
