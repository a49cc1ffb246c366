/** The first balancer: a rotation that skips back ends which are down. */
module RoundRobins {

  /** How many of the cursor positions from..to fall on back end i, going round a ring of n. */
  function Visits(from: nat, end: nat, i: nat, n: nat): nat
    requires i < n
    decreases end
  {
    if end <= from then 0 else Visits(from, end - 1, i, n) + (if (end - 1) % n == i then 1 else 0)
  }

  /** A stretch shorter than a round visits nobody twice. */
  lemma {:induction false} AtMostOnceARound(from: nat, end: nat, i: nat, n: nat)
    requires i < n && from <= end <= from + n
    ensures Visits(from, end, i, n) <= 1
    ensures Visits(from, end, i, n) == 1 <==> exists v :: from <= v < end && v % n == i
    decreases end
  {
    if from < end {
      AtMostOnceARound(from, end - 1, i, n);
      if (end - 1) % n == i {
        assert from <= end - 1 < end && (end - 1) % n == i;
        forall v | from <= v < end - 1
          ensures v % n != i
        {
          if v % n == i {
            SameSlot(v, end - 1, n);
          }
        }
      } else if v :| from <= v < end && v % n == i {
        assert from <= v < end - 1;
      }
    }
  }

  lemma SameSlot(v: nat, w: nat, n: nat)
    requires n > 0 && v < w < v + n
    ensures v % n != w % n
  {
    MultipleOfNone(w / n - v / n, n, w - v - (w % n - v % n));
  }

  /** A multiple of n strictly between 0 and n there is not, nor below. */
  lemma MultipleOfNone(d: int, n: nat, m: int)
    requires n > 0 && m == d * n
    ensures 0 < d ==> m >= n
    ensures d < 0 ==> m + n <= 0
    ensures d == 0 ==> m == 0
  {
    if 0 < d {
      assert (d - 1) * n >= 0;
    } else if d < 0 {
      assert (-d - 1) * n >= 0;
    }
  }

  lemma {:induction false} VisitsSplit(from: nat, mid: nat, end: nat, i: nat, n: nat)
    requires i < n && from <= mid <= end
    ensures Visits(from, end, i, n) == Visits(from, mid, i, n) + Visits(mid, end, i, n)
    decreases end
  {
    if mid < end {
      VisitsSplit(from, mid, end - 1, i, n);
    }
  }

  /** A whole round visits everybody once. */
  lemma RoundVisitsAll(from: nat, i: nat, n: nat)
    requires i < n
    ensures Visits(from, from + n, i, n) == 1
  {
    AtMostOnceARound(from, from + n, i, n);
    var r := from % n;
    var v := if i >= r then from + (i - r) else from + (n - r + i);
    SlotReached(from, i, n);
    assert from <= v < from + n && v % n == i;
  }

  lemma SlotReached(from: nat, i: nat, n: nat)
    requires i < n
    ensures var r := from % n;
            (if i >= r then from + (i - r) else from + (n - r + i)) % n == i
  {
    var q, r := from / n, from % n;
    assert from == q * n + r;
    if i >= r {
      Quotient(from + (i - r), q, i, n);
    } else {
      Quotient(from + (n - r + i), q + 1, i, n);
    }
  }

  lemma Quotient(v: nat, q: nat, i: nat, n: nat)
    requires i < n && v == q * n + i
    ensures v % n == i
  {
    var d, m := v / n - q, i - v % n;
    assert v == v / n * n + v % n;
    assert m == d * n by { Distribute(v / n, q, n); }
    MultipleOfNone(d, n, m);
  }

  lemma Distribute(a: int, b: int, n: int)
    ensures (a - b) * n == a * n - b * n
  {}

  /** Any stretch visits any two back ends equally often, give or take one. */
  lemma {:induction false} VisitsAreEven(from: nat, end: nat, i: nat, j: nat, n: nat)
    requires i < n && j < n && from <= end
    ensures -1 <= Visits(from, end, i, n) - Visits(from, end, j, n) <= 1
    decreases end - from
  {
    if end <= from + n {
      AtMostOnceARound(from, end, i, n);
      AtMostOnceARound(from, end, j, n);
    } else {
      VisitsSplit(from, from + n, end, i, n);
      VisitsSplit(from, from + n, end, j, n);
      RoundVisitsAll(from, i, n);
      RoundVisitsAll(from, j, n);
      VisitsAreEven(from + n, end, i, j, n);
    }
  }

  /** Every back end's count has grown by the visits it had, if it is up, and not at all if it is down. */
  ghost predicate Tallied(count: seq<nat>, base: seq<nat>, alive: seq<bool>, start: nat, position: nat) {
    && |count| == |base| == |alive|
    && forall i :: 0 <= i < |alive| ==>
         count[i] == base[i] + (if alive[i] then Visits(start, position, i, |alive|) else 0)
  }

  /** Passing one more slot, and counting it if its back end is up, keeps the tally. */
  lemma TallyAdvances(count: seq<nat>, base: seq<nat>, alive: seq<bool>, start: nat, position: nat, b: nat)
    requires Tallied(count, base, alive, start, position) && start <= position
    requires |alive| > 0 && b == Slot(position, |alive|)
    ensures Tallied(if alive[b] then count[b := count[b] + 1] else count, base, alive, start, position + 1)
  {}

  lemma FreshTally(count: seq<nat>, alive: seq<bool>, position: nat)
    requires |count| == |alive|
    ensures Tallied(count, count, alive, position, position)
  {}

  /** Whose turn it is at a position. */
  function Slot(position: nat, n: nat): (i: nat)
    requires n > 0
    ensures i < n
  {
    position % n
  }

  lemma SomeoneHasTheSlot(from: nat, k: nat, n: nat) returns (v: nat)
    requires k < n
    ensures from <= v < from + n && Slot(v, n) == k
  {
    SlotReached(from, k, n);
    var r := from % n;
    v := if k >= r then from + (k - r) else from + (n - r + k);
  }

  /** If a whole round met nobody who is up, nobody is. */
  lemma EverySlotIsPassed(alive: seq<bool>, from: nat)
    requires |alive| > 0 && forall v :: from <= v < from + |alive| ==> !alive[Slot(v, |alive|)]
    ensures forall k :: 0 <= k < |alive| ==> !alive[k]
  {
    hide Slot;
    forall k | 0 <= k < |alive|
      ensures !alive[k]
    {
      var v := SomeoneHasTheSlot(from, k, |alive|);
      assert !alive[Slot(v, |alive|)];
    }
  }

  lemma Small(r: nat, n: nat)
    requires r < n
    ensures (r + 1) % n == if r + 1 == n then 0 else r + 1
  {}

  lemma SuccessorSlot(position: nat, n: nat)
    requires n > 0
    ensures (Slot(position, n) + 1) % n == Slot(position + 1, n)
  {
    var q, r := position / n, position % n;
    assert position == q * n + r;
    Small(r, n);
    if r + 1 < n {
      Quotient(position + 1, q, r + 1, n);
    } else {
      assert (q + 1) * n == q * n + n;
      Quotient(position + 1, q + 1, 0, n);
    }
  }

  const CHECKS_TO_GO_DOWN: nat := 3

  class Balancer {
    const size: nat
    const alive: array<bool>
    const fails: array<nat>
    const count: array<nat>
    var current: nat

    /** Where the cursor stood when counting began, and where it is now, counted without going round. */
    ghost var start: nat
    ghost var position: nat
    ghost var base: seq<nat>

    /** Every position passed since was a pick of the back end there, unless it was down. */
    ghost predicate Valid()
      reads this, alive, fails, count
    {
      && alive.Length == size && fails.Length == size && count.Length == size
      && fails != count
      && start <= position
      && current == (if size == 0 then 0 else Slot(position, size))
      && Tallied(count[..], base, alive[..], start, position)
      && forall i :: 0 <= i < size ==> (alive[i] <==> fails[i] < CHECKS_TO_GO_DOWN)
    }

    constructor (size: nat)
      ensures Valid() && start == position && fresh(alive) && fresh(fails) && fresh(count) && this.size == size
    {
      this.size := size;
      alive := new bool[size](_ => true);
      fails := new nat[size](_ => 0);
      count := new nat[size](_ => 0);
      current := 0;
      start, position := 0, 0;
      base := seq(size, _ => 0);
    }

    /**
     A health check of back end i, or a refused connection to it. Three failures
     with no good check between take it down, one good check brings it back. When
     that changes who is up, the tally starts over.
     */
    method Check(i: nat, good: bool)
      requires Valid() && i < size
      modifies alive, fails, this`start, this`base
      ensures Valid()
      ensures fails[..] == old(fails[..])[i := if good then 0 else old(fails[i]) + 1]
      ensures forall k :: 0 <= k < size && k != i ==> alive[k] == old(alive[k])
      ensures alive[i] <==> good || old(fails[i]) + 1 < 3
      ensures if alive[i] == old(alive[i]) then start == old(start) && base == old(base)
              else start == position && base == count[..]
    {
      hide Tallied, Slot;
      ghost var before := alive[..];
      if good {
        fails[i] := 0;
        alive[i] := true;
      } else {
        fails[i] := fails[i] + 1;
        if fails[i] >= CHECKS_TO_GO_DOWN {
          alive[i] := false;
        }
      }
      assert alive[..] == before[i := alive[i]];
      if alive[i] != before[i] {
        start := position;
        base := count[..];
        FreshTally(count[..], alive[..], position);
      } else {
        assert alive[..] == before;
      }
    }

    /** The next live back end, or none if all are down. */
    method NextBackend() returns (picked: nat, found: bool)
      requires Valid()
      modifies this`current, this`position, count
      ensures Valid() && position >= old(position)
      ensures found <==> exists i :: 0 <= i < size && alive[i]
      ensures found ==> picked < size && alive[picked]
      ensures found ==> position > old(position) && picked == Slot(position - 1, size)
      ensures found ==> forall v :: old(position) <= v < position - 1 ==> !alive[Slot(v, size)]
      ensures found ==> count[..] == old(count[..])[picked := old(count[picked]) + 1]
      ensures !found ==> count[..] == old(count[..])
    {
      hide Tallied, Slot;
      if size == 0 {
        return 0, false;
      }
      ghost var from, up := position, alive[..];
      for i := 0 to size
        invariant position == from + i && current == Slot(position, size)
        invariant forall v :: from <= v < position ==> !up[Slot(v, size)]
        invariant Tallied(count[..], base, up, start, position)
        invariant count[..] == old(count[..])
      {
        var b := current;
        TallyAdvances(count[..], base, up, start, position, b);
        SuccessorSlot(position, size);
        current := (current + 1) % size;
        position := position + 1;
        if alive[b] {
          count[b] := count[b] + 1;
          return b, true;
        }
      }
      EverySlotIsPassed(up, from);
      picked, found := 0, false;
    }
  }

  function Growth(before: nat, after: nat): int {
    after - before
  }

  /** Each live back end has had its share to within one, and dead ones none. */
  ghost predicate Even(before: seq<nat>, after: seq<nat>, alive: seq<bool>) {
    && |before| == |after| == |alive|
    && (forall j :: 0 <= j < |alive| && !alive[j] ==> before[j] == after[j])
    && forall i, j :: 0 <= i < |alive| && 0 <= j < |alive| && alive[i] && alive[j] ==>
         -1 <= Growth(before[i], after[i]) - Growth(before[j], after[j]) <= 1
  }

  /** Shares are even between any two moments of one tally. */
  lemma SharesBetween(before: seq<nat>, after: seq<nat>, base: seq<nat>, alive: seq<bool>,
                      start: nat, from: nat, end: nat)
    requires Tallied(before, base, alive, start, from) && Tallied(after, base, alive, start, end)
    requires start <= from <= end
    ensures Even(before, after, alive)
  {
    forall i | 0 <= i < |alive|
      ensures Growth(before[i], after[i]) == if alive[i] then Visits(from, end, i, |alive|) else 0
    {
      VisitsSplit(start, from, end, i, |alive|);
    }
    forall i, j | 0 <= i < |alive| && 0 <= j < |alive| && alive[i] && alive[j]
      ensures -1 <= Growth(before[i], after[i]) - Growth(before[j], after[j]) <= 1
    {
      VisitsAreEven(from, end, i, j, |alive|);
    }
  }

  /** Over any run of picks, wherever it begins, with the same back ends up throughout, the shares are even. */
  twostate lemma SharesAreEven(b: Balancer)
    requires old(b.Valid()) && b.Valid() && b.alive[..] == old(b.alive[..])
    requires b.start == old(b.start) && b.base == old(b.base) && old(b.position) <= b.position
    ensures Even(old(b.count[..]), b.count[..], b.alive[..])
  {
    hide Tallied, Even;
    SharesBetween(old(b.count[..]), b.count[..], b.base, b.alive[..], b.start, old(b.position), b.position);
  }

  /** Any number of picks. */
  method PickMany(b: Balancer, n: nat)
    requires b.Valid()
    modifies b`current, b`position, b.count
    ensures b.Valid() && Even(old(b.count[..]), b.count[..], b.alive[..])
  {
    hide Tallied, Even;
    for k := 0 to n
      invariant b.Valid() && old(b.position) <= b.position
    {
      var picked, found := b.NextBackend();
    }
    SharesAreEven(b);
  }
}
