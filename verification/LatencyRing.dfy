/** The bounded ring of recent latencies, and the percentiles read from it. */
module LatencyRings {

  const RING_SIZE: nat := 200_000
  const MAX_INT32: int := 0x7fff_ffff

  /** A latency in microseconds as the ring stores it. */
  function Clamped(micros: nat): nat {
    if micros > MAX_INT32 then MAX_INT32 else micros
  }

  /** Anything a 32-bit signed integer can hold is kept as it is, and the rest is its largest value. */
  lemma ClampedFits(micros: nat)
    ensures Clamped(micros) <= 2_147_483_647
    ensures Clamped(micros) == micros <==> micros <= 2_147_483_647
    ensures micros > 2_147_483_647 ==> Clamped(micros) == 2_147_483_647
  {}

  function Recent(samples: seq<nat>, size: nat): seq<nat> {
    if |samples| <= size then samples else samples[|samples| - size..]
  }

  predicate Sorted(s: seq<nat>) {
    forall i, j :: 0 <= i < j < |s| ==> s[i] <= s[j]
  }

  function Insert(x: nat, s: seq<nat>): seq<nat> {
    if s == [] || x <= s[0] then [x] + s else [s[0]] + Insert(x, s[1..])
  }

  function Sort(s: seq<nat>): seq<nat> {
    if s == [] then [] else Insert(s[0], Sort(s[1..]))
  }

  lemma {:induction false} InsertIsThere(x: nat, s: seq<nat>)
    ensures multiset(Insert(x, s)) == multiset(s) + multiset{x}
  {
    if s != [] && x > s[0] {
      InsertIsThere(x, s[1..]);
      assert s == [s[0]] + s[1..];
    }
  }

  lemma {:induction false} InsertAtLeast(x: nat, s: seq<nat>, low: nat)
    requires low <= x && forall i :: 0 <= i < |s| ==> low <= s[i]
    ensures forall i :: 0 <= i < |Insert(x, s)| ==> low <= Insert(x, s)[i]
  {
    if s != [] && x > s[0] {
      InsertAtLeast(x, s[1..], low);
    }
  }

  lemma {:induction false} InsertSorts(x: nat, s: seq<nat>)
    requires Sorted(s)
    ensures Sorted(Insert(x, s))
  {
    if s != [] && x > s[0] {
      InsertSorts(x, s[1..]);
      InsertAtLeast(x, s[1..], s[0]);
    }
  }

  lemma {:induction false} SortSorts(s: seq<nat>)
    ensures Sorted(Sort(s)) && multiset(Sort(s)) == multiset(s) && |Sort(s)| == |s|
  {
    if s != [] {
      SortSorts(s[1..]);
      InsertSorts(s[0], Sort(s[1..]));
      InsertIsThere(s[0], Sort(s[1..]));
      assert s == [s[0]] + s[1..];
      assert |multiset(Sort(s))| == |multiset(s)|;
    }
  }

  /** The ring's slots in order of age, oldest first, are the recent samples. */
  ghost predicate Shows(samples: seq<nat>, slots: seq<nat>, next: nat, full: bool)
    requires next < |slots|
  {
    if full then |samples| >= |slots| && Recent(samples, |slots|) == slots[next..] + slots[..next]
    else samples == slots[..next]
  }

  lemma NothingShows(slots: seq<nat>)
    requires slots != []
    ensures Shows([], slots, 0, false)
  {}

  lemma Overwrites(samples: seq<nat>, slots: seq<nat>, next: nat, sample: nat, full: bool)
    requires next < |slots| && Shows(samples, slots, next, full)
    ensures var n := |slots|;
            if next + 1 == n then Shows(samples + [sample], slots[next := sample], 0, true)
            else Shows(samples + [sample], slots[next := sample], next + 1, full)
  {
    var n, after, longer := |slots|, slots[next := sample], samples + [sample];
    assert after[..next + 1] == slots[..next] + [sample];
    if full {
      OldestGoes(samples, slots, next, sample);
    }
    if next + 1 == n {
      assert after[n..] == [] && after[..n] == after;
      assert after[0..] + after[..0] == after;
    }
  }

  lemma OldestGoes(samples: seq<nat>, slots: seq<nat>, next: nat, sample: nat)
    requires next < |slots| <= |samples| && Recent(samples, |slots|) == slots[next..] + slots[..next]
    ensures var after := slots[next := sample];
            Recent(samples + [sample], |slots|) == after[next + 1..] + after[..next + 1]
  {
    var n, after := |slots|, slots[next := sample];
    assert Recent(samples + [sample], n) == Recent(samples, n)[1..] + [sample];
    assert slots[next..] == [slots[next]] + slots[next + 1..];
    assert Recent(samples, n)[1..] == slots[next + 1..] + slots[..next];
    assert after[next + 1..] == slots[next + 1..] && after[..next + 1] == slots[..next] + [sample];
  }

  class LatencyRing {
    const size: nat
    var values: array?<nat>
    var next: nat
    var full: bool

    /** The clamped samples added since the last reset. */
    ghost var samples: seq<nat>

    ghost predicate Valid()
      reads this, values
    {
      && size > 0
      && next < size
      && (values == null ==> samples == [] && next == 0 && !full)
      && (values != null ==> values.Length == size)
      && (values != null ==> Shows(samples, values[..], next, full))
    }

    constructor ()
      ensures Valid() && samples == [] && size == 200_000
    {
      size := RING_SIZE;
      values, next, full := null, 0, false;
      samples := [];
    }

    method Add(micros: nat)
      requires Valid()
      modifies this, values
      ensures Valid() && samples == old(samples) + [Clamped(micros)]
      ensures values == old(values) || fresh(values)
    {
      hide Shows;
      var sample: nat := if micros > MAX_INT32 then MAX_INT32 else micros;
      if values == null {
        values := new nat[size];
        NothingShows(values[..]);
      }
      ghost var before := values[..];
      values[next] := sample;
      assert values[..] == before[next := sample];
      Overwrites(samples, before, next, sample, full);
      next := next + 1;
      if next == size {
        next := 0;
        full := true;
      }
      samples := samples + [sample];
    }

    /** The last `size` samples, in increasing order. */
    method SortedSamples() returns (out: seq<nat>)
      requires Valid()
      ensures Sorted(out)
      ensures multiset(out) == multiset(Recent(samples, size))
      ensures |out| == if |samples| < size then |samples| else size
    {
      var count := if full then size else next;
      var copied: seq<nat> := if values == null then [] else values[..count];
      if full {
        assert values[..size] == values[..next] + values[next..];
        assert multiset(copied) == multiset(values[..next]) + multiset(values[next..]);
      } else if values != null {
        assert copied == samples == Recent(samples, size);
      }
      SortSorts(copied);
      out := Sort(copied);
    }

    method Reset()
      requires Valid()
      modifies this`next, this`full, this`samples
      ensures Valid() && samples == []
    {
      next, full := 0, false;
      samples := [];
      assert values != null ==> values[..0] == [];
    }
  }

  // --------------------------------------------------------------- Percentiles

  /** int(p / 100 * n) for a p of [0, 100], cut to the last index. */
  function Rank(p: real, n: nat): (index: nat)
    requires 0.0 <= p <= 100.0 && n > 0
    ensures index < n
    ensures index as real <= p / 100.0 * n as real
    ensures index < n - 1 ==> p / 100.0 * n as real < index as real + 1.0
  {
    var exact := p / 100.0 * n as real;
    assert exact >= 0.0;
    var index := exact.Floor;
    if index >= n then n - 1 else index
  }

  /** In milliseconds. */
  function Percentile(sorted: seq<nat>, p: real): real
    requires 0.0 <= p <= 100.0
  {
    if |sorted| == 0 then 0.0 else sorted[Rank(p, |sorted|)] as real / 1000.0
  }

  function CountBelow(s: seq<nat>, x: nat): nat {
    if s == [] then 0 else (if s[0] < x then 1 else 0) + CountBelow(s[1..], x)
  }

  function CountAbove(s: seq<nat>, x: nat): nat {
    if s == [] then 0 else (if s[0] > x then 1 else 0) + CountAbove(s[1..], x)
  }

  lemma {:induction false} BelowAtMost(s: seq<nat>, k: nat, x: nat)
    requires k <= |s| && forall i :: k <= i < |s| ==> s[i] >= x
    ensures CountBelow(s, x) <= k
  {
    if s != [] {
      BelowAtMost(s[1..], if k > 0 then k - 1 else 0, x);
    }
  }

  lemma {:induction false} AboveAtMost(s: seq<nat>, k: nat, x: nat)
    requires k <= |s| && forall i :: 0 <= i < k ==> s[i] <= x
    ensures CountAbove(s, x) <= |s| - k
  {
    if s != [] {
      AboveAtMost(s[1..], if k > 0 then k - 1 else 0, x);
    }
  }

  /** Equal contents still are when the same sample is taken out of both. */
  lemma WithoutTheFirst(s: seq<nat>, t: seq<nat>) returns (k: nat)
    requires multiset(s) == multiset(t) && s != []
    ensures k < |t| && t[k] == s[0]
    ensures multiset(s[1..]) == multiset(t[..k] + t[k + 1..])
  {
    assert s[0] in multiset(s);
    k := PlaceOf(t, s[0]);
    RemoveOne(t, k);
    TailOf(s);
  }

  lemma TailOf(s: seq<nat>)
    requires s != []
    ensures multiset(s[1..]) == multiset(s) - multiset{s[0]}
  {
    RemoveOne(s, 0);
    assert s[..0] + s[1..] == s[1..];
  }

  lemma PlaceOf(t: seq<nat>, x: nat) returns (k: nat)
    requires x in multiset(t)
    ensures k < |t| && t[k] == x
  {
    k :| 0 <= k < |t| && t[k] == x;
  }

  lemma {:induction false} CountsArePermuted(s: seq<nat>, t: seq<nat>, x: nat)
    requires multiset(s) == multiset(t)
    ensures CountBelow(s, x) == CountBelow(t, x) && CountAbove(s, x) == CountAbove(t, x)
    decreases |s|
  {
    if s == [] {
      assert |multiset(t)| == 0;
    } else {
      hide CountBelow, CountAbove;
      var k := WithoutTheFirst(s, t);
      CountsArePermuted(s[1..], t[..k] + t[k + 1..], x);
      CountsOfOneLess(t, k, x);
      CountsOfOneLess(s, 0, x);
      assert s[..0] + s[1..] == s[1..];
    }
  }

  lemma CountsOfOneLess(t: seq<nat>, k: nat, x: nat)
    requires k < |t|
    ensures CountBelow(t, x) == CountBelow(t[..k] + t[k + 1..], x) + (if t[k] < x then 1 else 0)
    ensures CountAbove(t, x) == CountAbove(t[..k] + t[k + 1..], x) + (if t[k] > x then 1 else 0)
  {
    var front, back := t[..k], t[k + 1..];
    CountsSplit(front, [t[k]] + back, x);
    CountsSplit(front, back, x);
    assert front + ([t[k]] + back) == t;
    assert ([t[k]] + back)[1..] == back;
  }

  lemma RemoveOne(t: seq<nat>, k: nat)
    requires k < |t|
    ensures multiset(t[..k] + t[k + 1..]) == multiset(t) - multiset{t[k]}
  {
    var front, back := t[..k], t[k + 1..];
    assert t == front + ([t[k]] + back);
    assert multiset(t) == multiset(front) + (multiset{t[k]} + multiset(back));
  }

  lemma {:induction false} CountsSplit(a: seq<nat>, b: seq<nat>, x: nat)
    ensures CountBelow(a + b, x) == CountBelow(a, x) + CountBelow(b, x)
    ensures CountAbove(a + b, x) == CountAbove(a, x) + CountAbove(b, x)
  {
    if a == [] {
      assert a + b == b;
    } else {
      assert (a + b)[0] == a[0] && (a + b)[1..] == a[1..] + b;
      CountsSplit(a[1..], b, x);
    }
  }

  /**
   The percentile is one of the recent samples, with at most its rank of them
   below it and at most the others above it.
   */
  lemma PercentileIsTheOrderStatistic(recent: seq<nat>, sorted: seq<nat>, p: real)
    requires 0.0 <= p <= 100.0 && recent != []
    requires Sorted(sorted) && multiset(sorted) == multiset(recent)
    ensures |sorted| == |recent|
    ensures var k := Rank(p, |recent|);
            var x := sorted[k];
            && Percentile(sorted, p) == x as real / 1000.0
            && x in recent
            && CountBelow(recent, x) <= k
            && CountAbove(recent, x) <= |recent| - k - 1
  {
    assert |multiset(sorted)| == |multiset(recent)|;
    var k := Rank(p, |recent|);
    var x := sorted[k];
    assert x in multiset(sorted);
    BelowAtMost(sorted, k, x);
    AboveAtMost(sorted, k + 1, x);
    CountsArePermuted(sorted, recent, x);
  }

  /** Rising percentiles never fall. */
  lemma PercentilesIncrease(sorted: seq<nat>, p: real, q: real)
    requires 0.0 <= p <= q <= 100.0 && Sorted(sorted)
    ensures Percentile(sorted, p) <= Percentile(sorted, q)
  {
    if sorted != [] {
      var n := |sorted| as real;
      assert (q - p) / 100.0 * n >= 0.0;
      assert p / 100.0 * n <= q / 100.0 * n;
    }
  }
}
