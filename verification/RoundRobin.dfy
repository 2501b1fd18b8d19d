/**
 The arithmetic of round-robin picking (internal/core/local_runtime/load_balancing.go): a 64-bit counter that wraps
 around, taken modulo the number of instances.
 */
module RoundRobin {
  import opened Wrappers

  /** The number of values of the counter. */
  const W := 0x1_0000_0000_0000_0000

  /** The counter after i more picks. */
  function Counter(b: nat, i: nat): (c: nat)
    ensures c < W
  {
    (b + i) % W
  }

  /** The counter after one more pick. */
  function Advance(c: nat): (next: nat)
    ensures next < W
  {
    (c + 1) % W
  }

  /** The instance a counter value points at. */
  function At(c: nat, n: nat): (slot: nat)
    requires n > 0
    ensures slot < n
  {
    c % n
  }

  /** The slot of the i-th pick after the counter stood at b. */
  function Slot(b: nat, i: nat, n: nat): nat
    requires n > 0
  {
    At(Counter(b, i), n)
  }

  /** How many of the next m picks go to slot s. */
  function Times(b: nat, m: nat, n: nat, s: nat): nat
    requires n > 0
  {
    if m == 0 then 0 else Times(b, m - 1, n, s) + (if Slot(b, m, n) == s then 1 else 0)
  }

  /** The next m picks take the counter nowhere past its last value, or wrapping is invisible modulo n. */
  predicate NoSeam(b: nat, m: nat, n: nat)
    requires n > 0
  {
    b + m < W || W % n == 0
  }

  // ------------------------------------------------------------- division facts

  lemma {:induction false} DivStep(x: int, n: int)
    requires n > 0
    ensures (x + 1) / n == x / n + (if (x + 1) % n == 0 then 1 else 0)
  {
    var q, r := x / n, x % n;
    assert x == q * n + r;
    if r == n - 1 {
      assert x + 1 == (q + 1) * n;
      Quotient(x + 1, n, q + 1, 0);
    } else {
      Quotient(x + 1, n, q, r + 1);
    }
  }

  lemma NotSmall(d: int, n: int)
    requires n > 0
    ensures d >= 1 ==> d * n >= n
    ensures d <= -1 ==> d * n <= -n
  {
    if d >= 1 {
      assert (d - 1) * n >= 0;
    } else if d <= -1 {
      assert (-d - 1) * n >= 0;
    }
  }

  lemma Quotient(x: int, n: int, q: int, r: int)
    requires n > 0 && x == q * n + r && 0 <= r < n
    ensures x / n == q && x % n == r
  {
    var d := x / n - q;
    assert d * n + (x % n - r) == 0 by {
      assert x == (x / n) * n + x % n;
      assert (x / n) * n - q * n == d * n;
    }
    NotSmall(d, n);
  }

  lemma SameRemainder(x: int, y: int, n: int)
    requires n > 0
    ensures x % n == y % n <==> (x - y) % n == 0
  {
    var q, p := x / n, y / n;
    assert x - y == (q - p) * n + (x % n - y % n);
    if x % n >= y % n {
      Quotient(x - y, n, q - p, x % n - y % n);
    } else {
      assert x - y == (q - p - 1) * n + (n + x % n - y % n);
      Quotient(x - y, n, q - p - 1, n + x % n - y % n);
    }
  }

  lemma QuotientOfSum(x: int, m: nat, n: int)
    requires n > 0
    ensures (x + m) / n == x / n + m / n + (if x % n + m % n < n then 0 else 1)
  {
    var q, r, k, rest := x / n, x % n, m / n, m % n;
    assert x + m == (q + k) * n + (r + rest);
    if r + rest < n {
      Quotient(x + m, n, q + k, r + rest);
    } else {
      assert x + m == (q + k + 1) * n + (r + rest - n);
      Quotient(x + m, n, q + k + 1, r + rest - n);
    }
  }

  /** A slot depends on the unwrapped counter alone when there is no seam. */
  lemma SlotIsPlain(b: nat, i: nat, n: nat)
    requires n > 0 && NoSeam(b, i, n)
    ensures Slot(b, i, n) == (b + i) % n
  {
    if b + i >= W {
      var x := b + i;
      assert x - x % W == (x / W) * W;
      assert W == (W / n) * n;
      assert (x / W) * W == (x / W) * (W / n) * n + 0;
      Quotient((x / W) * W, n, (x / W) * (W / n), 0);
      SameRemainder(x, x % W, n);
    }
  }

  // ------------------------------------------------------------- fairness

  lemma {:induction false} TimesInClosedForm(b: nat, m: nat, n: nat, s: nat)
    requires s < n && NoSeam(b, m, n)
    ensures Times(b, m, n, s) == (b + m - s) / n - (b - s) / n
  {
    if m > 0 {
      TimesInClosedForm(b, m - 1, n, s);
      SlotIsPlain(b, m, n);
      DivStep(b + m - s - 1, n);
      SameRemainder(b + m, s, n);
      Quotient(s, n, 0, s);
    }
  }

  /** Any number of picks goes to the slots as evenly as can be, and a multiple of n exactly evenly. */
  lemma PicksAreFair(b: nat, m: nat, n: nat, s: nat)
    requires s < n && NoSeam(b, m, n)
    ensures m / n <= Times(b, m, n, s) <= m / n + 1
    ensures m % n == 0 ==> Times(b, m, n, s) == m / n
  {
    TimesInClosedForm(b, m, n, s);
    QuotientOfSum(b - s, m, n);
    assert b - s + m == b + m - s;
  }

  // ------------------------------------------------------------- coverage

  predicate Hit(b: nat, m: nat, n: nat, s: nat)
    requires n > 0
  {
    exists i :: 1 <= i <= m && Slot(b, i, n) == s
  }

  /** The next n picks visit every slot. */
  predicate Covers(b: nat, n: nat)
    requires n > 0
  {
    forall s :: 0 <= s < n ==> Hit(b, n, n, s)
  }

  lemma {:induction false} HitIfCounted(b: nat, m: nat, n: nat, s: nat)
    requires n > 0 && Times(b, m, n, s) > 0
    ensures Hit(b, m, n, s)
  {
    if Slot(b, m, n) != s {
      HitIfCounted(b, m - 1, n, s);
    }
  }

  /** The picks before the wrap and those after it leave a slot out, unless the two parts fit together. */
  lemma SeamMissesASlot(b: nat, n: nat)
    requires 0 < n < W && b + 1 < W <= b + n && W % n != 0
    ensures !Covers(b, n)
  {
    var r := W % n;
    var c := b + n - W + 1;
    var missed := if r >= c then r else c;
    forall i | 1 <= i <= n ensures Slot(b, i, n) != missed {
      hide Slot;
      if b + i >= W {
        AfterSeam(b, n, i);
      } else {
        BeforeSeam(n, W - (b + i), c, missed);
        assert Slot(b, i, n) == (W - (W - (b + i))) % n by { BeforeWrap(b, n, i); }
      }
    }
    assert !Hit(b, n, n, missed);
  }

  lemma BeforeWrap(b: nat, n: nat, i: nat)
    requires n > 0 && b + i < W
    ensures Slot(b, i, n) == (b + i) % n
  {
  }

  lemma AfterSeam(b: nat, n: nat, i: nat)
    requires 0 < n < W && b + 1 < W <= b + i <= b + n
    ensures Slot(b, i, n) == b + i - W < b + n - W + 1
  {
    assert Counter(b, i) == b + i - W;
    Quotient(b + i - W, n, 0, b + i - W);
  }

  /** t picks before the wrap the slot is not the one that is left out; the last n - c picks are before it. */
  lemma BeforeSeam(n: nat, t: nat, c: nat, missed: nat)
    requires 0 < c < n && 1 <= t <= n - c && W % n != 0 && missed == (if W % n >= c then W % n else c)
    ensures (W - t) % n != missed
  {
    var r := W % n;
    if r >= c {
      SameRemainder(W, W - t, n);
      Quotient(t, n, 0, t);
    } else {
      // c and W - t differ by c - r + t modulo n, which lies strictly between 0 and n
      assert W == (W / n) * n + r;
      SameRemainder(c, W - t, n);
      assert c - (W - t) == (-(W / n)) * n + (c - r + t);
      Quotient(c - (W - t), n, -(W / n), c - r + t);
      Quotient(c, n, 0, c);
    }
  }

  /**
   n picks in a row visit all n slots exactly when the counter does not wrap between two of them, or n divides the
   number of counter values.
   */
  lemma CoversExactlyWhen(b: nat, n: nat)
    requires 0 < n < W && b < W
    ensures Covers(b, n) <==> (b + n < W || b + 1 == W || W % n == 0)
  {
    if b + n < W || W % n == 0 {
      forall s | 0 <= s < n ensures Hit(b, n, n, s) {
        Quotient(n, n, 1, 0);
        PicksAreFair(b, n, n, s);
        HitIfCounted(b, n, n, s);
      }
    } else if b + 1 == W {
      forall s | 0 <= s < n ensures Hit(b, n, n, s) {
        assert Counter(b, s + 1) == s;
        Quotient(s, n, 0, s);
        assert Slot(b, s + 1, n) == s;
      }
    } else {
      SeamMissesASlot(b, n);
    }
  }

  // ------------------------------------------------------------- picking

  /** One pick from probe i on: the first live slot, if any of the n probes meets one, and the counter afterwards. */
  function Probe(b: nat, live: seq<bool>, i: nat): (Option<nat>, nat)
    requires 1 <= i && |live| > 0
    decreases |live| + 1 - i
  {
    if i > |live| then (None, Counter(b, |live|))
    else if live[Slot(b, i, |live|)] then (Some(Slot(b, i, |live|)), Counter(b, i))
    else Probe(b, live, i + 1)
  }

  lemma NextCounter(b: nat, i: nat)
    requires i > 0
    ensures Advance(Counter(b, i - 1)) == Counter(b, i)
    ensures Counter(Counter(b, i - 1), 1) == Counter(b, i)
  {
  }

  /** One probe, in terms of the counter before it. */
  lemma ProbeStep(b: nat, live: seq<bool>, i: nat)
    requires 1 <= i <= |live|
    ensures var counter := Advance(Counter(b, i - 1));
            var slot := At(counter, |live|);
            counter == Counter(b, i) && Probe(b, live, i) == if live[slot] then (Some(slot), counter) else Probe(b, live, i + 1)
  {
    NextCounter(b, i);
  }

  lemma CounterAtStart(b: nat)
    requires b < W
    ensures Counter(b, 0) == b
  {
  }

  lemma ProbesUsedUp(b: nat, live: seq<bool>)
    requires |live| > 0
    ensures Probe(b, live, |live| + 1) == (None, Counter(b, |live|))
  {
  }

  lemma {:induction false} ProbeFinds(b: nat, live: seq<bool>, i: nat)
    requires 1 <= i && |live| > 0
    ensures Probe(b, live, i).0.Some? <==> exists j :: i <= j <= |live| && live[Slot(b, j, |live|)]
    ensures Probe(b, live, i).0.Some? ==> Probe(b, live, i).0.value < |live| && live[Probe(b, live, i).0.value]
    decreases |live| + 1 - i
  {
    if i <= |live| && !live[Slot(b, i, |live|)] {
      ProbeFinds(b, live, i + 1);
    }
  }

  /** With the counter at b, a pick among n instances finds a live one whenever there is one, whichever they are. */
  ghost predicate AlwaysFinds(b: nat, n: nat)
    requires n > 0
  {
    forall live: seq<bool> | |live| == n && (exists s :: 0 <= s < n && live[s]) :: Probe(b, live, 1).0.Some?
  }

  /**
   A pick never misses a live instance, exactly when the counter does not wrap between two probes or n divides
   2^64.
   */
  lemma AlwaysFindsExactlyWhen(b: nat, n: nat)
    requires 0 < n < W && b < W
    ensures AlwaysFinds(b, n) <==> (b + n < W || b + 1 == W || W % n == 0)
  {
    CoversExactlyWhen(b, n);
    if Covers(b, n) {
      forall live: seq<bool> | |live| == n && exists s :: 0 <= s < n && live[s]
        ensures Probe(b, live, 1).0.Some?
      {
        var s :| 0 <= s < n && live[s];
        assert Hit(b, n, n, s);
        ProbeFinds(b, live, 1);
      }
    } else {
      var missed :| 0 <= missed < n && !Hit(b, n, n, missed);
      var live := seq(n, s => s == missed);
      ProbeFinds(b, live, 1);
      assert live[missed];
      assert !Probe(b, live, 1).0.Some?;
    }
  }

  /** The counter after m picks in a row. */
  function CounterAfter(b: nat, live: seq<bool>, m: nat): nat
    requires |live| > 0
  {
    if m == 0 then b else Probe(CounterAfter(b, live, m - 1), live, 1).1
  }

  /** What m picks in a row choose. */
  function Picks(b: nat, live: seq<bool>, m: nat): seq<Option<nat>>
    requires |live| > 0
  {
    if m == 0 then [] else Picks(b, live, m - 1) + [Probe(CounterAfter(b, live, m - 1), live, 1).0]
  }

  predicate AllLive(live: seq<bool>) {
    forall s :: 0 <= s < |live| ==> live[s]
  }

  lemma {:induction false} CounterFollows(b: nat, live: seq<bool>, m: nat)
    requires |live| > 0 && AllLive(live) && b < W
    ensures CounterAfter(b, live, m) == Counter(b, m)
  {
    if m > 0 {
      CounterFollows(b, live, m - 1);
      NextCounter(b, m);
    }
  }

  lemma PicksMore(b: nat, live: seq<bool>, m: nat)
    requires |live| > 0 && AllLive(live) && b < W && m > 0
    ensures Picks(b, live, m) == Picks(b, live, m - 1) + [Some(Slot(b, m, |live|))]
  {
    CounterFollows(b, live, m - 1);
    NextCounter(b, m);
  }

  lemma {:induction false} PicksCount(b: nat, live: seq<bool>, m: nat, s: nat)
    requires |live| > 0 && AllLive(live) && b < W
    ensures multiset(Picks(b, live, m))[Some(s)] == Times(b, m, |live|, s)
  {
    if m > 0 {
      hide Slot;
      PicksMore(b, live, m);
      PicksCount(b, live, m - 1, s);
    }
  }

  /**
   Among n live instances, m picks choose each one floor(m/n) or one more times; k * n picks choose each
   exactly k times.
   */
  lemma RunIsFair(b: nat, live: seq<bool>, m: nat, s: nat)
    requires s < |live| && AllLive(live) && b < W && NoSeam(b, m, |live|)
    ensures var chosen := multiset(Picks(b, live, m))[Some(s)];
            m / |live| <= chosen <= m / |live| + 1 && (m % |live| == 0 ==> chosen == m / |live|)
  {
    PicksCount(b, live, m, s);
    PicksAreFair(b, m, |live|, s);
  }
}
