/** The round-robin choice of EngineLoadBalancer.cpp: a 64-bit counter that wraps around, taken
    modulo the number of handlers. */
module RoundRobin {
  import opened SafeQueues

  /** The index chosen after `m` further choices from counter value `c`. */
  function Pick(c: nat, m: nat, n: nat): (i: nat)
    requires n > 0
    ensures i < n
  {
    ((c + m) % WORD) % n
  }

  /** How often index i is chosen in k choices. */
  function Chosen(c: nat, k: nat, n: nat, i: nat): nat
    requires n > 0
  {
    if k == 0 then 0 else Chosen(c, k - 1, n, i) + if Pick(c, k - 1, n) == i then 1 else 0
  }

  ghost predicate Fair(c: nat, k: nat, n: nat, i: nat)
    requires n > 0
  {
    k / n <= Chosen(c, k, n, i) <= (k + n - 1) / n
  }

  // ----- division

  lemma Division(x: nat, n: nat, q: nat, r: nat)
    requires n > 0 && r < n && x == q * n + r
    ensures x / n == q && x % n == r
  {
    Unique(n, x / n, x % n, q, r);
  }

  lemma Unique(n: nat, a: int, b: nat, q: int, r: nat)
    requires b < n && r < n && a * n + b == q * n + r
    ensures a == q && b == r
  {
    Apart(a, q, n);
    if a < q { Positive(q - a - 1, n); } else if a > q { Positive(a - q - 1, n); }
  }

  lemma Apart(a: int, q: int, n: int)
    ensures q * n - a * n == (q - a) * n && (q - a) * n == (q - a - 1) * n + n && a * n - q * n == (a - q - 1) * n + n
  {
  }

  lemma Positive(a: nat, n: nat)
    ensures a * n >= 0
  {
  }

  lemma Parts(x: nat, n: nat)
    requires n > 0
    ensures x == (x / n) * n + x % n
  {
  }

  lemma SumParts(x: nat, y: nat, n: nat, a: nat, b: nat, e: nat, f: nat)
    requires b < n && f < n && x == a * n + b && y == e * n + f
    ensures (x + y) / n == a + e + if b + f < n then 0 else 1
    ensures (x + y) % n == b + f - if b + f < n then 0 else n
  {
    Distribute(a, e, n);
    if b + f < n { Division(x + y, n, a + e, b + f); } else { Division(x + y, n, a + e + 1, b + f - n); }
  }

  /** Quotients and remainders of a sum. */
  lemma SumDivision(x: nat, y: nat, n: nat)
    requires n > 0
    ensures (x + y) / n == x / n + y / n + if x % n + y % n < n then 0 else 1
    ensures (x + y) % n == x % n + y % n - if x % n + y % n < n then 0 else n
  {
    Parts(x, n);
    Parts(y, n);
    SumParts(x, y, n, x / n, x % n, y / n, y % n);
  }

  lemma Distribute(a: int, e: int, n: int)
    ensures (a + e) * n == a * n + e * n && (a + e + 1) * n == a * n + e * n + n
  {
  }

  /** How many of 0, .., x - 1 leave the remainder i. */
  function UpTo(x: nat, n: nat, i: nat): nat
    requires n > 0
  {
    x / n + if x % n > i then 1 else 0
  }

  lemma UpToStep(x: nat, n: nat, i: nat)
    requires 0 < n && i < n
    ensures UpTo(x + 1, n, i) == UpTo(x, n, i) + if x % n == i then 1 else 0
  {
    SumDivision(x, 1, n);
    if n == 1 { Division(1, 1, 1, 0); } else { Division(1, n, 0, 1); }
  }

  // ----- fairness

  /** Wrapping around does not show when it stays ahead, or when n divides the word. */
  lemma PickUnwrapped(c: nat, m: nat, n: nat)
    requires n > 0 && (c + m < WORD || WORD % n == 0)
    ensures Pick(c, m, n) == (c + m) % n
  {
    var x := c + m;
    if x < WORD {
      Division(x, WORD, 0, x);
    } else {
      var a, b := x / WORD, x % WORD;
      var w := WORD / n;
      var q, r := b / n, b % n;
      assert WORD == w * n;
      calc {
        x;
        a * WORD + b;
        a * (w * n) + (q * n + r);
        { Grouped(a, w, q, n); }
        (a * w + q) * n + r;
      }
      Division(x, n, a * w + q, r);
    }
  }

  lemma Grouped(a: int, w: int, q: int, n: int)
    ensures a * (w * n) + q * n == (a * w + q) * n
  {
  }

  lemma {:induction false} ChosenUpTo(c: nat, k: nat, n: nat, i: nat)
    requires i < n && (c + k <= WORD || WORD % n == 0)
    ensures Chosen(c, k, n, i) == UpTo(c + k, n, i) - UpTo(c, n, i)
  {
    if k > 0 {
      ChosenUpTo(c, k - 1, n, i);
      PickUnwrapped(c, k - 1, n);
      UpToStep(c + k - 1, n, i);
    }
  }

  lemma UpToWindow(c: nat, k: nat, n: nat, i: nat)
    requires i < n
    ensures k / n <= UpTo(c + k, n, i) - UpTo(c, n, i) <= (k + n - 1) / n
  {
    SumDivision(c, k, n);
    SumDivision(k, n - 1, n);
    Division(n - 1, n, 0, n - 1);
  }

  /** While the counter does not wrap around, or if n divides its range, after k choices each of
      n handlers was chosen k / n times, rounded down or up. */
  lemma ChoicesFair(c: nat, k: nat, n: nat, i: nat)
    requires i < n && (c + k <= WORD || WORD % n == 0)
    ensures Fair(c, k, n, i)
  {
    ChosenUpTo(c, k, n, i);
    UpToWindow(c, k, n, i);
  }

  lemma {:induction false} ChosenTwice(c: nat, k: nat, n: nat, i: nat, m: nat, m': nat)
    requires i < n && m < m' < k && Pick(c, m, n) == i && Pick(c, m', n) == i
    ensures Chosen(c, k, n, i) >= 2
    decreases k
  {
    if m' < k - 1 { ChosenTwice(c, k - 1, n, i, m, m'); } else { ChosenOnce(c, k - 1, n, i, m); }
  }

  lemma {:induction false} ChosenOnce(c: nat, k: nat, n: nat, i: nat, m: nat)
    requires i < n && m < k && Pick(c, m, n) == i
    ensures Chosen(c, k, n, i) >= 1
    decreases k
  {
    if m < k - 1 { ChosenOnce(c, k - 1, n, i, m); }
  }

  /** At the wrap-around a handler is chosen twice among n choices if n does not divide the
      range of the counter. */
  lemma UnfairAtWrap(n: nat)
    requires n > 0 && WORD % n != 0
    ensures !Fair(WORD - 1, WORD % n + 1, n, WORD % n - 1)
  {
    var r := WORD % n;
    var w := WORD / n;
    assert WORD == w * n + r;
    Division(WORD - 1, WORD, 0, WORD - 1);
    Division(WORD - 1, n, w, r - 1);
    assert (WORD - 1 + r) % WORD == r - 1 by { Division(WORD - 1 + r, WORD, 1, r - 1); }
    Division(r - 1, n, 0, r - 1);
    ChosenTwice(WORD - 1, r + 1, n, r - 1, 0, r);
    Division(r + 1 + n - 1, n, 1, r);
  }

  /** The choice is fair in every window if and only if n divides the range of the counter. */
  lemma FairExactly(n: nat)
    requires n > 0
    ensures (forall c: nat, k: nat, i: nat :: c < WORD && i < n ==> Fair(c, k, n, i)) <==> WORD % n == 0
  {
    if WORD % n == 0 {
      forall c: nat, k: nat, i: nat | c < WORD && i < n ensures Fair(c, k, n, i) { ChoicesFair(c, k, n, i); }
    } else {
      UnfairAtWrap(n);
    }
  }
}
