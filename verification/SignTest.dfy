/**
 * The benchmark's two-sided sign test, tied to what it stands for: the share of equally likely
 * win/loss sequences that are at least as lopsided as the observed one.
 */
module SignTest {

  function Min(a: int, b: int): int { if a <= b then a else b }

  function Pow2(n: nat): nat { if n == 0 then 1 else 2 * Pow2(n - 1) }

  function Factorial(n: nat): nat { if n == 0 then 1 else n * Factorial(n - 1) }

  function Comb(n: nat, k: nat): nat {
    if k == 0 then 1 else if n == 0 then 0 else Comb(n - 1, k - 1) + Comb(n - 1, k)
  }

  /** The sum of Comb(n, i) for all i < k. */
  function CombSum(n: nat, k: nat): nat {
    if k == 0 then 0 else CombSum(n, k - 1) + Comb(n, k - 1)
  }

  lemma Pow2Positive(n: nat)
    ensures Pow2(n) >= 1
  {
  }

  function PValue(wins: nat, losses: nat): real {
    var total := wins + losses;
    if total == 0 then 1.0
    else
      Pow2Positive(total);
      var probability := CombSum(total, Min(wins, losses) + 1) as real / Pow2(total) as real;
      if 2.0 * probability < 1.0 then 2.0 * probability else 1.0
  }

  // ----- The binomial coefficient is the factorial quotient -----

  lemma {:induction false} CombBeyond(n: nat, k: nat)
    requires k > n
    ensures Comb(n, k) == 0
  {
    if n > 0 {
      CombBeyond(n - 1, k - 1);
      CombBeyond(n - 1, k);
    }
  }

  lemma {:induction false} CombIsQuotient(n: nat, k: nat)
    requires k <= n
    ensures Comb(n, k) * (Factorial(k) * Factorial(n - k)) == Factorial(n)
  {
    if k == n {
      CombDiagonal(n);
    } else if k > 0 {
      CombIsQuotient(n - 1, k - 1);
      CombIsQuotient(n - 1, k);
      FactorialStep(k);
      FactorialStep(n - k);
      FactorialStep(n);
      QuotientSum(Comb(n - 1, k - 1), Comb(n - 1, k), Factorial(k - 1), Factorial(n - k - 1), Factorial(n - 1), k, n - k);
    }
  }

  lemma FactorialStep(n: nat)
    requires n > 0
    ensures Factorial(n) == n * Factorial(n - 1)
  {
  }

  lemma {:induction false} CombDiagonal(n: nat)
    ensures Comb(n, n) == 1
  {
    if n > 0 {
      CombDiagonal(n - 1);
      CombBeyond(n - 1, n);
    }
  }

  lemma QuotientSum(a: nat, b: nat, f: nat, g: nat, m: nat, k: nat, j: nat)
    requires a * (f * (j * g)) == m && b * ((k * f) * g) == m
    ensures (a + b) * ((k * f) * (j * g)) == (k + j) * m
  {
    Scale(a, f * (j * g), m, k);
    Scale(b, (k * f) * g, m, j);
    QuotientStep(a, b, f, g, m, k, j);
  }

  lemma Scale(a: nat, x: nat, m: nat, k: nat)
    requires a * x == m
    ensures a * (k * x) == k * m
  {
    assert a * (k * x) == k * (a * x);
  }

  lemma QuotientStep(a: nat, b: nat, f: nat, g: nat, m: nat, k: nat, j: nat)
    requires a * (k * (f * (j * g))) == k * m && b * (j * ((k * f) * g)) == j * m
    ensures (a + b) * ((k * f) * (j * g)) == (k + j) * m
  {
    var x := (k * f) * (j * g);
    assert k * (f * (j * g)) == x;
    assert j * ((k * f) * g) == x;
    assert (a + b) * x == a * x + b * x;
  }

  // ----- Win/loss sequences -----

  function Cons(b: bool): seq<bool> -> seq<bool> { s => [b] + s }

  function Image(f: seq<bool> -> seq<bool>, a: set<seq<bool>>): set<seq<bool>> {
    set s | s in a :: f(s)
  }

  ghost predicate Injective(f: seq<bool> -> seq<bool>) {
    forall s, t :: f(s) == f(t) ==> s == t
  }

  /** All sequences of n results, true for a win. */
  function Sequences(n: nat): set<seq<bool>> {
    if n == 0 then {[]} else Image(Cons(true), Sequences(n - 1)) + Image(Cons(false), Sequences(n - 1))
  }

  function Wins(s: seq<bool>): (n: nat)
    ensures n <= |s|
  {
    if s == [] then 0 else (if s[0] then 1 else 0) + Wins(s[1..])
  }

  function Exactly(n: nat, k: int): set<seq<bool>> {
    set s | s in Sequences(n) && Wins(s) == k
  }

  /** Those of the given outcomes at least as lopsided as so many wins against so many losses. */
  function AsLopsided(all: set<seq<bool>>, wins: nat, losses: nat): set<seq<bool>> {
    set s | s in all && Min(Wins(s), |s| - Wins(s)) <= Min(wins, losses)
  }

  lemma ConsInjective(b: bool)
    ensures Injective(Cons(b))
  {
    forall s, t | Cons(b)(s) == Cons(b)(t) ensures s == t {
      assert Cons(b)(s)[1..] == s && Cons(b)(t)[1..] == t;
    }
  }

  lemma {:induction false} ImageSize(f: seq<bool> -> seq<bool>, a: set<seq<bool>>)
    requires Injective(f)
    ensures |Image(f, a)| == |a|
  {
    if a != {} {
      var s :| s in a;
      ImageSize(f, a - {s});
      assert Image(f, a) == Image(f, a - {s}) + {f(s)};
      assert f(s) !in Image(f, a - {s});
    }
  }

  lemma {:induction false} SequencesAreAll(n: nat, s: seq<bool>)
    ensures s in Sequences(n) <==> |s| == n
  {
    if n > 0 {
      if s != [] {
        SequencesAreAll(n - 1, s[1..]);
        assert s == Cons(s[0])(s[1..]);
      }
      if s in Sequences(n) {
        var b: bool, t :| t in Sequences(n - 1) && s == Cons(b)(t);
        SequencesAreAll(n - 1, t);
      }
    }
  }

  /** Prefixing one family with a win and another with a loss keeps them apart. */
  lemma PrefixedCount(a: set<seq<bool>>, b: set<seq<bool>>)
    ensures |Image(Cons(true), a) + Image(Cons(false), b)| == |a| + |b|
  {
    var x, y := Image(Cons(true), a), Image(Cons(false), b);
    ConsInjective(true);
    ConsInjective(false);
    ImageSize(Cons(true), a);
    ImageSize(Cons(false), b);
    assert forall s :: s in x ==> s[0];
    assert forall s :: s in y ==> !s[0];
    assert x !! y;
  }

  lemma {:induction false} SequencesCount(n: nat)
    ensures |Sequences(n)| == Pow2(n)
  {
    if n > 0 {
      SequencesCount(n - 1);
      PrefixedCount(Sequences(n - 1), Sequences(n - 1));
    }
  }

  lemma ExactlySplits(n: nat, k: int)
    requires n > 0
    ensures Exactly(n, k) == Image(Cons(true), Exactly(n - 1, k - 1)) + Image(Cons(false), Exactly(n - 1, k))
  {
    var a, b := Image(Cons(true), Exactly(n - 1, k - 1)), Image(Cons(false), Exactly(n - 1, k));
    forall s ensures s in Exactly(n, k) <==> s in a + b {
      SequencesAreAll(n, s);
      if s != [] {
        SequencesAreAll(n - 1, s[1..]);
        assert s == Cons(s[0])(s[1..]);
      }
      if s in a + b {
        var c: bool, t :| s == Cons(c)(t) && t in Sequences(n - 1) && Wins(t) == k - (if c then 1 else 0);
        SequencesAreAll(n - 1, t);
        assert s[1..] == t;
      }
    }
  }

  lemma ExactlyEdges(n: nat, k: int)
    ensures Exactly(0, k) == if k == 0 then {[]} else {}
    ensures k < 0 ==> Exactly(n, k) == {}
  {
  }

  lemma ExactlyCount(n: nat, k: int)
    requires n > 0
    ensures |Exactly(n, k)| == |Exactly(n - 1, k - 1)| + |Exactly(n - 1, k)|
  {
    ExactlySplits(n, k);
    PrefixedCount(Exactly(n - 1, k - 1), Exactly(n - 1, k));
  }

  /** Comb(n, k) counts the sequences with exactly k wins. */
  lemma {:induction false} CombCounts(n: nat, k: nat)
    ensures |Exactly(n, k)| == Comb(n, k)
  {
    if n == 0 {
      ExactlyEdges(0, k);
    } else {
      ExactlyCount(n, k);
      CombCounts(n - 1, k);
      if k == 0 {
        ExactlyEdges(n - 1, k - 1);
        CombFirst(n - 1);
      } else {
        CombCounts(n - 1, k - 1);
      }
    }
  }

  lemma CombFirst(n: nat)
    ensures Comb(n, 0) == 1
  {
  }

  // ----- Both tails -----

  function Fewer(all: set<seq<bool>>, k: int): set<seq<bool>> {
    set s | s in all && Wins(s) < k
  }

  function More(all: set<seq<bool>>, k: int): set<seq<bool>> {
    set s | s in all && Wins(s) > k
  }

  lemma {:induction false} FewerCount(n: nat, k: nat)
    ensures |Fewer(Sequences(n), k)| == CombSum(n, k)
  {
    var all := Sequences(n);
    if k == 0 {
      assert Fewer(all, 0) == {};
    } else {
      FewerCount(n, k - 1);
      CombCounts(n, k - 1);
      assert Fewer(all, k) == Fewer(all, k - 1) + Exactly(n, k - 1);
      assert Fewer(all, k - 1) !! Exactly(n, k - 1);
    }
  }

  function Flip(): seq<bool> -> seq<bool> { s => seq(|s|, i requires 0 <= i < |s| => !s[i]) }

  lemma FlipTwice(s: seq<bool>)
    ensures Flip()(Flip()(s)) == s
  {
  }

  lemma FlipInjective()
    ensures Injective(Flip())
  {
    forall s, t | Flip()(s) == Flip()(t) ensures s == t {
      FlipTwice(s);
      FlipTwice(t);
    }
  }

  lemma {:induction false} FlipWins(s: seq<bool>)
    ensures |Flip()(s)| == |s| && Wins(Flip()(s)) == |s| - Wins(s)
  {
    if s != [] {
      FlipWins(s[1..]);
      assert Flip()(s)[1..] == Flip()(s[1..]);
    }
  }

  ghost predicate IsSpace(all: set<seq<bool>>, n: nat) {
    forall s :: s in all <==> |s| == n
  }

  lemma TailsMirror(all: set<seq<bool>>, n: nat, k: int)
    requires IsSpace(all, n)
    ensures |More(all, n - k)| == |Fewer(all, k)|
  {
    FlipInjective();
    ImageSize(Flip(), Fewer(all, k));
    forall s ensures s in More(all, n - k) <==> s in Image(Flip(), Fewer(all, k)) {
      FlipWins(s);
      FlipTwice(s);
      if s in Image(Flip(), Fewer(all, k)) {
        var u :| u in Fewer(all, k) && s == Flip()(u);
        FlipTwice(u);
      }
    }
    assert More(all, n - k) == Image(Flip(), Fewer(all, k));
  }

  lemma Sizes(a: set<seq<bool>>, b: set<seq<bool>>)
    ensures |a + b| <= |a| + |b|
    ensures a !! b ==> |a + b| == |a| + |b|
    ensures a <= b ==> |a| <= |b|
  {
    assert a + b == a + (b - a);
    if a <= b { assert b == a + (b - a); }
  }

  lemma LopsidedCount(all: set<seq<bool>>, wins: nat, losses: nat)
    requires IsSpace(all, wins + losses)
    ensures var half, tail := |Fewer(all, Min(wins, losses) + 1)|, |AsLopsided(all, wins, losses)|;
      tail <= |all| && (if wins != losses then tail == 2 * half else tail == |all| <= 2 * half)
  {
    var n, k := wins + losses, Min(wins, losses) + 1;
    var low, high, tail := Fewer(all, k), More(all, n - k), AsLopsided(all, wins, losses);
    TailsMirror(all, n, k);
    assert tail == low + high;
    Sizes(low, high);
    if wins == losses {
      assert tail == all;
    } else {
      assert low !! high;
      Sizes(tail, all);
    }
  }

  lemma SequencesAreSpace(n: nat)
    ensures IsSpace(Sequences(n), n) && |Sequences(n)| == Pow2(n) >= 1
  {
    forall s ensures s in Sequences(n) <==> |s| == n {
      SequencesAreAll(n, s);
    }
    SequencesCount(n);
    Pow2Positive(n);
  }

  lemma HalfCount(all: set<seq<bool>>, n: nat, k: nat)
    requires IsSpace(all, n)
    ensures |Fewer(all, k)| == CombSum(n, k) && |all| == Pow2(n) >= 1
  {
    SequencesAreSpace(n);
    assert all == Sequences(n);
    FewerCount(n, k);
  }

  lemma PValueFromCounts(wins: nat, losses: nat, tail: nat)
    requires tail <= Pow2(wins + losses)
    requires var half := CombSum(wins + losses, Min(wins, losses) + 1);
      tail == 2 * half || (tail == Pow2(wins + losses) <= 2 * half)
    ensures Pow2(wins + losses) >= 1
    ensures PValue(wins, losses) == tail as real / Pow2(wins + losses) as real
  {
    Pow2Positive(wins + losses);
    if wins + losses == 0 {
      assert CombSum(0, 1) == 1;
    } else {
      Capped(CombSum(wins + losses, Min(wins, losses) + 1), tail, Pow2(wins + losses));
    }
  }

  /** The p-value is exactly the share of outcomes at least as lopsided as the observed one. */
  lemma PValueIsExactShare(wins: nat, losses: nat, all: set<seq<bool>>)
    requires forall s :: s in all <==> |s| == wins + losses
    ensures |all| >= 1
    ensures PValue(wins, losses) == |AsLopsided(all, wins, losses)| as real / |all| as real
  {
    HalfCount(all, wins + losses, Min(wins, losses) + 1);
    LopsidedCount(all, wins, losses);
    PValueFromCounts(wins, losses, |AsLopsided(all, wins, losses)|);
  }

  lemma Capped(half: nat, tail: nat, all: nat)
    requires all >= 1 && tail <= all
    requires tail == 2 * half || (tail == all && 2 * half >= all)
    ensures var p := half as real / all as real;
      (if 2.0 * p < 1.0 then 2.0 * p else 1.0) == tail as real / all as real
  {
    var h, t, a := half as real, tail as real, all as real;
    DoubleShare(h, a);
    ShareCompared(2.0 * h, a);
    if tail == 2 * half {
      assert t == 2.0 * h;
    }
  }

  lemma DoubleShare(h: real, a: real)
    requires a > 0.0
    ensures 2.0 * (h / a) == 2.0 * h / a
  {
    var p := h / a;
    assert p * a == h;
    assert (2.0 * p) * a == 2.0 * h;
  }

  lemma ShareCompared(x: real, a: real)
    requires a > 0.0
    ensures x / a < 1.0 <==> x < a
    ensures x / a == 1.0 <==> x == a
  {
    var p := x / a;
    assert p * a == x;
    if p < 1.0 {
      assert (1.0 - p) * a > 0.0;
    } else if p > 1.0 {
      assert (p - 1.0) * a > 0.0;
    }
  }

  /** Which side is called the winner does not matter. */
  lemma PValueSymmetric(wins: nat, losses: nat)
    ensures PValue(wins, losses) == PValue(losses, wins)
  {
    assert wins + losses == losses + wins;
  }
}
