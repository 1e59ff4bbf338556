/**
 * Cohen's kappa of two graders' preferences. Exact arithmetic: all bounds are proved on integer
 * counts and only then carried over to the quotients the program forms.
 */
module Kappa {
  import opened Options

  datatype Label = A | B | Tie

  type Labels = map<string, Label>

  function Common(a: Labels, b: Labels): set<string> { a.Keys * b.Keys }

  function With(keys: set<string>, a: Labels, l: Label): set<string>
    requires keys <= a.Keys
  {
    set k | k in keys && a[k] == l
  }

  function Agreeing(keys: set<string>, a: Labels, b: Labels): set<string>
    requires keys <= a.Keys && keys <= b.Keys
  {
    set k | k in keys && a[k] == b[k]
  }

  /** How often each grader gave each label, and how often they gave the same one. */
  datatype Counts = Counts(n: nat, a1: nat, a2: nat, a3: nat, b1: nat, b2: nat, b3: nat, d: nat) {
    ghost predicate Sound() {
      a1 + a2 + a3 == n && b1 + b2 + b3 == n && d <= n
      && a1 + b1 <= n + d && a2 + b2 <= n + d && a3 + b3 <= n + d
    }

    /** The chance agreement in whole numbers, n * n being certainty. */
    ghost function Chance(): nat { a1 * b1 + a2 * b2 + a3 * b3 }

    function Expected(): real
      requires n > 0
    {
      (a1 as real / n as real) * (b1 as real / n as real) + (a2 as real / n as real) * (b2 as real / n as real)
      + (a3 as real / n as real) * (b3 as real / n as real)
    }

    function Score(): real
      requires n > 0
    {
      Corrected(d as real / n as real, Expected())
    }
  }

  /** The observed agreement corrected for the expected one. */
  function Corrected(observed: real, expected: real): real {
    if expected == 1.0 then 1.0 else (observed - expected) / (1.0 - expected)
  }

  function CountsOf(keys: set<string>, a: Labels, b: Labels): Counts
    requires keys <= a.Keys && keys <= b.Keys
  {
    Counts(|keys|, |With(keys, a, A)|, |With(keys, a, B)|, |With(keys, a, Tie)|,
           |With(keys, b, A)|, |With(keys, b, B)|, |With(keys, b, Tie)|, |Agreeing(keys, a, b)|)
  }

  function Kappa(a: Labels, b: Labels): Option<real> {
    var keys := Common(a, b);
    if keys == {} then None else Some(CountsOf(keys, a, b).Score())
  }

  // ----- Counting -----

  lemma {:induction false} SubsetSize(x: set<string>, y: set<string>)
    requires x <= y
    ensures |x| <= |y| && (|x| == |y| ==> x == y)
  {
    assert y == x + (y - x);
  }

  lemma LabelsCover(keys: set<string>, a: Labels)
    requires keys <= a.Keys
    ensures |With(keys, a, A)| + |With(keys, a, B)| + |With(keys, a, Tie)| == |keys|
  {
    assert keys == With(keys, a, A) + With(keys, a, B) + With(keys, a, Tie);
  }

  /** Two classes that together outnumber the keys must overlap in agreeing keys. */
  lemma OverlapAgrees(keys: set<string>, a: Labels, b: Labels, l: Label)
    requires keys <= a.Keys && keys <= b.Keys
    ensures |With(keys, a, l)| + |With(keys, b, l)| <= |keys| + |Agreeing(keys, a, b)|
  {
    var x, y := With(keys, a, l), With(keys, b, l);
    SubsetSize(x + y, keys);
    SubsetSize(x * y, Agreeing(keys, a, b));
  }

  /** A key the graders disagree on is counted under two different labels. */
  lemma DisagreementShows(keys: set<string>, a: Labels, b: Labels, k: string)
    requires keys <= a.Keys && keys <= b.Keys && k in keys
    ensures |With(keys, a, a[k])| >= 1 && |With(keys, b, b[k])| >= 1
  {
    assert k in With(keys, a, a[k]) && k in With(keys, b, b[k]);
  }

  // ----- Arithmetic of the counts -----

  lemma CountsSound(keys: set<string>, a: Labels, b: Labels)
    requires keys <= a.Keys && keys <= b.Keys
    ensures CountsOf(keys, a, b).Sound()
  {
    LabelsCover(keys, a);
    LabelsCover(keys, b);
    OverlapAgrees(keys, a, b, A);
    OverlapAgrees(keys, a, b, B);
    OverlapAgrees(keys, a, b, Tie);
    SubsetSize(Agreeing(keys, a, b), keys);
  }

  lemma Square(x: int, y: int)
    ensures 2 * (x * y) <= x * x + y * y
  {
    assert (x - y) * (x - y) == x * x + y * y - 2 * (x * y);
    assert (x - y) * (x - y) >= 0;
  }

  lemma Times(x: nat, y: nat, z: nat)
    requires y <= z
    ensures x * y <= x * z
  {
  }

  /** When no label is crowded, agreement by chance is at most one half. */
  lemma NoCrowd(c: Counts)
    requires c.Sound() && c.a1 + c.b1 <= c.n && c.a2 + c.b2 <= c.n && c.a3 + c.b3 <= c.n
    ensures 2 * c.Chance() <= c.n * c.n
  {
    Half(c.n, c.a1, c.b1);
    Half(c.n, c.a2, c.b2);
    Half(c.n, c.a3, c.b3);
    Spread(c.n, c.a1 + c.b1, c.a2 + c.b2, c.a3 + c.b3);
  }

  lemma Half(n: nat, x: nat, y: nat)
    requires x + y <= n
    ensures 4 * (x * y) <= n * (x + y)
  {
    Square(x, y);
    assert (x + y) * (x + y) == x * x + y * y + 2 * (x * y);
    Times(x + y, x + y, n);
    assert (x + y) * n == n * (x + y);
  }

  lemma Spread(n: nat, x: nat, y: nat, z: nat)
    requires x + y + z == 2 * n
    ensures n * x + n * y + n * z == 2 * (n * n)
  {
    assert n * x + n * y + n * z == n * (x + y + z);
  }

  /** When one label is crowded, the forced agreement makes up for the chance agreement. */
  lemma Crowd(n: nat, d: nat, a1: nat, b1: nat, rest: nat)
    requires a1 <= n && b1 <= n && n <= a1 + b1 <= n + d && rest <= (n - a1) * (n - b1)
    ensures 2 * (a1 * b1 + rest) <= n * n + n * d
  {
    var x, y := n - a1, n - b1;
    assert a1 * b1 == n * n - n * (x + y) + x * y;
    Half(n, x, y);
    assert a1 * b1 + rest <= n * n - n * (x + y) + 2 * (x * y);
    assert n * n - n * (x + y) == n * (n - (x + y));
    Times(n, n - (x + y), d);
    assert 2 * (a1 * b1 + rest) <= 2 * (n * n) - 2 * (n * (x + y)) + n * (x + y);
  }

  lemma Rest(a2: nat, a3: nat, b2: nat, b3: nat)
    ensures a2 * b2 + a3 * b3 <= (a2 + a3) * (b2 + b3)
  {
    assert (a2 + a3) * (b2 + b3) == a2 * b2 + a3 * b3 + a2 * b3 + a3 * b2;
  }

  lemma OneCrowd(n: nat, d: nat, a1: nat, a2: nat, a3: nat, b1: nat, b2: nat, b3: nat)
    requires a1 + a2 + a3 == n && b1 + b2 + b3 == n && n < a1 + b1 <= n + d
    ensures 2 * (a1 * b1 + (a2 * b2 + a3 * b3)) <= n * n + n * d
  {
    Rest(a2, a3, b2, b3);
    assert a2 + a3 == n - a1 && b2 + b3 == n - b1;
    Crowd(n, d, a1, b1, a2 * b2 + a3 * b3);
  }

  lemma ChanceBound(c: Counts)
    requires c.Sound()
    ensures 2 * c.Chance() <= c.n * c.n + c.n * c.d
  {
    if c.a1 + c.b1 > c.n {
      OneCrowd(c.n, c.d, c.a1, c.a2, c.a3, c.b1, c.b2, c.b3);
    } else if c.a2 + c.b2 > c.n {
      OneCrowd(c.n, c.d, c.a2, c.a1, c.a3, c.b2, c.b1, c.b3);
    } else if c.a3 + c.b3 > c.n {
      OneCrowd(c.n, c.d, c.a3, c.a1, c.a2, c.b3, c.b1, c.b2);
    } else {
      NoCrowd(c);
      Product(c.n, c.d);
    }
  }

  lemma Product(x: nat, y: nat)
    ensures x * y >= 0
    ensures x >= 1 && y >= 1 ==> x * y >= 1
  {
  }

  /** Chance agreement falls short of certainty by the products of different labels. */
  lemma ChanceGap(c: Counts)
    requires c.Sound()
    ensures c.Chance() <= c.n * c.n
    ensures ((c.a1 >= 1 && (c.b2 >= 1 || c.b3 >= 1)) || (c.a2 >= 1 && (c.b1 >= 1 || c.b3 >= 1))
             || (c.a3 >= 1 && (c.b1 >= 1 || c.b2 >= 1))) ==> c.Chance() < c.n * c.n
  {
    assert c.n * c.n == (c.a1 + c.a2 + c.a3) * (c.b1 + c.b2 + c.b3);
    assert c.n * c.n == c.Chance() + c.a1 * c.b2 + c.a1 * c.b3 + c.a2 * c.b1 + c.a2 * c.b3 + c.a3 * c.b1 + c.a3 * c.b2;
    Product(c.a1, c.b2);
    Product(c.a1, c.b3);
    Product(c.a2, c.b1);
    Product(c.a2, c.b3);
    Product(c.a3, c.b1);
    Product(c.a3, c.b2);
  }

  // ----- From counts to quotients -----

  lemma Cancel(r: real, m: real)
    requires m != 0.0
    ensures r * m / m == r
  {
  }

  lemma Square0(n: real)
    requires n > 0.0
    ensures n * n > 0.0
  {
  }

  lemma Share(n: real, m: real, x: real, y: real)
    requires n > 0.0 && m > 0.0 && m == n * n
    ensures (x / n) * (y / n) == x * y / m
  {
    var p, q := x / n, y / n;
    assert x == p * n && y == q * n;
    assert x * y == (p * q) * m;
    Cancel(p * q, m);
  }

  lemma ThreeShares(n: real, m: real, a1: real, a2: real, a3: real, b1: real, b2: real, b3: real)
    requires n > 0.0 && m > 0.0 && m == n * n
    ensures (a1 / n) * (b1 / n) + (a2 / n) * (b2 / n) + (a3 / n) * (b3 / n) == (a1 * b1 + a2 * b2 + a3 * b3) / m
  {
    Share(n, m, a1, b1);
    Share(n, m, a2, b2);
    Share(n, m, a3, b3);
    SumOver(a1 * b1, a2 * b2, a3 * b3, m);
  }

  lemma SumOver(x: real, y: real, z: real, m: real)
    requires m > 0.0
    ensures x / m + y / m + z / m == (x + y + z) / m
  {
  }

  lemma ProductCast(x: nat, y: nat)
    ensures x as real * y as real == (x * y) as real
  {
  }

  lemma SquareCast(n: nat) returns (m: real)
    requires n > 0
    ensures m > 0.0 && m == n as real * n as real && m == (n * n) as real
  {
    m := n as real * n as real;
    ProductCast(n, n);
    Square0(n as real);
  }

  lemma ChanceCast(c: Counts)
    ensures c.a1 as real * c.b1 as real + c.a2 as real * c.b2 as real + c.a3 as real * c.b3 as real == c.Chance() as real
  {
    ProductCast(c.a1, c.b1);
    ProductCast(c.a2, c.b2);
    ProductCast(c.a3, c.b3);
  }

  lemma ExpectedIsChance(c: Counts, m: real)
    requires c.n > 0 && m > 0.0 && m == c.n as real * c.n as real
    ensures c.Expected() == c.Chance() as real / m
  {
    ThreeShares(c.n as real, m, c.a1 as real, c.a2 as real, c.a3 as real, c.b1 as real, c.b2 as real, c.b3 as real);
    ChanceCast(c);
  }

  lemma DivLe(x: real, y: real, m: real)
    requires m > 0.0
    ensures x <= y ==> x / m <= y / m
    ensures x < y ==> x / m < y / m
    ensures m / m == 1.0
  {
  }

  lemma Ratio(p: real, q: real)
    requires q < 1.0 && p <= 1.0 && 2.0 * q <= 1.0 + p
    ensures -1.0 <= (p - q) / (1.0 - q) <= 1.0
    ensures (p - q) / (1.0 - q) == 1.0 <==> p == 1.0
  {
    var w := 1.0 - q;
    DivLe(-1.0 * w, p - q, w);
    Cancel(-1.0, w);
    DivLe(p - q, w, w);
  }

  lemma ObservedShare(n: nat, d: nat, m: real)
    requires n >= 1 && d <= n && m > 0.0 && m == n as real * n as real
    ensures d as real / n as real == (n * d) as real / m
    ensures d as real / n as real <= 1.0 && (d as real / n as real == 1.0 <==> d == n)
  {
    DivLe(d as real, n as real, n as real);
    Share(n as real, m, n as real, d as real);
    ProductCast(n, d);
  }

  /** The corrected agreement from the counts d of n and e of nn, where nd is n * d. */
  lemma CorrectedBounds(p: real, e: nat, nn: nat, nd: nat)
    requires nn > 0 && e <= nn && 2 * e <= nn + nd && p == nd as real / nn as real && p <= 1.0
    ensures -1.0 <= Corrected(p, e as real / nn as real) <= 1.0
    ensures Corrected(p, e as real / nn as real) == 1.0 <==> p == 1.0 || e == nn
  {
    var m := nn as real;
    DivLe(e as real, m, m);
    if e < nn {
      Chances(m, p, nd as real, e as real);
      Ratio(p, e as real / m);
    }
  }

  lemma Chances(m: real, p: real, nd: real, e: real)
    requires m > 0.0 && p == nd / m && e < m && 2.0 * e <= m + nd
    ensures e / m < 1.0 && 2.0 * (e / m) <= 1.0 + p
  {
    DivLe(e, m, m);
    DivLe(2.0 * e, m + nd, m);
    SumOver(m, nd, 0.0, m);
    SumOver(e, e, 0.0, m);
  }

  lemma ScoreIsCorrected(c: Counts, nn: nat)
    requires c.n > 0 && nn == c.n * c.n
    ensures nn > 0 && c.Score() == Corrected(c.d as real / c.n as real, c.Chance() as real / nn as real)
  {
    var m := SquareCast(c.n);
    ExpectedIsChance(c, m);
  }

  lemma ObservedQuotient(c: Counts, nn: nat, nd: nat)
    requires c.n > 0 && c.d <= c.n && nn == c.n * c.n && nd == c.n * c.d
    ensures nn > 0 && c.d as real / c.n as real == nd as real / nn as real
    ensures c.d as real / c.n as real <= 1.0 && (c.d as real / c.n as real == 1.0 <==> c.d == c.n)
  {
    var m := SquareCast(c.n);
    ObservedShare(c.n, c.d, m);
  }

  /** The score stays in [-1, 1]; it is 1 on full agreement or when chance agreement is certain. */
  lemma ScoreBounds(c: Counts, nn: nat)
    requires c.Sound() && c.n > 0 && nn == c.n * c.n
    ensures -1.0 <= c.Score() <= 1.0
    ensures c.Score() == 1.0 <==> c.d == c.n || c.Chance() == nn
  {
    var nd := c.n * c.d;
    ScoreIsCorrected(c, nn);
    ObservedQuotient(c, nn, nd);
    ChanceGap(c);
    ChanceBound(c);
    CorrectedBounds(c.d as real / c.n as real, c.Chance(), nn, nd);
  }

  lemma ChanceAtMost(c: Counts, nn: nat)
    requires c.Sound() && nn == c.n * c.n
    ensures c.Chance() <= nn
  {
    ChanceGap(c);
  }

  /** The score times what is not chance: e is the chance agreement, k the score. */
  ghost predicate Weighs(k: real, e: nat, nn: nat, nd: nat)
    requires e <= nn
  {
    if e < nn then k * (nn - e) as real == (nd - e) as real else k == 1.0
  }

  lemma CorrectedWeighs(k: real, p: real, e: nat, nn: nat, nd: nat)
    requires nn > 0 && e <= nn && p == nd as real / nn as real && k == Corrected(p, e as real / nn as real)
    ensures Weighs(k, e, nn, nd)
  {
    CorrectedMeans(p, e, nn, nd);
  }

  /** The observed agreement beyond chance, against all that could be: in whole numbers. */
  lemma ScoreMeans(c: Counts, nn: nat, nd: nat, e: nat)
    requires c.n > 0 && c.d <= c.n && nn == c.n * c.n && nd == c.n * c.d && e == c.Chance() <= nn
    ensures Weighs(c.Score(), e, nn, nd)
  {
    ScoreIsCorrected(c, nn);
    ObservedQuotient(c, nn, nd);
    CorrectedWeighs(c.Score(), c.d as real / c.n as real, e, nn, nd);
  }

  lemma CorrectedMeans(p: real, e: nat, nn: nat, nd: nat)
    requires nn > 0 && e <= nn && p == nd as real / nn as real
    ensures e < nn ==> Corrected(p, e as real / nn as real) * (nn - e) as real == (nd - e) as real
    ensures e == nn ==> Corrected(p, e as real / nn as real) == 1.0
  {
    var m, x, y := nn as real, e as real, nd as real;
    DivLe(x, m, m);
    if e < nn {
      Cleared(y, x, m);
      assert (nn - e) as real == m - x && (nd - e) as real == y - x;
    }
  }

  lemma Cleared(y: real, x: real, m: real)
    requires 0.0 <= x < m && x / m < 1.0
    ensures (y / m - x / m) / (1.0 - x / m) * (m - x) == y - x
  {
    var p, q := y / m, x / m;
    var r := (p - q) / (1.0 - q);
    assert r * (1.0 - q) == p - q;
    assert q * m == x && p * m == y;
    assert (1.0 - q) * m == m - x;
    Spread3(r, 1.0 - q, m);
    assert (p - q) * m == y - x;
  }

  lemma Spread3(r: real, a: real, m: real)
    ensures r * (a * m) == (r * a) * m
  {
  }

  function Same(a: Labels, b: Labels): set<string> { set k | k in a && k in b && a[k] == b[k] }

  function Both(a: Labels, b: Labels): set<string> { set k | k in a && k in b }

  function Gave(a: Labels, b: Labels, l: Label): set<string> { set k | k in a && k in b && a[k] == l }

  lemma CountsMean(a: Labels, b: Labels)
    ensures CountsOf(Common(a, b), a, b) ==
            Counts(|Both(a, b)|, |Gave(a, b, A)|, |Gave(a, b, B)|, |Gave(a, b, Tie)|,
                   |Gave(b, a, A)|, |Gave(b, a, B)|, |Gave(b, a, Tie)|, |Same(a, b)|)
  {
    var keys := Common(a, b);
    assert keys == Both(a, b);
    assert Agreeing(keys, a, b) == Same(a, b);
    GaveMeans(keys, a, b, A);
    GaveMeans(keys, a, b, B);
    GaveMeans(keys, a, b, Tie);
  }

  function ByChance(a: Labels, b: Labels): nat {
    |Gave(a, b, A)| * |Gave(b, a, A)| + |Gave(a, b, B)| * |Gave(b, a, B)| + |Gave(a, b, Tie)| * |Gave(b, a, Tie)|
  }

  lemma ChanceMeans(a: Labels, b: Labels)
    ensures CountsOf(Common(a, b), a, b).Chance() == ByChance(a, b)
  {
    CountsMean(a, b);
  }

  /**
   * With n common keys, d of them labelled alike and e the sum over the labels of the product of
   * how often each grader gave it: kappa * (n * n - e) is n * d - e, and kappa is 1 when e is n * n.
   */
  lemma KappaMeans(a: Labels, b: Labels, nn: nat, nd: nat)
    requires Both(a, b) != {} && nn == |Both(a, b)| * |Both(a, b)| && nd == |Both(a, b)| * |Same(a, b)|
    ensures Kappa(a, b).Some? && ByChance(a, b) <= nn
    ensures Weighs(Kappa(a, b).value, ByChance(a, b), nn, nd)
  {
    var c := CountsOf(Common(a, b), a, b);
    CountsMean(a, b);
    ChanceMeans(a, b);
    CountsSound(Common(a, b), a, b);
    assert Common(a, b) == Both(a, b);
    ChanceAtMost(c, nn);
    ScoreMeans(c, nn, nd, ByChance(a, b));
  }

  lemma GaveMeans(keys: set<string>, a: Labels, b: Labels, l: Label)
    requires keys == Common(a, b)
    ensures With(keys, a, l) == Gave(a, b, l) && With(keys, b, l) == Gave(b, a, l)
  {
  }

  /** Kappa exists when some key is common, lies in [-1, 1], and is 1 exactly on full agreement. */
  lemma KappaBounds(a: Labels, b: Labels)
    ensures Kappa(a, b).Some? <==> exists k :: k in a && k in b
    ensures Kappa(a, b).Some? ==> -1.0 <= Kappa(a, b).value <= 1.0
    ensures Kappa(a, b).Some? ==>
      (Kappa(a, b).value == 1.0 <==> forall k :: k in a && k in b ==> a[k] == b[k])
  {
    var keys := Common(a, b);
    assert forall k :: k in keys <==> k in a && k in b;
    if keys != {} {
      var c := CountsOf(keys, a, b);
      CountsSound(keys, a, b);
      ScoreBounds(c, c.n * c.n);
      SubsetSize(Agreeing(keys, a, b), keys);
      if k :| k in keys && a[k] != b[k] {
        assert k !in Agreeing(keys, a, b);
        DisagreementShows(keys, a, b, k);
        ChanceGap(c);
      } else {
        assert Agreeing(keys, a, b) == keys;
      }
    }
  }

  lemma Commute(x: real, y: real)
    ensures x * y == y * x
  {
  }

  lemma SwappedExpected(c: Counts)
    requires c.n > 0
    ensures Counts(c.n, c.b1, c.b2, c.b3, c.a1, c.a2, c.a3, c.d).Expected() == c.Expected()
  {
    Commute(c.a1 as real / c.n as real, c.b1 as real / c.n as real);
    Commute(c.a2 as real / c.n as real, c.b2 as real / c.n as real);
    Commute(c.a3 as real / c.n as real, c.b3 as real / c.n as real);
  }

  /** Which grader comes first does not matter. */
  lemma KappaSymmetric(a: Labels, b: Labels)
    ensures Kappa(a, b) == Kappa(b, a)
  {
    var keys := Common(a, b);
    assert Common(b, a) == keys;
    if keys != {} {
      assert Agreeing(keys, a, b) == Agreeing(keys, b, a);
      SwappedExpected(CountsOf(keys, a, b));
    }
  }
}
