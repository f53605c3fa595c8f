/** Sums of a real-valued function over a finite set, independent of any order. */
module FiniteSums {

  ghost function Sum<T>(s: set<T>, f: T -> real): real
  {
    if s == {} then 0.0
    else
      var x :| x in s;
      f(x) + Sum(s - {x}, f)
  }

  /** Any element may be taken out first. */
  lemma {:induction false} Pick<T>(s: set<T>, f: T -> real, x: T)
    requires x in s
    ensures Sum(s, f) == f(x) + Sum(s - {x}, f)
  {
    var y :| y in s && Sum(s, f) == f(y) + Sum(s - {y}, f);
    if y != x {
      Pick(s - {y}, f, x);
      Pick(s - {x}, f, y);
      assert s - {y} - {x} == s - {x} - {y};
    }
  }

  lemma Grow<T>(s: set<T>, f: T -> real, x: T)
    requires x !in s
    ensures Sum(s + {x}, f) == Sum(s, f) + f(x)
    ensures |s + {x}| == |s| + 1
  {
    Pick(s + {x}, f, x);
    assert s + {x} - {x} == s;
  }

  lemma {:induction false} Congruent<T>(s: set<T>, f: T -> real, g: T -> real)
    requires forall x :: x in s ==> f(x) == g(x)
    ensures Sum(s, f) == Sum(s, g)
  {
    if s != {} {
      var x :| x in s;
      Pick(s, f, x);
      Pick(s, g, x);
      Congruent(s - {x}, f, g);
    }
  }

  lemma {:induction false} Monotone<T>(s: set<T>, f: T -> real, g: T -> real)
    requires forall x :: x in s ==> f(x) <= g(x)
    ensures Sum(s, f) <= Sum(s, g)
  {
    if s != {} {
      var x :| x in s;
      Pick(s, f, x);
      Pick(s, g, x);
      Monotone(s - {x}, f, g);
    }
  }

  function Times(k: real, x: real): real {
    k * x
  }

  lemma TimesSum(k: real, a: real, b: real)
    ensures Times(k, a + b) == Times(k, a) + Times(k, b)
    ensures Times(k, 0.0) == 0.0
  {
  }

  /** A factor common to every term can be taken out of the sum. */
  lemma {:induction false} Scale<T>(s: set<T>, f: T -> real, g: T -> real, k: real)
    requires forall x :: x in s ==> g(x) == Times(k, f(x))
    ensures Sum(s, g) == Times(k, Sum(s, f))
  {
    hide Times;
    if s == {} {
      TimesSum(k, 0.0, 0.0);
    } else {
      var x :| x in s;
      Pick(s, f, x);
      Pick(s, g, x);
      Scale(s - {x}, f, g, k);
      TimesSum(k, f(x), Sum(s - {x}, f));
    }
  }

  lemma {:induction false} Constant<T>(s: set<T>, f: T -> real, k: real)
    requires forall x :: x in s ==> f(x) == k
    ensures Sum(s, f) == k * |s| as real
  {
    if s != {} {
      var x :| x in s;
      Pick(s, f, x);
      Constant(s - {x}, f, k);
      assert |s| == |s - {x}| + 1;
    }
  }

  /** Changing the function at one element changes the sum by that element's difference. */
  lemma ChangeOne<T>(s: set<T>, f: T -> real, g: T -> real, x: T)
    requires x in s
    requires forall y :: y in s && y != x ==> f(y) == g(y)
    ensures Sum(s, g) == Sum(s, f) - f(x) + g(x)
  {
    Pick(s, f, x);
    Pick(s, g, x);
    Congruent(s - {x}, f, g);
  }

  lemma {:induction false} Positive<T>(s: set<T>, f: T -> real)
    requires s != {}
    requires forall x :: x in s ==> f(x) > 0.0
    ensures Sum(s, f) > 0.0
  {
    var x :| x in s;
    Pick(s, f, x);
    if s - {x} != {} {
      Positive(s - {x}, f);
    }
  }

  // ----- Plain and weighted averages

  ghost function Average<T>(s: set<T>, f: T -> real): real
    requires s != {}
  {
    Sum(s, f) / |s| as real
  }

  ghost function Product<T>(f: T -> real, w: T -> real): T -> real {
    x => f(x) * w(x)
  }

  ghost function WeightedAverage<T>(s: set<T>, f: T -> real, w: T -> real): real
    requires Sum(s, w) != 0.0
  {
    Sum(s, Product(f, w)) / Sum(s, w)
  }

  lemma DivideMonotone(x: real, y: real, d: real)
    requires x <= y && d > 0.0
    ensures x / d <= y / d
  {
    assert y / d - x / d == (y - x) / d;
  }

  lemma QuotientBetween(x: real, d: real, lo: real, hi: real)
    requires d > 0.0
    requires lo * d <= x <= hi * d
    ensures lo <= x / d <= hi
  {
    DivideMonotone(lo * d, x, d);
    DivideMonotone(x, hi * d, d);
    assert lo * d / d == lo && hi * d / d == hi;
  }

  lemma TimesMonotone(x: real, y: real, n: real)
    requires x <= y && n >= 0.0
    ensures x * n <= y * n
  {
  }

  lemma AverageMonotone<T>(s: set<T>, f: T -> real, g: T -> real)
    requires s != {}
    requires forall x :: x in s ==> f(x) <= g(x)
    ensures Average(s, f) <= Average(s, g)
  {
    Monotone(s, f, g);
    DivideMonotone(Sum(s, f), Sum(s, g), |s| as real);
  }

  lemma AverageBetween<T>(s: set<T>, f: T -> real, lo: real, hi: real)
    requires s != {}
    requires forall x :: x in s ==> lo <= f(x) <= hi
    ensures lo <= Average(s, f) <= hi
  {
    var low: T -> real, high: T -> real := (_ => lo), (_ => hi);
    Monotone(s, low, f);
    Monotone(s, f, high);
    Constant(s, low, lo);
    Constant(s, high, hi);
    QuotientBetween(Sum(s, f), |s| as real, lo, hi);
  }

  lemma WeightedAverageMonotone<T>(s: set<T>, f: T -> real, g: T -> real, w: T -> real)
    requires Sum(s, w) > 0.0
    requires forall x :: x in s ==> w(x) >= 0.0
    requires forall x :: x in s ==> f(x) <= g(x)
    ensures WeightedAverage(s, f, w) <= WeightedAverage(s, g, w)
  {
    forall x | x in s ensures Product(f, w)(x) <= Product(g, w)(x) {
      TimesMonotone(f(x), g(x), w(x));
    }
    Monotone(s, Product(f, w), Product(g, w));
    DivideMonotone(Sum(s, Product(f, w)), Sum(s, Product(g, w)), Sum(s, w));
  }

  lemma SumBetween<T>(s: set<T>, w: T -> real, g: T -> real, lo: real, hi: real)
    requires forall x :: x in s ==> lo * w(x) <= g(x) <= hi * w(x)
    ensures lo * Sum(s, w) <= Sum(s, g) <= hi * Sum(s, w)
  {
    var low: T -> real, high: T -> real := (x => lo * w(x)), (x => hi * w(x));
    Monotone(s, low, g);
    Monotone(s, g, high);
    Scale(s, w, low, lo);
    Scale(s, w, high, hi);
  }

  lemma ProductBetween<T>(f: T -> real, w: T -> real, x: T, lo: real, hi: real)
    requires w(x) >= 0.0
    requires lo <= f(x) <= hi
    ensures lo * w(x) <= Product(f, w)(x) <= hi * w(x)
  {
    TimesMonotone(lo, f(x), w(x));
    TimesMonotone(f(x), hi, w(x));
  }

  lemma WeightedAverageBetween<T>(s: set<T>, f: T -> real, w: T -> real, lo: real, hi: real)
    requires Sum(s, w) > 0.0
    requires forall x :: x in s ==> w(x) >= 0.0
    requires forall x :: x in s ==> lo <= f(x) <= hi
    ensures lo <= WeightedAverage(s, f, w) <= hi
  {
    hide Sum, Product;
    forall x | x in s ensures lo * w(x) <= Product(f, w)(x) <= hi * w(x) {
      ProductBetween(f, w, x, lo, hi);
    }
    SumBetween(s, w, Product(f, w), lo, hi);
    QuotientBetween(Sum(s, Product(f, w)), Sum(s, w), lo, hi);
  }

  lemma WeightedAverageCongruent<T>(s: set<T>, f: T -> real, g: T -> real, w: T -> real)
    requires Sum(s, w) != 0.0
    requires forall x :: x in s ==> f(x) == g(x)
    ensures WeightedAverage(s, f, w) == WeightedAverage(s, g, w)
  {
    Congruent(s, Product(f, w), Product(g, w));
  }

  // ----- Which way an average moves

  /** From `from` to `to` is the way from `a` to `b`: up, down or not at all. */
  predicate SameWay(from: real, to: real, a: real, b: real) {
    && (to < from <==> b < a)
    && (to > from <==> b > a)
  }

  lemma SameWayThrough(x: real, x': real, y: real, y': real, a: real, b: real)
    requires SameWay(x, x', y, y') && SameWay(y, y', a, b)
    ensures SameWay(x, x', a, b)
  {
  }

  lemma SignOfProduct(k: real, d: real)
    requires k > 0.0
    ensures (k * d < 0.0 <==> d < 0.0) && (k * d > 0.0 <==> d > 0.0)
  {
  }

  /** A quotient whose numerator and denominator grow by `v * k` and `k` moves towards `v`. */
  lemma QuotientTowards(x: real, n: real, x': real, n': real, v: real, k: real, vk: real)
    requires n > 0.0 && k > 0.0 && n' == n + k && vk == Times(k, v) && x' == x + vk
    ensures SameWay(x / n, x' / n', x / n, v)
  {
    var q, q' := x / n, x' / n';
    assert x == q * n && x' == q' * n';
    assert n' * (q' - q) == k * (v - q);
    SignOfProduct(n', q' - q);
    SignOfProduct(k, v - q);
  }

  /** A quotient whose numerator alone changes, from a term `a * k` to `b * k`, moves the way of `a` to `b`. */
  lemma QuotientBy(x: real, x': real, n: real, a: real, b: real, k: real, ak: real, bk: real)
    requires n > 0.0 && k > 0.0 && ak == Times(k, a) && bk == Times(k, b) && x' == x - ak + bk
    ensures SameWay(x / n, x' / n, a, b)
  {
    var q, q' := x / n, x' / n;
    assert x == q * n && x' == q' * n;
    assert n * (q' - q) == k * (b - a);
    SignOfProduct(n, q' - q);
    SignOfProduct(k, b - a);
  }

  lemma AverageChange<T>(s: set<T>, f: T -> real, g: T -> real, x: T)
    requires x in s && forall y :: y in s && y != x ==> f(y) == g(y)
    ensures SameWay(Average(s, f), Average(s, g), f(x), g(x))
  {
    ChangeOne(s, f, g, x);
    hide Sum, SameWay;
    QuotientBy(Sum(s, f), Sum(s, g), |s| as real, f(x), g(x), 1.0, f(x), g(x));
  }

  lemma AverageGrow<T>(s: set<T>, f: T -> real, g: T -> real, x: T)
    requires x !in s && s != {} && forall y :: y in s ==> f(y) == g(y)
    ensures SameWay(Average(s, f), Average(s + {x}, g), Average(s, f), g(x))
  {
    Congruent(s, f, g);
    Grow(s, g, x);
    hide Sum, SameWay;
    QuotientTowards(Sum(s, f), |s| as real, Sum(s + {x}, g), |s + {x}| as real, g(x), 1.0, g(x));
  }

  lemma WeightedChange<T>(s: set<T>, f: T -> real, g: T -> real, w: T -> real, x: T)
    requires x in s && Sum(s, w) > 0.0 && w(x) > 0.0
    requires forall y :: y in s && y != x ==> f(y) == g(y)
    ensures SameWay(WeightedAverage(s, f, w), WeightedAverage(s, g, w), f(x), g(x))
  {
    var p, q := Product(f, w), Product(g, w);
    ChangeOne(s, p, q, x);
    ProductAt(f, w, x);
    ProductAt(g, w, x);
    hide Sum, SameWay, Product, Times;
    QuotientBy(Sum(s, p), Sum(s, q), Sum(s, w), f(x), g(x), w(x), p(x), q(x));
  }

  lemma ProductAt<T>(f: T -> real, w: T -> real, x: T)
    ensures Product(f, w)(x) == Times(w(x), f(x))
  {
  }

  lemma WeightedGrow<T>(s: set<T>, f: T -> real, g: T -> real, w: T -> real, x: T)
    requires x !in s && Sum(s, w) > 0.0 && w(x) > 0.0 && Sum(s + {x}, w) > 0.0
    requires forall y :: y in s ==> f(y) == g(y)
    ensures SameWay(WeightedAverage(s, f, w), WeightedAverage(s + {x}, g, w), WeightedAverage(s, f, w), g(x))
  {
    var p, q := Product(f, w), Product(g, w);
    var more := s + {x};
    assert Sum(more, q) == Sum(s, p) + q(x) by {
      Congruent(s, p, q);
      Grow(s, q, x);
    }
    assert Sum(more, w) == Sum(s, w) + w(x) by {
      Grow(s, w, x);
    }
    ProductAt(g, w, x);
    hide Sum, SameWay, Product, Times;
    QuotientTowards(Sum(s, p), Sum(s, w), Sum(more, q), Sum(more, w), g(x), w(x), q(x));
  }

  lemma AverageOfOne<T>(f: T -> real, x: T)
    ensures Average({x}, f) == f(x)
  {
    Pick({x}, f, x);
    assert {x} - {x} == {};
  }

  lemma WeightedAverageOfOne<T>(f: T -> real, w: T -> real, x: T)
    requires w(x) > 0.0
    ensures Sum({x}, w) > 0.0 && WeightedAverage({x}, f, w) == f(x)
  {
    Pick({x}, w, x);
    Pick({x}, Product(f, w), x);
    assert {x} - {x} == {};
    assert f(x) * w(x) / w(x) == f(x);
  }

  /**
   An average with one member added, or changed, moves the way of `mark` to `own`: `own` is what a
   new member brings, and the mark is then the average itself; a changed member moves that way.
   */
  lemma AverageMoves<T>(s: set<T>, f: T -> real, g: T -> real, x: T, mark: real, own: real)
    requires forall y :: y in s && y != x ==> f(y) == g(y)
    requires x in s ==> SameWay(f(x), g(x), mark, own)
    requires x !in s ==> g(x) == own && (s != {} ==> mark == Average(s, f))
    ensures if s == {} then Average(s + {x}, g) == own else SameWay(Average(s, f), Average(s + {x}, g), mark, own)
  {
    hide Sum, SameWay, Average;
    if s == {} {
      assert s + {x} == {x};
      AverageOfOne(g, x);
    } else if x in s {
      assert s + {x} == s;
      AverageChange(s, f, g, x);
      SameWayThrough(Average(s, f), Average(s, g), f(x), g(x), mark, own);
    } else {
      AverageGrow(s, f, g, x);
    }
  }

  lemma WeightedAverageMoves<T>(s: set<T>, f: T -> real, g: T -> real, w: T -> real, x: T, mark: real, own: real)
    requires w(x) > 0.0 && Sum(s + {x}, w) > 0.0 && (s != {} ==> Sum(s, w) > 0.0)
    requires forall y :: y in s && y != x ==> f(y) == g(y)
    requires x in s ==> SameWay(f(x), g(x), mark, own)
    requires x !in s ==> g(x) == own && (s != {} ==> mark == WeightedAverage(s, f, w))
    ensures if s == {} then WeightedAverage(s + {x}, g, w) == own
            else SameWay(WeightedAverage(s, f, w), WeightedAverage(s + {x}, g, w), mark, own)
  {
    hide Sum, SameWay, WeightedAverage;
    if s == {} {
      assert s + {x} == {x};
      WeightedAverageOfOne(g, w, x);
    } else if x in s {
      assert s + {x} == s;
      WeightedChange(s, f, g, w, x);
      SameWayThrough(WeightedAverage(s, f, w), WeightedAverage(s, g, w), f(x), g(x), mark, own);
    } else {
      WeightedGrow(s, f, g, w, x);
    }
  }
}
