/**
 Exactly which price routes are right. Folding a route multiplies or divides by each price, so the
 result is a product of powers of the currencies' values; the exponents depend on the pairs alone,
 and a route is right for all values exactly when they cancel to base over quote.
 */
module Routes {
  import opened Prelude
  import opened Oracle

  // ------------------------------------------------------------------ exponents of a route

  /** The exponent of `c` in the price of one pair. */
  function Delta(p: Pair, c: Currency): int {
    (if c == p.base then 1 else 0) - (if c == p.quote then 1 else 0)
  }

  /** Whether `reduce` inverts its left side, or its right side: -1 for yes, 1 for no. */
  function LeftSign(l: Pair, r: Pair): int {
    if l.quote != r.quote && (l.base == r.base || l.base == r.quote) then -1 else 1
  }

  function RightSign(l: Pair, r: Pair): int {
    if l.quote == r.quote || (l.base != r.base && l.base == r.quote) then -1 else 1
  }

  /** The exponent of `c` that folding the route collects. */
  function Exponent(pairs: seq<Pair>, c: Currency): int
    requires pairs != []
  {
    if |pairs| == 1 then Delta(pairs[0], c)
    else
      var init, last := pairs[..|pairs| - 1], pairs[|pairs| - 1];
      LeftSign(FoldPairs(init), last) * Exponent(init, c) + RightSign(FoldPairs(init), last) * Delta(last, c)
  }

  /** Sign of the final re-orientation towards the target. */
  function Orientation(target: Pair, pairs: seq<Pair>): int
    requires pairs != []
  {
    if FoldPairs(pairs).base == target.base then 1 else -1
  }

  function AddCurrency(cs: seq<Currency>, c: Currency): seq<Currency> {
    if c in cs then cs else cs + [c]
  }

  function AddPair(cs: seq<Currency>, p: Pair): seq<Currency> {
    AddCurrency(AddCurrency(cs, p.base), p.quote)
  }

  /** The currencies of a route and its target, each once. */
  function Mentioned(target: Pair, pairs: seq<Pair>): seq<Currency> {
    if pairs == [] then AddPair([], target)
    else AddPair(Mentioned(target, pairs[..|pairs| - 1]), pairs[|pairs| - 1])
  }

  predicate FoldsTo(target: Pair, pairs: seq<Pair>)
    requires pairs != []
  {
    FoldPairs(pairs) == target || FoldPairs(pairs) == target.Invert()
  }

  /** Every currency cancels, but for the base above and the quote below. */
  predicate Cancels(target: Pair, pairs: seq<Pair>)
    requires pairs != []
  {
    forall c :: c in Mentioned(target, pairs) ==>
      Orientation(target, pairs) * Exponent(pairs, c) == Delta(target, c)
  }

  // ------------------------------------------------------------------ powers

  function Pow(x: real, n: int): (r: real)
    requires x > 0.0
    ensures r > 0.0
    decreases if n >= 0 then n else -n
  {
    if n == 0 then 1.0 else if n > 0 then x * Pow(x, n - 1) else Pow(x, n + 1) / x
  }

  lemma {:induction false} PowNext(x: real, n: int)
    requires x > 0.0
    ensures Pow(x, n + 1) == x * Pow(x, n)
  {
  }

  lemma {:induction false} PowSum(x: real, a: int, b: int)
    requires x > 0.0
    ensures Pow(x, a + b) == Pow(x, a) * Pow(x, b)
    decreases if b >= 0 then b else -b
  {
    hide Pow;
    PowZero(x);
    var p := Pow(x, a);
    if b > 0 {
      PowSum(x, a, b - 1);
      assert a + (b - 1) + 1 == a + b;
      PowNext(x, a + (b - 1));
      PowNext(x, b - 1);
      Reorder(x, p, Pow(x, b - 1));
    } else if b < 0 {
      PowSum(x, a, b + 1);
      assert a + (b + 1) == (a + b) + 1;
      PowNext(x, a + b);
      PowNext(x, b);
      var q := Pow(x, b);
      Reorder(x, p, q);
      assert x * Pow(x, a + b) == p * Pow(x, b + 1);
      assert Pow(x, b + 1) == x * q;
      DropFactor(x, Pow(x, a + b), p * q);
    }
  }

  lemma {:induction false} PowZero(x: real)
    requires x > 0.0
    ensures Pow(x, 0) == 1.0
  {
  }

  lemma {:induction false} Reorder(x: real, p: real, q: real)
    ensures p * (x * q) == x * (p * q)
  {
  }

  lemma {:induction false} DropFactor(x: real, p: real, q: real)
    requires x > 0.0 && x * p == x * q
    ensures p == q
  {
    CancelFactor(p, q, x);
  }

  lemma {:induction false} PowOfOne(n: int)
    ensures Pow(1.0, n) == 1.0
    decreases if n >= 0 then n else -n
  {
    if n > 0 {
      PowOfOne(n - 1);
    } else if n < 0 {
      PowOfOne(n + 1);
    }
  }

  lemma {:induction false} PowOfTwoGrows(a: int, b: int)
    requires a < b
    ensures Pow(2.0, a) < Pow(2.0, b)
    decreases b - a
  {
    PowNext(2.0, b - 1);
    if a < b - 1 {
      PowOfTwoGrows(a, b - 1);
    }
  }

  // ------------------------------------------------------------------ products of powers

  type Exponents = Currency -> int

  ghost function Monomial(v: Values, e: Exponents, cs: seq<Currency>): (m: real)
    requires Positive(v)
    ensures m > 0.0
  {
    if cs == [] then 1.0
    else
      var c := cs[|cs| - 1];
      Times(Monomial(v, e, cs[..|cs| - 1]), Pow(v(c), e(c)))
  }

  function Times(a: real, b: real): (r: real)
    ensures a > 0.0 && b > 0.0 ==> r > 0.0
  {
    a * b
  }

  lemma {:induction false} Interchange(a: real, b: real, c: real, d: real)
    ensures Times(Times(a, b), Times(c, d)) == Times(Times(a, c), Times(b, d))
  {
    calc {
      (a * b) * (c * d);
      a * (b * (c * d));
      a * (c * (b * d));
      (a * c) * (b * d);
    }
  }

  lemma {:induction false} MonomialSum(v: Values, e: Exponents, f: Exponents, g: Exponents, cs: seq<Currency>)
    requires Positive(v) && forall c :: g(c) == e(c) + f(c)
    ensures Monomial(v, g, cs) == Times(Monomial(v, e, cs), Monomial(v, f, cs))
  {
    hide Times, Pow;
    if cs == [] {
      TimesOne(1.0);
    } else {
      var init, c := cs[..|cs| - 1], cs[|cs| - 1];
      MonomialSum(v, e, f, g, init);
      PowSumTimes(v(c), e(c), f(c));
      Interchange(Monomial(v, e, init), Monomial(v, f, init), Pow(v(c), e(c)), Pow(v(c), f(c)));
      assert Pow(v(c), g(c)) == Times(Pow(v(c), e(c)), Pow(v(c), f(c)));
      assert Monomial(v, g, cs) == Times(Monomial(v, g, init), Pow(v(c), g(c)));
    }
  }

  lemma {:induction false} TimesOne(a: real)
    ensures Times(a, 1.0) == a == Times(1.0, a)
  {
  }

  lemma {:induction false} PowSumTimes(x: real, a: int, b: int)
    requires x > 0.0
    ensures Pow(x, a + b) == Times(Pow(x, a), Pow(x, b))
  {
    hide Pow;
    PowSum(x, a, b);
  }

  lemma {:induction false} MonomialZero(v: Values, e: Exponents, cs: seq<Currency>)
    requires Positive(v) && forall c :: c in cs ==> e(c) == 0
    ensures Monomial(v, e, cs) == 1.0
  {
    if cs != [] {
      MonomialZero(v, e, cs[..|cs| - 1]);
    }
  }

  lemma {:induction false} MonomialNegate(v: Values, e: Exponents, f: Exponents, cs: seq<Currency>)
    requires Positive(v) && forall c :: f(c) == -e(c)
    ensures Monomial(v, f, cs) == 1.0 / Monomial(v, e, cs)
  {
    var zero: Exponents := c => 0;
    MonomialSum(v, e, f, zero, cs);
    MonomialZero(v, zero, cs);
    Reciprocal(Monomial(v, e, cs), Monomial(v, f, cs));
  }

  lemma {:induction false} Reciprocal(a: real, b: real)
    requires a > 0.0 && Times(a, b) == 1.0
    ensures b == 1.0 / a
  {
    CancelFactor(b, 1.0 / a, a);
  }

  predicate Distinct(cs: seq<Currency>) {
    forall i, j :: 0 <= i < j < |cs| ==> cs[i] != cs[j]
  }

  lemma {:induction false} MonomialSame(v: Values, e: Exponents, f: Exponents, cs: seq<Currency>)
    requires Positive(v) && forall c :: c in cs ==> e(c) == f(c)
    ensures Monomial(v, e, cs) == Monomial(v, f, cs)
  {
    if cs != [] {
      MonomialSame(v, e, f, cs[..|cs| - 1]);
    }
  }

  /** A single currency. */
  lemma {:induction false} MonomialUnit(v: Values, c: Currency, e: Exponents, cs: seq<Currency>)
    requires Positive(v) && Distinct(cs) && forall x :: e(x) == if x == c then 1 else 0
    ensures Monomial(v, e, cs) == if c in cs then v(c) else 1.0
  {
    if cs != [] {
      var init, last := cs[..|cs| - 1], cs[|cs| - 1];
      assert cs == init + [last];
      MonomialUnit(v, c, e, init);
      assert Pow(v(last), 0) == 1.0 && Pow(v(last), 1) == v(last) * Pow(v(last), 0) == v(last);
      TimesOne(Monomial(v, e, init));
      TimesOne(v(last));
    }
  }

  /** The price of one pair. */
  lemma {:induction false} MonomialPair(v: Values, p: Pair, e: Exponents, cs: seq<Currency>)
    requires Positive(v) && Distinct(cs) && p.base in cs && p.quote in cs && forall c :: e(c) == Delta(p, c)
    ensures Monomial(v, e, cs) == v(p.base) / v(p.quote)
  {
    var up: Exponents := c => if c == p.base then 1 else 0;
    var one: Exponents := c => if c == p.quote then 1 else 0;
    var down: Exponents := c => -(if c == p.quote then 1 else 0);
    MonomialUnit(v, p.base, up, cs);
    MonomialUnit(v, p.quote, one, cs);
    MonomialNegate(v, one, down, cs);
    MonomialSum(v, up, down, e, cs);
    TimesReciprocal(v(p.base), v(p.quote));
  }

  lemma {:induction false} TimesReciprocal(a: real, b: real)
    requires b > 0.0
    ensures Times(a, 1.0 / b) == a / b
  {
  }

  /** Doubling the value of one currency reads off its exponent. */
  lemma {:induction false} MonomialProbe(v: Values, c: Currency, e: Exponents, cs: seq<Currency>)
    requires Positive(v) && Distinct(cs) && forall x :: v(x) == if x == c then 2.0 else 1.0
    ensures Monomial(v, e, cs) == if c in cs then Pow(2.0, e(c)) else 1.0
  {
    if cs != [] {
      var init, last := cs[..|cs| - 1], cs[|cs| - 1];
      assert cs == init + [last];
      MonomialProbe(v, c, e, init);
      PowOfOne(e(last));
      TimesOne(Monomial(v, e, init));
      TimesOne(Pow(2.0, e(last)));
    }
  }

  // ------------------------------------------------------------------ the price of a route

  /** The feeds report true prices for the pairs of the route. */
  ghost function Feeds(pairs: seq<Pair>, v: Values): (ps: seq<Priced>)
    requires Positive(v)
    ensures |ps| == |pairs| && NonZero(ps) && Pairs(ps) == pairs && AllConsistent(ps, v)
  {
    var ps := seq(|pairs|, i requires 0 <= i < |pairs| => Priced(pairs[i], v(pairs[i].base) / v(pairs[i].quote)));
    assert forall i :: 0 <= i < |ps| ==> ps[i].price > 0.0 by {
      forall i | 0 <= i < |ps| ensures ps[i].price > 0.0 {
        RatioInverse(v(pairs[i].base), v(pairs[i].quote));
      }
    }
    ps
  }

  /** There is only one way for feeds to agree with a valuation. */
  lemma {:induction false} FeedsAreForced(ps: seq<Priced>, v: Values)
    requires Positive(v) && AllConsistent(ps, v)
    ensures ps == Feeds(Pairs(ps), v)
  {
    assert forall i :: 0 <= i < |ps| ==> ps[i] == Feeds(Pairs(ps), v)[i];
  }

  function Signed(x: real, sign: int): real
    requires x != 0.0
  {
    if sign == 1 then x else 1.0 / x
  }

  lemma {:induction false} ReduceIs(l: Priced, r: Priced)
    requires l.price != 0.0 && r.price != 0.0
    ensures Reduce(l, r).pair == ReducePairs(l.pair, r.pair)
    ensures Reduce(l, r).price
         == Times(Signed(l.price, LeftSign(l.pair, r.pair)), Signed(r.price, RightSign(l.pair, r.pair)))
  {
  }

  lemma {:induction false} SignedMonomial(v: Values, e: Exponents, f: Exponents, sign: int, cs: seq<Currency>)
    requires Positive(v) && (sign == 1 || sign == -1) && forall c :: f(c) == sign * e(c)
    ensures Monomial(v, f, cs) == Signed(Monomial(v, e, cs), sign)
  {
    if sign == 1 {
      MonomialSame(v, e, f, cs);
    } else {
      MonomialNegate(v, e, f, cs);
    }
  }

  ghost predicate Covers(cs: seq<Currency>, pairs: seq<Pair>) {
    Distinct(cs) && forall i :: 0 <= i < |pairs| ==> pairs[i].base in cs && pairs[i].quote in cs
  }

  function ExponentsOf(pairs: seq<Pair>): Exponents
    requires pairs != []
  {
    c => Exponent(pairs, c)
  }

  /** The folded price is the product of powers that the pairs determine. */
  lemma {:induction false} FoldIsMonomial(pairs: seq<Pair>, v: Values, cs: seq<Currency>)
    requires pairs != [] && Positive(v) && Covers(cs, pairs)
    ensures Fold(Feeds(pairs, v)).pair == FoldPairs(pairs)
    ensures Fold(Feeds(pairs, v)).price == Monomial(v, ExponentsOf(pairs), cs)
  {
    var ps := Feeds(pairs, v);
    FoldKeepsPairs(ps);
    var n := |pairs| - 1;
    var last: Exponents := c => Delta(pairs[n], c);
    MonomialPair(v, pairs[n], last, cs);
    if n == 0 {
      MonomialSame(v, last, ExponentsOf(pairs), cs);
    } else {
      var init := pairs[..n];
      FoldIsMonomial(init, v, cs);
      assert ps[..n] == Feeds(init, v);
      FoldStep(pairs, v, cs, last);
    }
  }

  lemma {:induction false} FoldStep(pairs: seq<Pair>, v: Values, cs: seq<Currency>, last: Exponents)
    requires |pairs| > 1 && Positive(v)
    requires var n := |pairs| - 1;
             && (forall c :: last(c) == Delta(pairs[n], c))
             && Monomial(v, last, cs) == v(pairs[n].base) / v(pairs[n].quote)
             && Feeds(pairs, v)[..n] == Feeds(pairs[..n], v)
             && Fold(Feeds(pairs[..n], v)).pair == FoldPairs(pairs[..n])
             && Fold(Feeds(pairs[..n], v)).price == Monomial(v, ExponentsOf(pairs[..n]), cs)
    ensures Fold(Feeds(pairs, v)).price == Monomial(v, ExponentsOf(pairs), cs)
  {
    hide Reduce, LeftSign, RightSign, Signed, Times, ReducePairs;
    var n := |pairs| - 1;
    var init := pairs[..n];
    var ls, rs := LeftSign(FoldPairs(init), pairs[n]), RightSign(FoldPairs(init), pairs[n]);
    SignsAreUnits(FoldPairs(init), pairs[n]);
    var left: Exponents := c => ls * Exponent(init, c);
    var right: Exponents := c => rs * Delta(pairs[n], c);
    SignedMonomial(v, ExponentsOf(init), left, ls, cs);
    SignedMonomial(v, last, right, rs, cs);
    MonomialSum(v, left, right, ExponentsOf(pairs), cs);
    ReduceIs(Fold(Feeds(init, v)), Feeds(pairs, v)[n]);
  }

  lemma {:induction false} SignsAreUnits(l: Pair, r: Pair)
    ensures (LeftSign(l, r) == 1 || LeftSign(l, r) == -1) && (RightSign(l, r) == 1 || RightSign(l, r) == -1)
  {
  }

  lemma {:induction false} MentionedCovers(target: Pair, pairs: seq<Pair>)
    ensures Covers(Mentioned(target, pairs), pairs + [target])
  {
    if pairs != [] {
      MentionedCovers(target, pairs[..|pairs| - 1]);
      var all := pairs + [target];
      forall i | 0 <= i < |all|
        ensures all[i].base in Mentioned(target, pairs) && all[i].quote in Mentioned(target, pairs)
      {
        var before := pairs[..|pairs| - 1] + [target];
        assert i < |pairs| - 1 ==> before[i] == all[i];
        assert i == |pairs| ==> before[|pairs| - 1] == all[i];
      }
    }
  }

  // ------------------------------------------------------------------ exactly the right routes

  /** Whatever the currencies are worth, true feeds give the target's true price. */
  ghost predicate AlwaysRight(target: Pair, pairs: seq<Pair>) {
    forall v: Values :: Positive(v) ==> RightAt(target, pairs, v)
  }

  ghost predicate RightAt(target: Pair, pairs: seq<Pair>, v: Values)
    requires Positive(v)
  {
    GetPrice(target, Feeds(pairs, v)) == Some(Priced(target, v(target.base) / v(target.quote)))
  }

  /** At one valuation: the pairs fold to the target, and the product of powers has its value. */
  lemma {:induction false} RightAtIff(target: Pair, pairs: seq<Pair>, v: Values, oriented: Exponents)
    requires pairs != [] && Positive(v)
    requires forall c :: oriented(c) == Orientation(target, pairs) * Exponent(pairs, c)
    ensures RightAt(target, pairs, v) <==>
              FoldsTo(target, pairs)
              && Monomial(v, oriented, Mentioned(target, pairs)) == v(target.base) / v(target.quote)
  {
    var cs := Mentioned(target, pairs);
    MentionedCovers(target, pairs);
    assert Covers(cs, pairs) by {
      assert forall i :: 0 <= i < |pairs| ==> (pairs + [target])[i] == pairs[i];
    }
    FoldIsMonomial(pairs, v, cs);
    SignedMonomial(v, ExponentsOf(pairs), oriented, Orientation(target, pairs), cs);
  }

  /** Main result, for every route: it is right for all values exactly when its pairs fold to the
      target or its inverse and every exponent cancels. Both can be read off the configuration. */
  lemma {:induction false} RouteRightIff(target: Pair, pairs: seq<Pair>)
    ensures AlwaysRight(target, pairs) <==> pairs != [] && FoldsTo(target, pairs) && Cancels(target, pairs)
  {
    var flat: Values := c => 1.0;
    assert Positive(flat);
    if pairs == [] {
      assert !RightAt(target, pairs, flat);
    } else {
      var oriented: Exponents := c => Orientation(target, pairs) * Exponent(pairs, c);
      RightAtIff(target, pairs, flat, oriented);
      if FoldsTo(target, pairs) && Cancels(target, pairs) {
        forall v: Values | Positive(v) ensures RightAt(target, pairs, v) {
          CancelledIsRight(target, pairs, v, oriented);
        }
      }
      if AlwaysRight(target, pairs) {
        assert RightAt(target, pairs, flat);
        forall c | c in Mentioned(target, pairs) ensures oriented(c) == Delta(target, c) {
          RightCancels(target, pairs, c, oriented);
        }
      }
    }
  }

  lemma {:induction false} CancelledIsRight(target: Pair, pairs: seq<Pair>, v: Values, oriented: Exponents)
    requires pairs != [] && Positive(v) && FoldsTo(target, pairs) && Cancels(target, pairs)
    requires forall c :: oriented(c) == Orientation(target, pairs) * Exponent(pairs, c)
    ensures RightAt(target, pairs, v)
  {
    var cs := Mentioned(target, pairs);
    MentionedCovers(target, pairs);
    assert (pairs + [target])[|pairs|] == target;
    var delta: Exponents := c => Delta(target, c);
    MonomialPair(v, target, delta, cs);
    MonomialSame(v, oriented, delta, cs);
    RightAtIff(target, pairs, v, oriented);
  }

  lemma {:induction false} RightCancels(target: Pair, pairs: seq<Pair>, c: Currency, oriented: Exponents)
    requires pairs != [] && AlwaysRight(target, pairs) && c in Mentioned(target, pairs)
    requires forall x :: oriented(x) == Orientation(target, pairs) * Exponent(pairs, x)
    ensures oriented(c) == Delta(target, c)
  {
    var cs := Mentioned(target, pairs);
    MentionedCovers(target, pairs);
    assert (pairs + [target])[|pairs|] == target;
    var v: Values := x => if x == c then 2.0 else 1.0;
    var delta: Exponents := x => Delta(target, x);
    assert Positive(v) && RightAt(target, pairs, v);
    RightAtIff(target, pairs, v, oriented);
    MonomialPair(v, target, delta, cs);
    MonomialProbe(v, c, oriented, cs);
    MonomialProbe(v, c, delta, cs);
    if oriented(c) < delta(c) {
      PowOfTwoGrows(oriented(c), delta(c));
    } else if oriented(c) > delta(c) {
      PowOfTwoGrows(delta(c), oriented(c));
    }
  }

  /** Chained routes cancel by themselves, so for them folding to the target is enough. */
  lemma {:induction false} ChainedCancels(pairs: seq<Pair>, c: Currency)
    requires pairs != [] && Chained(pairs)
    ensures Exponent(pairs, c) == Delta(FoldPairs(pairs), c)
  {
    if |pairs| > 1 {
      ChainedCancels(pairs[..|pairs| - 1], c);
    }
  }

  lemma {:induction false} ChainedRightIff(target: Pair, pairs: seq<Pair>)
    requires pairs != [] && Chained(pairs)
    ensures AlwaysRight(target, pairs) <==> FoldsTo(target, pairs)
  {
    RouteRightIff(target, pairs);
    forall c ensures Exponent(pairs, c) == Delta(FoldPairs(pairs), c) {
      ChainedCancels(pairs, c);
    }
  }

  // ------------------------------------------------------------------ routes that pass validation

  /** A route that passes validation and returns the configured pair at a wrong price: with true
      feeds it reports 2 where the true price is 1. */
  lemma {:induction false} ValidRouteWrongPrice(a: Currency, b: Currency, c: Currency, d: Currency, v: Values)
    requires Distinct([a, b, c, d]) && Positive(v) && v(a) == 1.0 && v(b) == 2.0 && v(c) == 1.0 && v(d) == 1.0
    ensures var target, route := Pair(a, d), [Pair(a, b), Pair(b, c), Pair(b, d)];
            && ValidatePath(target, route) == PathOk
            && GetPrice(target, Feeds(route, v)) == Some(Priced(target, 2.0))
            && v(target.base) / v(target.quote) == 1.0
  {
    var cs := [a, b, c, d];
    assert cs[0] != cs[1] && cs[0] != cs[2] && cs[0] != cs[3] && cs[1] != cs[2] && cs[1] != cs[3] && cs[2] != cs[3];
    var target, route := Pair(a, d), [Pair(a, b), Pair(b, c), Pair(b, d)];
    ConnectedWindows(route);
    var ps := Feeds(route, v);
    assert ps == [Priced(route[0], 0.5), Priced(route[1], 2.0), Priced(route[2], 2.0)];
    assert ps[..2] == [ps[0], ps[1]] && ps[..2][..1] == [ps[0]];
    assert Fold(ps[..2][..1]) == ps[0];
    assert Fold(ps[..2]) == Priced(Pair(a, c), 1.0);
    assert Fold(ps) == Priced(Pair(a, d), 2.0);
  }

  /** And a route that is not chained and still always right, because its ratios cancel. */
  lemma {:induction false} UnchainedRouteRight(a: Currency, s: Currency, u: Currency, d: Currency)
    requires Distinct([a, s, u, d])
    ensures var target, route := Pair(a, d), [Pair(a, s), Pair(s, u), Pair(s, d), Pair(d, s), Pair(u, d)];
            ValidatePath(target, route) == PathOk && !Chained(route) && AlwaysRight(target, route)
  {
    var cs := [a, s, u, d];
    assert cs[0] != cs[1] && cs[0] != cs[2] && cs[0] != cs[3] && cs[1] != cs[2] && cs[1] != cs[3] && cs[2] != cs[3];
    var target, r := Pair(a, d), [Pair(a, s), Pair(s, u), Pair(s, d), Pair(d, s), Pair(u, d)];
    ConnectedWindows(r);
    var r4, r3, r2, r1 := r[..4], r[..3], r[..2], r[..1];
    assert r4[..3] == r3 && r3[..2] == r2 && r2[..1] == r1;
    assert FoldPairs(r1) == Pair(a, s) && FoldPairs(r2) == Pair(a, u) && FoldPairs(r3) == Pair(a, d);
    assert FoldPairs(r4) == Pair(a, s) && FoldPairs(r) == Pair(a, d);
    assert !Chained(r3);
    forall c ensures Exponent(r, c) == Delta(target, c) {
      assert Exponent(r1, c) == Delta(r[0], c);
      assert Exponent(r2, c) == Delta(Pair(a, u), c);
      assert Exponent(r3, c) == Delta(Pair(a, u), c) + Delta(r[2], c);
      assert Exponent(r4, c) == Exponent(r3, c) + Delta(r[3], c);
    }
    RouteRightIff(target, r);
  }
}
