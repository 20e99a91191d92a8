/**
 Oracle price routes: a feed prices each pair of a route, in whatever orientation it quotes it, and
 the prices are folded into one price for the configured pair. `f64` is modelled by `real`.
 */
module Oracle {
  import opened Prelude

  // Currencies compare by symbol only; the path of a currency plays no role here.
  type Currency = string

  datatype Pair = Pair(base: Currency, quote: Currency) {
    predicate Contains(c: Currency) {
      base == c || quote == c
    }

    predicate HasShared(other: Pair) {
      Contains(other.base) || Contains(other.quote)
    }

    function Invert(): Pair {
      Pair(quote, base)
    }
  }

  datatype Priced = Priced(pair: Pair, price: real) {
    function Invert(): Priced
      requires price != 0.0
    {
      Priced(pair.Invert(), 1.0 / price)
    }
  }

  /** `CurrencyPairAndPrice::reduce`: bring the shared currency to the middle, then multiply. */
  function Reduce(l: Priced, r: Priced): Priced
    requires l.price != 0.0 && r.price != 0.0
  {
    var (left, right) :=
      if l.pair.quote == r.pair.quote then (l, r.Invert())
      else if l.pair.base == r.pair.base then (l.Invert(), r)
      else if l.pair.base == r.pair.quote then (l.Invert(), r.Invert())
      else (l, r);
    Priced(Pair(left.pair.base, right.pair.quote), left.price * right.price)
  }

  // ------------------------------------------------------------------ consistent prices

  /** What each currency is worth, in some common unit. */
  type Values = Currency -> real

  ghost predicate Positive(v: Values) {
    forall c :: v(c) > 0.0
  }

  /** The price is the ratio of the values of its pair. */
  predicate Consistent(p: Priced, v: Values)
    requires v(p.pair.quote) > 0.0
  {
    p.price == v(p.pair.base) / v(p.pair.quote)
  }

  lemma {:induction false} RatioInverse(a: real, b: real)
    requires a > 0.0 && b > 0.0
    ensures a / b > 0.0 && 1.0 / (a / b) == b / a
  {
    var q := a / b;
    assert q * b == a;
    assert (b / a) * a == b;
    assert (b / a) * q == 1.0 by {
      calc {
        (b / a) * q * b;
        (b / a) * (q * b);
        (b / a) * a;
        b;
        1.0 * b;
      }
      CancelFactor((b / a) * q, 1.0, b);
    }
    CancelFactor(1.0 / q, b / a, q);
  }

  lemma {:induction false} CancelFactor(x: real, y: real, b: real)
    requires b > 0.0 && x * b == y * b
    ensures x == y
  {
    assert (x - y) * b == 0.0;
  }

  lemma {:induction false} RatioChain(a: real, m: real, b: real)
    requires a > 0.0 && m > 0.0 && b > 0.0
    ensures (a / m) * (m / b) == a / b
  {
    assert (a / m) * m == a && (m / b) * b == m && (a / b) * b == a;
    calc {
      (a / m) * (m / b) * b;
      (a / m) * ((m / b) * b);
      (a / m) * m;
      (a / b) * b;
    }
    CancelFactor((a / m) * (m / b), a / b, b);
  }

  lemma {:induction false} InvertConsistent(p: Priced, v: Values)
    requires Positive(v) && Consistent(p, v)
    ensures p.price > 0.0 && Consistent(p.Invert(), v)
  {
    RatioInverse(v(p.pair.base), v(p.pair.quote));
  }

  /** Reducing two consistent prices of pairs that share a currency gives a consistent price for a
      pair made of one currency of each. */
  lemma {:induction false} ReduceConsistent(l: Priced, r: Priced, v: Values)
    requires Positive(v) && Consistent(l, v) && Consistent(r, v) && l.pair.HasShared(r.pair)
    ensures l.price > 0.0 && r.price > 0.0
    ensures Consistent(Reduce(l, r), v)
  {
    InvertConsistent(l, v);
    InvertConsistent(r, v);
    var (left, right) :=
      if l.pair.quote == r.pair.quote then (l, r.Invert())
      else if l.pair.base == r.pair.base then (l.Invert(), r)
      else if l.pair.base == r.pair.quote then (l.Invert(), r.Invert())
      else (l, r);
    RatioChain(v(left.pair.base), v(left.pair.quote), v(right.pair.quote));
  }

  /** Sharing a currency is exactly what makes the reduction right: without it some valuation that
      agrees with both prices disagrees with the result. */
  lemma {:induction false} ReduceSoundIff(l: Priced, r: Priced)
    requires l.pair.base != l.pair.quote && r.pair.base != r.pair.quote && l.price > 0.0 && r.price > 0.0
    ensures l.pair.HasShared(r.pair) <==>
              forall v: Values :: Positive(v) && Consistent(l, v) && Consistent(r, v) ==> Consistent(Reduce(l, r), v)
  {
    if l.pair.HasShared(r.pair) {
      forall v: Values | Positive(v) && Consistent(l, v) && Consistent(r, v) ensures Consistent(Reduce(l, r), v) {
        ReduceConsistent(l, r, v);
      }
    } else {
      ScaledRatio(r.price, 2.0);
      ScaledRatio(r.price, 3.0);
      var two, three := Stretched(l, r, 2.0 * r.price, 2.0), Stretched(l, r, 3.0 * r.price, 3.0);
      StretchedAgrees(l, r, 2.0 * r.price, 2.0);
      StretchedAgrees(l, r, 3.0 * r.price, 3.0);
      var price := l.price * r.price;
      assert price == l.price / 2.0 && price == l.price / 3.0 ==> l.price == 0.0;
      assert !Consistent(Reduce(l, r), two) || !Consistent(Reduce(l, r), three);
    }
  }

  /** A valuation that agrees with two unrelated prices, the second pair being worth `s` and `k`. */
  function Stretched(l: Priced, r: Priced, s: real, k: real): Values {
    (c: Currency) =>
      if c == l.pair.base then l.price else if c == l.pair.quote then 1.0
      else if c == r.pair.base then s else if c == r.pair.quote then k else 1.0
  }

  lemma {:induction false} StretchedAgrees(l: Priced, r: Priced, s: real, k: real)
    requires l.pair.base != l.pair.quote && r.pair.base != r.pair.quote && l.price > 0.0 && r.price > 0.0
    requires !l.pair.HasShared(r.pair) && s > 0.0 && k > 0.0 && s / k == r.price
    ensures var v := Stretched(l, r, s, k);
            && Positive(v) && Consistent(l, v) && Consistent(r, v)
            && v(Reduce(l, r).pair.base) / v(Reduce(l, r).pair.quote) == l.price / k
  {
    var v := Stretched(l, r, s, k);
    assert v(l.pair.base) == l.price && v(l.pair.quote) == 1.0;
    assert v(r.pair.base) == s && v(r.pair.quote) == k;
    assert Reduce(l, r).pair == Pair(l.pair.base, r.pair.quote);
  }

  lemma {:induction false} ScaledRatio(p: real, k: real)
    requires p > 0.0 && k > 0.0
    ensures k * p > 0.0 && (k * p) / k == p
  {
    CancelFactor((k * p) / k, p, k);
  }

  // ------------------------------------------------------------------ folding a route

  predicate NonZero(ps: seq<Priced>) {
    forall i :: 0 <= i < |ps| ==> ps[i].price != 0.0
  }

  /** `into_iter().reduce(...)` over the prices of a route. */
  function Fold(ps: seq<Priced>): (p: Priced)
    requires ps != [] && NonZero(ps)
    ensures p.price != 0.0
  {
    if |ps| == 1 then ps[0]
    else
      var l, r := Fold(ps[..|ps| - 1]), ps[|ps| - 1];
      ReduceNonZero(l, r);
      Reduce(l, r)
  }

  lemma {:induction false} ReduceNonZero(l: Priced, r: Priced)
    requires l.price != 0.0 && r.price != 0.0
    ensures Reduce(l, r).price != 0.0
  {
    InverseNonZero(l.price);
    InverseNonZero(r.price);
    ProductNonZero(l.price, r.price);
    ProductNonZero(l.price, 1.0 / r.price);
    ProductNonZero(1.0 / l.price, r.price);
    ProductNonZero(1.0 / l.price, 1.0 / r.price);
  }

  lemma {:induction false} ProductNonZero(x: real, y: real)
    requires x != 0.0 && y != 0.0
    ensures x * y != 0.0
  {
  }

  lemma {:induction false} InverseNonZero(x: real)
    requires x != 0.0
    ensures 1.0 / x != 0.0
  {
    assert (1.0 / x) * x == 1.0;
  }

  /** The folding and re-orientation in `get_prices`; `None` for an empty route. */
  function GetPrice(target: Pair, ps: seq<Priced>): Option<Priced>
    requires NonZero(ps)
  {
    if ps == [] then None
    else
      var p := Fold(ps);
      Some(if p.pair.base != target.base then p.Invert() else p)
  }

  // ------------------------------------------------------------------ what folding does to the pairs

  /** The pair a reduction ends with; prices play no part in it. */
  function ReducePairs(l: Pair, r: Pair): Pair {
    if l.quote == r.quote then Pair(l.base, r.base)
    else if l.base == r.base then Pair(l.quote, r.quote)
    else if l.base == r.quote then Pair(l.quote, r.base)
    else Pair(l.base, r.quote)
  }

  function FoldPairs(pairs: seq<Pair>): Pair
    requires pairs != []
  {
    if |pairs| == 1 then pairs[0]
    else ReducePairs(FoldPairs(pairs[..|pairs| - 1]), pairs[|pairs| - 1])
  }

  function Pairs(ps: seq<Priced>): seq<Pair> {
    seq(|ps|, i requires 0 <= i < |ps| => ps[i].pair)
  }

  lemma {:induction false} FoldKeepsPairs(ps: seq<Priced>)
    requires ps != [] && NonZero(ps)
    ensures Fold(ps).pair == FoldPairs(Pairs(ps))
  {
    if |ps| > 1 {
      FoldKeepsPairs(ps[..|ps| - 1]);
      assert Pairs(ps)[..|ps| - 1] == Pairs(ps[..|ps| - 1]);
    }
  }

  /** At every step the accumulated pair shares a currency with the next one. */
  predicate Chained(pairs: seq<Pair>)
    requires pairs != []
  {
    |pairs| == 1 ||
    (Chained(pairs[..|pairs| - 1]) && FoldPairs(pairs[..|pairs| - 1]).HasShared(pairs[|pairs| - 1]))
  }

  ghost predicate AllConsistent(ps: seq<Priced>, v: Values)
    requires Positive(v)
  {
    forall i :: 0 <= i < |ps| ==> Consistent(ps[i], v)
  }

  /** Over any chained route the folded price is right for the pair it ends up with. */
  lemma {:induction false} FoldConsistent(ps: seq<Priced>, v: Values)
    requires Positive(v) && ps != [] && NonZero(ps) && Chained(Pairs(ps)) && AllConsistent(ps, v)
    ensures Consistent(Fold(ps), v)
  {
    if |ps| > 1 {
      var init := ps[..|ps| - 1];
      assert Pairs(ps)[..|ps| - 1] == Pairs(init);
      FoldKeepsPairs(init);
      FoldConsistent(init, v);
      ReduceConsistent(Fold(init), ps[|ps| - 1], v);
    }
  }

  // ------------------------------------------------------------------ routes as walks

  /** The route visits the distinct currencies `cs` in order; each pair may be quoted either way. */
  predicate Walk(pairs: seq<Pair>, cs: seq<Currency>) {
    && pairs != [] && |cs| == |pairs| + 1
    && (forall i, j :: 0 <= i < j < |cs| ==> cs[i] != cs[j])
    && (forall i :: 0 <= i < |pairs| ==> pairs[i] == Pair(cs[i], cs[i + 1]) || pairs[i] == Pair(cs[i + 1], cs[i]))
  }

  /** A walk is chained, and folds to the pair of its two ends. */
  lemma {:induction false} WalkFolds(pairs: seq<Pair>, cs: seq<Currency>)
    requires Walk(pairs, cs)
    ensures Chained(pairs)
    ensures var n := |pairs|; FoldPairs(pairs) == Pair(cs[0], cs[n]) || FoldPairs(pairs) == Pair(cs[n], cs[0])
  {
    var n := |pairs|;
    if n > 1 {
      var init := pairs[..n - 1];
      assert Walk(init, cs[..n]);
      WalkFolds(init, cs[..n]);
      assert cs[0] != cs[n - 1] && cs[0] != cs[n] && cs[n - 1] != cs[n];
    }
  }

  /** Main result: for every walk between the two sides of the target, in either direction and with
      every feed pair in either orientation, the outcome is the target pair at its true price. */
  lemma {:induction false} RoutePrice(target: Pair, ps: seq<Priced>, cs: seq<Currency>, v: Values)
    requires Positive(v) && NonZero(ps) && Walk(Pairs(ps), cs) && AllConsistent(ps, v)
    requires || (cs[0] == target.base && cs[|ps|] == target.quote)
             || (cs[0] == target.quote && cs[|ps|] == target.base)
    ensures GetPrice(target, ps) == Some(Priced(target, v(target.base) / v(target.quote)))
  {
    WalkFolds(Pairs(ps), cs);
    ChainedRouteIff(target, ps, v);
  }

  /** For any chained route, walk or not: the outcome is the target's true price exactly when the
      pairs fold to the target or its inverse. */
  lemma {:induction false} ChainedRouteIff(target: Pair, ps: seq<Priced>, v: Values)
    requires Positive(v) && ps != [] && NonZero(ps) && Chained(Pairs(ps)) && AllConsistent(ps, v)
    ensures GetPrice(target, ps) == Some(Priced(target, v(target.base) / v(target.quote)))
            <==> FoldPairs(Pairs(ps)) == target || FoldPairs(Pairs(ps)) == target.Invert()
  {
    FoldKeepsPairs(ps);
    FoldConsistent(ps, v);
    InvertConsistent(Fold(ps), v);
  }

  // ------------------------------------------------------------------ validation

  datatype PathCheck = PathOk | NoStart | NoEnd | NoPath(left: Pair, right: Pair)

  function CheckWindows(path: seq<Pair>): PathCheck {
    if |path| < 2 then PathOk
    else if !path[0].HasShared(path[1]) then NoPath(path[0], path[1])
    else CheckWindows(path[1..])
  }

  /** `PriceConfig::validate` for one feed. */
  function ValidatePath(target: Pair, path: seq<Pair>): PathCheck {
    if path == [] then NoStart
    else
      var first, last := path[0], path[|path| - 1];
      if !first.Contains(target.base) && !first.Contains(target.quote) then NoStart
      else
        var end := if first.Contains(target.base) then target.quote else target.base;
        if !last.Contains(end) then NoEnd else CheckWindows(path)
  }

  lemma {:induction false} ConnectedWindows(path: seq<Pair>)
    ensures CheckWindows(path) == PathOk <==> forall i :: 0 <= i < |path| - 1 ==> path[i].HasShared(path[i + 1])
  {
    if |path| >= 2 {
      ConnectedWindows(path[1..]);
      assert forall i :: 0 < i < |path| - 1 ==> path[1..][i - 1] == path[i] && path[1..][i] == path[i + 1];
    }
  }

  /** Exactly what validation accepts, and why it rejects: the first pair must hold a side of the
      target, the last pair the other side, and neighbours must share a currency; if both sides are in
      the first pair, the base is taken as the start. */
  lemma {:induction false} ValidateIff(target: Pair, path: seq<Pair>)
    ensures var result := ValidatePath(target, path);
            var starts := path != [] && (path[0].Contains(target.base) || path[0].Contains(target.quote));
            var ends := path != [] &&
              path[|path| - 1].Contains(if path[0].Contains(target.base) then target.quote else target.base);
            && (result == NoStart <==> !starts)
            && (result == NoEnd <==> starts && !ends)
            && (result == PathOk <==>
                  starts && ends && forall i :: 0 <= i < |path| - 1 ==> path[i].HasShared(path[i + 1]))
            && (result.NoPath? ==>
                  exists i :: && 0 <= i < |path| - 1 && path[i] == result.left && path[i + 1] == result.right
                              && !path[i].HasShared(path[i + 1]))
  {
    ConnectedWindows(path);
    BrokenWindow(path);
  }

  lemma {:induction false} BrokenWindow(path: seq<Pair>)
    ensures CheckWindows(path) == PathOk || CheckWindows(path).NoPath?
    ensures CheckWindows(path).NoPath? ==>
              exists i :: && 0 <= i < |path| - 1 && !path[i].HasShared(path[i + 1])
                          && path[i] == CheckWindows(path).left && path[i + 1] == CheckWindows(path).right
  {
    if |path| >= 2 && path[0].HasShared(path[1]) {
      var rest := path[1..];
      BrokenWindow(rest);
      if CheckWindows(rest).NoPath? {
        var i :| && 0 <= i < |rest| - 1 && !rest[i].HasShared(rest[i + 1])
                 && rest[i] == CheckWindows(rest).left && rest[i + 1] == CheckWindows(rest).right;
        assert path[i + 1] == rest[i] && path[i + 2] == rest[i + 1];
      }
    }
  }

  /** Validation accepts every such walk. */
  lemma {:induction false} WalkIsValid(target: Pair, path: seq<Pair>, cs: seq<Currency>)
    requires Walk(path, cs)
    requires || (cs[0] == target.base && cs[|path|] == target.quote)
             || (cs[0] == target.quote && cs[|path|] == target.base)
    ensures ValidatePath(target, path) == PathOk
  {
    ConnectedWindows(path);
    var n := |path|;
    forall i | 0 <= i < n - 1 ensures path[i].HasShared(path[i + 1]) {
      var j := i + 1;
      assert path[j] == Pair(cs[j], cs[j + 1]) || path[j] == Pair(cs[j + 1], cs[j]);
      assert path[i].Contains(cs[j]) && path[j].Contains(cs[j]);
    }
    assert path[0].Contains(cs[0]) && path[n - 1].Contains(cs[n]);
    if n > 1 {
      assert cs[0] != cs[n] && cs[1] != cs[n];
      assert !path[0].Contains(cs[n]);
    }
  }

  /** But it accepts more: this route passes and prices another pair than the configured one. */
  lemma {:induction false} ValidRouteWrongPair(p: real, q: real)
    requires p > 0.0 && q > 0.0
    ensures var target := Pair("BTC", "KSM");
            var ps := [Priced(Pair("BTC", "USD"), p), Priced(Pair("BTC", "KSM"), q)];
            && ValidatePath(target, Pairs(ps)) == PathOk
            && GetPrice(target, ps).Some? && GetPrice(target, ps).value.pair == Pair("KSM", "USD")
  {
    var target := Pair("BTC", "KSM");
    var ps := [Priced(Pair("BTC", "USD"), p), Priced(Pair("BTC", "KSM"), q)];
    assert "USD" != "KSM" && "BTC" != "USD" && "BTC" != "KSM" by {
      assert "USD"[0] == 'U' && "KSM"[0] == 'K' && "BTC"[0] == 'B';
    }
    assert Pairs(ps) == [Pair("BTC", "USD"), Pair("BTC", "KSM")];
    assert [Pair("BTC", "USD"), Pair("BTC", "KSM")][1..] == [Pair("BTC", "KSM")];
    assert ps[..1] == [ps[0]];
    assert Fold(ps[..1]) == ps[0];
    assert Fold(ps) == Reduce(ps[0], ps[1]);
    assert Fold(ps).pair == Pair("USD", "KSM");
  }
}
