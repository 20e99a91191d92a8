/**
 The random delay: every vault orders the listed accounts by a seeded hash and waits a number of
 blocks that grows with the logarithm of its own rank.
 */
module Delay {
  type Account = nat

  function Pow2(k: nat): (r: nat)
    ensures r >= 1
  {
    if k == 0 then 1 else 2 * Pow2(k - 1)
  }

  /** `ilog2` of a positive number. */
  function Ilog2(n: nat): nat
    requires n > 0
  {
    if n == 1 then 0 else 1 + Ilog2(n / 2)
  }

  lemma {:induction false} Ilog2Bounds(n: nat)
    requires n > 0
    ensures Pow2(Ilog2(n)) <= n < Pow2(Ilog2(n) + 1)
  {
    if n > 1 {
      Ilog2Bounds(n / 2);
    }
  }

  lemma {:induction false} Pow2Monotone(a: nat, b: nat)
    requires a <= b
    ensures Pow2(a) <= Pow2(b)
    decreases b
  {
    if a < b {
      Pow2Monotone(a, b - 1);
    }
  }

  lemma {:induction false} Ilog2Monotone(a: nat, b: nat)
    requires 0 < a <= b
    ensures Ilog2(a) <= Ilog2(b)
  {
    Ilog2Bounds(a);
    Ilog2Bounds(b);
    if Ilog2(a) > Ilog2(b) {
      Pow2Monotone(Ilog2(b) + 1, Ilog2(a));
    }
  }

  /** How many list entries hash below `x`; an account that is listed twice counts twice. */
  function CountBelow(vaults: seq<Account>, hash: Account -> nat, x: nat): (r: nat)
    ensures r <= |vaults|
  {
    if vaults == [] then 0
    else CountBelow(vaults[..|vaults| - 1], hash, x) + (if hash(vaults[|vaults| - 1]) < x then 1 else 0)
  }

  function Rank(vaults: seq<Account>, hash: Account -> nat, a: Account): nat {
    CountBelow(vaults, hash, hash(a))
  }

  /** The number of blocks `a` waits; `hash` is the hash seeded with the data to act on. */
  function DelayOf(vaults: seq<Account>, hash: Account -> nat, a: Account): nat {
    Ilog2(Rank(vaults, hash, a) + 1)
  }

  ghost predicate DistinctHashes(vaults: seq<Account>, hash: Account -> nat) {
    forall a, b :: a in vaults && b in vaults && hash(a) == hash(b) ==> a == b
  }

  lemma {:induction false} CountMonotone(vaults: seq<Account>, hash: Account -> nat, x: nat, y: nat)
    requires x <= y
    ensures CountBelow(vaults, hash, x) <= CountBelow(vaults, hash, y)
  {
    if vaults != [] {
      CountMonotone(vaults[..|vaults| - 1], hash, x, y);
    }
  }

  lemma {:induction false} CountStrict(vaults: seq<Account>, hash: Account -> nat, a: Account, y: nat)
    requires a in vaults && hash(a) < y
    ensures CountBelow(vaults, hash, hash(a)) < CountBelow(vaults, hash, y)
  {
    var init, last := vaults[..|vaults| - 1], vaults[|vaults| - 1];
    if a in init {
      CountStrict(init, hash, a, y);
    } else {
      assert vaults == init + [last] && a == last;
      CountMonotone(init, hash, hash(a), y);
    }
  }

  /** The order of the hashes is the order of the delays. */
  lemma {:induction false} LowerHashActsFirst(vaults: seq<Account>, hash: Account -> nat, a: Account, b: Account)
    requires hash(a) <= hash(b)
    ensures DelayOf(vaults, hash, a) <= DelayOf(vaults, hash, b)
  {
    CountMonotone(vaults, hash, hash(a), hash(b));
    Ilog2Monotone(Rank(vaults, hash, a) + 1, Rank(vaults, hash, b) + 1);
  }

  /** Listed accounts have different ranks. */
  lemma {:induction false} RankInjective(vaults: seq<Account>, hash: Account -> nat, a: Account, b: Account)
    requires DistinctHashes(vaults, hash) && a in vaults && b in vaults && a != b
    ensures Rank(vaults, hash, a) != Rank(vaults, hash, b)
  {
    if hash(a) < hash(b) {
      CountStrict(vaults, hash, a, hash(b));
    } else {
      CountStrict(vaults, hash, b, hash(a));
    }
  }

  /** So at most `hi - lo` of them have a rank in a window of that size. */
  lemma {:induction false} RankWindow(vaults: seq<Account>, hash: Account -> nat, s: set<Account>, lo: nat, hi: nat)
    requires DistinctHashes(vaults, hash) && lo <= hi
    requires forall a :: a in s ==> a in vaults && lo <= Rank(vaults, hash, a) < hi
    ensures |s| <= hi - lo
    decreases hi - lo
  {
    if s != {} {
      if exists a :: a in s && Rank(vaults, hash, a) == hi - 1 {
        var a :| a in s && Rank(vaults, hash, a) == hi - 1;
        forall b | b in s - {a} ensures Rank(vaults, hash, b) != hi - 1 {
          RankInjective(vaults, hash, a, b);
        }
        RankWindow(vaults, hash, s - {a}, lo, hi - 1);
      } else {
        var a :| a in s;
        assert lo <= Rank(vaults, hash, a) < hi - 1;
        RankWindow(vaults, hash, s, lo, hi - 1);
      }
    }
  }

  /** At most `2^(d+1) - 1` distinct listed accounts wait `d` blocks or fewer. */
  lemma {:induction false} FewWaitLittle(vaults: seq<Account>, hash: Account -> nat, s: set<Account>, d: nat)
    requires DistinctHashes(vaults, hash)
    requires forall a :: a in s ==> a in vaults && DelayOf(vaults, hash, a) <= d
    ensures |s| <= Pow2(d + 1) - 1
  {
    forall a | a in s ensures Rank(vaults, hash, a) < Pow2(d + 1) - 1 {
      Ilog2Bounds(Rank(vaults, hash, a) + 1);
      Pow2Monotone(DelayOf(vaults, hash, a) + 1, d + 1);
    }
    RankWindow(vaults, hash, s, 0, Pow2(d + 1) - 1);
  }

  /** At most `2^d` of them wait exactly `d` blocks. */
  lemma {:induction false} FewWaitExactly(vaults: seq<Account>, hash: Account -> nat, s: set<Account>, d: nat)
    requires DistinctHashes(vaults, hash)
    requires forall a :: a in s ==> a in vaults && DelayOf(vaults, hash, a) == d
    ensures |s| <= Pow2(d)
  {
    forall a | a in s ensures Pow2(d) - 1 <= Rank(vaults, hash, a) < Pow2(d + 1) - 1 {
      Ilog2Bounds(Rank(vaults, hash, a) + 1);
    }
    RankWindow(vaults, hash, s, Pow2(d) - 1, Pow2(d + 1) - 1);
  }

  lemma {:induction false} LeastHash(vaults: seq<Account>, hash: Account -> nat) returns (a: Account)
    requires vaults != []
    ensures a in vaults && forall b :: b in vaults ==> hash(a) <= hash(b)
  {
    a := vaults[0];
    for i := 1 to |vaults|
      invariant a in vaults && forall j :: 0 <= j < i ==> hash(a) <= hash(vaults[j])
    {
      if hash(vaults[i]) < hash(a) {
        a := vaults[i];
      }
    }
  }

  lemma {:induction false} NoneBelow(vaults: seq<Account>, hash: Account -> nat, x: nat)
    requires forall b :: b in vaults ==> x <= hash(b)
    ensures CountBelow(vaults, hash, x) == 0
  {
    if vaults != [] {
      NoneBelow(vaults[..|vaults| - 1], hash, x);
    }
  }

  /** Some listed account does not wait at all, and nobody waits longer than the logarithm of the
      list length plus one, listed or not, even if the list repeats accounts. */
  lemma {:induction false} SomeoneActsNowAndNobodyWaitsLong(vaults: seq<Account>, hash: Account -> nat)
    requires vaults != []
    ensures exists a :: a in vaults && DelayOf(vaults, hash, a) == 0
    ensures forall a: Account :: DelayOf(vaults, hash, a) <= Ilog2(|vaults| + 1)
  {
    var a := LeastHash(vaults, hash);
    NoneBelow(vaults, hash, hash(a));
    forall b: Account ensures DelayOf(vaults, hash, b) <= Ilog2(|vaults| + 1) {
      Ilog2Monotone(Rank(vaults, hash, b) + 1, |vaults| + 1);
    }
  }
}
