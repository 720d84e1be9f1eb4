/** Vocabulary shared by the models: identifiers, the iteration order of the source's ordered
    containers, sums over maps, and 256-bit unsigned words. */
module Common {

  /** A 256-bit block or transaction hash; 0 is the null hash. */
  type Hash = nat

  /** A 160-bit address. */
  type Dest = nat

  datatype Option<+T> = None | Some(value: T)

  // ---------------------------------------------------------------- ordered iteration

  lemma LeastExists(s: set<nat>)
    requires s != {}
    ensures exists m :: m in s && forall x :: x in s ==> m <= x
    decreases s
  {
    var a :| a in s;
    var lower := set x | x in s && x < a;
    if lower == {} {
      forall x | x in s ensures a <= x {
        assert x < a ==> x in lower;
      }
    } else {
      assert a !in lower;
      LeastExists(lower);
      var b :| b in lower && forall x :: x in lower ==> b <= x;
      forall x | x in s ensures b <= x {
        assert x < a ==> x in lower;
      }
    }
  }

  function Least(s: set<nat>): (m: nat)
    requires s != {}
    ensures m in s && forall x :: x in s ==> m <= x
  {
    LeastExists(s);
    var m :| m in s && forall x :: x in s ==> m <= x;
    m
  }

  ghost predicate StrictlyAscending(r: seq<nat>) {
    forall i, j :: 0 <= i < j < |r| ==> r[i] < r[j]
  }

  ghost predicate NoDup(s: seq<Hash>) {
    forall i, j :: 0 <= i < j < |s| ==> s[i] != s[j]
  }

  /** The order in which a std::map or std::set with these keys is traversed. */
  function Ascending(s: set<nat>): (r: seq<nat>)
    ensures |r| == |s|
    ensures StrictlyAscending(r)
    ensures forall x :: x in r <==> x in s
    decreases |s|
  {
    if s == {} then []
    else
      var m := Least(s);
      [m] + Ascending(s - {m})
  }

  // ---------------------------------------------------------------- sums

  /** The sum of a map's values. */
  function Total(m: map<nat, nat>): nat
    decreases |m|
  {
    if m == map[] then 0
    else
      var k := Least(m.Keys);
      m[k] + Total(m - {k})
  }

  /** The sum may be taken in any order. */
  lemma {:induction false} TotalRemove(m: map<nat, nat>, k: nat)
    requires k in m
    ensures Total(m) == m[k] + Total(m - {k})
    decreases |m|
  {
    var l := Least(m.Keys);
    if k != l {
      TotalRemove(m - {l}, k);
      TotalRemove(m - {k}, l);
      assert (m - {l}) - {k} == (m - {k}) - {l};
    }
  }

  lemma TotalUpdate(m: map<nat, nat>, k: nat, v: nat)
    ensures Total(m[k := v]) == Total(m) - (if k in m then m[k] else 0) + v
  {
    TotalRemove(m[k := v], k);
    assert m[k := v] - {k} == m - {k};
    if k in m {
      TotalRemove(m, k);
    } else {
      assert m - {k} == m;
    }
  }

  lemma TotalAtLeast(m: map<nat, nat>, k: nat)
    requires k in m
    ensures m[k] <= Total(m)
  {
    TotalRemove(m, k);
  }

  /** The sum of a map's values along some keys. */
  ghost function SumAlong(m: map<nat, nat>, keys: seq<nat>): nat
    requires forall k :: k in keys ==> k in m
  {
    if keys == [] then 0 else SumAlong(m, keys[..|keys|-1]) + m[keys[|keys|-1]]
  }

  lemma WithoutLast(m: map<nat, nat>, keys: seq<nat>)
    requires keys != [] && StrictlyAscending(keys) && forall k :: k in keys <==> k in m
    ensures var n := |keys| - 1;
            StrictlyAscending(keys[..n]) && forall k :: k in keys[..n] <==> k in m - {keys[n]}
  {
    var n := |keys| - 1;
    assert keys == keys[..n] + [keys[n]];
    assert keys[n] !in keys[..n];
  }

  lemma SumAlongAgrees(m: map<nat, nat>, m': map<nat, nat>, keys: seq<nat>)
    requires forall k :: k in keys ==> k in m && k in m' && m[k] == m'[k]
    ensures SumAlong(m, keys) == SumAlong(m', keys)
  {
  }

  /** Summing along all keys in order gives the total. */
  lemma {:induction false} SumAlongIsTotal(m: map<nat, nat>, keys: seq<nat>)
    requires StrictlyAscending(keys) && forall k :: k in keys <==> k in m
    ensures SumAlong(m, keys) == Total(m)
    decreases |keys|
  {
    if keys == [] {
      assert m == map[];
    } else {
      var n := |keys| - 1;
      WithoutLast(m, keys);
      SumAlongIsTotal(m - {keys[n]}, keys[..n]);
      SumAlongAgrees(m, m - {keys[n]}, keys[..n]);
      TotalRemove(m, keys[n]);
    }
  }

  // ---------------------------------------------------------------- removing keys one by one

  lemma MinusStep<V>(m: map<nat, V>, all: set<nat>, todo: set<nat>, k: nat)
    requires k in todo && k in all
    ensures (m - (all - todo)) - {k} == m - (all - (todo - {k}))
  {
  }

  lemma MinusEnds<V>(m: map<nat, V>, all: set<nat>)
    ensures m - (all - all) == m
    ensures m - (all - {}) == m - all
  {
    assert all - {} == all;
  }

  lemma MulMonotone(a: nat, b: nat, c: nat)
    requires a <= b
    ensures c * a <= c * b
  {
  }

  lemma DivUnique(x: nat, q: nat, r: nat, max: nat)
    requires 0 <= r < max && x == max * q + r
    ensures x / max == q && x % max == r
  {
    var q', r' := x / max, x % max;
    assert x == max * q' + r';
    if q' < q {
      MulMonotone(q' + 1, q, max);
    } else if q' > q {
      MulMonotone(q + 1, q', max);
    }
  }

  // ---------------------------------------------------------------- 256-bit words

  /** 2^256: the source's uint256 wraps around here. */
  const WORD: nat := 0x1_0000000000000000_0000000000000000_0000000000000000_0000000000000000

  function Add(a: nat, b: nat): nat { (a + b) % WORD }

  function Sub(a: nat, b: nat): nat { (a - b) % WORD }

  function Mul(a: nat, b: nat): nat { (a * b) % WORD }

  lemma SubExact(a: nat, b: nat)
    requires b <= a < WORD
    ensures Sub(a, b) == a - b && b % WORD == b
  {
  }
}
