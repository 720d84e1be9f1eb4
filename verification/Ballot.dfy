/** CCoreProtocol::GetDelegatedBallot (src/blockchain/core.cpp): the delegate that produces the next
    block, drawn with a probability proportional to its capped vote. */
module Ballot {
  import opened Common

  /** A delegate and the votes it holds. */
  datatype Vote = Vote(dest: Dest, amount: nat)

  /** The agreed random number as its eight 32-bit words. */
  type Agreement = a: seq<bv32> | |a| == 8 witness seq(8, _ => 0)

  predicate IsZero(a: Agreement) {
    forall i :: 0 <= i < 8 ==> a[i] == 0
  }

  function XorAll(words: seq<bv32>): bv32 {
    if words == [] then 0 else XorAll(words[..|words|-1]) ^ words[|words|-1]
  }

  lemma XorAssociates(x: bv32, y: bv32, z: bv32)
    ensures x ^ (y ^ z) == (x ^ y) ^ z
  {
  }

  lemma XorOne(w: bv32)
    ensures 0 ^ w == w && w ^ 0 == w
  {
  }

  /** Every word counts once: one word is itself, and two parts of the agreement combine by exclusive or. */
  lemma {:induction false} XorAllLaws(a: seq<bv32>, b: seq<bv32>)
    ensures |a| == 1 ==> XorAll(a) == a[0]
    ensures XorAll(a + b) == XorAll(a) ^ XorAll(b)
    decreases |b|
  {
    if |a| == 1 {
      XorOne(a[0]);
      assert a[..0] == [];
    }
    if b == [] {
      assert a + b == a;
      XorOne(XorAll(a));
    } else {
      var n := |b| - 1;
      assert (a + b)[..|a| + n] == a + b[..n];
      XorAllLaws(a, b[..n]);
      XorAssociates(XorAll(a), XorAll(b[..n]), b[n]);
    }
  }

  function Min(a: nat, b: nat): nat { if a < b then a else b }

  // ---------------------------------------------------------------- enrolment

  /** The capped votes of the enrolled delegates; a later entry for a delegate replaces an earlier one. */
  function Enrolled(votes: seq<Vote>, ballots: set<Dest>, cap: nat): map<Dest, nat> {
    if votes == [] then map[]
    else
      var m := Enrolled(votes[..|votes|-1], ballots, cap);
      var v := votes[|votes|-1];
      if v.dest in ballots then m[v.dest := Min(v.amount, cap)] else m
  }

  function Weights(m: map<Dest, nat>, unit: nat): map<Dest, nat>
    requires unit > 0
  {
    map d | d in m :: m[d] / unit
  }

  /** The accumulated trust: every enrolled entry counts. */
  function Trust(votes: seq<Vote>, ballots: set<Dest>, cap: nat): nat {
    if votes == [] then 0
    else
      var v := votes[|votes|-1];
      Trust(votes[..|votes|-1], ballots, cap) + if v.dest in ballots then Min(v.amount, cap) else 0
  }

  function WeightSum(votes: seq<Vote>, ballots: set<Dest>, cap: nat, unit: nat): nat
    requires unit > 0
  {
    if votes == [] then 0
    else
      var v := votes[|votes|-1];
      WeightSum(votes[..|votes|-1], ballots, cap, unit) + if v.dest in ballots then Min(v.amount, cap) / unit else 0
  }

  ghost predicate Distinct(votes: seq<Vote>) {
    forall i, j :: 0 <= i < j < |votes| ==> votes[i].dest != votes[j].dest
  }

  // ---------------------------------------------------------------- selection

  /** Walks the delegates in the given order, using up n. */
  function Pick(keys: seq<Dest>, weights: map<Dest, nat>, n: nat): Option<Dest>
    requires forall k :: k in keys ==> k in weights
  {
    if keys == [] then None
    else if n < weights[keys[0]] then Some(keys[0])
    else Pick(keys[1..], weights, n - weights[keys[0]])
  }

  function Winner(weights: map<Dest, nat>, n: nat): Option<Dest> {
    Pick(Ascending(weights.Keys), weights, n)
  }

  /** The source's procedure. The answer is nothing when there is no agreement, no ballot, no money
      supply or no weight. */
  method GetDelegatedBallot(agreement: Agreement, ballots: set<Dest>, votes: seq<Vote>, supply: nat, cap: nat,
      unit: nat)
    returns (trust: nat, ballot: Option<Dest>)
    requires unit > 0
    ensures if IsZero(agreement) || ballots == {} || supply == 0 ||
            WeightSum(votes, ballots, cap, unit) == 0 then trust == 0 && ballot == None
            else
              && trust == Trust(votes, ballots, cap)
              && ballot == Winner(Weights(Enrolled(votes, ballots, cap), unit),
                  XorAll(agreement) as nat % WeightSum(votes, ballots, cap, unit))
  {
    trust, ballot := 0, None;
    if IsZero(agreement) || ballots == {} || supply == 0 {
      return;
    }
    var selected := XorWords(agreement);
    var weights, enrollTrust, enrollWeight := Enrol(votes, ballots, cap, unit);
    if enrollWeight == 0 {
      return;
    }
    trust := enrollTrust;
    ballot := Draw(weights, selected as nat % enrollWeight);
  }

  method XorWords(words: seq<bv32>) returns (selected: bv32)
    ensures selected == XorAll(words)
  {
    selected := 0;
    var i := 0;
    while i < |words|
      invariant 0 <= i <= |words| && selected == XorAll(words[..i])
    {
      assert words[..i+1][..i] == words[..i];
      selected := selected ^ words[i];
      i := i + 1;
    }
    assert words[..i] == words;
  }

  method Enrol(votes: seq<Vote>, ballots: set<Dest>, cap: nat, unit: nat)
    returns (weights: map<Dest, nat>, enrollTrust: nat, enrollWeight: nat)
    requires unit > 0
    ensures weights == Weights(Enrolled(votes, ballots, cap), unit)
    ensures enrollTrust == Trust(votes, ballots, cap) && enrollWeight == WeightSum(votes, ballots, cap, unit)
  {
    weights, enrollTrust, enrollWeight := map[], 0, 0;
    var i := 0;
    while i < |votes|
      invariant 0 <= i <= |votes|
      invariant weights == Weights(Enrolled(votes[..i], ballots, cap), unit)
      invariant enrollTrust == Trust(votes[..i], ballots, cap)
      invariant enrollWeight == WeightSum(votes[..i], ballots, cap, unit)
    {
      assert votes[..i+1][..i] == votes[..i];
      if votes[i].dest in ballots {
        var amount := if votes[i].amount < cap then votes[i].amount else cap;
        weights := weights[votes[i].dest := amount / unit];
        enrollWeight := enrollWeight + amount / unit;
        enrollTrust := enrollTrust + amount;
      }
      i := i + 1;
    }
    assert votes[..i] == votes;
  }

  method Draw(weights: map<Dest, nat>, n: nat) returns (ballot: Option<Dest>)
    ensures ballot == Winner(weights, n)
  {
    ballot := DrawFrom(Ascending(weights.Keys), weights, n);
  }

  method DrawFrom(keys: seq<Dest>, weights: map<Dest, nat>, n0: nat) returns (ballot: Option<Dest>)
    requires forall k :: k in keys ==> k in weights
    ensures ballot == Pick(keys, weights, n0)
  {
    var n, i := n0, 0;
    while i < |keys|
      invariant 0 <= i <= |keys|
      invariant Pick(keys, weights, n0) == Pick(keys[i..], weights, n)
    {
      if n < weights[keys[i]] {
        return Some(keys[i]);
      }
      n := n - weights[keys[i]];
      i := i + 1;
    }
    return None;
  }

  // ---------------------------------------------------------------- what the draw means

  /** The weight of the delegates before d. */
  ghost function Before(keys: seq<Dest>, weights: map<Dest, nat>, d: Dest): nat
    requires forall k :: k in keys ==> k in weights
  {
    if keys == [] || keys[0] == d then 0 else weights[keys[0]] + Before(keys[1..], weights, d)
  }

  ghost function SumOf(keys: seq<Dest>, weights: map<Dest, nat>): nat
    requires forall k :: k in keys ==> k in weights
  {
    if keys == [] then 0 else weights[keys[0]] + SumOf(keys[1..], weights)
  }

  lemma {:induction false} SumOfIsTotal(keys: seq<Dest>, weights: map<Dest, nat>)
    requires StrictlyAscending(keys) && forall k :: k in keys <==> k in weights
    ensures SumOf(keys, weights) == Total(weights)
    decreases |keys|
  {
    if keys == [] {
      assert weights == map[];
    } else {
      var k := keys[0];
      assert StrictlyAscending(keys[1..]);
      assert forall x :: x in keys[1..] <==> x in weights - {k};
      SumOfIsTotal(keys[1..], weights - {k});
      SumOfAgrees(keys[1..], weights, weights - {k});
      TotalRemove(weights, k);
    }
  }

  lemma SumOfAgrees(keys: seq<Dest>, w: map<Dest, nat>, w': map<Dest, nat>)
    requires forall k :: k in keys ==> k in w && k in w' && w[k] == w'[k]
    ensures SumOf(keys, w) == SumOf(keys, w')
  {
  }

  /** d wins exactly on the interval of its weight. */
  lemma {:induction false} PickInterval(keys: seq<Dest>, weights: map<Dest, nat>, n: nat, d: Dest)
    requires StrictlyAscending(keys) && forall k :: k in keys ==> k in weights
    ensures Pick(keys, weights, n) == Some(d) <==>
      d in keys && Before(keys, weights, d) <= n < Before(keys, weights, d) + weights[d]
    ensures Pick(keys, weights, n) == None <==> n >= SumOf(keys, weights)
    ensures d in keys ==> Before(keys, weights, d) + weights[d] <= SumOf(keys, weights)
    decreases |keys|
  {
    if keys != [] {
      assert StrictlyAscending(keys[1..]);
      assert keys[0] !in keys[1..];
      var m := if n < weights[keys[0]] then 0 else n - weights[keys[0]];
      PickInterval(keys[1..], weights, m, d);
    }
  }

  /** The len numbers from lo on. */
  ghost function Interval(lo: nat, len: nat): (s: set<nat>)
    ensures forall n: nat :: n in s <==> lo <= n < lo + len
    ensures |s| == len
  {
    if len == 0 then {} else Interval(lo, len - 1) + {lo + len - 1}
  }

  /** The residues on which d wins. */
  ghost function Wins(weights: map<Dest, nat>, total: nat, d: Dest): set<nat> {
    WinsIn(Ascending(weights.Keys), weights, total, d)
  }

  ghost function WinsIn(keys: seq<Dest>, weights: map<Dest, nat>, total: nat, d: Dest): set<nat>
    requires forall k :: k in keys ==> k in weights
  {
    set n: nat | n < total && Pick(keys, weights, n) == Some(d)
  }

  /** Somebody is drawn exactly for the residues below the total weight. */
  lemma DrawnIff(weights: map<Dest, nat>, n: nat)
    ensures Winner(weights, n).Some? <==> n < Total(weights)
    ensures Winner(weights, n).Some? ==> Winner(weights, n).value in weights && weights[Winner(weights, n).value] > 0
  {
    var keys := Ascending(weights.Keys);
    SumOfIsTotal(keys, weights);
    PickInterval(keys, weights, n, 0);
    if Winner(weights, n).Some? {
      PickInterval(keys, weights, n, Winner(weights, n).value);
    }
  }

  lemma PickOnInterval(keys: seq<Dest>, weights: map<Dest, nat>, total: nat, d: Dest, n: nat)
    requires StrictlyAscending(keys) && (forall k :: k in keys <==> k in weights)
    requires d in weights && total >= Total(weights)
    ensures n < total && Pick(keys, weights, n) == Some(d) <==> n in Interval(Before(keys, weights, d), weights[d])
  {
    SumOfIsTotal(keys, weights);
    PickInterval(keys, weights, n, d);
  }

  lemma WinsAreInterval(keys: seq<Dest>, weights: map<Dest, nat>, total: nat, d: Dest)
    requires StrictlyAscending(keys) && (forall k :: k in keys <==> k in weights)
    requires d in weights && total >= Total(weights)
    ensures WinsIn(keys, weights, total, d) == Interval(Before(keys, weights, d), weights[d])
  {
    var interval := Interval(Before(keys, weights, d), weights[d]);
    forall n: nat ensures n in WinsIn(keys, weights, total, d) <==> n in interval {
      PickOnInterval(keys, weights, total, d, n);
    }
  }

  /** Of `total` residues a delegate wins exactly as many as its weight, so a delegate without weight
      never wins. */
  lemma ShareIsWeight(weights: map<Dest, nat>, total: nat, d: Dest)
    requires d in weights && total >= Total(weights)
    ensures |Wins(weights, total, d)| == weights[d]
  {
    WinsAreInterval(Ascending(weights.Keys), weights, total, d);
  }

  lemma {:induction false} EnrolledIs(votes: seq<Vote>, ballots: set<Dest>, cap: nat, d: Dest)
    ensures d in Enrolled(votes, ballots, cap) <==> d in ballots && exists i :: 0 <= i < |votes| && votes[i].dest == d
    ensures Distinct(votes) ==> forall i :: 0 <= i < |votes| && votes[i].dest in ballots ==>
              votes[i].dest in Enrolled(votes, ballots, cap) &&
                  Enrolled(votes, ballots, cap)[votes[i].dest] == Min(votes[i].amount, cap)
  {
    if votes != [] {
      var n := |votes| - 1;
      EnrolledIs(votes[..n], ballots, cap, d);
      if d in ballots && exists i :: 0 <= i < |votes| && votes[i].dest == d {
        var i :| 0 <= i < |votes| && votes[i].dest == d;
        if i < n {
          assert votes[..n][i].dest == d;
        }
      }
      if d in Enrolled(votes[..n], ballots, cap) {
        var i :| 0 <= i < n && votes[..n][i].dest == d;
        assert votes[i].dest == d;
      }
      if Distinct(votes) {
        assert Distinct(votes[..n]);
        forall i | 0 <= i < |votes| && votes[i].dest in ballots
          ensures votes[i].dest in Enrolled(votes, ballots, cap) &&
                  Enrolled(votes, ballots, cap)[votes[i].dest] == Min(votes[i].amount, cap)
        {
          if i < n {
            assert votes[..n][i] == votes[i];
          }
        }
      }
    }
  }

  lemma WeightsUpdate(m: map<Dest, nat>, d: Dest, a: nat, unit: nat)
    requires unit > 0
    ensures Weights(m[d := a], unit) == Weights(m, unit)[d := a / unit]
  {
  }

  lemma WeightStep(m: map<Dest, nat>, d: Dest, a: nat, unit: nat)
    requires unit > 0
    ensures Total(Weights(m[d := a], unit)) <= Total(Weights(m, unit)) + a / unit
    ensures d !in m ==> Total(Weights(m[d := a], unit)) == Total(Weights(m, unit)) + a / unit
  {
    WeightsUpdate(m, d, a, unit);
    TotalUpdate(Weights(m, unit), d, a / unit);
  }

  /** The accumulated weight is never less than the total over the delegates. */
  lemma {:induction false} WeightSumAtLeast(votes: seq<Vote>, ballots: set<Dest>, cap: nat, unit: nat)
    requires unit > 0
    ensures Total(Weights(Enrolled(votes, ballots, cap), unit)) <= WeightSum(votes, ballots, cap, unit)
  {
    if votes == [] {
      assert Weights(map[], unit) == map[];
    } else {
      var v, rest := votes[|votes|-1], votes[..|votes|-1];
      WeightSumAtLeast(rest, ballots, cap, unit);
      WeightStep(Enrolled(rest, ballots, cap), v.dest, Min(v.amount, cap), unit);
    }
  }

  lemma LastIsNew(votes: seq<Vote>, ballots: set<Dest>, cap: nat)
    requires votes != [] && Distinct(votes)
    ensures Distinct(votes[..|votes|-1]) && votes[|votes|-1].dest !in Enrolled(votes[..|votes|-1], ballots, cap)
  {
    EnrolledIs(votes[..|votes|-1], ballots, cap, votes[|votes|-1].dest);
  }

  /** It is that total when no delegate is listed twice. */
  lemma {:induction false} WeightSumIsTotal(votes: seq<Vote>, ballots: set<Dest>, cap: nat, unit: nat)
    requires unit > 0 && Distinct(votes)
    ensures Total(Weights(Enrolled(votes, ballots, cap), unit)) == WeightSum(votes, ballots, cap, unit)
  {
    if votes == [] {
      assert Weights(map[], unit) == map[];
    } else {
      var v, rest := votes[|votes|-1], votes[..|votes|-1];
      LastIsNew(votes, ballots, cap);
      WeightSumIsTotal(rest, ballots, cap, unit);
      WeightStep(Enrolled(rest, ballots, cap), v.dest, Min(v.amount, cap), unit);
    }
  }

  /** And so the trust is the total of the capped amounts. */
  lemma {:induction false} TrustIsTotal(votes: seq<Vote>, ballots: set<Dest>, cap: nat)
    requires Distinct(votes)
    ensures Total(Enrolled(votes, ballots, cap)) == Trust(votes, ballots, cap)
  {
    if votes != [] {
      var v, rest := votes[|votes|-1], votes[..|votes|-1];
      LastIsNew(votes, ballots, cap);
      TrustIsTotal(rest, ballots, cap);
      TotalUpdate(Enrolled(rest, ballots, cap), v.dest, Min(v.amount, cap));
    }
  }

  /** The draw never comes out empty, whatever the random number, if and only if no weight was lost to
      a delegate listed twice. */
  lemma AlwaysDrawsIff(votes: seq<Vote>, ballots: set<Dest>, cap: nat, unit: nat)
    requires unit > 0 && WeightSum(votes, ballots, cap, unit) > 0
    ensures var w := Weights(Enrolled(votes, ballots, cap), unit);
            var t := WeightSum(votes, ballots, cap, unit);
            (forall n: nat :: n < t ==> Winner(w, n).Some?) <==> Total(w) == t
    ensures Distinct(votes) ==>
      Total(Weights(Enrolled(votes, ballots, cap), unit)) == WeightSum(votes, ballots, cap, unit)
  {
    var w := Weights(Enrolled(votes, ballots, cap), unit);
    var t := WeightSum(votes, ballots, cap, unit);
    WeightSumAtLeast(votes, ballots, cap, unit);
    if Distinct(votes) {
      WeightSumIsTotal(votes, ballots, cap, unit);
    }
    DrawnIff(w, t - 1);
    forall n: nat | n < t && Total(w) == t ensures Winner(w, n).Some? {
      DrawnIff(w, n);
    }
  }

  lemma SingleWinner(d: Dest, w: nat)
    ensures Winner(map[d := w], w) == None
  {
    assert map[d := w] - {d} == map[];
    TotalRemove(map[d := w], d);
    DrawnIff(map[d := w], w);
  }

  lemma TwiceEnrolled(v: Vote, cap: nat, unit: nat)
    requires unit > 0
    ensures Enrolled([v, v], {v.dest}, cap) == map[v.dest := Min(v.amount, cap)]
    ensures WeightSum([v, v], {v.dest}, cap, unit) == 2 * (Min(v.amount, cap) / unit)
  {
    assert [v, v][..1] == [v];
    assert [v][..0] == [];
    assert Enrolled([v], {v.dest}, cap) == map[v.dest := Min(v.amount, cap)];
    assert WeightSum([v], {v.dest}, cap, unit) == Min(v.amount, cap) / unit;
  }

  /** The other side: a delegate listed twice counts twice but wins once, so half of the residues draw
      nobody. */
  lemma ListedTwice(v: Vote, cap: nat, unit: nat)
    requires unit > 0 && Min(v.amount, cap) / unit > 0
    ensures var w := Min(v.amount, cap) / unit;
            && WeightSum([v, v], {v.dest}, cap, unit) == 2 * w
            && Winner(Weights(Enrolled([v, v], {v.dest}, cap), unit), w) == None
  {
    TwiceEnrolled(v, cap, unit);
    assert Weights(map[v.dest := Min(v.amount, cap)], unit) == map[v.dest := Min(v.amount, cap) / unit];
    SingleWinner(v.dest, Min(v.amount, cap) / unit);
  }

  lemma {:induction false} EnrolledReordered(votes: seq<Vote>, votes': seq<Vote>, ballots: set<Dest>, cap: nat)
    requires Distinct(votes) && Distinct(votes') && multiset(votes) == multiset(votes')
    ensures Enrolled(votes, ballots, cap) == Enrolled(votes', ballots, cap)
  {
    var m, m' := Enrolled(votes, ballots, cap), Enrolled(votes', ballots, cap);
    forall d ensures d in m <==> d in m' {
      EnrolledIs(votes, ballots, cap, d);
      EnrolledIs(votes', ballots, cap, d);
      forall v ensures v in votes <==> v in votes' {
        assert v in multiset(votes) <==> v in multiset(votes');
      }
      if d in m {
        var i :| 0 <= i < |votes| && votes[i].dest == d;
        assert votes[i] in votes';
      }
      if d in m' {
        var i :| 0 <= i < |votes'| && votes'[i].dest == d;
        assert votes'[i] in votes;
      }
    }
    forall d | d in m ensures m[d] == m'[d] {
      EnrolledIs(votes, ballots, cap, d);
      EnrolledIs(votes', ballots, cap, d);
      var i :| 0 <= i < |votes| && votes[i].dest == d;
      assert votes[i] in multiset(votes');
      var j :| 0 <= j < |votes'| && votes'[j] == votes[i];
    }
  }

  /** The order in which the votes are listed changes neither the ballot nor the trust. */
  lemma OrderIrrelevant(votes: seq<Vote>, votes': seq<Vote>, ballots: set<Dest>, cap: nat, unit: nat)
    requires Distinct(votes) && Distinct(votes') && multiset(votes) == multiset(votes') && unit > 0
    ensures Trust(votes, ballots, cap) == Trust(votes', ballots, cap)
    ensures WeightSum(votes, ballots, cap, unit) == WeightSum(votes', ballots, cap, unit)
    ensures forall n: nat ::
      Winner(Weights(Enrolled(votes, ballots, cap), unit), n) ==
      Winner(Weights(Enrolled(votes', ballots, cap), unit), n)
  {
    EnrolledReordered(votes, votes', ballots, cap);
    WeightSumIsTotal(votes, ballots, cap, unit);
    WeightSumIsTotal(votes', ballots, cap, unit);
    TrustIsTotal(votes, ballots, cap);
    TrustIsTotal(votes', ballots, cap);
  }
}
