/** Sizes of finite sets, and sums over finite maps. */
module FiniteSets {
  lemma {:induction false} Smaller<T>(a: set<T>, b: set<T>)
    requires a <= b
    ensures |a| <= |b|
  {
    if a != {} {
      var x :| x in a;
      Smaller(a - {x}, b - {x});
    }
  }

  /** The sum of the ranks, as the size of a set with so many elements for each. */
  ghost function Sum(ranks: map<nat, nat>): nat {
    |Units(ranks)|
  }

  ghost function Units(ranks: map<nat, nat>): set<(nat, nat)> {
    set id, k | id in ranks && 0 <= k < ranks[id] :: (id, k)
  }

  lemma SumFalls(ranks: map<nat, nat>, id: nat, rank: nat)
    requires id in ranks && rank < ranks[id]
    ensures Sum(ranks[id := rank]) < Sum(ranks)
  {
    var after, last := Units(ranks[id := rank]), (id, rank);
    assert after <= Units(ranks) - {last} && last in Units(ranks);
    Smaller(after, Units(ranks) - {last});
  }
}
