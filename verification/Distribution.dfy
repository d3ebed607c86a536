/** Dealing the shards of a partition to at most eight queries. */
module Distribution {
  import opened Windows

  const MAX_CONCURRENCY := 8

  function QueryCount(n: nat): nat {
    if n < MAX_CONCURRENCY then n else MAX_CONCURRENCY
  }

  /** The shards in the order they are dealt. */
  function Ordered(shards: seq<nat>, ascending: bool): seq<nat> {
    if ascending then shards
    else seq(|shards|, i requires 0 <= i < |shards| => shards[|shards| - 1 - i])
  }

  /** After r full rounds and c more cards: who has how many, and which. */
  ghost predicate Dealt(cards: seq<nat>, m: nat, r: nat, c: nat, hands: seq<seq<nat>>) {
    && c < m && |hands| == (if r == 0 then c else m) && m * r + c <= |cards|
    && (forall j :: 0 <= j < |hands| ==> |hands[j]| == r + (if j < c then 1 else 0))
    && (forall j, t :: 0 <= j < |hands| && 0 <= t < |hands[j]| ==> IsCard(cards, m * t + j, hands[j][t]))
  }

  ghost predicate IsCard(cards: seq<nat>, i: int, card: nat) {
    0 <= i < |cards| && cards[i] == card
  }

  lemma {:induction false} RoundOf(m: nat, r: nat, c: nat)
    requires c < m
    ensures (m * r + c) % m == c
  {
    var i, q := m * r + c, (m * r + c) / m;
    assert i == m * q + i % m;
    MulMonotone(m, q, r);
    MulMonotone(m, r, q);
  }

  /** One card for the next hand. */
  method Deal(cards: seq<nat>, m: nat, ghost r: nat, ghost c: nat, i: nat, hands: seq<seq<nat>>)
    returns (hands': seq<seq<nat>>)
    requires Dealt(cards, m, r, c, hands) && i == m * r + c < |cards|
    ensures if c + 1 < m then Dealt(cards, m, r, c + 1, hands') else Dealt(cards, m, r + 1, 0, hands')
  {
    RoundOf(m, r, c);
    var j := i % m;
    hands' := hands;
    if j >= |hands| {
      hands' := hands' + [[]];
    }
    hands' := hands'[j := hands'[j] + [cards[i]]];
    assert m * (r + 1) == m * r + m;
  }

  /** Every hand is one of every m-th cards, and the hands differ by at most one card. */
  ghost predicate Balanced(cards: seq<nat>, hands: seq<seq<nat>>) {
    var m := |hands|;
    && (forall j, t :: 0 <= j < m && 0 <= t < |hands[j]| ==> IsCard(cards, m * t + j, hands[j][t]))
    && (forall j :: 0 <= j < m ==> hands[j] != [])
    && (forall j, k :: 0 <= j < m && 0 <= k < m ==> -1 <= |hands[j]| - |hands[k]| <= 1)
  }

  /** Each card is in the hand of its own number. */
  ghost predicate Everywhere(cards: seq<nat>, hands: seq<seq<nat>>) {
    var m := |hands|;
    m > 0 && forall i :: 0 <= i < |cards| ==> InHand(cards, hands, i, i % m, i / m)
  }

  ghost predicate InHand(cards: seq<nat>, hands: seq<seq<nat>>, i: int, j: int, t: int) {
    0 <= i < |cards| && 0 <= j < |hands| && 0 <= t < |hands[j]| && hands[j][t] == cards[i]
  }

  /** Shard t of query j is the one at position m * t + j, counted from the front or from the back. */
  ghost predicate InPlace(shards: seq<nat>, ascending: bool, queries: seq<seq<nat>>) {
    var m, n := |queries|, |shards|;
    forall j, t :: 0 <= j < m && 0 <= t < |queries[j]| ==>
      IsCard(shards, if ascending then m * t + j else n - 1 - (m * t + j), queries[j][t])
  }

  lemma {:induction false} OrderedInPlace(shards: seq<nat>, ascending: bool, queries: seq<seq<nat>>)
    requires Balanced(Ordered(shards, ascending), queries)
    ensures InPlace(shards, ascending, queries)
  {
    var m, n := |queries|, |shards|;
    forall j, t | 0 <= j < m && 0 <= t < |queries[j]|
      ensures IsCard(shards, if ascending then m * t + j else n - 1 - (m * t + j), queries[j][t])
    {
      assert IsCard(Ordered(shards, ascending), m * t + j, queries[j][t]);
    }
  }

  method DistShardsByMaxConcurrency(shards: seq<nat>, ascending: bool) returns (queries: seq<seq<nat>>)
    ensures |queries| == (if |shards| < 8 then |shards| else 8) && InPlace(shards, ascending, queries)
    ensures Balanced(Ordered(shards, ascending), queries)
    ensures shards != [] ==> Everywhere(Ordered(shards, ascending), queries)
  {
    var m := QueryCount(|shards|);
    if m == 0 {
      return [];
    }
    ghost var cards := Ordered(shards, ascending);
    queries := [];
    ghost var r: nat, c: nat := 0, 0;
    for i := 0 to |shards|
      invariant Dealt(cards, m, r, c, queries) && i == m * r + c
    {
      queries := Deal(Ordered(shards, ascending), m, r, c, i, queries);
      assert m * (r + 1) == m * r + m;
      if c + 1 < m {
        c := c + 1;
      } else {
        r, c := r + 1, 0;
      }
    }
    AllDealt(cards, m, r, c, queries);
    OrderedInPlace(shards, ascending, queries);
  }

  lemma {:induction false} HandOf(cards: seq<nat>, m: nat, r: nat, c: nat, hands: seq<seq<nat>>, t: nat, j: nat)
    requires Dealt(cards, m, r, c, hands) && |hands| == m && j < m && m * t + j < m * r + c
    ensures InHand(cards, hands, m * t + j, j, t)
  {
    MulMonotone(m, r, t);
    assert IsCard(cards, m * t + j, hands[j][t]);
  }

  lemma {:induction false} FullRound(m: nat, r: nat, c: nat)
    requires c < m <= m * r + c
    ensures r > 0
  {
  }

  lemma {:induction false} AllDealt(cards: seq<nat>, m: nat, r: nat, c: nat, hands: seq<seq<nat>>)
    requires Dealt(cards, m, r, c, hands) && |cards| == m * r + c && m == QueryCount(|cards|) > 0
    ensures |hands| == m && Balanced(cards, hands) && Everywhere(cards, hands)
  {
    FullRound(m, r, c);
    CardsEverywhere(cards, m, r, c, hands);
  }

  lemma {:induction false} CardsEverywhere(cards: seq<nat>, m: nat, r: nat, c: nat, hands: seq<seq<nat>>)
    requires Dealt(cards, m, r, c, hands) && |hands| == m > 0 && |cards| == m * r + c
    ensures Everywhere(cards, hands)
  {
    forall i | 0 <= i < |cards|
      ensures InHand(cards, hands, i, i % m, i / m)
    {
      HandOf(cards, m, r, c, hands, i / m, i % m);
    }
  }
}
