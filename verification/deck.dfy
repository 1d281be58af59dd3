/**
 * The 52-card deck of GameService (services.py SUITS and RANKS), the
 * undealt part of it, and `random.shuffle` given as an explicit
 * permutation of positions.
 */
module Deck {
  import opened Seqs
  import opened Models

  const DECK_SIZE := 52

  const SUITS: seq<Suit> := [Hearts, Diamonds, Clubs, Spades]

  const RANKS: seq<Rank> :=
    [Two, Three, Four, Five, Six, Seven, Eight, Nine, Ten, Jack, Queen, King, Ace]

  /** The pairs (s, r) for r in `ranks`, in order. */
  function Row(s: Suit, ranks: seq<Rank>): seq<Face> {
    seq(|ranks|, i requires 0 <= i < |ranks| => (s, ranks[i]))
  }

  /** `[(suit, rank) for suit in suits for rank in ranks]`. */
  function Product(suits: seq<Suit>, ranks: seq<Rank>): seq<Face> {
    if suits == [] then [] else Row(suits[0], ranks) + Product(suits[1..], ranks)
  }

  lemma {:induction false} ProductFacts(suits: seq<Suit>, ranks: seq<Rank>)
    ensures |Product(suits, ranks)| == |suits| * |ranks|
    ensures forall f :: f in Product(suits, ranks) <==> f.0 in suits && f.1 in ranks
    ensures NoDuplicates(suits) && NoDuplicates(ranks) ==> NoDuplicates(Product(suits, ranks))
  {
    if suits != [] {
      var row, rest := Row(suits[0], ranks), Product(suits[1..], ranks);
      ProductFacts(suits[1..], ranks);
      assert |suits| * |ranks| == |ranks| + |suits[1..]| * |ranks|;
      forall f ensures f in row <==> f.0 == suits[0] && f.1 in ranks {
        if f.0 == suits[0] && f.1 in ranks {
          var k :| 0 <= k < |ranks| && ranks[k] == f.1;
          assert row[k] == f;
        }
      }
      assert forall x :: x in suits <==> x == suits[0] || x in suits[1..];
      if NoDuplicates(suits) && NoDuplicates(ranks) {
        assert suits[0] !in suits[1..] by {
          forall k | 0 <= k < |suits[1..]| ensures suits[1..][k] != suits[0] {
            assert suits[1..][k] == suits[k + 1];
          }
        }
        NoDuplicatesConcat(row, rest);
      }
    }
  }

  lemma EveryFaceListed()
    ensures forall s: Suit :: s in SUITS
    ensures forall r: Rank :: r in RANKS
  {
    forall s: Suit ensures s in SUITS {
      match s { case Hearts => case Diamonds => case Clubs => case Spades => }
    }
    forall r: Rank ensures r in RANKS {
      match r {
        case Two => case Three => case Four => case Five => case Six => case Seven =>
        case Eight => case Nine => case Ten => case Jack => case Queen => case King =>
        case Ace =>
      }
    }
  }

  lemma ListsAreDistinct()
    ensures NoDuplicates(SUITS) && NoDuplicates(RANKS)
  {
  }

  /** The deck built at services.py:47 and :127, before any card is excluded. */
  function FullDeck(): (d: seq<Face>)
    ensures |d| == DECK_SIZE
    ensures NoDuplicates(d)
    ensures forall f: Face :: f in d
  {
    ProductFacts(SUITS, RANKS);
    EveryFaceListed();
    ListsAreDistinct();
    Product(SUITS, RANKS)
  }

  /** The cards of `d` that are not in `excluded`, in deck order. */
  function Filter(d: seq<Face>, excluded: seq<Face>): seq<Face> {
    if d == [] then []
    else (if d[0] in excluded then [] else [d[0]]) + Filter(d[1..], excluded)
  }

  lemma {:induction false} FilterMembers(d: seq<Face>, excluded: seq<Face>)
    ensures forall f :: f in Filter(d, excluded) <==> f in d && f !in excluded
  {
    if d != [] {
      FilterMembers(d[1..], excluded);
      assert forall f :: f in d <==> f == d[0] || f in d[1..];
    }
  }

  /** The tail of a duplicate-free list is duplicate-free and lacks the head. */
  lemma DistinctTail(d: seq<Face>)
    requires d != [] && NoDuplicates(d)
    ensures d[0] !in d[1..] && NoDuplicates(d[1..])
  {
    forall k | 0 <= k < |d[1..]| ensures d[1..][k] != d[0] {
      assert d[1..][k] == d[k + 1];
    }
    forall i, j | 0 <= i < j < |d[1..]| ensures d[1..][i] != d[1..][j] {
      assert d[1..][i] == d[i + 1] && d[1..][j] == d[j + 1];
    }
  }

  lemma {:induction false} FilterDistinct(d: seq<Face>, excluded: seq<Face>)
    requires NoDuplicates(d)
    ensures NoDuplicates(Filter(d, excluded))
  {
    if d != [] {
      DistinctTail(d);
      FilterDistinct(d[1..], excluded);
      FilterMembers(d[1..], excluded);
      var head := if d[0] in excluded then [] else [d[0]];
      NoDuplicatesConcat(head, Filter(d[1..], excluded));
    }
  }

  /** Filtering a duplicate-free deck drops one card per excluded card it holds. */
  lemma {:induction false} FilterSize(d: seq<Face>, excluded: seq<Face>)
    requires NoDuplicates(d)
    ensures |Filter(d, excluded)| + |ToSet(excluded) * ToSet(d)| == |d|
  {
    if d != [] {
      DistinctTail(d);
      FilterSize(d[1..], excluded);
      ToSetCons(d);
      var common, common' := ToSet(excluded) * ToSet(d), ToSet(excluded) * ToSet(d[1..]);
      if d[0] in excluded {
        assert common == common' + {d[0]};
        assert d[0] !in common';
      } else {
        assert common == common';
      }
    }
  }

  /**
   * The draw deck of services.py:126-128: every card of the full deck that
   * is not in the current hand.
   */
  function RemainingDeck(hand: seq<Face>): (d: seq<Face>)
    ensures forall f :: f in d <==> f !in hand
    ensures NoDuplicates(d)
    ensures NoDuplicates(hand) ==> |d| == DECK_SIZE - |hand|
  {
    var full := FullDeck();
    FilterMembers(full, hand);
    FilterDistinct(full, hand);
    FilterSize(full, hand);
    assert ToSet(hand) * ToSet(full) == ToSet(hand);
    DistinctIffSetSize(hand);
    Filter(full, hand)
  }

  /** `perm` lists each of the positions 0..n-1 exactly once. */
  ghost predicate IsPermutation(perm: seq<int>, n: nat) {
    |perm| == n && AllInRange(perm, 0, n) && NoDuplicates(perm)
  }

  /**
   * `random.shuffle(deck)`: the card at position i afterwards is the one
   * that was at position perm[i]. Every card stays, none is added.
   */
  function Shuffle(d: seq<Face>, perm: seq<int>): (r: seq<Face>)
    requires IsPermutation(perm, |d|)
    ensures |r| == |d|
    ensures multiset(r) == multiset(d)
    ensures forall f :: f in r <==> f in d
    ensures NoDuplicates(d) ==> NoDuplicates(r)
  {
    var r := seq(|d|, i requires 0 <= i < |d| => d[perm[i]]);
    PermutedMultiset(d, perm, r);
    PermutationIsOnto(perm, |d|);
    forall f | f in d ensures f in r {
      var j :| 0 <= j < |d| && d[j] == f;
      assert j in perm;
      var i :| 0 <= i < |perm| && perm[i] == j;
      assert r[i] == f;
    }
    r
  }
}
