/**
 * The records of the poker app: a Game owns one Player, the Player owns the
 * cards of its hand, and the Game lists its Opponents. Enumerated columns
 * (`choices=`) become datatypes; the stored strings and their parsers are
 * given beside each, with the round trip between them proved.
 */
module Models {
  import opened Wrappers
  import opened Seqs

  // ---------------------------------------------------------------------------
  // Game phase: models.py PHASE_CHOICES

  datatype Phase = Betting | Drawing | Showdown | Finished

  /** The string stored in the `phase` column. */
  function PhaseName(p: Phase): string {
    match p
    case Betting => "betting"
    case Drawing => "drawing"
    case Showdown => "showdown"
    case Finished => "finished"
  }

  /** Reads a `phase` column: exactly the four choice strings are accepted. */
  function ParsePhase(s: string): (r: Option<Phase>)
    ensures r.Some? ==> PhaseName(r.value) == s
    ensures r.None? ==> forall p: Phase :: PhaseName(p) != s
  {
    if s == "betting" then Some(Betting)
    else if s == "drawing" then Some(Drawing)
    else if s == "showdown" then Some(Showdown)
    else if s == "finished" then Some(Finished)
    else None
  }

  lemma PhaseRoundTrip(p: Phase)
    ensures ParsePhase(PhaseName(p)) == Some(p)
  {
  }

  /**
   * The order of the lifecycle betting -> drawing -> showdown -> finished;
   * no engine operation moves a game to a lower rank.
   */
  function PhaseRank(p: Phase): nat {
    match p
    case Betting => 0
    case Drawing => 1
    case Showdown => 2
    case Finished => 3
  }

  // ---------------------------------------------------------------------------
  // Card suit and rank: models.py SUIT_CHOICES and RANK_CHOICES

  datatype Suit = Hearts | Diamonds | Clubs | Spades

  datatype Rank = Two | Three | Four | Five | Six | Seven | Eight | Nine | Ten
                | Jack | Queen | King | Ace

  function SuitName(s: Suit): string {
    match s
    case Hearts => "hearts"
    case Diamonds => "diamonds"
    case Clubs => "clubs"
    case Spades => "spades"
  }

  function RankName(r: Rank): string {
    match r
    case Two => "2"
    case Three => "3"
    case Four => "4"
    case Five => "5"
    case Six => "6"
    case Seven => "7"
    case Eight => "8"
    case Nine => "9"
    case Ten => "10"
    case Jack => "J"
    case Queen => "Q"
    case King => "K"
    case Ace => "A"
  }

  /** Reads a `suit` column: exactly the four choice strings are accepted. */
  function ParseSuit(s: string): (r: Option<Suit>)
    ensures r.Some? ==> SuitName(r.value) == s
    ensures r.None? ==> forall x: Suit :: SuitName(x) != s
  {
    if s == "hearts" then Some(Hearts)
    else if s == "diamonds" then Some(Diamonds)
    else if s == "clubs" then Some(Clubs)
    else if s == "spades" then Some(Spades)
    else None
  }

  /** Reads a `rank` column: exactly the thirteen choice strings are accepted. */
  function ParseRank(s: string): (r: Option<Rank>)
    ensures r.Some? ==> RankName(r.value) == s
    ensures r.None? ==> forall x: Rank :: RankName(x) != s
  {
    if s == "2" then Some(Two)
    else if s == "3" then Some(Three)
    else if s == "4" then Some(Four)
    else if s == "5" then Some(Five)
    else if s == "6" then Some(Six)
    else if s == "7" then Some(Seven)
    else if s == "8" then Some(Eight)
    else if s == "9" then Some(Nine)
    else if s == "10" then Some(Ten)
    else if s == "J" then Some(Jack)
    else if s == "Q" then Some(Queen)
    else if s == "K" then Some(King)
    else if s == "A" then Some(Ace)
    else None
  }

  lemma SuitRoundTrip(s: Suit)
    ensures ParseSuit(SuitName(s)) == Some(s)
  {
  }

  lemma RankRoundTrip(r: Rank)
    ensures ParseRank(RankName(r)) == Some(r)
  {
  }

  // ---------------------------------------------------------------------------
  // Card: models.py class Card

  /** What identifies a playing card: its (suit, rank) pair. */
  type Face = (Suit, Rank)

  /**
   * One card row of a player's hand. `selected` is a display marker and
   * `position` the slot in the hand (0..4); both have column defaults.
   */
  datatype Card = Card(suit: Suit, rank: Rank, selected: bool := false, position: int := 0)

  function FaceOf(c: Card): Face {
    (c.suit, c.rank)
  }

  /** The (suit, rank) pairs of a hand, in slot order. */
  function Faces(cards: seq<Card>): (r: seq<Face>)
    ensures |r| == |cards|
    ensures forall i :: 0 <= i < |cards| ==> r[i] == FaceOf(cards[i])
  {
    seq(|cards|, i requires 0 <= i < |cards| => FaceOf(cards[i]))
  }

  /** `Card.__str__`: "<rank> of <suit>". */
  function CardStr(c: Card): string {
    RankName(c.rank) + " of " + SuitName(c.suit)
  }

  lemma RankNameShape(r: Rank)
    ensures 1 <= |RankName(r)| <= 2
    ensures ' ' !in RankName(r)
    ensures |RankName(r)| == 2 ==> RankName(r) == "10"
  {
  }

  lemma RankNameInjective(a: Rank, b: Rank)
    requires RankName(a) == RankName(b)
    ensures a == b
  {
  }

  lemma SuitNameInjective(a: Suit, b: Suit)
    requires SuitName(a) == SuitName(b)
    ensures a == b
  {
  }

  /** The second character is the separating space exactly for one-character ranks. */
  lemma CardStrSecondChar(c: Card)
    ensures |CardStr(c)| > 1
    ensures CardStr(c)[1] == ' ' <==> |RankName(c.rank)| == 1
  {
    RankNameShape(c.rank);
  }

  /** Two cards print the same exactly when they have the same suit and rank. */
  lemma CardStrIdentifiesFace(a: Card, b: Card)
    ensures CardStr(a) == CardStr(b) <==> FaceOf(a) == FaceOf(b)
  {
    if CardStr(a) == CardStr(b) {
      var ra, rb := RankName(a.rank), RankName(b.rank);
      RankNameShape(a.rank);
      RankNameShape(b.rank);
      CardStrSecondChar(a);
      CardStrSecondChar(b);
      assert |ra| == |rb|;
      assert CardStr(a)[..|ra|] == ra;
      assert CardStr(b)[..|rb|] == rb;
      RankNameInjective(a.rank, b.rank);
      assert CardStr(a)[|ra| + 4..] == SuitName(a.suit);
      assert CardStr(b)[|rb| + 4..] == SuitName(b.suit);
      SuitNameInjective(a.suit, b.suit);
    }
  }

  // ---------------------------------------------------------------------------
  // Opponent: models.py class Opponent

  datatype OpponentStatus = Active | Folded | AllIn

  function StatusName(s: OpponentStatus): string {
    match s
    case Active => "active"
    case Folded => "folded"
    case AllIn => "all_in"
  }

  /** Reads a `status` column: exactly the three choice strings are accepted. */
  function ParseStatus(s: string): (r: Option<OpponentStatus>)
    ensures r.Some? ==> StatusName(r.value) == s
    ensures r.None? ==> forall x: OpponentStatus :: StatusName(x) != s
  {
    if s == "active" then Some(Active)
    else if s == "folded" then Some(Folded)
    else if s == "all_in" then Some(AllIn)
    else None
  }

  lemma StatusRoundTrip(s: OpponentStatus)
    ensures ParseStatus(StatusName(s)) == Some(s)
  {
  }

  /**
   * A computer opponent. Its row is never updated after creation, so it is a
   * value; the column defaults are the parameter defaults.
   */
  datatype Opponent = Opponent(
    name: string,
    chips: int := 1000,
    status: OpponentStatus := Active,
    cardCount: int := 5,
    currentBet: int := 0)

  // ---------------------------------------------------------------------------
  // Game and Player: models.py classes Game and Player

  /** The `id` primary key; its UUID text form is left to the HTTP layer. */
  type GameId = nat

  const HAND_SIZE := 5
  const DEFAULT_PLAYER_CHIPS := 1000
  const DEFAULT_CURRENT_BET := 10

  /**
   * The shape of a dealt hand: five cards whose position is their slot and
   * whose (suit, rank) pairs are pairwise distinct.
   */
  ghost predicate WellFormedHand(cards: seq<Card>) {
    && |cards| == HAND_SIZE
    && (forall i :: 0 <= i < |cards| ==> cards[i].position == i)
    && NoDuplicates(Faces(cards))
  }

  /** The human seat of a game (one-to-one with Game). */
  class Player {
    var chips: int
    var hasFolded: bool
    var currentBet: int
    /** The player's Card rows, slot i holding the card at position i. */
    var cards: seq<Card>

    /** `Player.objects.create`: column defaults, no cards yet. */
    constructor (chips: int := DEFAULT_PLAYER_CHIPS)
      ensures this.chips == chips && !hasFolded && currentBet == 0 && cards == []
    {
      this.chips := chips;
      hasFolded := false;
      currentBet := 0;
      cards := [];
    }
  }

  class Game {
    const id: GameId
    var phase: Phase
    var pot: int
    var currentBet: int
    var winner: Option<string>
    var winningHand: Option<string>
    var canCall: bool
    var canRaise: bool
    var canFold: bool
    /** The reverse one-to-one relation; null until a Player row is created. */
    var player: Player?
    /** The reverse foreign key of the Opponent rows, in creation order. */
    var opponents: seq<Opponent>

    /**
     * The engine's invariant: a seat exists, no balance is negative and the
     * hand is a well-formed five-card hand.
     */
    ghost predicate Valid()
      reads this, player
    {
      && player != null
      && pot >= 0
      && currentBet >= 0
      && player.chips >= 0
      && WellFormedHand(player.cards)
    }

    /** `Game.objects.create` with every column left at its default. */
    constructor (id: GameId)
      ensures this.id == id
      ensures phase == Betting && pot == 0 && currentBet == DEFAULT_CURRENT_BET
      ensures winner == None && winningHand == None
      ensures canCall && canRaise && canFold
      ensures player == null && opponents == []
    {
      this.id := id;
      phase := Betting;
      pot := 0;
      currentBet := DEFAULT_CURRENT_BET;
      winner := None;
      winningHand := None;
      canCall, canRaise, canFold := true, true, true;
      player := null;
      opponents := [];
    }
  }
}
