/**
 * GameService: the five-card-draw session engine. Every operation checks the
 * game's phase, validates its inputs, and only then updates the Game and its
 * Player in place. Randomness is an input: `random.shuffle` is a permutation
 * of deck positions handed in by the caller, while `random.choice`,
 * `random.randint` and `uuid4` are nondeterministic choices (`:|`) whose
 * range the contracts state.
 */
module GameService {
  import opened Wrappers
  import opened Seqs
  import opened Models
  import opened Deck

  /** The `ValueError`s the service raises, one per message. */
  datatype EngineError =
    | NotBettingPhase
    | NotDrawingPhase
    | InsufficientChipsToCall
    | InsufficientChipsToRaise
    | AmountRequired
    | NegativeAmount
    | InvalidCardIndex(index: int)
    | GameNotFound

  const OPPONENT_NAMES: seq<string> := ["Computer 1", "Computer 2", "Computer 3"]
  const MIN_OPPONENT_CHIPS := 800
  const MAX_OPPONENT_CHIPS := 1200
  const OPPONENT_CARD_COUNT := 5

  /** The winner recorded when the human seat wins. */
  const PLAYER_WINNER := "player"

  /** The label a fold always reports. */
  const FOLD_WINNING_HAND := "Pair of Kings"

  /** The labels `_determine_winner` picks from. */
  const WINNING_HANDS: seq<string> := [
    "Royal Flush", "Straight Flush", "Four of a Kind",
    "Full House", "Flush", "Straight", "Three of a Kind",
    "Two Pair", "Pair of Aces", "Pair of Kings", "High Card"]

  // ---------------------------------------------------------------------------
  // The table of games (the ORM's `Game.objects`)

  class GameTable {
    var games: map<GameId, Game>

    /** Every game is stored under its own id. */
    ghost predicate Valid()
      reads this
    {
      forall id :: id in games ==> games[id].id == id
    }

    constructor ()
      ensures Valid() && games == map[]
    {
      games := map[];
    }
  }

  /** Some natural number exceeds every id in use, so a fresh id exists. */
  lemma {:induction false} IdBound(ids: set<GameId>) returns (b: GameId)
    ensures forall id :: id in ids ==> id < b
    decreases ids
  {
    if ids == {} {
      b := 0;
    } else {
      var x :| x in ids;
      var b' := IdBound(ids - {x});
      b := if b' > x then b' else x + 1;
      forall id | id in ids ensures id < b {
        if id != x {
          assert id in ids - {x};
        }
      }
    }
  }

  /** `get_game_state`: the game stored under `id`, or "Game not found". */
  function GetGameState(table: GameTable, id: GameId): (r: Result<Game, EngineError>)
    requires table.Valid()
    reads table
    ensures r.Ok? <==> id in table.games
    ensures r.Ok? ==> r.value.id == id && r.value == table.games[id]
    ensures r.Err? ==> r.error == GameNotFound
  {
    if id in table.games then Ok(table.games[id]) else Err(GameNotFound)
  }

  // ---------------------------------------------------------------------------
  // Dealing

  /** The hand `_deal_initial_cards` creates from the top five cards of `deck`. */
  function DealtHand(deck: seq<Face>): (h: seq<Card>)
    requires |deck| >= HAND_SIZE
    ensures |h| == HAND_SIZE
    ensures Faces(h) == deck[..HAND_SIZE]
    ensures forall i :: 0 <= i < |h| ==> !h[i].selected && h[i].position == i
    ensures NoDuplicates(deck) ==> WellFormedHand(h)
  {
    seq(HAND_SIZE, i requires 0 <= i < HAND_SIZE => Card(deck[i].0, deck[i].1, false, i))
  }

  /**
   * `_deal_initial_cards`: shuffles a fresh deck with `shuffle` and appends
   * its top five cards to the player's hand at positions 0..4.
   */
  method DealInitialCards(player: Player, shuffle: seq<int>)
    requires IsPermutation(shuffle, DECK_SIZE)
    modifies player`cards
    ensures player.cards == old(player.cards) + DealtHand(Shuffle(FullDeck(), shuffle))
  {
    var deck := Shuffle(FullDeck(), shuffle);
    for i := 0 to HAND_SIZE
      invariant player.cards == old(player.cards) + DealtHand(deck)[..i]
    {
      var (suit, rank) := deck[i];
      player.cards := player.cards + [Card(suit, rank, false, i)];
    }
  }

  /** `uuid4()`: an id no stored game uses. */
  method NewGameId(table: GameTable) returns (id: GameId)
    ensures id !in table.games
  {
    ghost var bound := IdBound(table.games.Keys);
    assert bound !in table.games;
    id :| id !in table.games;
  }

  /** What every freshly seated computer opponent looks like. */
  ghost predicate SeatedOpponents(opponents: seq<Opponent>) {
    && |opponents| <= |OPPONENT_NAMES|
    && forall i :: 0 <= i < |opponents| ==>
      && opponents[i].name == OPPONENT_NAMES[i]
      && opponents[i].status == Active
      && opponents[i].cardCount == OPPONENT_CARD_COUNT
      && opponents[i].currentBet == 0
      && MIN_OPPONENT_CHIPS <= opponents[i].chips <= MAX_OPPONENT_CHIPS
  }

  /** The opponent loop of `create_new_game`: one active seat per name. */
  method SeatOpponents(game: Game)
    requires game.opponents == []
    modifies game`opponents
    ensures |game.opponents| == |OPPONENT_NAMES| && SeatedOpponents(game.opponents)
  {
    for i := 0 to |OPPONENT_NAMES|
      invariant |game.opponents| == i && SeatedOpponents(game.opponents)
    {
      var chips :| MIN_OPPONENT_CHIPS <= chips <= MAX_OPPONENT_CHIPS;
      game.opponents := game.opponents +
        [Opponent(OPPONENT_NAMES[i], chips, Active, OPPONENT_CARD_COUNT)];
    }
  }

  /**
   * `create_new_game`: stores a new game under an unused id, in the betting
   * phase, with a 1000-chip player holding five distinct cards and three
   * active computer opponents holding 800 to 1200 chips each.
   */
  method CreateNewGame(table: GameTable, shuffle: seq<int>) returns (game: Game)
    requires table.Valid()
    requires IsPermutation(shuffle, DECK_SIZE)
    modifies table
    ensures table.Valid()
    ensures fresh(game) && fresh(game.player)
    ensures game.id !in old(table.games) && table.games == old(table.games)[game.id := game]
    ensures game.Valid()
    ensures game.phase == Betting && game.pot == 0 && game.currentBet == DEFAULT_CURRENT_BET
    ensures game.canCall && game.canRaise && game.canFold
    ensures game.winner == None && game.winningHand == None
    ensures game.player.chips == DEFAULT_PLAYER_CHIPS && !game.player.hasFolded
    ensures game.player.currentBet == 0
    ensures game.player.cards == DealtHand(Shuffle(FullDeck(), shuffle))
    ensures |game.opponents| == |OPPONENT_NAMES| && SeatedOpponents(game.opponents)
  {
    var id := NewGameId(table);
    game := new Game(id);
    table.games := table.games[id := game];

    var player := new Player(DEFAULT_PLAYER_CHIPS);
    game.player := player;
    SeatOpponents(game);
    DealInitialCards(player, shuffle);
  }

  // ---------------------------------------------------------------------------
  // Winner selection

  /** The names of the active opponents, in order (`filter(status='active')`). */
  function ActiveNames(opponents: seq<Opponent>): (names: seq<string>)
    ensures forall n :: n in names <==>
      exists o :: o in opponents && o.status == Active && o.name == n
  {
    if opponents == [] then []
    else
      var last := opponents[|opponents| - 1];
      var front := opponents[..|opponents| - 1];
      assert forall o :: o in opponents <==> o in front || o == last;
      ActiveNames(front) + (if last.status == Active then [last.name] else [])
  }

  /**
   * What `_determine_winner` guarantees: a player who has not folded competes
   * with every active opponent; after a fold only an active opponent can win,
   * and with none the winner is left as it was. The hand label is always one
   * of the eleven fixed labels.
   */
  ghost predicate Resolved(
    folded: bool, opponents: seq<Opponent>,
    before: Option<string>, winner: Option<string>, winningHand: Option<string>)
  {
    && (if !folded then
          winner.Some? && winner.value in [PLAYER_WINNER] + ActiveNames(opponents)
        else if ActiveNames(opponents) != [] then
          winner.Some? && winner.value in ActiveNames(opponents)
        else
          winner == before)
    && winningHand.Some? && winningHand.value in WINNING_HANDS
  }

  /** `_determine_winner`: picks a winner among the eligible names and a label. */
  method DetermineWinner(game: Game)
    requires game.player != null
    modifies game`winner, game`winningHand
    ensures Resolved(game.player.hasFolded, game.opponents,
                     old(game.winner), game.winner, game.winningHand)
  {
    var possibleWinners := [PLAYER_WINNER];
    for i := 0 to |game.opponents|
      invariant possibleWinners == [PLAYER_WINNER] + ActiveNames(game.opponents[..i])
    {
      assert game.opponents[..i + 1][..i] == game.opponents[..i];
      if game.opponents[i].status == Active {
        possibleWinners := possibleWinners + [game.opponents[i].name];
      }
    }
    assert game.opponents[..|game.opponents|] == game.opponents;

    if !game.player.hasFolded {
      assert PLAYER_WINNER in possibleWinners;
      var w :| w in possibleWinners;
      game.winner := Some(w);
    } else {
      var activeOpponents := ActiveNames(game.opponents);
      if |activeOpponents| > 0 {
        assert activeOpponents[0] in activeOpponents;
        var w :| w in activeOpponents;
        game.winner := Some(w);
      }
    }

    assert WINNING_HANDS[0] in WINNING_HANDS;
    var hand :| hand in WINNING_HANDS;
    game.winningHand := Some(hand);
  }

  // ---------------------------------------------------------------------------
  // Betting

  /**
   * `process_bet_action`. Outside the betting phase nothing changes. A fold
   * ends the game in a computer's favour; a call pays the table's bet and
   * moves to drawing; a raise pays `amount` and lifts the table's bet to at
   * least `amount`. Any other action string changes nothing and succeeds.
   * Chips only move between the player and the pot.
   */
  method ProcessBetAction(game: Game, action: string, amount: Option<int>)
    returns (r: Outcome<EngineError>)
    requires game.Valid()
    modifies game`phase, game`pot, game`currentBet, game`winner, game`winningHand
    modifies game.player`chips, game.player`currentBet, game.player`hasFolded
    ensures game.Valid()
    ensures game.pot + game.player.chips == old(game.pot + game.player.chips)
    ensures PhaseRank(old(game.phase)) <= PhaseRank(game.phase)
    ensures old(game.player.hasFolded) ==> game.player.hasFolded
    ensures r.Fail? ==> unchanged(game) && unchanged(game.player)
    ensures old(game.phase) != Betting ==> r == Fail(NotBettingPhase)
    ensures old(game.phase) == Betting && action == "fold" ==>
      && r == Pass
      && game.player.hasFolded
      && game.phase == Finished
      && game.winner.Some? && game.winner.value in OPPONENT_NAMES
      && game.winningHand == Some(FOLD_WINNING_HAND)
      && game.pot == old(game.pot) && game.currentBet == old(game.currentBet)
      && game.player.chips == old(game.player.chips)
      && game.player.currentBet == old(game.player.currentBet)
    ensures old(game.phase) == Betting && action == "call" ==>
      if old(game.player.chips) < old(game.currentBet) then
        r == Fail(InsufficientChipsToCall)
      else
        && r == Pass
        && game.player.chips == old(game.player.chips) - old(game.currentBet)
        && game.pot == old(game.pot) + old(game.currentBet)
        && game.player.currentBet == old(game.currentBet)
        && game.currentBet == old(game.currentBet)
        && game.phase == Drawing
        && game.player.hasFolded == old(game.player.hasFolded)
        && game.winner == old(game.winner) && game.winningHand == old(game.winningHand)
    ensures old(game.phase) == Betting && action == "raise" ==>
      if amount.None? || amount.value == 0 then
        r == Fail(AmountRequired)
      else if amount.value < 0 then
        r == Fail(NegativeAmount)
      else if old(game.player.chips) < amount.value then
        r == Fail(InsufficientChipsToRaise)
      else
        && r == Pass
        && game.player.chips == old(game.player.chips) - amount.value
        && game.pot == old(game.pot) + amount.value
        && game.player.currentBet == amount.value
        && game.currentBet == (if old(game.currentBet) >= amount.value
                               then old(game.currentBet) else amount.value)
        && game.phase == Betting
        && game.player.hasFolded == old(game.player.hasFolded)
        && game.winner == old(game.winner) && game.winningHand == old(game.winningHand)
    ensures old(game.phase) == Betting && action !in ["fold", "call", "raise"] ==>
      r == Pass && unchanged(game) && unchanged(game.player)
  {
    if game.phase != Betting {
      return Fail(NotBettingPhase);
    }

    var player := game.player;

    if action == "fold" {
      player.hasFolded := true;
      game.phase := Finished;
      assert OPPONENT_NAMES[0] in OPPONENT_NAMES;
      var w :| w in OPPONENT_NAMES;
      game.winner := Some(w);
      game.winningHand := Some(FOLD_WINNING_HAND);
    } else if action == "call" {
      var betAmount := game.currentBet;
      if player.chips < betAmount {
        return Fail(InsufficientChipsToCall);
      }
      player.chips := player.chips - betAmount;
      player.currentBet := betAmount;
      game.pot := game.pot + betAmount;
      game.phase := Drawing;
    } else if action == "raise" {
      if amount.None? || amount.value == 0 {
        return Fail(AmountRequired);
      }
      var raiseBy := amount.value;
      if raiseBy < 0 {
        return Fail(NegativeAmount);
      }
      if player.chips < raiseBy {
        return Fail(InsufficientChipsToRaise);
      }
      player.chips := player.chips - raiseBy;
      player.currentBet := raiseBy;
      game.pot := game.pot + raiseBy;
      game.currentBet := if game.currentBet >= raiseBy then game.currentBet else raiseBy;
    }
    return Pass;
  }

  // ---------------------------------------------------------------------------
  // Drawing

  /** A card that keeps its slot and `selected` flag but shows `face`. */
  function Replace(c: Card, face: Face): (r: Card)
    ensures FaceOf(r) == face && r.position == c.position && r.selected == c.selected
  {
    c.(suit := face.0, rank := face.1)
  }

  /**
   * The replacement loop of `process_draw_action`: the k-th entry of `order`
   * receives deck[k], one position after the other.
   */
  function Redraw(cards: seq<Card>, order: seq<int>, deck: seq<Face>): seq<Card>
    requires AllInRange(order, 0, |cards|) && |order| <= |deck|
    decreases |order|
  {
    if order == [] then cards
    else Redraw(cards[order[0] := Replace(cards[order[0]], deck[0])], order[1..], deck[1..])
  }

  /**
   * With distinct positions, each listed position ends up holding its own
   * replacement and every other slot is untouched.
   */
  lemma {:induction false} RedrawAt(cards: seq<Card>, order: seq<int>, deck: seq<Face>)
    requires AllInRange(order, 0, |cards|) && |order| <= |deck| && NoDuplicates(order)
    ensures |Redraw(cards, order, deck)| == |cards|
    ensures forall p :: 0 <= p < |cards| && p !in order ==>
      Redraw(cards, order, deck)[p] == cards[p]
    ensures forall k :: 0 <= k < |order| ==>
      Redraw(cards, order, deck)[order[k]] == Replace(cards[order[k]], deck[k])
    decreases |order|
  {
    if order != [] {
      var next := cards[order[0] := Replace(cards[order[0]], deck[0])];
      var rest := order[1..];
      assert NoDuplicates(rest) by {
        forall i, j | 0 <= i < j < |rest| ensures rest[i] != rest[j] {
          assert rest[i] == order[i + 1] && rest[j] == order[j + 1];
        }
      }
      RedrawAt(next, rest, deck[1..]);
      var r := Redraw(cards, order, deck);
      assert order[0] !in rest by {
        forall k | 0 <= k < |rest| ensures rest[k] != order[0] {
          assert rest[k] == order[k + 1];
        }
      }
      forall p | 0 <= p < |cards| && p !in order ensures r[p] == cards[p] {
        assert p != order[0] && p !in rest;
      }
      forall k | 0 <= k < |order| ensures r[order[k]] == Replace(cards[order[k]], deck[k]) {
        if k > 0 {
          assert order[k] == rest[k - 1] && order[k] != order[0];
        }
      }
    }
  }

  /**
   * Overwriting distinct positions of a duplicate-free list with distinct
   * values that were not in it leaves it duplicate-free.
   */
  lemma OverwriteKeepsDistinct(before: seq<Face>, after: seq<Face>, order: seq<int>, deck: seq<Face>)
    requires |after| == |before| && AllInRange(order, 0, |before|) && |order| <= |deck|
    requires NoDuplicates(before) && NoDuplicates(deck)
    requires forall f :: f in deck ==> f !in before
    requires forall p :: 0 <= p < |before| && p !in order ==> after[p] == before[p]
    requires forall k :: 0 <= k < |order| ==> after[order[k]] == deck[k]
    ensures NoDuplicates(after)
  {
    forall p, q | 0 <= p < q < |after| ensures after[p] != after[q] {
      if p in order {
        var k1 :| 0 <= k1 < |order| && order[k1] == p;
        assert after[p] == deck[k1];
        if q in order {
          var k2 :| 0 <= k2 < |order| && order[k2] == q;
          assert after[q] == deck[k2];
          assert k1 != k2;
          assert deck[k1] != deck[k2] by {
            if k1 < k2 { assert deck[k1] != deck[k2]; } else { assert deck[k2] != deck[k1]; }
          }
        } else {
          assert after[q] == before[q] && before[q] in before;
        }
      } else if q in order {
        var k2 :| 0 <= k2 < |order| && order[k2] == q;
        assert after[q] == deck[k2] && after[p] == before[p] && before[p] in before;
      } else {
        assert after[p] == before[p] && after[q] == before[q];
      }
    }
  }

  /**
   * Replacing distinct positions with distinct cards that were not in the hand
   * leaves a hand whose cards are still pairwise distinct.
   */
  lemma RedrawKeepsFacesDistinct(cards: seq<Card>, order: seq<int>, deck: seq<Face>)
    requires AllInRange(order, 0, |cards|) && |order| <= |deck| && NoDuplicates(order)
    requires NoDuplicates(Faces(cards)) && NoDuplicates(deck)
    requires forall f :: f in deck ==> f !in Faces(cards)
    ensures NoDuplicates(Faces(Redraw(cards, order, deck)))
  {
    RedrawAt(cards, order, deck);
    var r := Redraw(cards, order, deck);
    OverwriteKeepsDistinct(Faces(cards), Faces(r), order, deck);
  }

  /** The draw deck: the cards not in `cards`, shuffled by `shuffle`. */
  function DrawDeck(cards: seq<Card>, shuffle: seq<int>): (d: seq<Face>)
    requires WellFormedHand(cards)
    requires IsPermutation(shuffle, DECK_SIZE - HAND_SIZE)
    ensures |d| == DECK_SIZE - HAND_SIZE
    ensures NoDuplicates(d)
    ensures forall f :: f in d <==> f !in Faces(cards)
  {
    Shuffle(RemainingDeck(Faces(cards)), shuffle)
  }

  /**
   * The hand after a successful draw of the positions `indices`: the
   * discarded positions, taken in ascending order, receive the draw deck's
   * cards one after another, so position p receives the card whose index is
   * the number of discarded positions below p. The hand keeps five distinct
   * cards in their slots, kept positions are unchanged and no new card was in
   * the old hand.
   */
  function DrawnHand(cards: seq<Card>, indices: seq<int>, shuffle: seq<int>): (h: seq<Card>)
    requires WellFormedHand(cards)
    requires AllInRange(indices, 0, |cards|) && NoDuplicates(indices)
    requires IsPermutation(shuffle, DECK_SIZE - HAND_SIZE)
    ensures WellFormedHand(h)
    ensures |indices| <= HAND_SIZE
    ensures forall p :: 0 <= p < |cards| && p !in indices ==> h[p] == cards[p]
    ensures forall p :: p in indices ==>
      && FaceOf(h[p]) == DrawDeck(cards, shuffle)[CountBelow(indices, p)]
      && FaceOf(h[p]) !in Faces(cards)
      && h[p].selected == cards[p].selected
  {
    var order := Sort(indices);
    var deck := DrawDeck(cards, shuffle);
    SortFacts(indices);
    SameMultisetFacts(order, indices);
    InRangeByMembership(order, indices, 0, |cards|);
    SortedPosition(indices);
    DistinctInRangeBound(indices, 0, |cards|);
    RedrawAt(cards, order, deck);
    RedrawKeepsFacesDistinct(cards, order, deck);
    Redraw(cards, order, deck)
  }

  /**
   * The replacement loop of `process_draw_action`: walks `order` and puts
   * deck[i] into the slot order[i], keeping its position and marker.
   */
  method ReplaceCards(player: Player, order: seq<int>, deck: seq<Face>)
    requires AllInRange(order, 0, |player.cards|) && |order| <= |deck|
    modifies player`cards
    ensures player.cards == Redraw(old(player.cards), order, deck)
  {
    for i := 0 to |order|
      invariant |player.cards| == old(|player.cards|)
      invariant Redraw(player.cards, order[i..], deck[i..]) == Redraw(old(player.cards), order, deck)
    {
      var index := order[i];
      var (suit, rank) := deck[i];
      assert order[i..][1..] == order[i + 1..] && deck[i..][1..] == deck[i + 1..];
      player.cards := player.cards[index := player.cards[index].(suit := suit, rank := rank)];
    }
  }

  /**
   * The index check of `process_draw_action`: fails on the first index
   * outside [0, handSize), in list order.
   */
  method CheckIndices(indices: seq<int>, handSize: int) returns (r: Outcome<EngineError>)
    ensures r.Pass? <==> AllInRange(indices, 0, handSize)
    ensures r.Fail? ==> exists k ::
      && 0 <= k < |indices|
      && r.error == InvalidCardIndex(indices[k])
      && !(0 <= indices[k] < handSize)
      && AllInRange(indices[..k], 0, handSize)
  {
    for i := 0 to |indices|
      invariant AllInRange(indices[..i], 0, handSize)
    {
      var index := indices[i];
      if index < 0 || index >= handSize {
        return Fail(InvalidCardIndex(index));
      }
      assert indices[..i + 1] == indices[..i] + [index];
    }
    assert indices[..|indices|] == indices;
    return Pass;
  }

  /**
   * The redraw of `process_draw_action`: the discarded positions, in
   * ascending order, take the top cards of the shuffled remaining deck.
   */
  method RedrawHand(player: Player, indices: seq<int>, shuffle: seq<int>)
    requires WellFormedHand(player.cards)
    requires AllInRange(indices, 0, |player.cards|) && NoDuplicates(indices)
    requires IsPermutation(shuffle, DECK_SIZE - HAND_SIZE)
    modifies player`cards
    ensures player.cards == DrawnHand(old(player.cards), indices, shuffle)
  {
    var cards := player.cards;
    var deck := DrawDeck(cards, shuffle);
    var order := Sort(indices);
    SortFacts(indices);
    SameMultisetFacts(order, indices);
    InRangeByMembership(order, indices, 0, |cards|);
    DistinctInRangeBound(indices, 0, |cards|);
    ReplaceCards(player, order, deck);
  }

  /**
   * `process_draw_action`. Outside the drawing phase, or with any index
   * outside the hand, nothing changes. Otherwise the discarded positions
   * are redealt from the cards not in the hand, the game finishes and a
   * winner is resolved. `indices` is duplicate-free: the draw-request
   * validator rejects repeated indices before the engine is called.
   */
  method ProcessDrawAction(game: Game, indices: seq<int>, shuffle: seq<int>)
    returns (r: Outcome<EngineError>)
    requires game.Valid()
    requires NoDuplicates(indices)
    requires IsPermutation(shuffle, DECK_SIZE - HAND_SIZE)
    modifies game`phase, game`winner, game`winningHand, game.player`cards
    ensures game.Valid()
    ensures PhaseRank(old(game.phase)) <= PhaseRank(game.phase)
    ensures r.Fail? ==> unchanged(game) && unchanged(game.player)
    ensures old(game.phase) != Drawing ==> r == Fail(NotDrawingPhase)
    ensures old(game.phase) == Drawing && !AllInRange(indices, 0, HAND_SIZE) ==>
      && r.Fail? && r.error.InvalidCardIndex?
      && r.error.index in indices && !(0 <= r.error.index < HAND_SIZE)
    ensures old(game.phase) == Drawing && AllInRange(indices, 0, HAND_SIZE) ==>
      && r == Pass
      && game.phase == Finished
      && game.player.cards == DrawnHand(old(game.player.cards), indices, shuffle)
      && Resolved(game.player.hasFolded, game.opponents,
                  old(game.winner), game.winner, game.winningHand)
  {
    if game.phase != Drawing {
      return Fail(NotDrawingPhase);
    }

    var player := game.player;
    var cards := player.cards;

    r := CheckIndices(indices, |cards|);
    if r.Fail? {
      return;
    }

    if |indices| > 0 {
      RedrawHand(player, indices, shuffle);
    }

    game.phase := Finished;
    DetermineWinner(game);
    return Pass;
  }

  // ---------------------------------------------------------------------------
  // Properties of sequences of operations

  /**
   * `finished` is absorbing: once a game is finished, every bet and every
   * draw is rejected and the game stays exactly as it was.
   */
  method FinishedRejectsEverything(
    game: Game, action: string, amount: Option<int>, indices: seq<int>, shuffle: seq<int>)
    returns (bet: Outcome<EngineError>, draw: Outcome<EngineError>)
    requires game.Valid() && game.phase == Finished
    requires NoDuplicates(indices) && IsPermutation(shuffle, DECK_SIZE - HAND_SIZE)
    modifies game, game.player
    ensures bet == Fail(NotBettingPhase) && draw == Fail(NotDrawingPhase)
    ensures unchanged(game) && unchanged(game.player)
  {
    bet := ProcessBetAction(game, action, amount);
    draw := ProcessDrawAction(game, indices, shuffle);
  }

  /**
   * Creating one game per shuffle stores every one of them under its own id:
   * the ids handed out are pairwise distinct.
   */
  method CreateGames(table: GameTable, shuffles: seq<seq<int>>) returns (ids: seq<GameId>)
    requires table.Valid()
    requires forall k :: 0 <= k < |shuffles| ==> IsPermutation(shuffles[k], DECK_SIZE)
    modifies table
    ensures table.Valid()
    ensures |ids| == |shuffles| && NoDuplicates(ids)
    ensures forall k :: 0 <= k < |ids| ==> ids[k] in table.games && ids[k] !in old(table.games)
    ensures old(table.games).Keys <= table.games.Keys
  {
    ids := [];
    for k := 0 to |shuffles|
      invariant table.Valid()
      invariant |ids| == k && NoDuplicates(ids)
      invariant forall j :: 0 <= j < k ==> ids[j] in table.games && ids[j] !in old(table.games)
      invariant old(table.games).Keys <= table.games.Keys
    {
      var game := CreateNewGame(table, shuffles[k]);
      ids := ids + [game.id];
    }
  }
}
