# Five-card-draw session engine, modelled in Dafny

This project models the poker session engine of a small web app. A player sits
down against three computer opponents and plays one hand of five-card draw.
The engine (`GameService`) creates a game and deals five cards. It accepts
betting actions: any number of raises, then a call or a fold. A fold ends the
game. After a call it accepts one draw, which discards and replaces cards.
Then it resolves a winner. The records it works
on are `Game`, `Player`, `Card` and `Opponent`. Two request validators guard
the engine's inputs, and two computed fields of the game-state view read the
player's hand and chips.

Files:

- `wrappers.dfy`: `Option`, `Outcome` and `Result`. These are the values returned in place of Python exceptions.
- `seqs.dfy`: list facts the engine and the validators rely on.
  - duplicate-freedom, and `len(set(xs)) == len(xs)`;
  - bounds on distinct indices;
  - permutations are onto;
  - `sorted` on integers, and where each element lands in it.
- `models.dfy`:
  - the enumerated columns (phase, suit, rank, opponent status), with their stored strings and parsers;
  - `Card`, and `Card.__str__`;
  - `Opponent`;
  - the `Game` and `Player` classes, whose constructors give the column defaults;
  - the engine invariant `Game.Valid`.
- `deck.dfy`:
  - the 52-card deck, built as the suit-by-rank comprehension;
  - the deck of cards not in the hand;
  - `random.shuffle`, as a permutation of positions.
- `services.dfy`: the engine.
  - `GameTable` stands in for the stored games.
  - Each `GameService` method updates `Game` and `Player` objects in place.
  - Next to each method is the function that specifies its result.
- `serializers.dfy`: the bet and draw request validators, and the `playerHand`/`playerChips` view fields.

Randomness is an input or a nondeterministic choice:

- `random.shuffle` becomes a permutation of deck positions, supplied by the caller (`Deck.IsPermutation`).
- `random.choice`, `random.randint` and `uuid4` become `:|` choices. The contracts state only the range each choice lies in.

Engine failures are `Fail(EngineError)` results, with one constructor per `ValueError` message. Every failing path leaves the game and the player unchanged.

`process_draw_action` checks only the range of each discard index (services.py:119-121). The draw-request validator is what rejects repeats. The model follows the code. `GameService.ProcessDrawAction` takes duplicate-freedom as a precondition, and `Serializers.ValidateDiscardIndices` is proved to establish it.

## Model

| member | source | states |
|---|---|---|
| Models.ParsePhase | backend/poker/models.py:9-17 | the declared phase choices are exactly betting/drawing/showdown/finished; the parser accepts those four strings and refuses any other |
| Models.PhaseRoundTrip | backend/poker/models.py:9-14 | every phase that is stored reads back as itself |
| Models.ParseSuit | backend/poker/models.py:43-57 | the declared suit choices are exactly hearts/diamonds/clubs/spades; the parser accepts those four strings and refuses any other |
| Models.SuitRoundTrip | backend/poker/models.py:43-48 | every suit reads back from its stored string |
| Models.ParseRank | backend/poker/models.py:50-58 | the declared rank choices are exactly the thirteen strings "2".."10", J, Q, K, A; the parser accepts those and refuses any other |
| Models.RankRoundTrip | backend/poker/models.py:50-54 | every rank reads back from its stored string |
| Models.ParseStatus | backend/poker/models.py:70-79 | the declared status choices are exactly active/folded/all_in; the parser accepts those three strings and refuses any other |
| Models.StatusRoundTrip | backend/poker/models.py:70-74 | every status reads back from its stored string |
| Models.CardStr | backend/poker/models.py:65-66 | `Card.__str__`, "<rank> of <suit>"; its property is stated by `CardStrIdentifiesFace` |
| Models.CardStrIdentifiesFace | backend/poker/models.py:65-66 | "<rank> of <suit>" is injective: two cards print the same exactly when they have the same suit and rank |
| Models.Player.constructor | backend/poker/models.py:32-36 | a new player has the given chips (1000 by default), has not folded, has a current bet of 0 and holds no cards yet |
| Models.Game.constructor | backend/poker/models.py:16-24 | a new game is in betting with pot 0, a current bet of 10, no winner or winning hand, and all three action flags true |
| Deck.Product | backend/poker/services.py:47 | the nested comprehension `[(suit, rank) for suit in suits for rank in ranks]`; its properties are stated by `ProductFacts` |
| Deck.ProductFacts | backend/poker/services.py:47 | the nested comprehension lists suits × ranks: its length is the product, it contains exactly the pairs drawn from both lists, and it has no repeats |
| Deck.FullDeck | backend/poker/services.py:9-10 | the deck built from `SUITS` and `RANKS` has 52 cards, all distinct, and holds every (suit, rank) pair |
| Deck.Filter | backend/poker/services.py:127-128 | the comprehension's `if (suit, rank) not in current_cards` filter, in deck order; its properties are stated by `FilterMembers`, `FilterDistinct` and `FilterSize` |
| Deck.FilterMembers | backend/poker/services.py:127-128 | the `not in current_cards` filter keeps exactly the deck cards that are outside the hand |
| Deck.FilterDistinct | backend/poker/services.py:127-128 | filtering a deck without repeats leaves no repeats |
| Deck.FilterSize | backend/poker/services.py:127-128 | filtering a deck without repeats drops exactly one card per distinct hand card that the deck holds |
| Deck.RemainingDeck | backend/poker/services.py:126-128 | the redraw deck holds exactly the cards not in the hand, without repeats; for a hand of distinct cards it has 52 minus the hand's size |
| Deck.Shuffle | backend/poker/services.py:48 | shuffling is a rearrangement: every card occurs exactly as often as before (same multiset), so the length and the set of cards are kept and a duplicate-free deck stays duplicate-free |
| Seqs.PermutedMultiset | backend/poker/services.py:48 | reading a list through any permutation of its positions keeps every element's number of occurrences |
| Seqs.DistinctIffSetSize | backend/poker/serializers.py:71 | `len(value) == len(set(value))` holds exactly when no element repeats |
| Seqs.Sort | backend/poker/services.py:132 | `sorted` on a list of integers; its properties are stated by `SortFacts` and `SortedPosition` |
| Seqs.SortFacts | backend/poker/services.py:132 | `sorted` returns an ascending rearrangement with the same elements, each as often |
| Seqs.SortedPosition | backend/poker/services.py:132 | in `sorted` of a duplicate-free list, each element sits at the index equal to the number of elements below it |
| Seqs.CountBelowSort | backend/poker/services.py:132 | sorting does not change how many elements lie below a value |
| GameService.NewGameId | backend/poker/models.py:16 | the id of a new game is not used by any stored game |
| GameService.DealtHand | backend/poker/services.py:51-59 | the top five cards of the deck, at positions 0..4, none selected; from a duplicate-free deck they form a well-formed hand |
| GameService.DealInitialCards | backend/poker/services.py:44-59 | the deal loop appends exactly the dealt hand of the shuffled 52-card deck to the player's cards |
| GameService.SeatOpponents | backend/poker/services.py:28-36 | the opponent loop seats "Computer 1", "Computer 2" and "Computer 3" in that order, each active with 5 cards, a current bet of 0 and 800..1200 chips |
| GameService.CreateNewGame | backend/poker/services.py:13-41 | a new game is stored under an id unused before, and the stored games are otherwise unchanged; it is in betting with pot 0, a current bet of 10 and all flags true; the player has 1000 chips and five distinct cards at positions 0..4; three opponents are seated; the engine invariant holds |
| GameService.CreateGames | backend/poker/models.py:16 | games created one after another all get pairwise distinct ids, none of which was in use before |
| GameService.GetGameState | backend/poker/services.py:171-176 | the lookup succeeds exactly when the id is stored, and returns the game whose id it is; otherwise "Game not found" |
| GameService.ActiveNames | backend/poker/services.py:151-152 | a name is listed exactly when some opponent with that name is active |
| GameService.DetermineWinner | backend/poker/services.py:147-168 | a player who has not folded yields a winner among "player" and the active opponents; after a fold the winner is an active opponent, or stays unchanged when there is none; the winning hand is one of the 11 fixed labels; nothing else changes |
| GameService.ProcessBetAction | backend/poker/services.py:62-107 | outside betting, fails with nothing changed. Fold: the player has folded, the game is finished, a computer has won with "Pair of Kings". Call: with chips below the table bet, fails with nothing changed; otherwise the bet moves from chips to pot, the player's bet becomes the table bet and the phase becomes drawing. Raise: a missing or 0 amount, then a negative amount, then chips below the amount each fail with nothing changed; otherwise the amount moves from chips to pot, the player's bet becomes the amount, the table bet becomes the larger of the old bet and the amount, and the phase stays betting. Any other action changes nothing. In every case pot + chips is conserved, chips stay non-negative, the phase never moves back and a fold is never undone |
| GameService.CheckIndices | backend/poker/services.py:119-121 | succeeds exactly when every index lies in [0, hand size); otherwise it reports the first offending index, in list order |
| GameService.Replace | backend/poker/services.py:133-136 | a replaced card shows the new suit and rank and keeps its position and `selected` marker |
| GameService.Redraw | backend/poker/services.py:132-137 | the replacement loop as a function: the k-th listed position receives the k-th deck card, one after the other; its properties are stated by `RedrawAt` and `RedrawKeepsFacesDistinct` |
| GameService.RedrawAt | backend/poker/services.py:132-137 | for distinct positions, the replacement loop puts the k-th deck card into the k-th listed position and leaves every other slot untouched |
| GameService.RedrawKeepsFacesDistinct | backend/poker/services.py:124-137 | replacing distinct positions with distinct cards from outside the hand leaves the hand's cards pairwise distinct |
| GameService.DrawDeck | backend/poker/services.py:126-129 | the shuffled redraw deck has 47 cards, all distinct, and holds exactly the cards not in the hand |
| GameService.DrawnHand | backend/poker/services.py:124-137 | after a draw the hand is still five distinct cards at positions 0..4. Kept positions are unchanged. A discarded position p gets the draw-deck card whose index is the number of discarded positions below p, which is a card not in the old hand, and p keeps its marker |
| GameService.ReplaceCards | backend/poker/services.py:132-137 | the in-place loop over the sorted positions leaves exactly the redrawn hand |
| GameService.RedrawHand | backend/poker/services.py:124-137 | the redraw branch turns the player's cards into the drawn hand |
| GameService.ProcessDrawAction | backend/poker/services.py:110-144 | outside drawing, fails with nothing changed; any index outside the hand fails with an offending index named and nothing changed (all-or-nothing); otherwise the cards become the drawn hand (unchanged for an empty list), the game is finished and a winner is resolved; the engine invariant (five distinct cards, non-negative balances) is kept |
| GameService.FinishedRejectsEverything | backend/poker/services.py:62-113 | once finished, a bet fails with the betting-phase error, a draw fails with the drawing-phase error, and the game and player are unchanged |
| Serializers.ParseAction | backend/poker/serializers.py:54 | the `action` choice field accepts exactly call, raise and fold |
| Serializers.ActionRoundTrip | backend/poker/serializers.py:54 | every action reads back from its choice string |
| Serializers.ValidateBet | backend/poker/serializers.py:53-60 | a bet request is accepted exactly when the action is present and is one of call/raise/fold, a given amount is at least 1, and a raise carries an amount; a missing action is "field required"; accepted data keeps the action and amount |
| Serializers.ValidBetPassesAmountGuards | backend/poker/serializers.py:55-59 | an accepted raise carries an amount that passes the engine's "amount required" and "must be positive" checks |
| Serializers.ChildError | backend/poker/serializers.py:65 | the per-index check finds an error exactly when some index lies outside 0..4 |
| Serializers.ValidateDiscardIndices | backend/poker/serializers.py:63-73 | a discard list is accepted exactly when it is present, every index lies in 0..4, it has at most 5 entries and no index repeats; an accepted list is returned unchanged |
| Serializers.AcceptedIndicesFitHand | backend/poker/serializers.py:63-73 | an accepted discard list meets the draw's precondition: duplicate-free and inside a five-card hand |
| Serializers.DistinctIndicesFitMaxLength | backend/poker/serializers.py:65-67 | distinct indices in 0..4 never number more than five |
| Serializers.GetPlayerHand | backend/poker/serializers.py:38-44 | no player gives an empty hand; otherwise there is one view per card in slot order, and each view's suit and rank strings parse back to that card's suit and rank; for a valid game the hand is five cards with slot i at position i |
| Serializers.GetPlayerChips | backend/poker/serializers.py:46-50 | no player gives 1000; otherwise the player's chips, never negative in a valid game |

## Left out

- The HTTP layer (`views.py`), routing and admin registration are not part of this model. This covers UUID parsing, status codes and response building.
- The view's own `finished` checks (views.py:85, views.py:146) are not modelled. They are dead code: the view's own `!= 'betting'` and `!= 'drawing'` checks just before them (views.py:78, views.py:139) already return, and both run before the engine is called (views.py:95, views.py:155).
- Django persistence is not modelled: `objects.create`, `save`, `filter` and `order_by`.
  - The stored games are a map in `GameTable`.
  - A player's `Card` rows are the sequence `Player.cards`, with slot i holding the card at position i, so `order_by('position')` is the identity.
  - Card rows are values inside that sequence: the model does not capture a `Card` row's own identity.
- `Opponent` rows are values: the engine never updates one after creation.
- Timestamps (`created_at`, `updated_at`) are not modelled: they are wall-clock values.
- The ids are natural numbers, not UUIDs, so `Game.__str__`, `Player.__str__` and `Opponent.__str__` (which print ids) are not modelled. Only uniqueness of the id matters to the engine.
- Randomness: only the range of each choice is stated. The model does not capture the distributions of `shuffle`, `choice` or `randint`.
- Concurrency: two requests racing on one game are not modelled. The model is sequential.
- The remaining `GameStateSerializer` fields are not modelled: they copy columns under new names.
- A request body whose fields are not of the declared type (for example a non-integer amount) is not modelled: the model's requests are typed.
- The order in which Django REST framework reports several field errors at once is not modelled. A validator returns the first error in the order the checks run.
- GameService.ProcessDrawAction: requires duplicate-free indices rather than modelling what the code does with repeats. With repeats, the code overwrites a slot twice, and with more than 47 entries it fails indexing the deck. The draw-request validator rules repeats out before the engine runs.
- The `can_call`/`can_raise`/`can_fold` flags are set at creation and never changed by the engine. The frames of the engine methods show that they stay as created.
