/**
 * The request validators that guard the engine and the two computed fields of
 * the game-state projection. Validators return the accepted data or the
 * first validation error, in the order the field checks run: field
 * presence, then each field's own bounds, then the cross-field `validate`.
 */
module Serializers {
  import opened Wrappers
  import opened Seqs
  import opened Models

  datatype ValidationError =
    | FieldRequired        // a required field is absent
    | InvalidChoice        // `action` is not one of the choices
    | BelowMinimum         // an integer under its `min_value`
    | AboveMaximum         // an integer over its `max_value`
    | TooLong              // a list over its `max_length`
    | AmountRequiredForRaise
    | DuplicateIndices

  // ---------------------------------------------------------------------------
  // BetActionSerializer

  datatype BetAction = Call | Raise | Fold

  /** The choice strings of the `action` field. */
  function ActionName(a: BetAction): string {
    match a
    case Call => "call"
    case Raise => "raise"
    case Fold => "fold"
  }

  /** The `ChoiceField` check: exactly the three choice strings are accepted. */
  function ParseAction(s: string): (r: Option<BetAction>)
    ensures r.Some? ==> ActionName(r.value) == s
    ensures r.None? ==> forall a: BetAction :: ActionName(a) != s
  {
    if s == "call" then Some(Call)
    else if s == "raise" then Some(Raise)
    else if s == "fold" then Some(Fold)
    else None
  }

  lemma ActionRoundTrip(a: BetAction)
    ensures ParseAction(ActionName(a)) == Some(a)
  {
  }

  /** A bet request body; an absent key is `None`. */
  datatype BetRequest = BetRequest(action: Option<string>, amount: Option<int>)

  /** The validated data handed to the engine. */
  datatype BetData = BetData(action: BetAction, amount: Option<int>)

  /**
   * `BetActionSerializer.is_valid`: `action` must be present and one of
   * call/raise/fold, `amount` is optional but at least 1 when given, and a
   * raise must carry an amount.
   */
  function ValidateBet(req: BetRequest): (r: Result<BetData, ValidationError>)
    ensures r.Ok? <==>
      && req.action.Some? && req.action.value in ["call", "raise", "fold"]
      && (req.amount.Some? ==> req.amount.value >= 1)
      && (req.action.value == "raise" ==> req.amount.Some?)
    ensures r.Ok? ==> ActionName(r.value.action) == req.action.value && r.value.amount == req.amount
    ensures req.action.None? ==> r == Err(FieldRequired)
  {
    if req.action.None? then Err(FieldRequired)
    else
      match ParseAction(req.action.value)
      case None => Err(InvalidChoice)
      case Some(action) =>
        if req.amount.Some? && req.amount.value < 1 then Err(BelowMinimum)
        else if action == Raise && req.amount.None? then Err(AmountRequiredForRaise)
        else Ok(BetData(action, req.amount))
  }

  /**
   * Validated bet data never trips the engine's own amount checks: a raise
   * arrives with a positive amount, so "Amount required" and "must be
   * positive" cannot be raised behind the validator.
   */
  lemma ValidBetPassesAmountGuards(req: BetRequest)
    requires ValidateBet(req).Ok?
    ensures var d := ValidateBet(req).value;
      d.action == Raise ==> d.amount.Some? && d.amount.value != 0 && !(d.amount.value < 0)
  {
  }

  // ---------------------------------------------------------------------------
  // DrawActionSerializer

  const MAX_DISCARDS := 5
  const MIN_INDEX := 0
  const MAX_INDEX := 4

  /** The first index outside [MIN_INDEX, MAX_INDEX], checked child by child. */
  function ChildError(value: seq<int>): (r: Option<ValidationError>)
    ensures r.None? <==> AllInRange(value, MIN_INDEX, MAX_INDEX + 1)
  {
    if value == [] then None
    else if value[0] < MIN_INDEX then Some(BelowMinimum)
    else if value[0] > MAX_INDEX then Some(AboveMaximum)
    else
      var rest := ChildError(value[1..]);
      assert AllInRange(value, MIN_INDEX, MAX_INDEX + 1) <==>
        AllInRange(value[1..], MIN_INDEX, MAX_INDEX + 1) by {
        if AllInRange(value[1..], MIN_INDEX, MAX_INDEX + 1) {
          forall i | 0 < i < |value| ensures MIN_INDEX <= value[i] <= MAX_INDEX {
            assert value[i] == value[1..][i - 1];
          }
        }
      }
      rest
  }

  /**
   * `DrawActionSerializer.is_valid`: the list must be present, every index in
   * 0..4, at most five entries (the empty list is allowed), and no index
   * repeated (`len(value) != len(set(value))` rejects).
   */
  function ValidateDiscardIndices(value: Option<seq<int>>): (r: Result<seq<int>, ValidationError>)
    ensures r.Ok? <==>
      && value.Some?
      && AllInRange(value.value, MIN_INDEX, MAX_INDEX + 1)
      && |value.value| <= MAX_DISCARDS
      && NoDuplicates(value.value)
    ensures r.Ok? ==> r.value == value.value
  {
    if value.None? then Err(FieldRequired)
    else
      var v := value.value;
      match ChildError(v)
      case Some(e) => Err(e)
      case None =>
        if |v| > MAX_DISCARDS then Err(TooLong)
        else
          DistinctIffSetSize(v);
          if |v| != |ToSet(v)| then Err(DuplicateIndices)
          else Ok(v)
  }

  /**
   * What the engine's draw relies on: an accepted list is duplicate-free and
   * lies within a five-card hand. The length bound is implied by the other
   * two rules.
   */
  lemma AcceptedIndicesFitHand(value: seq<int>)
    requires ValidateDiscardIndices(Some(value)).Ok?
    ensures NoDuplicates(value) && AllInRange(value, 0, HAND_SIZE)
  {
  }

  /** Distinct indices in 0..4 never number more than five. */
  lemma DistinctIndicesFitMaxLength(value: seq<int>)
    requires AllInRange(value, MIN_INDEX, MAX_INDEX + 1) && NoDuplicates(value)
    ensures |value| <= MAX_DISCARDS
  {
    DistinctInRangeBound(value, MIN_INDEX, MAX_INDEX + 1);
  }

  // ---------------------------------------------------------------------------
  // GameStateSerializer: the computed fields

  /** `CardSerializer`: the suit, rank and marker of one card. */
  datatype CardView = CardView(suit: string, rank: string, selected: bool)

  function ViewOf(c: Card): CardView {
    CardView(SuitName(c.suit), RankName(c.rank), c.selected)
  }

  /**
   * `get_playerHand`: no hand without a player; otherwise one view per card
   * in position order, from which each card's suit and rank read back.
   */
  function GetPlayerHand(g: Game): (hand: seq<CardView>)
    reads g, g.player
    ensures g.player == null ==> hand == []
    ensures g.player != null ==> |hand| == |g.player.cards|
    ensures g.player != null ==> forall i :: 0 <= i < |hand| ==>
      && ParseSuit(hand[i].suit) == Some(g.player.cards[i].suit)
      && ParseRank(hand[i].rank) == Some(g.player.cards[i].rank)
      && hand[i].selected == g.player.cards[i].selected
    ensures g.Valid() ==>
      && |hand| == HAND_SIZE
      && forall i :: 0 <= i < |hand| ==> g.player.cards[i].position == i
  {
    if g.player == null then []
    else
      var cards := g.player.cards;
      seq(|cards|, i requires 0 <= i < |cards| => ViewOf(cards[i]))
  }

  /** `get_playerChips`: the player's chips, or the 1000-chip default without one. */
  function GetPlayerChips(g: Game): (chips: int)
    reads g, g.player
    ensures g.player == null ==> chips == DEFAULT_PLAYER_CHIPS
    ensures g.player != null ==> chips == g.player.chips
    ensures g.player == null || g.Valid() ==> chips >= 0
  {
    if g.player == null then DEFAULT_PLAYER_CHIPS else g.player.chips
  }
}
