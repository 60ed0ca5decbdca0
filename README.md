# Six-seat card dealer: deck, round state machine and card choreography

This project models the logical core of a browser card-dealing table for six
seats, and proves properties of that model. The core has three parts:

- **The deck** (`deck.dfy`, module `Deck`). `initDeck` builds 52
  `{ rank, suit }` records, suit by suit. `shuffle` is an in-place
  Fisher-Yates shuffle. `spawnCard` pops the top record and wraps it as a
  card.
- **The round** (`game.dfy`, module `Game`). The class `Game` owns the
  fields `deck`, `drawnCards`, `playerHands`, `boardCards` and
  `currentState`. Its phase (`Idle`, `Preflop`, `Flop`, `Turn`, `River`)
  decides which dealing method may run. Each dealing method returns at
  once in any other phase.
- **The cards** (`cards.dfy`, module `Cards`). The class `Card` has a
  rank, a suit and an `isFaceUp` flag. Its `moveTo`, `rotateTo` and `flip`
  methods hand requests to the animation library.
- **The buttons** (`controls.dfy`, module `Controls`). Bet and check call
  whichever round method the phase allows. Fold ends the round.

How the model represents the source:

- **Mutable state.** `Game` and `Card` are classes whose fields the
  methods reassign. The deck is a `seq<CardData>`, and the card lists are
  `seq<Card>`.
- **The round invariant.** `Game.Game.Valid` holds throughout a round:
  - the deck and the faces of the drawn cards together are exactly the
    52-card deck;
  - the drawn cards are the twelve hole cards, in round-robin order,
    followed by the board;
  - hole cards are face down and board cards face up;
  - the board size matches the phase.
- **Animation requests.** An animation request is a `Tween` value: a move
  to an abstract anchor (`Spot`), a turn to an abstract orientation
  (`Pose`), or the hop of a flip. Each request carries its start delay in
  whole tenths of a second.
- **The card timeline.** Each card records its requests in issue order in
  `timeline`. `RestingSpot` and `RestingPose` give where the card ends up
  once every request has run.
- **The random index.** The shuffle's random index is a nondeterministic
  choice in `[0, i]`. `Shuffle` returns the choices it made, and the
  resulting deck is stated as the function `Swaps` of them.
- **Empty-deck failure.** Drawing from an empty deck throws in the source.
  `SpawnCard` returns `None` in that case and changes nothing. The
  dealing methods never reach that case, because the round invariant
  leaves enough cards.

Three behaviours of the code are easy to misread:

- `endRound` only sets the phase to `Idle`. It clears no hands and no
  board. The clearing happens in `initDeck`, at the next `dealHoleCards`.
- Seat 0's hole cards are turned toward the viewer by rotation only.
  Their `isFaceUp` flag stays `false`.
- `flip` toggles `isFaceUp`, but it always turns the card to the same
  face-up orientation. Two flips therefore restore the flag while the card
  still lies face up (`Cards.FlipTwice`).

## Model

| member | source | states |
|---|---|---|
| Deck.FullDeckAt | src/game.ts:44-48 | the nested suit/rank loops put rank `r` of suit `s` at position `13 * s + r` |
| Deck.FullDeckMembers | src/game.ts:33-34 | a record is in the built deck exactly when its rank is one of the 13 ranks and its suit one of the 4 suits |
| Deck.FullDeckDistinct | src/game.ts:44-48 | the built deck has 52 records and no two are equal |
| Deck.FullDeckHasEachCardOnce | src/game.ts:44-48 | each of the 52 (rank, suit) pairs occurs exactly once in the built deck |
| Deck.ConservedMeansDistinct | src/game.ts:38-46 | any arrangement with the full deck's multiset has 52 records and no duplicate |
| Deck.SwapPermutes | src/game.ts:55 | one swap keeps the multiset of the deck |
| Deck.PicksSnoc | src/game.ts:53-54 | a choice `j <= i` taken while `i > 0` extends a valid history of shuffle choices |
| Deck.SwapsUpToExtend | src/game.ts:53-56 | a later shuffle step does not change what the earlier steps did |
| Deck.SwapsSnoc | src/game.ts:53-56 | one more loop pass performs exactly one more swap, of entry `i` with entry `j` |
| Deck.SwapsUpToPermutes | src/game.ts:53-56 | after any number of steps the deck is a permutation of the original |
| Deck.SwapsPermutes | src/game.ts:52-57 | whatever indices were chosen, the shuffled deck is a permutation of the original |
| Deck.PopConserves | src/game.ts:60 | moving the top record from the deck to the end of the drawn list keeps their joint multiset |
| Deck.PopKeepsOrder | src/game.ts:60 | moving the top record from the deck to the end of the drawn list keeps the deck followed by the drawn records, latest first |
| Cards.Card.constructor | src/scene/Card.ts:10-16 | a new card stores exactly the given rank and suit, starts face down, at the origin, unrotated, with no requests |
| Cards.Card.MoveTo | src/scene/Card.ts:53-60 | appends one move request; the card then rests at the target; the face flag, the previous pose and the rank and suit are unchanged |
| Cards.Card.RotateTo | src/scene/Card.ts:63-70 | appends one rotation request; the card then rests in the target pose; the face flag and resting position are unchanged |
| Cards.Card.Flip | src/scene/Card.ts:73-88 | negates `isFaceUp`; appends a hop and a turn face up with the same delay; the resting position is unchanged |
| Cards.FlipTwice | src/scene/Card.ts:74 | two flips restore `isFaceUp` and leave the card resting face up at the same spot |
| Game.PhaseIndex | src/game.ts:6 | each phase has its place in the round order `Idle, Preflop, Flop, Turn, River` |
| Game.Step | src/game.ts:77-170 | each dealing method runs only in the phase its guard checks for (lines 78, 127, 142 and 155), so it either leaves the phase as it is or moves it exactly one place forward; `endRound` has no guard and always returns to `Idle` (line 169) |
| Game.DealRunsInOnePhase | src/game.ts:77-165 | a dealing method advances from one phase only |
| Game.DrawConserves | src/game.ts:60-71 | drawing the top record as a card keeps the multiset of the deck plus the drawn cards' faces, and keeps the deck followed by the drawn faces, latest first |
| Game.HoleCardSettles | src/game.ts:89-121 | from any starting position and orientation, a hole card comes to rest on its own side of its seat; seat 0's is shown to the viewer and a bot's lies flat toward the centre; its requests start in issue order |
| Game.BoardCardSettles | src/game.ts:133-136 | from any starting position and orientation, a community card comes to rest in its slot, face up; its flip starts no earlier than its move exactly when the flip delay is at least the move delay |
| Game.Game.NoCardTwice | src/game.ts:38-46 | during a round the deck and the drawn cards hold 52 records and no (rank, suit) pair twice |
| Game.Game.constructor | src/game.ts:11-20 | a new game has an empty deck, no drawn cards, six empty hands, an empty board and phase `Idle` |
| Game.Game.InitDeck | src/game.ts:32-50 | afterwards the drawn cards, the six hands and the board are empty; the deck is the shuffle of the 52 built records, which has 52 entries and the full deck's multiset |
| Game.Game.Shuffle | src/game.ts:52-57 | every chosen index `j` lies in `[0, i]`; one choice is taken for each `i` from the last index down to 1; the deck is the result of those swaps and a permutation of its old contents |
| Game.Game.SpawnCard | src/game.ts:59-73 | on an empty deck fails and changes nothing; otherwise removes exactly the last deck record, returns a new card with that rank and suit lying face down at the deck position, and appends it to the drawn cards; always keeps the joint multiset, and the deck followed by the drawn cards, latest first, stays the same sequence |
| Game.Game.DealHoleCard | src/game.ts:86-121 | the top record becomes a new card at the end of that seat's hand and of the drawn cards, with move delay `side * 6 + seat`; it is never flipped, carries its seat's requests and comes to rest at its side of the seat, turned as the seat demands |
| Game.Game.DealBoardCard | src/game.ts:131-136 | the top record becomes a new card at the end of the board and of the drawn cards, moved to its slot and then flipped, so it is face up and comes to rest in the slot turned face up; hands and phase are unchanged |
| Game.Game.DealPass | src/game.ts:85-122 | one pass gives every seat one more card, in seat order, keeping the earlier hole cards and the round-robin layout |
| Game.Game.DealPasses | src/game.ts:84-123 | the two passes leave every seat with two fresh face-down cards and the deck with 40 |
| Game.Game.HolesDealtIsValid | src/game.ts:84-123 | after the two passes the drawn cards are exactly the hole cards in round-robin order and the round invariant holds |
| Game.Game.DealHoleCards | src/game.ts:77-124 | from `Idle`: phase `Preflop`, 40 cards left, empty board, 2 cards per seat, draw `k * 6 + p` is card `k` of seat `p`, all face down with their seat's requests and coming to rest at their seats; the deck followed by the drawn cards, latest first, is the Fisher-Yates shuffle of the 52 built records for some valid choice of indices, so the hole cards are the top 12 of the fresh shuffle and the deck its other 40; any other phase: nothing changes |
| Game.Game.DealFlop | src/game.ts:126-139 | from `Preflop`: the top three records become three board cards for slots 0, 1 and 2, each moved and then flipped face up, coming to rest in its slot face up; the deck shrinks by 3 and the phase is `Flop`; any other phase: nothing changes |
| Game.Game.DealTurn | src/game.ts:141-152 | from `Flop`: the top record becomes board card 3, moved and flipped face up, coming to rest in slot 3 face up; the deck shrinks by 1 and the phase is `Turn`; any other phase: nothing changes |
| Game.Game.DealRiver | src/game.ts:154-165 | from `Turn`: the top record becomes board card 4, moved and flipped face up, coming to rest in slot 4 face up; the deck shrinks by 1 and the phase is `River`; any other phase: nothing changes |
| Game.Game.EndRound | src/game.ts:167-170 | from any phase the phase becomes `Idle`; the deck, the drawn cards, the hands and the board are untouched; the round invariant still holds |
| Controls.BetAction | src/ui/Controls.ts:13-27 | the method a bet click calls always changes the phase, moving it one place round the cycle |
| Controls.BetPicksTheLegalDeal | src/ui/Controls.ts:13-27 | among the dealing methods, the one the bet click picks is exactly the one the game's guard lets through |
| Controls.BetPhasesCycle | src/ui/Controls.ts:13-27 | after click number `i + 1` the phase is `i + 1` places further round the five-phase cycle |
| Controls.FiveBetsMakeAHand | src/ui/Controls.ts:14-26 | five bet clicks from `Idle` pass through `Preflop`, `Flop`, `Turn`, `River` and back to `Idle` |
| Controls.BetClick | src/ui/Controls.ts:13-27 | a bet click calls exactly the method the phase selects. It keeps the round invariant and advances the phase one place. Only the first deal of a round replaces the deck; later deals draw from its top and keep the hands. |
| Controls.CheckClick | src/ui/Controls.ts:29-32 | a check click has a bet click's effect: the same invariant, phase change and deck, drawn-card, board and hand guarantees |
| Controls.FoldClick | src/ui/Controls.ts:34-38 | a fold click ends the round from any phase; nothing is drawn or cleared |
| Controls.PlayHand | src/ui/Controls.ts:13-27 | five bet clicks from `Idle` see every phase once. They leave 35 cards in the deck, 17 drawn, 5 on the board and 2 in every hand, and end in `Idle`. |

## Left out

- Rendering:
  - three.js meshes and materials;
  - the scene's `add`/`remove` calls;
  - the card textures of `src/utils/AssetGenerator.ts`;
  - the table geometry of `src/scene/Table.ts`;
  - `src/main.ts`.

  Seats and board slots are abstract anchors (`SeatSpot`, `BoardSlot`).
- Animation detail: easing, durations, the yoyo of the flip's hop and its
  height, and the random twist of `flip` are not modelled. A tween is
  recorded only as its target and start delay.
- Rotation angles: the `Math.atan2` bearing and the `Math.PI` fractions
  become named orientations (`Pose`). The random z-twist of a new card is
  dropped.
- Concurrency of tweens: requests run concurrently in the source. The
  model records them in issue order, and `RestingSpot`/`RestingPose` take
  the last request of each kind. For hole cards and board cards that is
  also the last to start, which `HoleCardSettles` and `BoardCardSettles`
  state through `StartOrdered`.
- Delays are whole tenths of a second rather than floating-point seconds.
  Seat 0's reveal is issued at once rather than from a zero-delay timer,
  because the timer only defers the issue.
- Seat 0's hole cards are rotated by calling the animation library directly
  in the source. The model records these calls as rotation requests, the
  same as `rotateTo`.
- `updateStatus` and the status text are DOM side effects.
- The `async` keyword has no effect, because the dealing methods contain
  no `await`.
- The button captions (`textContent`) and the DOM lookups of
  `setupControls`, including its early return when a button is missing,
  are user-interface side effects.
- The `Game` constructor's `scene` and `table` parameters and the
  `boardPositions` it computes are rendering data.
- Game.Game.Shuffle: does not state that the permutation is uniformly
  random. `Math.random` becomes an unconstrained choice in `[0, i]`, so
  only the range of each choice and the permutation are proved.
- Game.Game.Valid: before the first deal the deck is empty and nothing is
  drawn, so the 52-card conservation part holds only once a round has
  started.
- Game.Game.SpawnCard: the source throws an "empty deck" error when it is
  called on an empty deck (src/game.ts:61). The model returns `None` instead
  and changes nothing. `DealHoleCard` and `DealBoardCard` prove that this case
  cannot happen when they call it, because their precondition
  `deck != []` holds under the round invariant.
