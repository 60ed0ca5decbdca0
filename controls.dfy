/** The three buttons of the table: bet and check advance the round by
    calling whichever round method the current phase allows, fold ends the
    round.  Each handler is a method over the game it was set up with. */
module Controls {
  import opened Game

  /** The round method a bet click calls in each phase. */
  function BetAction(phase: Phase): (a: Action)
    ensures Step(phase, a) != phase
    ensures PhaseIndex(Step(phase, a)) == (PhaseIndex(phase) + 1) % |PhaseOrder|
  {
    match phase
    case Idle => DealHoleCards
    case Preflop => DealFlop
    case Flop => DealTurn
    case Turn => DealRiver
    case River => EndRound
  }

  /** Among the dealing methods, the one a bet click picks is exactly the
      one the game's guard lets through; in `River` none is, and the click
      ends the round instead. */
  lemma BetPicksTheLegalDeal(phase: Phase, a: Action)
    requires a != EndRound
    ensures Step(phase, a) != phase <==> a == BetAction(phase)
  {
  }

  /** The phase after one bet click. */
  function Advance(phase: Phase): Phase
  {
    Step(phase, BetAction(phase))
  }

  /** The phases seen after each of `n` bet clicks, starting in `start`. */
  function BetPhases(start: Phase, n: nat): (r: seq<Phase>)
    ensures |r| == n
    decreases n
  {
    if n == 0 then [] else [Advance(start)] + BetPhases(Advance(start), n - 1)
  }

  /** Bet clicks walk the phases round the cycle, one phase per click. */
  lemma {:induction false} BetPhasesCycle(start: Phase, n: nat)
    ensures forall i :: 0 <= i < n ==>
      PhaseIndex(BetPhases(start, n)[i]) == (PhaseIndex(start) + i + 1) % 5
    decreases n
  {
    if n > 0 {
      var next := Advance(start);
      BetPhasesCycle(next, n - 1);
      forall i | 0 <= i < n
        ensures PhaseIndex(BetPhases(start, n)[i]) == (PhaseIndex(start) + i + 1) % 5
      {
        if i > 0 {
          assert BetPhases(start, n)[i] == BetPhases(next, n - 1)[i - 1];
          assert PhaseIndex(next) == (PhaseIndex(start) + 1) % 5;
          assert (PhaseIndex(next) + i) % 5 == (PhaseIndex(start) + i + 1) % 5 by {
            if PhaseIndex(start) == 4 {
              assert PhaseIndex(next) == 0;
              IndexShift(i);
            }
          }
        }
      }
    }
  }

  lemma IndexShift(i: nat)
    ensures i % 5 == (4 + i + 1) % 5
  {
    assert 4 + i + 1 == i + 5;
  }

  /** Five bet clicks from `Idle` visit every other phase once and come back. */
  lemma FiveBetsMakeAHand()
    ensures BetPhases(Idle, 5) == [Preflop, Flop, Turn, River, Idle]
  {
    BetPhasesCycle(Idle, 5);
    var r := BetPhases(Idle, 5);
    forall i | 0 <= i < 5 ensures r[i] == PhaseOrder[(i + 1) % 5] {
      assert PhaseOrder[PhaseIndex(r[i])] == r[i];
    }
  }

  /** Bet: calls the one round method the current phase allows.  Only the
      first deal of a round replaces the deck; later clicks draw from its
      top, add to the drawn cards and leave the hands alone. */
  method BetClick(game: Game)
    requires game.Valid()
    modifies game
    ensures game.Valid()
    ensures game.currentState == Advance(old(game.currentState))
    ensures old(game.currentState) == Idle ==>
      && |game.deck| == 40 && |game.drawnCards| == 12 && game.boardCards == []
      && forall p :: 0 <= p < 6 ==> |game.playerHands[p]| == 2
    ensures old(game.currentState) in {Preflop, Flop, Turn} ==>
      var dealt := if old(game.currentState) == Preflop then 3 else 1;
      && |game.deck| == |old(game.deck)| - dealt
      && |game.drawnCards| == |old(game.drawnCards)| + dealt
      && |game.boardCards| == |old(game.boardCards)| + dealt
    ensures old(game.currentState) != Idle ==>
      && |game.deck| <= |old(game.deck)| && game.deck == old(game.deck)[..|game.deck|]
      && old(game.drawnCards) <= game.drawnCards
      && game.playerHands == old(game.playerHands)
    ensures old(game.currentState) == River ==>
      game.deck == old(game.deck) && game.drawnCards == old(game.drawnCards) && game.boardCards == old(game.boardCards)
  {
    if game.currentState == Idle {
      game.DealHoleCards();
    } else if game.currentState == Preflop {
      game.DealFlop();
    } else if game.currentState == Flop {
      game.DealTurn();
    } else if game.currentState == Turn {
      game.DealRiver();
    } else if game.currentState == River {
      game.EndRound();
    }
  }

  /** Check: exactly a bet click. */
  method CheckClick(game: Game)
    requires game.Valid()
    modifies game
    ensures game.Valid()
    ensures game.currentState == Advance(old(game.currentState))
    ensures old(game.currentState) == Idle ==>
      && |game.deck| == 40 && |game.drawnCards| == 12 && game.boardCards == []
      && forall p :: 0 <= p < 6 ==> |game.playerHands[p]| == 2
    ensures old(game.currentState) in {Preflop, Flop, Turn} ==>
      var dealt := if old(game.currentState) == Preflop then 3 else 1;
      && |game.deck| == |old(game.deck)| - dealt
      && |game.drawnCards| == |old(game.drawnCards)| + dealt
      && |game.boardCards| == |old(game.boardCards)| + dealt
    ensures old(game.currentState) != Idle ==>
      && |game.deck| <= |old(game.deck)| && game.deck == old(game.deck)[..|game.deck|]
      && old(game.drawnCards) <= game.drawnCards
      && game.playerHands == old(game.playerHands)
    ensures old(game.currentState) == River ==>
      game.deck == old(game.deck) && game.drawnCards == old(game.drawnCards) && game.boardCards == old(game.boardCards)
  {
    BetClick(game);
  }

  /** Fold: ends the round in any phase; nothing is drawn or cleared. */
  method FoldClick(game: Game)
    requires game.Valid()
    modifies game
    ensures game.Valid() && game.currentState == Idle
    ensures game.deck == old(game.deck) && game.drawnCards == old(game.drawnCards)
    ensures game.playerHands == old(game.playerHands) && game.boardCards == old(game.boardCards)
  {
    game.EndRound();
  }

  /** A whole hand played with the bet button: five clicks from `Idle`
      pass through every phase, deal twelve hole cards and five community
      cards, and come back to `Idle`. */
  method PlayHand(game: Game) returns (seen: seq<Phase>)
    requires game.Valid() && game.currentState == Idle
    modifies game
    ensures seen == BetPhases(Idle, 5) == [Preflop, Flop, Turn, River, Idle]
    ensures game.Valid() && game.currentState == Idle
    ensures |game.deck| == 35 && |game.drawnCards| == 17 && |game.boardCards| == 5
    ensures forall p :: 0 <= p < 6 ==> |game.playerHands[p]| == 2
  {
    FiveBetsMakeAHand();
    seen := [];
    BetClick(game);
    assert game.currentState == Preflop;
    seen := seen + [game.currentState];
    BetClick(game);
    assert game.currentState == Flop;
    seen := seen + [game.currentState];
    BetClick(game);
    assert game.currentState == Turn;
    seen := seen + [game.currentState];
    BetClick(game);
    assert game.currentState == River;
    seen := seen + [game.currentState];
    BetClick(game);
    assert game.currentState == Idle;
    seen := seen + [game.currentState];
  }
}
