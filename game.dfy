/** The round state machine of the six-seat table: the deck field, the
    cards drawn this round, the hole cards of each seat, the community
    cards, and the phase that decides which dealing method may run. */
module Game {
  import opened Deck
  import opened Cards

  datatype Option<T> = None | Some(value: T)

  /** The five values of `GameState`. */
  datatype Phase = Idle | Preflop | Flop | Turn | River

  /** The public round methods of `Game`. */
  datatype Action = DealHoleCards | DealFlop | DealTurn | DealRiver | EndRound

  /** The phases in the order a round visits them. */
  const PhaseOrder: seq<Phase> := [Idle, Preflop, Flop, Turn, River]

  function PhaseIndex(phase: Phase): (i: nat)
    ensures i < |PhaseOrder| && PhaseOrder[i] == phase
  {
    match phase
    case Idle => 0
    case Preflop => 1
    case Flop => 2
    case Turn => 3
    case River => 4
  }

  /** The phase after `action` is called in `phase`: each dealing method
      runs only in the phase it checks for and otherwise returns at once,
      so it is either ignored or moves the round exactly one phase forward;
      `endRound` has no check and always returns to `Idle`. */
  function Step(phase: Phase, action: Action): (r: Phase)
    ensures action == EndRound ==> r == Idle
    ensures action != EndRound ==> r == phase || PhaseIndex(r) == PhaseIndex(phase) + 1
  {
    match action
    case DealHoleCards => if phase == Idle then Preflop else phase
    case DealFlop => if phase == Preflop then Flop else phase
    case DealTurn => if phase == Flop then Turn else phase
    case DealRiver => if phase == Turn then River else phase
    case EndRound => Idle
  }

  /** A dealing method runs in one phase only. */
  lemma DealRunsInOnePhase(action: Action, p: Phase, q: Phase)
    requires action != EndRound
    requires Step(p, action) != p && Step(q, action) != q
    ensures p == q
  {
  }

  /** How many community cards lie on the board in each phase; `endRound`
      leaves the board as it was. */
  predicate BoardFits(phase: Phase, n: nat)
  {
    match phase
    case Idle => n == 0 || n == 3 || n == 4 || n == 5
    case Preflop => n == 0
    case Flop => n == 3
    case Turn => n == 4
    case River => n == 5
  }

  /** The rank and suit of each card, in order. */
  function Faces(cards: seq<Card>): seq<CardData>
  {
    seq(|cards|, i requires 0 <= i < |cards| => CardData(cards[i].rank, cards[i].suit))
  }

  lemma FacesAppend(cards: seq<Card>, card: Card)
    ensures Faces(cards + [card]) == Faces(cards) + [CardData(card.rank, card.suit)]
  {
  }

  /** Drawing the top card of `deck` as `card` keeps the joint multiset of
      the deck and the drawn cards' faces, and keeps the deck followed by
      the drawn faces, latest first. */
  lemma DrawConserves(deck: seq<CardData>, drawn: seq<Card>, card: Card)
    requires deck != [] && CardData(card.rank, card.suit) == deck[|deck| - 1]
    ensures multiset(deck[..|deck| - 1] + Faces(drawn + [card])) == multiset(deck + Faces(drawn))
    ensures deck[..|deck| - 1] + Reverse(Faces(drawn + [card])) == deck + Reverse(Faces(drawn))
  {
    FacesAppend(drawn, card);
    PopConserves(deck, Faces(drawn));
    PopKeepsOrder(deck, Faces(drawn));
  }

  /** The hole cards in the order they are drawn: draw number `k * 6 + p`
      is card `k` of seat `p`. */
  function RoundRobin(hands: seq<seq<Card>>): seq<Card>
    requires |hands| == 6 && forall p :: 0 <= p < 6 ==> |hands[p]| == 2
  {
    seq(12, n requires 0 <= n < 12 => if n < 6 then hands[n][0] else hands[n - 6][1])
  }

  /** The requests issued for card `side` of seat `seat`: a move to the
      seat at the card's draw step, then seat 0's tilt and later reveal, or
      a bot's flat turn toward the table centre. */
  function HoleChoreography(seat: nat, side: nat): seq<Tween>
  {
    var delay := side * 6 + seat;
    [Move(SeatSpot(seat, side), delay)] +
    if seat == 0 then [Rotate(TiltedToViewer, delay), Rotate(ShownToViewer, delay + 5)]
    else [Rotate(FlatTowardCenter(seat), delay)]
  }

  /** The requests issued for a community card: a move to its slot, then a
      flip. */
  function BoardChoreography(slot: nat, moveDelay: nat, flipDelay: nat): seq<Tween>
  {
    [Move(BoardSlot(slot), moveDelay), Hop(flipDelay), Rotate(FaceUp, flipDelay)]
  }

  /** Wherever it starts and however it is turned, a hole card ends at its
      own side of its seat; seat 0's card ends turned toward the viewer and
      every other seat's lies flat facing the centre; its requests start in
      issue order. */
  lemma HoleCardSettles(start: Spot, pose: Pose, seat: nat, side: nat)
    ensures SettledSpot(start, HoleChoreography(seat, side)) == SeatSpot(seat, side)
    ensures SettledPose(pose, HoleChoreography(seat, side))
         == if seat == 0 then ShownToViewer else FlatTowardCenter(seat)
    ensures StartOrdered(HoleChoreography(seat, side))
  {
    var delay := side * 6 + seat;
    var move := Move(SeatSpot(seat, side), delay);
    SettledSpotSnoc(start, [], move);
    SettledPoseSnoc(pose, [], move);
    if seat == 0 {
      var tilt, shown := Rotate(TiltedToViewer, delay), Rotate(ShownToViewer, delay + 5);
      SettledSpotSnoc(start, [move], tilt);
      SettledSpotSnoc(start, [move, tilt], shown);
      SettledPoseSnoc(pose, [move, tilt], shown);
      assert [move] + [tilt] + [shown] == HoleChoreography(seat, side);
    } else {
      var turn := Rotate(FlatTowardCenter(seat), delay);
      SettledSpotSnoc(start, [move], turn);
      SettledPoseSnoc(pose, [move], turn);
      assert [move] + [turn] == HoleChoreography(seat, side);
    }
  }

  /** Wherever it starts and however it is turned, a community card ends in
      its slot, face up; its flip trails its move exactly when the flip
      delay is at least the move delay. */
  lemma BoardCardSettles(start: Spot, pose: Pose, slot: nat, moveDelay: nat, flipDelay: nat)
    ensures SettledSpot(start, BoardChoreography(slot, moveDelay, flipDelay)) == BoardSlot(slot)
    ensures SettledPose(pose, BoardChoreography(slot, moveDelay, flipDelay)) == FaceUp
    ensures StartOrdered(BoardChoreography(slot, moveDelay, flipDelay)) <==> moveDelay <= flipDelay
  {
    var move, hop, turn := Move(BoardSlot(slot), moveDelay), Hop(flipDelay), Rotate(FaceUp, flipDelay);
    SettledSpotSnoc(start, [], move);
    SettledSpotSnoc(start, [move], hop);
    SettledSpotSnoc(start, [move, hop], turn);
    SettledPoseSnoc(pose, [move, hop], turn);
    var ts := BoardChoreography(slot, moveDelay, flipDelay);
    assert [move] + [hop] + [turn] == ts;
    assert ts[0].delay == moveDelay && ts[1].delay == flipDelay;
  }

  const EmptyHands: seq<seq<Card>> := [[], [], [], [], [], []]

  class Game {
    var deck: seq<CardData>
    var drawnCards: seq<Card>
    var playerHands: seq<seq<Card>>
    var boardCards: seq<Card>
    var currentState: Phase

    /** The round invariant.  Before the first deal nothing exists and the
        deck is empty.  From then on the deck and the drawn cards together
        hold the full deck; the drawn cards are the twelve hole cards in
        draw order followed by the board; hole cards are face down and board
        cards face up. */
    ghost predicate Valid()
      reads this, drawnCards
    {
      |playerHands| == 6 &&
      if drawnCards == [] then
        deck == [] && boardCards == [] && currentState == Idle && playerHands == EmptyHands
      else
        (forall p :: 0 <= p < 6 ==> |playerHands[p]| == 2) &&
        drawnCards == RoundRobin(playerHands) + boardCards &&
        BoardFits(currentState, |boardCards|) &&
        |deck| == 40 - |boardCards| &&
        multiset(deck + Faces(drawnCards)) == multiset(FullDeck()) &&
        (forall n :: 0 <= n < 12 ==> !drawnCards[n].isFaceUp) &&
        (forall n :: 12 <= n < |drawnCards| ==> drawnCards[n].isFaceUp)
    }

    /** Every hole card handed out so far is draw number `side * 6 + seat`,
        face down, with its hole-card requests. */
    ghost predicate HolesDealt()
      reads this, drawnCards
    {
      |playerHands| == 6 &&
      (forall q, m :: 0 <= q < 6 && 0 <= m < |playerHands[q]| ==>
        m * 6 + q < |drawnCards| && drawnCards[m * 6 + q] == playerHands[q][m]) &&
      (forall q, m :: 0 <= q < 6 && 0 <= m < |playerHands[q]| ==>
        !playerHands[q][m].isFaceUp && playerHands[q][m].timeline == HoleChoreography(q, m))
    }

    /** During a round no (rank, suit) pair is both in the deck and drawn,
        or drawn twice, and no card is lost. */
    lemma NoCardTwice()
      requires Valid() && drawnCards != []
      ensures |deck| + |drawnCards| == 52 && Distinct(deck + Faces(drawnCards))
    {
      ConservedMeansDistinct(deck + Faces(drawnCards));
    }

    constructor ()
      ensures Valid()
      ensures deck == [] && drawnCards == [] && playerHands == EmptyHands && boardCards == []
      ensures currentState == Idle
    {
      deck := [];
      drawnCards := [];
      playerHands := EmptyHands;
      boardCards := [];
      currentState := Idle;
    }

    /** Clears the previous round and builds and shuffles a new deck. */
    method InitDeck() returns (picks: seq<nat>)
      modifies this
      ensures FisherYatesPicks(52, picks) && |picks| == 51
      ensures deck == Swaps(FullDeck(), picks)
      ensures multiset(deck) == multiset(FullDeck()) && |deck| == 52
      ensures drawnCards == [] && playerHands == EmptyHands && boardCards == []
      ensures currentState == old(currentState)
    {
      deck := [];
      drawnCards := [];
      playerHands := EmptyHands;
      boardCards := [];
      for s := 0 to |Suits|
        modifies this`deck
        invariant deck == FullDeck()[..13 * s]
      {
        for r := 0 to |Ranks|
          modifies this`deck
          invariant deck == FullDeck()[..13 * s + r]
        {
          FullDeckAt(r, s);
          PrefixSnoc(FullDeck(), 13 * s + r);
          deck := deck + [CardData(Ranks[r], Suits[s])];
        }
      }
      assert deck == FullDeck();
      picks := Shuffle();
      SwapsPermutes(FullDeck(), picks);
    }

    /** Fisher-Yates: from the last index down to 1, swaps entry `i` with an
        entry `j` chosen in `[0, i]`, and returns the choices made. */
    method Shuffle() returns (picks: seq<nat>)
      modifies this`deck
      ensures FisherYatesPicks(|old(deck)|, picks)
      ensures |picks| == if old(deck) == [] then 0 else |old(deck)| - 1
      ensures deck == Swaps(old(deck), picks)
      ensures multiset(deck) == multiset(old(deck))
    {
      picks := [];
      var i := |deck| - 1;
      while i > 0
        invariant -1 <= i < |old(deck)|
        invariant old(deck) != [] ==> 0 <= i && |picks| == |old(deck)| - 1 - i
        invariant old(deck) == [] ==> picks == []
        invariant FisherYatesPicks(|old(deck)|, picks)
        invariant deck == Swaps(old(deck), picks)
      {
        var j: nat :| j <= i;
        PicksSnoc(|old(deck)|, picks, j);
        SwapsSnoc(old(deck), picks, j);
        ghost var before := deck;
        deck := deck[i := deck[j]][j := deck[i]];
        assert deck == Swap(before, i, j);
        picks := picks + [j];
        i := i - 1;
      }
      SwapsPermutes(old(deck), picks);
    }

    /** Pops the top card, wraps it as a card at the deck position lying
        face down, and records it as drawn; on an empty deck it fails and
        nothing changes. */
    method SpawnCard() returns (r: Option<Card>)
      modifies this
      ensures old(deck) == [] ==> r == None && unchanged(this)
      ensures old(deck) != [] ==>
        && r.Some? && fresh(r.value)
        && deck == old(deck)[..|old(deck)| - 1]
        && CardData(r.value.rank, r.value.suit) == old(deck)[|old(deck)| - 1]
        && drawnCards == old(drawnCards) + [r.value]
        && !r.value.isFaceUp && r.value.position == DeckPile && r.value.rotation == FaceDown
        && r.value.timeline == []
        && playerHands == old(playerHands) && boardCards == old(boardCards)
        && currentState == old(currentState)
      ensures multiset(deck + Faces(drawnCards)) == old(multiset(deck + Faces(drawnCards)))
      ensures deck + Reverse(Faces(drawnCards)) == old(deck + Reverse(Faces(drawnCards)))
    {
      if deck == [] {
        return None;
      }
      var data := deck[|deck| - 1];
      deck := deck[..|deck| - 1];
      var card := new Card(data.rank, data.suit);
      card.position := DeckPile;
      card.rotation := FaceDown;
      drawnCards := drawnCards + [card];
      DrawConserves(old(deck), old(drawnCards), card);
      r := Some(card);
    }

    /** One hole-card draw of `dealHoleCards`: card `side` of seat `seat`,
        moved to the seat at step `side * 6 + seat` and turned as that seat
        demands; it is never flipped. */
    method DealHoleCard(seat: nat, side: nat) returns (card: Card)
      requires seat < 6 == |playerHands| && deck != []
      modifies this
      ensures fresh(card)
      ensures deck == old(deck)[..|old(deck)| - 1]
      ensures CardData(card.rank, card.suit) == old(deck)[|old(deck)| - 1]
      ensures drawnCards == old(drawnCards) + [card]
      ensures playerHands == old(playerHands)[seat := old(playerHands)[seat] + [card]]
      ensures !card.isFaceUp && card.timeline == HoleChoreography(seat, side)
      ensures card.position == DeckPile && card.rotation == FaceDown
      ensures card.RestingSpot() == SeatSpot(seat, side)
      ensures card.RestingPose() == if seat == 0 then ShownToViewer else FlatTowardCenter(seat)
      ensures boardCards == old(boardCards) && currentState == old(currentState)
      ensures multiset(deck + Faces(drawnCards)) == old(multiset(deck + Faces(drawnCards)))
      ensures deck + Reverse(Faces(drawnCards)) == old(deck + Reverse(Faces(drawnCards)))
    {
      var r := SpawnCard();
      if r.None? {
        assert false;
      }
      card := r.value;
      playerHands := playerHands[seat := playerHands[seat] + [card]];
      var delay := side * 6 + seat;
      card.MoveTo(SeatSpot(seat, side), delay);
      if seat == 0 {
        card.RotateTo(TiltedToViewer, delay);
        card.RotateTo(ShownToViewer, delay + 5);
      } else {
        card.RotateTo(FlatTowardCenter(seat), delay);
      }
      HoleCardSettles(DeckPile, FaceDown, seat, side);
    }

    /** One community-card draw: the card goes to `slot` after `moveDelay`
        and is flipped after `flipDelay`. */
    method DealBoardCard(slot: nat, moveDelay: nat, flipDelay: nat) returns (card: Card)
      requires deck != []
      modifies this
      ensures fresh(card)
      ensures deck == old(deck)[..|old(deck)| - 1]
      ensures CardData(card.rank, card.suit) == old(deck)[|old(deck)| - 1]
      ensures drawnCards == old(drawnCards) + [card]
      ensures boardCards == old(boardCards) + [card]
      ensures card.isFaceUp && card.timeline == BoardChoreography(slot, moveDelay, flipDelay)
      ensures card.position == DeckPile && card.rotation == FaceDown
      ensures card.RestingSpot() == BoardSlot(slot) && card.RestingPose() == FaceUp
      ensures playerHands == old(playerHands) && currentState == old(currentState)
      ensures multiset(deck + Faces(drawnCards)) == old(multiset(deck + Faces(drawnCards)))
      ensures deck + Reverse(Faces(drawnCards)) == old(deck + Reverse(Faces(drawnCards)))
    {
      var r := SpawnCard();
      if r.None? {
        assert false;
      }
      card := r.value;
      boardCards := boardCards + [card];
      card.MoveTo(BoardSlot(slot), moveDelay);
      card.Flip(flipDelay);
      BoardCardSettles(DeckPile, FaceDown, slot, moveDelay, flipDelay);
    }

    /** From `Idle`: a fresh shuffled deck, then two passes round the six
        seats; any other phase: ignored. */
    method DealHoleCards()
      requires Valid()
      modifies this
      ensures Valid()
      ensures currentState == Step(old(currentState), Action.DealHoleCards)
      ensures old(currentState) != Idle ==> unchanged(this)
      ensures old(currentState) == Idle ==>
        && currentState == Preflop && |deck| == 40 && boardCards == [] && |drawnCards| == 12
        && (forall p :: 0 <= p < 6 ==> |playerHands[p]| == 2)
        && multiset(deck + Faces(drawnCards)) == multiset(FullDeck())
        && (forall p, k :: 0 <= p < 6 && 0 <= k < 2 ==>
              && drawnCards[k * 6 + p] == playerHands[p][k]
              && fresh(playerHands[p][k])
              && !playerHands[p][k].isFaceUp
              && playerHands[p][k].timeline == HoleChoreography(p, k)
              && playerHands[p][k].RestingSpot() == SeatSpot(p, k)
              && playerHands[p][k].RestingPose() == if p == 0 then ShownToViewer else FlatTowardCenter(p))
        && exists picks :: FisherYatesPicks(52, picks) && |picks| == 51 &&
             deck + Reverse(Faces(drawnCards)) == Swaps(FullDeck(), picks)
    {
      if currentState != Idle {
        return;
      }
      var picks := InitDeck();
      assert deck + Reverse(Faces(drawnCards)) == Swaps(FullDeck(), picks);
      currentState := Preflop;
      DealPasses();
      HolesDealtIsValid();
      forall p, k | 0 <= p < 6 && 0 <= k < 2
        ensures playerHands[p][k].RestingSpot() == SeatSpot(p, k)
        ensures playerHands[p][k].RestingPose() == if p == 0 then ShownToViewer else FlatTowardCenter(p)
      {
        HoleCardSettles(playerHands[p][k].position, playerHands[p][k].rotation, p, k);
      }
    }

    /** The two passes round the table that follow the shuffle. */
    method DealPasses()
      requires |deck| == 52 && drawnCards == [] && playerHands == EmptyHands
      modifies this
      ensures HolesDealt() && forall q :: 0 <= q < 6 ==> |playerHands[q]| == 2
      ensures |drawnCards| == 12 && |deck| == 40
      ensures forall q, m :: 0 <= q < 6 && 0 <= m < 2 ==> fresh(playerHands[q][m])
      ensures boardCards == old(boardCards) && currentState == old(currentState)
      ensures multiset(deck + Faces(drawnCards)) == old(multiset(deck + Faces(drawnCards)))
      ensures deck + Reverse(Faces(drawnCards)) == old(deck + Reverse(Faces(drawnCards)))
    {
      for k := 0 to 2
        invariant HolesDealt() && forall q :: 0 <= q < 6 ==> |playerHands[q]| == k
        invariant |drawnCards| == 6 * k && |deck| == 52 - 6 * k
        invariant boardCards == old(boardCards) && currentState == old(currentState)
        invariant multiset(deck + Faces(drawnCards)) == old(multiset(deck + Faces(drawnCards)))
        invariant deck + Reverse(Faces(drawnCards)) == old(deck + Reverse(Faces(drawnCards)))
        invariant forall q, m :: 0 <= q < 6 && 0 <= m < k ==> fresh(playerHands[q][m])
      {
        ghost var before := playerHands;
        assert forall q, m :: 0 <= q < 6 && 0 <= m < k ==> fresh(before[q][m]);
        DealPass(k);
        forall q, m | 0 <= q < 6 && 0 <= m < k + 1 ensures fresh(playerHands[q][m]) {
          if m < k {
            assert playerHands[q][m] == before[q][m];
          }
        }
      }
    }

    /** Once both passes are done the round invariant holds again. */
    lemma HolesDealtIsValid()
      requires HolesDealt() && forall q :: 0 <= q < 6 ==> |playerHands[q]| == 2
      requires |drawnCards| == 12 && |deck| == 40 && boardCards == [] && currentState == Preflop
      requires multiset(deck + Faces(drawnCards)) == multiset(FullDeck())
      ensures Valid() && drawnCards == RoundRobin(playerHands)
    {
      forall n | 0 <= n < 12
        ensures drawnCards[n] == RoundRobin(playerHands)[n] && !drawnCards[n].isFaceUp
      {
        if n >= 6 {
          assert drawnCards[1 * 6 + (n - 6)] == playerHands[n - 6][1];
        }
      }
      assert drawnCards == RoundRobin(playerHands) + boardCards;
    }

    /** Pass `k` of `dealHoleCards`: card `k` to each seat in turn, seat 0
        first. */
    method DealPass(k: nat)
      requires k < 2 && HolesDealt() && forall q :: 0 <= q < 6 ==> |playerHands[q]| == k
      requires |drawnCards| == 6 * k && |deck| == 52 - 6 * k
      modifies this
      ensures HolesDealt() && forall q :: 0 <= q < 6 ==> |playerHands[q]| == k + 1
      ensures |drawnCards| == 6 * k + 6 && |deck| == 46 - 6 * k
      ensures forall q, m :: 0 <= q < 6 && 0 <= m < k ==> playerHands[q][m] == old(playerHands[q][m])
      ensures forall q :: 0 <= q < 6 ==> fresh(playerHands[q][k])
      ensures boardCards == old(boardCards) && currentState == old(currentState)
      ensures multiset(deck + Faces(drawnCards)) == old(multiset(deck + Faces(drawnCards)))
      ensures deck + Reverse(Faces(drawnCards)) == old(deck + Reverse(Faces(drawnCards)))
    {
      for p := 0 to 6
        invariant HolesDealt()
        invariant forall q :: 0 <= q < 6 ==> |playerHands[q]| == if q < p then k + 1 else k
        invariant |drawnCards| == k * 6 + p && |deck| == 52 - (k * 6 + p)
        invariant forall q, m :: 0 <= q < 6 && 0 <= m < k ==> playerHands[q][m] == old(playerHands[q][m])
        invariant forall q :: 0 <= q < p ==> fresh(playerHands[q][k])
        invariant boardCards == old(boardCards) && currentState == old(currentState)
        invariant multiset(deck + Faces(drawnCards)) == old(multiset(deck + Faces(drawnCards)))
        invariant deck + Reverse(Faces(drawnCards)) == old(deck + Reverse(Faces(drawnCards)))
      {
        ghost var hands, drawn := playerHands, drawnCards;
        var card := DealHoleCard(p, k);
        forall q, m | 0 <= q < 6 && 0 <= m < |playerHands[q]|
          ensures m * 6 + q < |drawnCards| && drawnCards[m * 6 + q] == playerHands[q][m]
          ensures !playerHands[q][m].isFaceUp && playerHands[q][m].timeline == HoleChoreography(q, m)
        {
          if q != p || m != k {
            assert playerHands[q][m] == hands[q][m] && drawnCards[m * 6 + q] == drawn[m * 6 + q];
          }
        }
      }
    }

    /** From `Preflop`: three community cards to slots 0, 1 and 2, each
        moved and then flipped face up; any other phase: ignored. */
    method DealFlop()
      requires Valid()
      modifies this
      ensures Valid()
      ensures currentState == Step(old(currentState), Action.DealFlop)
      ensures old(currentState) != Preflop ==> unchanged(this)
      ensures old(currentState) == Preflop ==>
        && |old(deck)| == 40 && deck == old(deck)[..37]
        && playerHands == old(playerHands) && |boardCards| == 3
        && drawnCards == old(drawnCards) + boardCards
        && (forall i :: 0 <= i < 3 ==>
              && fresh(boardCards[i])
              && CardData(boardCards[i].rank, boardCards[i].suit) == old(deck)[39 - i]
              && boardCards[i].isFaceUp
              && boardCards[i].timeline == BoardChoreography(i, 2 * i, 6 + 2 * i)
              && boardCards[i].RestingSpot() == BoardSlot(i) && boardCards[i].RestingPose() == FaceUp)
    {
      if currentState != Preflop {
        return;
      }
      for i := 0 to 3
        invariant |boardCards| == i && deck == old(deck)[..40 - i]
        invariant drawnCards == old(drawnCards) + boardCards
        invariant playerHands == old(playerHands) && currentState == Preflop
        invariant multiset(deck + Faces(drawnCards)) == multiset(FullDeck())
        invariant forall n :: 0 <= n < 12 ==> !drawnCards[n].isFaceUp
        invariant forall m :: 0 <= m < i ==>
          && fresh(boardCards[m])
          && CardData(boardCards[m].rank, boardCards[m].suit) == old(deck)[39 - m]
          && boardCards[m].isFaceUp
          && boardCards[m].timeline == BoardChoreography(m, 2 * m, 6 + 2 * m)
          && boardCards[m].RestingSpot() == BoardSlot(m) && boardCards[m].RestingPose() == FaceUp
      {
        var card := DealBoardCard(i, 2 * i, 6 + 2 * i);
      }
      currentState := Flop;
    }

    /** From `Flop`: one community card to slot 3, moved and then flipped;
        any other phase: ignored. */
    method DealTurn()
      requires Valid()
      modifies this
      ensures Valid()
      ensures currentState == Step(old(currentState), Action.DealTurn)
      ensures old(currentState) != Flop ==> unchanged(this)
      ensures old(currentState) == Flop ==>
        && |old(deck)| == 37 && deck == old(deck)[..36]
        && playerHands == old(playerHands) && |boardCards| == 4 && boardCards[..3] == old(boardCards)
        && drawnCards == old(drawnCards) + [boardCards[3]]
        && fresh(boardCards[3])
        && CardData(boardCards[3].rank, boardCards[3].suit) == old(deck)[36]
        && boardCards[3].isFaceUp
        && boardCards[3].timeline == BoardChoreography(3, 0, 6)
        && boardCards[3].RestingSpot() == BoardSlot(3) && boardCards[3].RestingPose() == FaceUp
    {
      if currentState != Flop {
        return;
      }
      var card := DealBoardCard(3, 0, 6);
      currentState := Turn;
    }

    /** From `Turn`: one community card to slot 4, moved and then flipped;
        any other phase: ignored. */
    method DealRiver()
      requires Valid()
      modifies this
      ensures Valid()
      ensures currentState == Step(old(currentState), Action.DealRiver)
      ensures old(currentState) != Turn ==> unchanged(this)
      ensures old(currentState) == Turn ==>
        && |old(deck)| == 36 && deck == old(deck)[..35]
        && playerHands == old(playerHands) && |boardCards| == 5 && boardCards[..4] == old(boardCards)
        && drawnCards == old(drawnCards) + [boardCards[4]]
        && fresh(boardCards[4])
        && CardData(boardCards[4].rank, boardCards[4].suit) == old(deck)[35]
        && boardCards[4].isFaceUp
        && boardCards[4].timeline == BoardChoreography(4, 0, 6)
        && boardCards[4].RestingSpot() == BoardSlot(4) && boardCards[4].RestingPose() == FaceUp
    {
      if currentState != Turn {
        return;
      }
      var card := DealBoardCard(4, 0, 6);
      currentState := River;
    }

    /** Back to `Idle` from any phase; the deck, hands and board stay as they
        are until the next `DealHoleCards` clears them. */
    method EndRound()
      requires Valid()
      modifies this
      ensures Valid()
      ensures currentState == Step(old(currentState), Action.EndRound) == Idle
      ensures deck == old(deck) && drawnCards == old(drawnCards)
      ensures playerHands == old(playerHands) && boardCards == old(boardCards)
    {
      currentState := Idle;
    }
  }
}
