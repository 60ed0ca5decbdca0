/** A dealt card: its identity, its face-up flag, and the choreography
    requests (move, rotate, flip) it hands to the animation scheduler.
    Positions and orientations are abstract anchors rather than
    coordinates, and delays are whole tenths of a second. */
module Cards {

  /** Where a card sits, or is sent to. */
  datatype Spot =
    | Origin                             // where a new mesh starts
    | DeckPile                           // the deck's fixed position
    | SeatSpot(seat: nat, side: nat)     // seat anchor, left (side 0) or right (side 1) hole card
    | BoardSlot(slot: nat)               // community-card anchor 0..4

  /** How a card is turned. */
  datatype Pose =
    | Level                              // a new mesh's zero rotation
    | FaceDown                           // flat on the table, back up
    | TiltedToViewer                     // seat 0's hole card angled toward the camera
    | ShownToViewer                      // seat 0's hole card turned to show its face
    | FlatTowardCenter(seat: nat)        // a bot's hole card, flat, back up, facing the centre
    | FaceUp                             // flat on the table, face up (the flip target)

  /** One request submitted to the animation scheduler: it starts `delay`
      tenths of a second after it is issued and runs on its own. */
  datatype Tween =
    | Move(spot: Spot, delay: nat)
    | Rotate(pose: Pose, delay: nat)
    | Hop(delay: nat)                    // the lift-and-drop of a flip; it ends where it began

  /** Where a card starting at `start` comes to rest once every request in
      `ts` has run: the target of the last move, if any. */
  function SettledSpot(start: Spot, ts: seq<Tween>): Spot
  {
    if ts == [] then start
    else match ts[|ts| - 1]
      case Move(to, _) => to
      case _ => SettledSpot(start, ts[..|ts| - 1])
  }

  /** How a card starting at `start` ends up turned: the target of the last
      rotation request, if any. */
  function SettledPose(start: Pose, ts: seq<Tween>): Pose
  {
    if ts == [] then start
    else match ts[|ts| - 1]
      case Rotate(to, _) => to
      case _ => SettledPose(start, ts[..|ts| - 1])
  }

  lemma SettledSpotSnoc(start: Spot, ts: seq<Tween>, t: Tween)
    ensures SettledSpot(start, ts + [t]) == if t.Move? then t.spot else SettledSpot(start, ts)
  {
    assert (ts + [t])[..|ts|] == ts;
  }

  lemma SettledPoseSnoc(start: Pose, ts: seq<Tween>, t: Tween)
    ensures SettledPose(start, ts + [t]) == if t.Rotate? then t.pose else SettledPose(start, ts)
  {
    assert (ts + [t])[..|ts|] == ts;
  }

  /** The requests start in the order they were issued. */
  predicate StartOrdered(ts: seq<Tween>)
  {
    forall i, j :: 0 <= i < j < |ts| ==> ts[i].delay <= ts[j].delay
  }

  class Card {
    const rank: string
    const suit: string
    var isFaceUp: bool
    /** The mesh's position and rotation as last set directly. */
    var position: Spot
    var rotation: Pose
    /** Every choreography request issued for this card, in issue order. */
    var timeline: seq<Tween>

    constructor (rank: string, suit: string)
      ensures this.rank == rank && this.suit == suit
      ensures !isFaceUp
      ensures position == Origin && rotation == Level && timeline == []
    {
      this.rank := rank;
      this.suit := suit;
      isFaceUp := false;
      position := Origin;
      rotation := Level;
      timeline := [];
    }

    /** Where the card comes to rest once its requests have run. */
    function RestingSpot(): Spot
      reads this
    {
      SettledSpot(position, timeline)
    }

    /** How the card ends up turned once its requests have run. */
    function RestingPose(): Pose
      reads this
    {
      SettledPose(rotation, timeline)
    }

    /** Schedules a move; it turns nothing and does not touch the face flag. */
    method MoveTo(to: Spot, delay: nat)
      modifies this
      ensures timeline == old(timeline) + [Move(to, delay)]
      ensures isFaceUp == old(isFaceUp) && position == old(position) && rotation == old(rotation)
      ensures RestingSpot() == to && RestingPose() == old(RestingPose())
    {
      timeline := timeline + [Move(to, delay)];
      assert timeline[..|timeline| - 1] == old(timeline);
    }

    /** Schedules a rotation; it moves nothing and does not touch the face flag. */
    method RotateTo(to: Pose, delay: nat)
      modifies this
      ensures timeline == old(timeline) + [Rotate(to, delay)]
      ensures isFaceUp == old(isFaceUp) && position == old(position) && rotation == old(rotation)
      ensures RestingPose() == to && RestingSpot() == old(RestingSpot())
    {
      timeline := timeline + [Rotate(to, delay)];
      assert timeline[..|timeline| - 1] == old(timeline);
    }

    /** Toggles the face flag and schedules a hop together with a turn to
        the face-up orientation, both starting after `delay`. */
    method Flip(delay: nat)
      modifies this
      ensures isFaceUp == !old(isFaceUp)
      ensures timeline == old(timeline) + [Hop(delay), Rotate(FaceUp, delay)]
      ensures position == old(position) && rotation == old(rotation)
      ensures RestingPose() == FaceUp && RestingSpot() == old(RestingSpot())
    {
      isFaceUp := !isFaceUp;
      timeline := timeline + [Hop(delay)];
      assert timeline[..|timeline| - 1] == old(timeline);
      assert RestingSpot() == old(RestingSpot());
      timeline := timeline + [Rotate(FaceUp, delay)];
      assert timeline[..|timeline| - 1] == old(timeline) + [Hop(delay)];
    }
  }

  /** Two flips restore the face flag: the flag is toggled, not set. */
  method FlipTwice(card: Card, delay: nat)
    modifies card
    ensures card.isFaceUp == old(card.isFaceUp)
    ensures card.RestingSpot() == old(card.RestingSpot()) && card.RestingPose() == FaceUp
  {
    card.Flip(delay);
    card.Flip(delay);
  }
}
