/**
 * Shared protocol definitions: the game constants, the entity records that
 * both sides use, the deterministic food-tier table and the two message
 * shapes exchanged between client and server.
 *
 * Floating-point quantities (positions, velocities, sizes, timestamps) are
 * modelled as reals; 32-bit unsigned fields as naturals with an explicit
 * `IsUint32` bound where the wire format needs one.
 */
module Protocol {

  const MAX_PLAYERS: nat := 16
  const MAX_FOOD: nat := 128
  const WORLD_WIDTH: nat := 3200
  const WORLD_HEIGHT: nat := 2400
  const MAX_INPUT_HISTORY: nat := 128
  const MAX_SNAPSHOTS: nat := 64
  /** 100 ms rendering delay used by interpolation (0.1f). */
  const INTERPOLATION_DELAY: real := 0.1

  /** One more than the largest value of a uint32_t field. */
  const UINT32_LIMIT: nat := 0x1_0000_0000

  predicate IsUint32(n: nat) {
    n < UINT32_LIMIT
  }

  /** Option, usable with `:-` for the decoders. */
  datatype Option<+T> = None | Some(value: T) {
    predicate IsFailure() {
      None?
    }

    function PropagateFailure<U>(): Option<U>
      requires None?
    {
      None
    }

    function Extract(): T
      requires Some?
    {
      value
    }
  }

  /** Position and Velocity share one shape: a 2D vector. */
  datatype Vec = Vec(x: real, y: real) {

    /** Position::distanceSquared */
    function DistanceSquared(other: Vec): (d: real)
      ensures d >= 0.0
      ensures this == other ==> d == 0.0
    {
      var dx := x - other.x;
      var dy := y - other.y;
      SumOfSquares(dx, dy);
      dx * dx + dy * dy
    }

    /** Inside the closed world rectangle [0, WORLD_WIDTH] x [0, WORLD_HEIGHT]. */
    predicate InWorld() {
      0.0 <= x <= WORLD_WIDTH as real && 0.0 <= y <= WORLD_HEIGHT as real
    }
  }

  /** A square is non-negative, and positive away from zero. */
  lemma SquareNonNegative(a: real)
    ensures a * a >= 0.0
    ensures a != 0.0 ==> a * a > 0.0
  {
    if a < 0.0 {
      assert (-a) * (-a) > 0.0;
    }
  }

  /** A sum of two squares is non-negative, and zero when both are. */
  lemma SumOfSquares(a: real, b: real)
    ensures a * a + b * b >= 0.0
    ensures a == 0.0 && b == 0.0 ==> a * a + b * b == 0.0
  {
    SquareNonNegative(a);
    SquareNonNegative(b);
  }

  const ZERO: Vec := Vec(0.0, 0.0)

  /** The squared distance does not depend on the order of its arguments. */
  lemma DistanceSquaredSymmetric(a: Vec, b: Vec)
    ensures a.DistanceSquared(b) == b.DistanceSquared(a)
  {
    assert (a.x - b.x) * (a.x - b.x) == (b.x - a.x) * (b.x - a.x);
    assert (a.y - b.y) * (a.y - b.y) == (b.y - a.y) * (b.y - a.y);
  }

  datatype FoodTier = Small | Medium | Large

  /** The enumerator value of a tier, as carried in the 2-bit wire field. */
  function TierIndex(t: FoodTier): (i: nat)
    ensures i <= 2
    ensures TierOfIndex(i) == Some(t)
  {
    match t
    case Small => 0
    case Medium => 1
    case Large => 2
  }

  /** The tier whose enumerator value is i, if there is one. */
  function TierOfIndex(i: nat): (t: Option<FoodTier>)
    ensures t.Some? <==> i <= 2
  {
    if i == 0 then Some(Small)
    else if i == 1 then Some(Medium)
    else if i == 2 then Some(Large)
    else None
  }

  datatype FoodProperties = FoodProperties(color: nat, value: real)

  /**
   * GetFoodPropertiesFromTier: the tier table shared by client and server.
   * Colors are packed RGBA words, each with a full alpha byte.
   */
  function GetFoodPropertiesFromTier(tier: FoodTier): (p: FoodProperties)
    ensures IsUint32(p.color) && p.color % 0x100 == 0xFF
    ensures p.value > 0.0
  {
    match tier
    case Small => FoodProperties(0x00FF00FF, 0.3)
    case Medium => FoodProperties(0xFFFF00FF, 0.7)
    case Large => FoodProperties(0xFF0000FF, 1.5)
  }

  /** A higher tier is always worth strictly more and has a different color. */
  lemma TierTableOrdered(a: FoodTier, b: FoodTier)
    requires TierIndex(a) < TierIndex(b)
    ensures GetFoodPropertiesFromTier(a).value < GetFoodPropertiesFromTier(b).value
    ensures GetFoodPropertiesFromTier(a).color != GetFoodPropertiesFromTier(b).color
  {
  }

  datatype FoodItem = FoodItem(position: Vec, tier: FoodTier, color: nat, value: real)

  /** A food item whose color and value are the ones the table gives its tier. */
  predicate WellMade(f: FoodItem) {
    var p := GetFoodPropertiesFromTier(f.tier);
    f.color == p.color && f.value == p.value
  }

  /** CreateFoodItemFromTier: keeps position and tier, derives color and value. */
  function CreateFoodItemFromTier(x: real, y: real, tier: FoodTier): (f: FoodItem)
    ensures WellMade(f)
    ensures f.position == Vec(x, y) && f.tier == tier
    ensures f.value > 0.0
  {
    var p := GetFoodPropertiesFromTier(tier);
    FoodItem(Vec(x, y), tier, p.color, p.value)
  }

  /** A food item is determined by its position and tier alone. */
  lemma WellMadeDeterminedByTier(f: FoodItem, g: FoodItem)
    requires WellMade(f) && WellMade(g)
    requires f.position == g.position && f.tier == g.tier
    ensures f == g
  {
  }

  datatype Player = Player(id: nat, position: Vec, velocity: Vec, size: real, color: nat)

  /** Player(): every field zero. */
  const DEFAULT_PLAYER: Player := Player(0, ZERO, ZERO, 0.0, 0)

  /** StoredInput: one input kept by the client for reconciliation. */
  datatype StoredInput = StoredInput(sequenceNumber: nat, timestamp: real, moveX: real, moveY: real)

  /** Snapshot: the remote players of one world-state message. */
  datatype Snapshot = Snapshot(serverTick: nat, timestamp: real, players: map<nat, Player>)

  /** PlayerInputMessage */
  datatype InputMessage = InputMessage(sequenceNumber: nat, timestamp: real, moveX: real, moveY: real) {
    /** What the wire format can carry: the sequence number fits 32 bits. */
    predicate WellFormed() {
      IsUint32(sequenceNumber)
    }
  }

  /** One entry of the food arrays of a world-state message. */
  datatype FoodRecord = FoodRecord(x: real, y: real, tier: FoodTier)

  /**
   * WorldStateMessage. The fixed arrays and their counts are a sequence
   * each; `numPlayers` is `|players|` and `numFoodItems` is `|food|`.
   */
  datatype WorldStateMessage = WorldStateMessage(
    serverTick: nat,
    timestamp: real,
    lastProcessedInputSeq: nat,
    players: seq<Player>,
    food: seq<FoodRecord>)
  {
    /** What the wire format can carry: 32-bit words and in-range counts. */
    predicate WellFormed() {
      && IsUint32(serverTick)
      && IsUint32(lastProcessedInputSeq)
      && |players| <= MAX_PLAYERS
      && (forall i :: 0 <= i < |players| ==> IsUint32(players[i].id) && IsUint32(players[i].color))
      && |food| <= MAX_FOOD
    }
  }
}
