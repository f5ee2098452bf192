/**
 * The server's authoritative rules, as values: spawning, the food roll,
 * eating food, pairwise combat with deferred respawns, the tick counter
 * and the packing of a world-state message.
 *
 * rand() is a stream: its k-th call returns rnd(k). Every rule that calls
 * it takes the stream and the number of calls made so far, and reports how
 * many it made, so the draws are consumed in the order the server makes
 * them. The iteration order of the players' hash map is a sequence of ids
 * that enumerates its keys.
 *
 * GameServer (game_server.dfy) runs these rules as loops over its fields
 * and is proved to compute these functions.
 */
module Simulation {
  import opened Protocol
  import opened Movement

  /** FOOD_SIZE in HandleGameFood: the diameter of a food item. */
  const FOOD_SIZE: real := 5.0
  /** The size of a newly spawned or respawned player. */
  const SPAWN_SIZE: real := 10.0
  /** SIZE_ADVANTAGE: a player must exceed 1.1 times the other's size to eat it. */
  const SIZE_ADVANTAGE: real := 1.1
  /** The fixed server tick, 1/60 s. */
  const TICK_RATE: real := 1.0 / 60.0

  /** The players map's iteration order: each key exactly once. */
  ghost predicate Enumerates(order: seq<nat>, m: map<nat, Player>) {
    && (forall i, j :: 0 <= i < j < |order| ==> order[i] != order[j])
    && (forall i :: 0 <= i < |order| ==> order[i] in m)
    && (forall id :: id in m ==> id in order)
  }

  /** Every player is filed under its own id, a client index, and is a live, in-world player. */
  ghost predicate PlayersOk(m: map<nat, Player>) {
    forall id :: id in m ==>
      && m[id].id == id && id < MAX_PLAYERS
      && m[id].size >= SPAWN_SIZE
      && m[id].position.InWorld()
      && IsUint32(m[id].color)
  }

  /** Every food item agrees with the tier table and lies in the world. */
  ghost predicate FoodOk(food: seq<FoodItem>) {
    forall i :: 0 <= i < |food| ==> WellMade(food[i]) && food[i].position.InWorld()
  }

  // ---------------------------------------------------------------- spawning

  /**
   * The color SpawnPlayer packs: (r % 256) << 24 | (g % 256) << 16 |
   * (b % 256) << 8 | 0xFF. The four bytes do not overlap, so the ors are sums.
   */
  function SpawnColor(r: nat, g: nat, b: nat): (c: nat)
    ensures IsUint32(c) && c % 0x100 == 0xFF
  {
    (r % 0x100) * 0x100_0000 + (g % 0x100) * 0x1_0000 + (b % 0x100) * 0x100 + 0xFF
  }

  /** Each of the three drawn channels can be read back from its byte of the color. */
  lemma SpawnColorChannels(r: nat, g: nat, b: nat)
    ensures SpawnColor(r, g, b) / 0x100_0000 == r % 0x100
    ensures SpawnColor(r, g, b) / 0x1_0000 % 0x100 == g % 0x100
    ensures SpawnColor(r, g, b) / 0x100 % 0x100 == b % 0x100
  {
    var lo := (b % 0x100) * 0x100 + 0xFF;
    var mid := (g % 0x100) * 0x1_0000 + lo;
    assert lo < 0x1_0000;
    assert mid < 0x100_0000;
    assert SpawnColor(r, g, b) == (r % 0x100) * 0x100_0000 + mid;
    assert SpawnColor(r, g, b) / 0x100_0000 == r % 0x100;
    assert SpawnColor(r, g, b) / 0x1_0000 == (r % 0x100) * 0x100 + g % 0x100;
    assert SpawnColor(r, g, b) / 0x100 == ((r % 0x100) * 0x100 + g % 0x100) * 0x100 + b % 0x100;
  }

  /** A spawn point: rand() % WORLD_WIDTH, rand() % WORLD_HEIGHT. */
  function SpawnPosition(x: nat, y: nat): (v: Vec)
    ensures v.InWorld()
    ensures v.x < WORLD_WIDTH as real && v.y < WORLD_HEIGHT as real
  {
    Vec((x % WORLD_WIDTH) as real, (y % WORLD_HEIGHT) as real)
  }

  /**
   * SpawnPlayer's new player, from five draws starting at call k: red,
   * green, blue, then x and y. Velocity is zero as in Player().
   */
  function SpawnedPlayer(id: nat, rnd: nat -> nat, k: nat): (p: Player)
    ensures p.id == id && p.size == SPAWN_SIZE && p.velocity == ZERO
    ensures IsUint32(p.color) && p.color % 0x100 == 0xFF
    ensures p.position.InWorld()
  {
    Player(id, SpawnPosition(rnd(k + 3), rnd(k + 4)), ZERO, SPAWN_SIZE,
           SpawnColor(rnd(k), rnd(k + 1), rnd(k + 2)))
  }

  /**
   * RespawnPlayer's reset, from two draws starting at call k: a new spawn
   * point, zero velocity, the spawn size; id and color are kept.
   */
  function Respawned(p: Player, rnd: nat -> nat, k: nat): (q: Player)
    ensures q.id == p.id && q.color == p.color
    ensures q.size == SPAWN_SIZE && q.velocity == ZERO && q.position.InWorld()
  {
    p.(position := SpawnPosition(rnd(k), rnd(k + 1)), velocity := ZERO, size := SPAWN_SIZE)
  }

  // ---------------------------------------------------------------- food

  /** CreateFood's tier: the roll modulo 100, below 60 small, below 90 medium, else large. */
  function TierOfRoll(roll: nat): FoodTier {
    var r := roll % 100;
    if r < 60 then Small else if r < 90 then Medium else Large
  }

  /** The three bands of the roll, each an if-and-only-if. */
  lemma TierOfRollBands(roll: nat)
    ensures TierOfRoll(roll) == Small <==> roll % 100 < 60
    ensures TierOfRoll(roll) == Medium <==> 60 <= roll % 100 < 90
    ensures TierOfRoll(roll) == Large <==> 90 <= roll % 100
  {
  }

  /** The band edges: 59 and 60, 89 and 90, and 100 wrapping back to small. */
  lemma TierOfRollEdges()
    ensures TierOfRoll(59) == Small && TierOfRoll(60) == Medium
    ensures TierOfRoll(89) == Medium && TierOfRoll(90) == Large
    ensures TierOfRoll(99) == Large && TierOfRoll(100) == Small
  {
  }

  /** CreateFood, from three draws starting at call k: x, y, then the tier roll. */
  function NewFood(rnd: nat -> nat, k: nat): (f: FoodItem)
    ensures WellMade(f) && f.position.InWorld()
    ensures f.tier == TierOfRoll(rnd(k + 2))
  {
    var spot := SpawnPosition(rnd(k), rnd(k + 1));
    CreateFoodItemFromTier(spot.x, spot.y, TierOfRoll(rnd(k + 2)))
  }

  /** The food array the server starts with: slot j filled by the j-th CreateFood call. */
  function InitialFood(rnd: nat -> nat, n: nat): (food: seq<FoodItem>)
    ensures |food| == n
  {
    seq(n, j requires 0 <= j < n => NewFood(rnd, 3 * j))
  }

  /** The initial food is well made and in the world. */
  lemma InitialFoodOk(rnd: nat -> nat, n: nat)
    ensures FoodOk(InitialFood(rnd, n))
  {
    var food := InitialFood(rnd, n);
    forall i | 0 <= i < n
      ensures WellMade(food[i]) && food[i].position.InWorld()
    {
      assert food[i] == NewFood(rnd, 3 * i);
    }
  }

  /** The squared collision radius of a player of the given size and a food item. */
  function FoodReachSquared(size: real): (r2: real)
    ensures r2 >= 0.0
  {
    var r := size / 2.0 + FOOD_SIZE / 2.0;
    SquareNonNegative(r);
    r * r
  }

  /** What one player's pass over the food leaves: its size, the food, the rand() calls made. */
  datatype Meal = Meal(size: real, food: seq<FoodItem>, calls: nat)

  /**
   * One slot of HandleGameFood's inner loop: a slot strictly inside the
   * squared reach adds its value to the size and is replaced by the next
   * CreateFood; any other slot is left alone.
   */
  function Bite(m: Meal, pos: Vec, reach2: real, rnd: nat -> nat, j: nat): (b: Meal)
    requires j < |m.food|
    ensures |b.food| == |m.food|
  {
    var f := m.food[j];
    if f.position.DistanceSquared(pos) < reach2 then
      Meal(m.size + f.value, m.food[j := NewFood(rnd, m.calls)], m.calls + 3)
    else m
  }

  /**
   * The inner loop of HandleGameFood over slots 0..j-1, for a player at
   * pos whose squared reach was fixed before the loop.
   */
  function Graze(pos: Vec, reach2: real, size: real, food: seq<FoodItem>, rnd: nat -> nat, k: nat, j: nat)
    : (m: Meal)
    requires j <= |food|
    ensures |m.food| == |food|
  {
    if j == 0 then Meal(size, food, k)
    else Bite(Graze(pos, reach2, size, food, rnd, k, j - 1), pos, reach2, rnd, j - 1)
  }

  /** Eating keeps the food well made and in the world, and never shrinks the player. */
  lemma {:induction false} GrazeOk(pos: Vec, reach2: real, size: real, food: seq<FoodItem>,
                                   rnd: nat -> nat, k: nat, j: nat)
    requires j <= |food| && FoodOk(food)
    ensures var m := Graze(pos, reach2, size, food, rnd, k, j);
      FoodOk(m.food) && m.size >= size && m.calls >= k
  {
    if j > 0 {
      GrazeOk(pos, reach2, size, food, rnd, k, j - 1);
      var m := Graze(pos, reach2, size, food, rnd, k, j - 1);
      assert WellMade(m.food[j - 1]);
      var f := NewFood(rnd, m.calls);
      var food' := m.food[j - 1 := f];
      assert forall i :: 0 <= i < |food'| ==> food'[i] == (if i == j - 1 then f else m.food[i]);
    }
  }

  /**
   * A slot out of reach is left alone; a slot in reach grows the player by
   * exactly its value and is replaced by the next CreateFood.
   */
  lemma GrazeOneSlot(pos: Vec, reach2: real, size: real, f: FoodItem, rnd: nat -> nat, k: nat)
    ensures f.position.DistanceSquared(pos) >= reach2 ==>
      Graze(pos, reach2, size, [f], rnd, k, 1) == Meal(size, [f], k)
    ensures f.position.DistanceSquared(pos) < reach2 ==>
      Graze(pos, reach2, size, [f], rnd, k, 1) == Meal(size + f.value, [NewFood(rnd, k)], k + 3)
  {
    assert Graze(pos, reach2, size, [f], rnd, k, 0) == Meal(size, [f], k);
  }

  /**
   * The reach is computed once per player, before the food loop. A player
   * of size 10 at the origin eats a large item on its own spot and grows to
   * 11.5, which would reach the item at (7.5, 0), but the reach used for
   * the rest of the loop is still the one for size 10, so that item stays.
   */
  lemma GrazeFixedReach(rnd: nat -> nat, k: nat)
    ensures var big := CreateFoodItemFromTier(0.0, 0.0, Large);
      var near := CreateFoodItemFromTier(7.5, 0.0, Small);
      var m := Graze(ZERO, FoodReachSquared(10.0), 10.0, [big, near], rnd, k, 2);
      && m.size == 11.5
      && m.food[1] == near
      && near.position.DistanceSquared(ZERO) < FoodReachSquared(11.5)
  {
    var big := CreateFoodItemFromTier(0.0, 0.0, Large);
    var near := CreateFoodItemFromTier(7.5, 0.0, Small);
    var reach := FoodReachSquared(10.0);
    assert reach == 56.25;
    assert FoodReachSquared(11.5) == 68.0625;
    assert big.position.DistanceSquared(ZERO) == 0.0;
    assert near.position.DistanceSquared(ZERO) == 56.25;
    var m0 := Graze(ZERO, reach, 10.0, [big, near], rnd, k, 0);
    assert m0 == Meal(10.0, [big, near], k);
    var m1 := Graze(ZERO, reach, 10.0, [big, near], rnd, k, 1);
    assert m1 == Meal(11.5, [NewFood(rnd, k), near], k + 3);
  }

  /** The state HandleGameFood, HandlePlayerCollisions and the respawns work on. */
  datatype World = World(players: map<nat, Player>, food: seq<FoodItem>, calls: nat)

  /** One iteration of HandleGameFood's outer loop: the player under id eats. */
  function Feed(w: World, id: nat, rnd: nat -> nat): (v: World)
    ensures v.players.Keys == w.players.Keys && |v.food| == |w.food|
  {
    if id !in w.players then w
    else
      var p := w.players[id];
      var m := Graze(p.position, FoodReachSquared(p.size), p.size, w.food, rnd, w.calls, |w.food|);
      World(w.players[id := p.(size := m.size)], m.food, m.calls)
  }

  /** HandleGameFood: the players eat one after the other, in the map's order. */
  function FeedAll(w: World, order: seq<nat>, rnd: nat -> nat): (v: World)
    ensures v.players.Keys == w.players.Keys && |v.food| == |w.food|
  {
    if order == [] then w
    else Feed(FeedAll(w, order[..|order| - 1], rnd), order[|order| - 1], rnd)
  }

  /**
   * Eating keeps the players and the food valid and the food count fixed;
   * players only grow and never move, and nothing else about them changes.
   */
  lemma FeedOk(w: World, id: nat, rnd: nat -> nat)
    requires PlayersOk(w.players) && FoodOk(w.food)
    ensures var v := Feed(w, id, rnd);
      && PlayersOk(v.players) && FoodOk(v.food) && v.calls >= w.calls
      && forall i :: i in w.players ==>
           v.players[i] == w.players[i].(size := v.players[i].size) && v.players[i].size >= w.players[i].size
  {
    if id in w.players {
      var p := w.players[id];
      GrazeOk(p.position, FoodReachSquared(p.size), p.size, w.food, rnd, w.calls, |w.food|);
    }
  }

  /** FeedOk over the whole pass. */
  lemma {:induction false} FeedAllOk(w: World, order: seq<nat>, rnd: nat -> nat)
    requires PlayersOk(w.players) && FoodOk(w.food)
    ensures var v := FeedAll(w, order, rnd);
      && PlayersOk(v.players) && FoodOk(v.food) && v.calls >= w.calls
      && forall i :: i in w.players ==>
           v.players[i] == w.players[i].(size := v.players[i].size) && v.players[i].size >= w.players[i].size
  {
    if order != [] {
      var u := FeedAll(w, order[..|order| - 1], rnd);
      FeedAllOk(w, order[..|order| - 1], rnd);
      FeedOk(u, order[|order| - 1], rnd);
    }
  }

  // ---------------------------------------------------------------- combat

  /** The players during the collision scan and the ids queued for respawn. */
  datatype Fight = Fight(players: map<nat, Player>, respawn: seq<nat>)

  /**
   * One pair (a before b in the map's order): when they overlap, the first
   * eats the second if it is more than 1.1 times its size, without growing;
   * otherwise the second eats the first if it is more than 1.1 times its
   * size, growing by half the first's size. The eaten one is queued.
   */
  function Duel(f: Fight, a: nat, b: nat): (g: Fight)
    requires a in f.players && b in f.players
    ensures g.players.Keys == f.players.Keys
  {
    var p1 := f.players[a];
    var p2 := f.players[b];
    var reach := (p1.size + p2.size) / 2.0;
    if p1.position.DistanceSquared(p2.position) < reach * reach then
      if p1.size > p2.size * SIZE_ADVANTAGE then
        Fight(f.players, f.respawn + [p2.id])
      else if p2.size > p1.size * SIZE_ADVANTAGE then
        Fight(f.players[b := p2.(size := p2.size + p1.size * 0.5)], f.respawn + [p1.id])
      else f
    else f
  }

  /** A pair of which neither is more than 1.1 times the other is left as it is. */
  lemma DuelEven(f: Fight, a: nat, b: nat)
    requires a in f.players && b in f.players
    requires f.players[a].size <= f.players[b].size * SIZE_ADVANTAGE
    requires f.players[b].size <= f.players[a].size * SIZE_ADVANTAGE
    ensures Duel(f, a, b) == f
  {
  }

  /**
   * The asymmetry: when the first of an overlapping pair wins, no size
   * changes at all; when the second wins, it alone grows, by half the
   * first's size.
   */
  lemma DuelAsymmetry(f: Fight, a: nat, b: nat)
    requires a in f.players && b in f.players && a != b
    requires var p1 := f.players[a]; var p2 := f.players[b];
      p1.position.DistanceSquared(p2.position) < ((p1.size + p2.size) / 2.0) * ((p1.size + p2.size) / 2.0)
    ensures f.players[a].size > f.players[b].size * SIZE_ADVANTAGE ==>
      Duel(f, a, b) == Fight(f.players, f.respawn + [f.players[b].id])
    ensures (!(f.players[a].size > f.players[b].size * SIZE_ADVANTAGE)
             && f.players[b].size > f.players[a].size * SIZE_ADVANTAGE) ==>
      && Duel(f, a, b).players[b].size == f.players[b].size + f.players[a].size * 0.5
      && Duel(f, a, b).players[a] == f.players[a]
      && Duel(f, a, b).respawn == f.respawn + [f.players[a].id]
  {
  }

  /** Row i of the scan: the pairs (order[i], order[c]) for i < c < j. */
  function ScanRow(f: Fight, order: seq<nat>, i: nat, j: nat): (g: Fight)
    requires i < j <= |order|
    requires forall c :: 0 <= c < |order| ==> order[c] in f.players
    ensures g.players.Keys == f.players.Keys
    decreases j
  {
    if j == i + 1 then f
    else Duel(ScanRow(f, order, i, j - 1), order[i], order[j - 1])
  }

  /** Rows 0..i-1 of the scan: every pair whose first member is among the first i. */
  function ScanRows(f: Fight, order: seq<nat>, i: nat): (g: Fight)
    requires i <= |order|
    requires forall c :: 0 <= c < |order| ==> order[c] in f.players
    ensures g.players.Keys == f.players.Keys
  {
    if i == 0 then f
    else ScanRow(ScanRows(f, order, i - 1), order, i - 1, |order|)
  }

  /** The only change the scan makes to a player: a size that did not decrease. */
  predicate Grown(before: Player, after: Player) {
    after == before.(size := after.size) && after.size >= before.size
  }

  /** No player has a negative size. */
  ghost predicate Sized(m: map<nat, Player>) {
    forall id :: id in m ==> m[id].size >= 0.0
  }

  /**
   * What the scan may change: it moves nobody and shrinks nobody, and the
   * queue only grows. Respawns wait until the scan is over.
   */
  ghost predicate OnlyGrows(f: Fight, g: Fight) {
    && g.players.Keys == f.players.Keys
    && (forall id :: id in f.players ==> Grown(f.players[id], g.players[id]))
    && f.respawn <= g.respawn
  }

  lemma DuelOnlyGrows(f: Fight, a: nat, b: nat)
    requires a in f.players && b in f.players && Sized(f.players)
    ensures OnlyGrows(f, Duel(f, a, b)) && Sized(Duel(f, a, b).players)
  {
  }

  /** OnlyGrows composes. */
  lemma OnlyGrowsTrans(f: Fight, g: Fight, h: Fight)
    requires OnlyGrows(f, g) && OnlyGrows(g, h)
    ensures OnlyGrows(f, h)
  {
    forall id | id in f.players
      ensures Grown(f.players[id], h.players[id])
    {
      assert Grown(f.players[id], g.players[id]) && Grown(g.players[id], h.players[id]);
    }
  }

  lemma {:induction false} ScanRowOnlyGrows(f: Fight, order: seq<nat>, i: nat, j: nat)
    requires i < j <= |order|
    requires forall c :: 0 <= c < |order| ==> order[c] in f.players
    requires Sized(f.players)
    ensures OnlyGrows(f, ScanRow(f, order, i, j)) && Sized(ScanRow(f, order, i, j).players)
    decreases j
  {
    if j > i + 1 {
      var g := ScanRow(f, order, i, j - 1);
      ScanRowOnlyGrows(f, order, i, j - 1);
      DuelOnlyGrows(g, order[i], order[j - 1]);
      OnlyGrowsTrans(f, g, Duel(g, order[i], order[j - 1]));
    }
  }

  /** The whole scan only grows players and queues ids; nobody moves before it ends. */
  lemma {:induction false} ScanRowsOnlyGrows(f: Fight, order: seq<nat>, i: nat)
    requires i <= |order|
    requires forall c :: 0 <= c < |order| ==> order[c] in f.players
    requires Sized(f.players)
    ensures OnlyGrows(f, ScanRows(f, order, i)) && Sized(ScanRows(f, order, i).players)
  {
    if i > 0 {
      var g := ScanRows(f, order, i - 1);
      ScanRowsOnlyGrows(f, order, i - 1);
      var h := ScanRow(g, order, i - 1, |order|);
      assert ScanRows(f, order, i) == h;
      ScanRowOnlyGrows(g, order, i - 1, |order|);
      OnlyGrowsTrans(f, g, h);
    }
  }

  /** RespawnPlayer: a no-op, with no draw, for an id that is not in the map. */
  function Respawn(w: World, id: nat, rnd: nat -> nat): (v: World)
    ensures v.players.Keys == w.players.Keys && v.food == w.food
    ensures id !in w.players ==> v.calls == w.calls
  {
    if id !in w.players then w
    else World(w.players[id := Respawned(w.players[id], rnd, w.calls)], w.food, w.calls + 2)
  }

  /** The queued respawns, applied in queue order after the scan. */
  function RespawnAll(w: World, queue: seq<nat>, rnd: nat -> nat): (v: World)
    ensures v.players.Keys == w.players.Keys && v.food == w.food
  {
    if queue == [] then w
    else Respawn(RespawnAll(w, queue[..|queue| - 1], rnd), queue[|queue| - 1], rnd)
  }

  /** HandlePlayerCollisions: scan every pair once, then respawn the eaten. */
  function Combat(w: World, order: seq<nat>, rnd: nat -> nat): (v: World)
    requires forall c :: 0 <= c < |order| ==> order[c] in w.players
    ensures v.players.Keys == w.players.Keys && v.food == w.food
  {
    var f := ScanRows(Fight(w.players, []), order, |order|);
    RespawnAll(World(f.players, w.food, w.calls), f.respawn, rnd)
  }

  /** Respawning keeps the players valid. */
  lemma {:induction false} RespawnAllOk(w: World, queue: seq<nat>, rnd: nat -> nat)
    requires PlayersOk(w.players)
    ensures PlayersOk(RespawnAll(w, queue, rnd).players) && RespawnAll(w, queue, rnd).calls >= w.calls
  {
    if queue != [] {
      RespawnAllOk(w, queue[..|queue| - 1], rnd);
    }
  }

  /** Combat keeps the players valid. */
  lemma CombatOk(w: World, order: seq<nat>, rnd: nat -> nat)
    requires PlayersOk(w.players)
    requires forall c :: 0 <= c < |order| ==> order[c] in w.players
    ensures PlayersOk(Combat(w, order, rnd).players) && Combat(w, order, rnd).calls >= w.calls
  {
    var f0 := Fight(w.players, []);
    ScanRowsOnlyGrows(f0, order, |order|);
    var f := ScanRows(f0, order, |order|);
    assert PlayersOk(f.players) by {
      forall id | id in f.players
        ensures f.players[id].id == id && f.players[id].size >= SPAWN_SIZE && f.players[id].position.InWorld()
      {
        assert Grown(w.players[id], f.players[id]);
      }
    }
    RespawnAllOk(World(f.players, w.food, w.calls), f.respawn, rnd);
  }

  /**
   * Two overlapping players, the first of size 20 and the second of size
   * 10: the second is respawned and the first does not grow.
   */
  lemma FirstWinsDoesNotGrow(w: World, a: nat, b: nat, p1: Player, p2: Player, rnd: nat -> nat)
    requires a != b && w.players == map[a := p1, b := p2] && p1.id == a && p2.id == b
    requires p1.position == p2.position && p1.size == 20.0 && p2.size == 10.0
    ensures Combat(w, [a, b], rnd).players == map[a := p1, b := Respawned(p2, rnd, w.calls)]
  {
    var order := [a, b];
    var f0 := Fight(w.players, []);
    var f1 := Fight(w.players, [b]);
    assert p1.position.DistanceSquared(p2.position) == 0.0;
    assert Duel(f0, a, b) == f1;
    assert ScanRow(f0, order, 0, 2) == Duel(ScanRow(f0, order, 0, 1), a, b);
    assert ScanRows(f0, order, 1) == f1;
    assert ScanRows(f0, order, 2) == ScanRow(f1, order, 1, 2) == f1;
    var v := World(w.players, w.food, w.calls);
    assert RespawnAll(v, [b], rnd) == Respawn(RespawnAll(v, [], rnd), b, rnd);
  }

  /**
   * Two overlapping players, the first of size 10 and the second of size
   * 20: the first is respawned and the second grows to 25.
   */
  lemma SecondWinsGrows(w: World, a: nat, b: nat, p1: Player, p2: Player, rnd: nat -> nat)
    requires a != b && w.players == map[a := p1, b := p2] && p1.id == a && p2.id == b
    requires p1.position == p2.position && p1.size == 10.0 && p2.size == 20.0
    ensures Combat(w, [a, b], rnd).players
         == map[a := Respawned(p1, rnd, w.calls), b := p2.(size := 25.0)]
  {
    var order := [a, b];
    var f0 := Fight(w.players, []);
    var grown := w.players[b := p2.(size := 25.0)];
    var f1 := Fight(grown, [a]);
    assert p1.position.DistanceSquared(p2.position) == 0.0;
    assert Duel(f0, a, b) == f1;
    assert ScanRow(f0, order, 0, 2) == Duel(ScanRow(f0, order, 0, 1), a, b);
    assert ScanRows(f0, order, 1) == f1;
    assert ScanRows(f0, order, 2) == ScanRow(f1, order, 1, 2) == f1;
    var v := World(grown, w.food, w.calls);
    assert RespawnAll(v, [a], rnd) == Respawn(RespawnAll(v, [], rnd), a, rnd);
  }

  // ---------------------------------------------------------------- broadcast

  /** serverTick++ on a uint32_t: it wraps to 0 after 2^32 - 1. */
  function NextTick(t: nat): (u: nat)
    ensures IsUint32(u)
  {
    (t + 1) % UINT32_LIMIT
  }

  /** The counter grows by exactly one per tick, except at the wrap. */
  lemma NextTickSteps(t: nat)
    requires IsUint32(t)
    ensures t + 1 < UINT32_LIMIT ==> NextTick(t) == t + 1
    ensures t + 1 == UINT32_LIMIT ==> NextTick(t) == 0
  {
  }

  /**
   * The player arrays of a world-state message: the players in the map's
   * order, stopping once MAX_PLAYERS are packed.
   */
  function PackPlayers(m: map<nat, Player>, order: seq<nat>): (ps: seq<Player>)
    requires forall c :: 0 <= c < |order| ==> order[c] in m
  {
    var n := if |order| < MAX_PLAYERS then |order| else MAX_PLAYERS;
    seq(n, i requires 0 <= i < n => m[order[i]])
  }

  /** The food arrays of a world-state message: position and tier of each slot. */
  function FoodRecords(food: seq<FoodItem>): (rs: seq<FoodRecord>)
    ensures |rs| == |food|
  {
    seq(|food|, i requires 0 <= i < |food| => FoodRecord(food[i].position.x, food[i].position.y, food[i].tier))
  }

  /** The acknowledgement sent to a client: its cursor, or 0 when it has none. */
  function AckFor(acks: map<nat, nat>, clientIndex: nat): nat {
    if clientIndex in acks then acks[clientIndex] else 0
  }

  /** The message BroadcastWorldState builds for one client. */
  function WorldStateFor(w: World, order: seq<nat>, tick: nat, timestamp: real, acks: map<nat, nat>,
                         clientIndex: nat): WorldStateMessage
    requires forall c :: 0 <= c < |order| ==> order[c] in w.players
  {
    WorldStateMessage(tick, timestamp, AckFor(acks, clientIndex), PackPlayers(w.players, order),
                      FoodRecords(w.food))
  }

  /**
   * A broadcast message never carries more than MAX_PLAYERS players, each
   * taken in the map's order; it carries all of them when they fit, and
   * every food slot. It is well formed whenever the counters and the
   * players' words fit 32 bits, so the codec carries it unchanged.
   */
  lemma WorldStateForShape(w: World, order: seq<nat>, tick: nat, timestamp: real, acks: map<nat, nat>,
                           clientIndex: nat)
    requires forall c :: 0 <= c < |order| ==> order[c] in w.players
    ensures var msg := WorldStateFor(w, order, tick, timestamp, acks, clientIndex);
      && |msg.players| <= MAX_PLAYERS
      && (|order| <= MAX_PLAYERS ==> |msg.players| == |order|)
      && (forall i :: 0 <= i < |msg.players| ==> msg.players[i] == w.players[order[i]])
      && |msg.food| == |w.food|
      && msg.lastProcessedInputSeq == (if clientIndex in acks then acks[clientIndex] else 0)
    ensures |w.food| <= MAX_FOOD && IsUint32(tick) && IsUint32(AckFor(acks, clientIndex)) && PlayersOk(w.players)
      ==> WorldStateFor(w, order, tick, timestamp, acks, clientIndex).WellFormed()
  {
  }

  /** One outgoing world-state message, for the client it is sent to. */
  datatype Outgoing = Outgoing(clientIndex: nat, msg: WorldStateMessage)

  /**
   * BroadcastWorldState over client indices 0..n-1: a message for every
   * connected client whose message could be allocated, in index order.
   */
  function Broadcast(w: World, order: seq<nat>, tick: nat, timestamp: real, acks: map<nat, nat>,
                     connected: set<nat>, allocOk: set<nat>, n: nat): (out: seq<Outgoing>)
    requires forall c :: 0 <= c < |order| ==> order[c] in w.players
    ensures |out| <= n
    ensures forall k :: 0 <= k < |out| ==>
      && out[k].clientIndex < n && out[k].clientIndex in connected && out[k].clientIndex in allocOk
      && out[k].msg == WorldStateFor(w, order, tick, timestamp, acks, out[k].clientIndex)
  {
    if n == 0 then []
    else
      var out := Broadcast(w, order, tick, timestamp, acks, connected, allocOk, n - 1);
      var c := n - 1;
      if c in connected && c in allocOk then out + [Outgoing(c, WorldStateFor(w, order, tick, timestamp, acks, c))]
      else out
  }

  /** Every connected client with a message gets exactly one, and nobody else gets any. */
  lemma {:induction false} BroadcastReaches(w: World, order: seq<nat>, tick: nat, timestamp: real,
                                            acks: map<nat, nat>, connected: set<nat>, allocOk: set<nat>,
                                            n: nat, c: nat)
    requires forall i :: 0 <= i < |order| ==> order[i] in w.players
    ensures var out := Broadcast(w, order, tick, timestamp, acks, connected, allocOk, n);
      (exists k :: 0 <= k < |out| && out[k].clientIndex == c) <==> c < n && c in connected && c in allocOk
  {
    if n > 0 {
      BroadcastReaches(w, order, tick, timestamp, acks, connected, allocOk, n - 1, c);
      var out := Broadcast(w, order, tick, timestamp, acks, connected, allocOk, n);
      var prev := Broadcast(w, order, tick, timestamp, acks, connected, allocOk, n - 1);
      if n - 1 in connected && n - 1 in allocOk {
        assert out[|prev|].clientIndex == n - 1;
        assert forall k :: 0 <= k < |prev| ==> out[k] == prev[k];
      }
    }
  }

  // ---------------------------------------------------------------- inputs

  /** An input message as ProcessMessages hands it over: the sender's client index and the message. */
  datatype Incoming = Incoming(clientIndex: nat, msg: InputMessage)

  /**
   * ReceivePlayerInputMessage on the players: the sender's player, if it
   * has one, takes one movement step; nobody else changes.
   */
  function ApplyInput(m: map<nat, Player>, input: Incoming): (r: map<nat, Player>)
    ensures r.Keys == m.Keys
  {
    var c := input.clientIndex;
    if c in m then m[c := PredictMovement(m[c], input.msg.moveX, input.msg.moveY, INPUT_DT)] else m
  }

  /** The delivered inputs applied in order. */
  function ApplyInputs(m: map<nat, Player>, inbox: seq<Incoming>): (r: map<nat, Player>)
    ensures r.Keys == m.Keys
  {
    if inbox == [] then m else ApplyInput(ApplyInputs(m, inbox[..|inbox| - 1]), inbox[|inbox| - 1])
  }

  /** The ack cursors after the delivered inputs: each message overwrites its sender's cursor. */
  function AcksAfter(acks: map<nat, nat>, inbox: seq<Incoming>): (r: map<nat, nat>)
    ensures r.Keys == acks.Keys + set k | 0 <= k < |inbox| :: inbox[k].clientIndex
  {
    if inbox == [] then acks
    else
      var last := inbox[|inbox| - 1];
      var r := AcksAfter(acks, inbox[..|inbox| - 1]);
      assert forall k :: 0 <= k < |inbox| - 1 ==> inbox[..|inbox| - 1][k] == inbox[k];
      r[last.clientIndex := last.msg.sequenceNumber]
  }

  /**
   * Last write wins: the cursor of the sender of the final message is
   * that message's number, whether or not the sender has a player, and a
   * client's own inputs move nobody else.
   */
  lemma LastInputWins(m: map<nat, Player>, acks: map<nat, nat>, inbox: seq<Incoming>, input: Incoming)
    ensures AcksAfter(acks, inbox + [input])[input.clientIndex] == input.msg.sequenceNumber
    ensures input.clientIndex !in m ==> ApplyInputs(m, inbox + [input]) == ApplyInputs(m, inbox)
    ensures forall id :: id in m && id != input.clientIndex ==>
      ApplyInputs(m, inbox + [input])[id] == ApplyInputs(m, inbox)[id]
  {
    assert (inbox + [input])[..|inbox|] == inbox;
  }

  /** Inputs keep the players valid: positions are clamped, and id, size and color stay. */
  lemma {:induction false} ApplyInputsOk(m: map<nat, Player>, inbox: seq<Incoming>)
    requires PlayersOk(m)
    ensures PlayersOk(ApplyInputs(m, inbox))
  {
    if inbox != [] {
      ApplyInputsOk(m, inbox[..|inbox| - 1]);
    }
  }
}
