/**
 * GameServer: the authoritative world. It holds the players in a map
 * keyed by client index, the 128 food slots in a fixed array, each
 * client's acknowledgement cursor and the tick counter, and changes them
 * in place.
 *
 * The yojimbo server is not modelled: which clients are connected and
 * whether a message could be allocated for each are sets passed in, the
 * input messages ProcessMessages would drain are a sequence passed in, and
 * the messages BroadcastWorldState would send are returned. rand() is the
 * stream `rand`: its k-th call returns rand(k), and `randCalls` counts the
 * calls made so far.
 */
module Server {
  import opened Protocol
  import opened Movement
  import opened Simulation
  import Codec

  /** FoodItem(): the value every slot holds before the server fills it. */
  const EMPTY_FOOD: FoodItem := FoodItem(ZERO, Small, 0, 0.3)

  class GameServer {
    /** m_worldState.players */
    var players: map<nat, Player>
    /** m_worldState.foodItems, used as 128 slots */
    const food: array<FoodItem>
    /** m_lastProcessedInput: the newest input sequence number seen from each client */
    var lastProcessedInput: map<nat, nat>
    /** m_worldState.serverTick */
    var serverTick: nat
    /** m_worldState.timestamp */
    var timestamp: real
    /** m_time */
    var time: real
    /** The outcomes of rand(), in call order. */
    const rand: nat -> nat
    /** How many times rand() has been called. */
    var randCalls: nat

    /**
     * The world is well formed: 128 food slots that agree with the tier
     * table and lie in the world, players filed under their own client
     * index, in the world and at least spawn-sized, and every counter and
     * cursor a 32-bit word.
     */
    ghost predicate Valid()
      reads this, food
    {
      && food.Length == MAX_FOOD
      && IsUint32(serverTick)
      && PlayersOk(players)
      && FoodOk(food[..])
      && (forall c :: c in lastProcessedInput ==> IsUint32(lastProcessedInput[c]))
    }

    /** The part of the state the game rules change. */
    ghost function State(): World
      reads this, food
    {
      World(players, food[..], randCalls)
    }

    /**
     * The server as Run finds it: an empty world, time set to the clock's
     * start, and every food slot filled by CreateFood in slot order.
     */
    constructor(startTime: real, rand: nat -> nat)
      ensures Valid() && fresh(food)
      ensures players == map[] && lastProcessedInput == map[]
      ensures serverTick == 0 && timestamp == 0.0 && time == startTime && this.rand == rand
      ensures food[..] == InitialFood(rand, MAX_FOOD) && randCalls == 3 * MAX_FOOD
    {
      players := map[];
      lastProcessedInput := map[];
      serverTick := 0;
      timestamp := 0.0;
      time := startTime;
      this.rand := rand;
      randCalls := 0;
      food := new FoodItem[MAX_FOOD](_ => EMPTY_FOOD);
      new;
      FillFood();
      InitialFoodOk(rand, MAX_FOOD);
    }

    /** Run's fill of the food array: slot j gets CreateFood with draws 3j, 3j + 1 and 3j + 2. */
    method FillFood()
      requires food.Length == MAX_FOOD && randCalls == 0
      modifies this`randCalls, food
      ensures food[..] == InitialFood(rand, MAX_FOOD) && randCalls == 3 * MAX_FOOD
    {
      var j := 0;
      while j < MAX_FOOD
        invariant 0 <= j <= MAX_FOOD
        invariant randCalls == 3 * j
        invariant forall i :: 0 <= i < j ==> food[i] == NewFood(rand, 3 * i)
      {
        var f := CreateFood();
        food[j] := f;
        j := j + 1;
      }
      assert food[..] == InitialFood(rand, MAX_FOOD);
    }

    /** One call of rand(). */
    method Rand() returns (r: nat)
      modifies this`randCalls
      ensures r == rand(old(randCalls)) && randCalls == old(randCalls) + 1
    {
      r := rand(randCalls);
      randCalls := randCalls + 1;
    }

    /** CreateFood: a spot in the world, then a tier from a roll out of 100. */
    method CreateFood() returns (f: FoodItem)
      modifies this`randCalls
      ensures f == NewFood(rand, old(randCalls)) && randCalls == old(randCalls) + 3
    {
      var x := Rand();
      var y := Rand();
      var roll := Rand();
      roll := roll % 100;
      var tier: FoodTier;
      if roll < 60 {
        tier := Small;
      } else if roll < 90 {
        tier := Medium;
      } else {
        tier := Large;
      }
      f := CreateFoodItemFromTier((x % WORLD_WIDTH) as real, (y % WORLD_HEIGHT) as real, tier);
    }

    /**
     * SpawnPlayer: a random color with a full alpha byte, a random spot in
     * the world, spawn size and zero velocity, stored under the client
     * index (replacing any player already there).
     */
    method SpawnPlayer(clientIndex: nat)
      modifies this`players, this`randCalls
      ensures players == old(players)[clientIndex := SpawnedPlayer(clientIndex, rand, old(randCalls))]
      ensures randCalls == old(randCalls) + 5
    {
      var r := Rand();
      var g := Rand();
      var b := Rand();
      var color := (r % 256) * 0x100_0000 + (g % 256) * 0x1_0000 + (b % 256) * 0x100 + 0xFF;
      var x := Rand();
      var y := Rand();
      var player := Player(clientIndex, Vec((x % WORLD_WIDTH) as real, (y % WORLD_HEIGHT) as real),
                           ZERO, SPAWN_SIZE, color);
      assert player == Player(clientIndex, SpawnPosition(x, y), ZERO, SPAWN_SIZE, SpawnColor(r, g, b));
      players := players[clientIndex := player];
    }

    /** ClientConnected: spawn the new client's player. */
    method ClientConnected(clientIndex: nat)
      requires Valid() && clientIndex < MAX_PLAYERS
      modifies this`players, this`randCalls
      ensures Valid()
      ensures players == old(players)[clientIndex := SpawnedPlayer(clientIndex, rand, old(randCalls))]
      ensures randCalls == old(randCalls) + 5
    {
      SpawnPlayer(clientIndex);
    }

    /**
     * ClientDisconnected: erase the client's player and no other. The ack
     * cursor is not touched, so it survives a reconnect.
     */
    method ClientDisconnected(clientIndex: nat)
      requires Valid()
      modifies this`players
      ensures Valid()
      ensures players == old(players) - {clientIndex}
    {
      players := players - {clientIndex};
    }

    /**
     * ReceivePlayerInputMessage: the sender's cursor is overwritten with
     * the message's number first, even when the sender has no player; then
     * the sender's player, if any, takes one step: the intent normalised,
     * velocity 200 along it, position advanced by 1/60 s and clamped to
     * the world.
     */
    method ReceivePlayerInputMessage(clientIndex: nat, msg: InputMessage)
      requires Valid() && msg.WellFormed()
      modifies this`lastProcessedInput, this`players
      ensures Valid()
      ensures lastProcessedInput == old(lastProcessedInput)[clientIndex := msg.sequenceNumber]
      ensures players == ApplyInput(old(players), Incoming(clientIndex, msg))
    {
      lastProcessedInput := lastProcessedInput[clientIndex := msg.sequenceNumber];
      if clientIndex !in players {
        return;
      }
      var moveX := msg.moveX;
      var moveY := msg.moveY;
      var length := Magnitude(moveX, moveY);
      if length > 0.0 {
        moveX := moveX / length;
        moveY := moveY / length;
      }
      var p := players[clientIndex];
      var velocity := Vec(moveX * MOVE_SPEED, moveY * MOVE_SPEED);
      var x := p.position.x + velocity.x * INPUT_DT;
      var y := p.position.y + velocity.y * INPUT_DT;
      if x < 0.0 {
        x := 0.0;
      }
      if x > WORLD_WIDTH as real {
        x := WORLD_WIDTH as real;
      }
      if y < 0.0 {
        y := 0.0;
      }
      if y > WORLD_HEIGHT as real {
        y := WORLD_HEIGHT as real;
      }
      assert Vec(moveX, moveY) == Direction(msg.moveX, msg.moveY);
      players := players[clientIndex := p.(position := Vec(x, y), velocity := velocity)];
    }

    /**
     * RespawnPlayer: nothing for an id without a player; otherwise a new
     * random spot, zero velocity and spawn size, keeping id and color.
     */
    method RespawnPlayer(playerId: nat)
      modifies this`players, this`randCalls
      ensures State() == Respawn(old(State()), playerId, rand)
    {
      if playerId !in players {
        return;
      }
      var player := players[playerId];
      var x := Rand();
      var y := Rand();
      player := player.(position := Vec((x % WORLD_WIDTH) as real, (y % WORLD_HEIGHT) as real),
                        velocity := ZERO, size := SPAWN_SIZE);
      players := players[playerId := player];
    }

    /**
     * One iteration of HandleGameFood's outer loop: the squared reach is
     * fixed from the player's size before the scan of the 128 slots; every
     * slot strictly inside it grows the player by its value and is
     * replaced by CreateFood.
     */
    method FeedPlayer(id: nat)
      requires id in players && food.Length == MAX_FOOD
      modifies this`players, this`randCalls, food
      ensures State() == Feed(old(State()), id, rand)
    {
      ghost var w := State();
      var player := players[id];
      var collisionRadius := player.size / 2.0 + FOOD_SIZE / 2.0;
      var reach2 := collisionRadius * collisionRadius;
      assert reach2 == FoodReachSquared(player.size);
      assert players == w.players[id := player.(size := player.size)];
      var j := 0;
      while j < MAX_FOOD
        invariant 0 <= j <= MAX_FOOD
        invariant var m := Graze(player.position, reach2, player.size, w.food, rand, w.calls, j);
          players == w.players[id := player.(size := m.size)] && food[..] == m.food && randCalls == m.calls
      {
        EatSlot(id, player.position, reach2, j);
        j := j + 1;
      }
    }

    /** The body of HandleGameFood's inner loop for slot j. */
    method EatSlot(id: nat, pos: Vec, reach2: real, j: nat)
      requires id in players && j < food.Length
      modifies this`players, this`randCalls, food
      ensures var b := Bite(Meal(old(players)[id].size, old(food[..]), old(randCalls)), pos, reach2, rand, j);
        players == old(players)[id := old(players)[id].(size := b.size)] && food[..] == b.food && randCalls == b.calls
    {
      if food[j].position.DistanceSquared(pos) < reach2 {
        var growthAmount := food[j].value;
        players := players[id := players[id].(size := players[id].size + growthAmount)];
        var f := CreateFood();
        food[j] := f;
      }
    }

    /**
     * HandleGameFood: every player, in the map's order, eats the food in
     * its reach. The food count never changes and nobody shrinks.
     */
    method HandleGameFood(order: seq<nat>)
      requires Valid() && Enumerates(order, players)
      modifies this`players, this`randCalls, food
      ensures Valid()
      ensures State() == FeedAll(old(State()), order, rand)
    {
      ghost var w0 := State();
      FeedInOrder(order);
      FeedAllOk(w0, order, rand);
    }

    /** HandleGameFood's outer loop: each player in the map's order eats in turn. */
    method FeedInOrder(order: seq<nat>)
      requires food.Length == MAX_FOOD && forall c :: 0 <= c < |order| ==> order[c] in players
      modifies this`players, this`randCalls, food
      ensures State() == FeedAll(old(State()), order, rand)
    {
      ghost var w0 := State();
      var i := 0;
      while i < |order|
        invariant 0 <= i <= |order|
        invariant State() == FeedAll(w0, order[..i], rand)
      {
        assert order[..i + 1][..i] == order[..i];
        FeedPlayer(order[i]);
        i := i + 1;
      }
      assert order[..i] == order;
    }

    /**
     * HandlePlayerCollisions: every pair (it1 before it2 in the map's
     * order) is checked once; the loser of a fight is queued, and the
     * queue is respawned only after the scan.
     */
    method HandlePlayerCollisions(order: seq<nat>)
      requires Valid() && Enumerates(order, players)
      modifies this`players, this`randCalls
      ensures Valid()
      ensures State() == Combat(old(State()), order, rand)
    {
      ghost var w0 := State();
      var playersToRespawn := ScanAllPairs(order);
      ghost var f := ScanRows(Fight(w0.players, []), order, |order|);
      assert State() == World(f.players, w0.food, w0.calls);
      RespawnQueued(playersToRespawn);
      assert State() == Combat(w0, order, rand);
      CombatOk(w0, order, rand);
    }

    /** The scan of HandlePlayerCollisions: every pair i < j of the map's order, row by row. */
    method ScanAllPairs(order: seq<nat>) returns (playersToRespawn: seq<nat>)
      requires forall c :: 0 <= c < |order| ==> order[c] in players
      modifies this`players
      ensures Fight(players, playersToRespawn) == ScanRows(Fight(old(players), []), order, |order|)
    {
      ghost var f0 := Fight(players, []);
      playersToRespawn := [];
      var i := 0;
      while i < |order|
        invariant 0 <= i <= |order|
        invariant Fight(players, playersToRespawn) == ScanRows(f0, order, i)
        invariant players.Keys == f0.players.Keys
      {
        playersToRespawn := ScanRowFrom(order, i, playersToRespawn);
        i := i + 1;
      }
    }

    /** Row i of HandlePlayerCollisions' scan: order[i] against every later player. */
    method ScanRowFrom(order: seq<nat>, i: nat, queue: seq<nat>) returns (queue': seq<nat>)
      requires i < |order| && forall c :: 0 <= c < |order| ==> order[c] in players
      modifies this`players
      ensures Fight(players, queue') == ScanRow(Fight(old(players), queue), order, i, |order|)
    {
      ghost var f := Fight(players, queue);
      queue' := queue;
      var j := i + 1;
      while j < |order|
        invariant i + 1 <= j <= |order|
        invariant Fight(players, queue') == ScanRow(f, order, i, j)
      {
        queue' := DuelPair(order[i], order[j], queue');
        j := j + 1;
      }
    }

    /**
     * One pair of the scan: when the two overlap, the first eats the second
     * if it is more than 1.1 times its size (and does not grow); otherwise
     * the second eats the first if it is more than 1.1 times its size and
     * grows by half of it. The eaten id is queued for respawn.
     */
    method DuelPair(a: nat, b: nat, queue: seq<nat>) returns (queue': seq<nat>)
      requires a in players && b in players
      modifies this`players
      ensures Fight(players, queue') == Duel(Fight(old(players), queue), a, b)
    {
      queue' := queue;
      var player1 := players[a];
      var player2 := players[b];
      var distSquared := player1.position.DistanceSquared(player2.position);
      var collisionRadius := (player1.size + player2.size) / 2.0;
      if distSquared < collisionRadius * collisionRadius {
        if player1.size > player2.size * SIZE_ADVANTAGE {
          queue' := queue' + [player2.id];
        } else if player2.size > player1.size * SIZE_ADVANTAGE {
          var growthAmount := player1.size * 0.5;
          players := players[b := player2.(size := player2.size + growthAmount)];
          queue' := queue' + [player1.id];
        }
      }
    }

    /** The respawn loop after the scan, in queue order. */
    method RespawnQueued(queue: seq<nat>)
      modifies this`players, this`randCalls
      ensures State() == RespawnAll(old(State()), queue, rand)
    {
      ghost var scanned := State();
      var k := 0;
      while k < |queue|
        invariant 0 <= k <= |queue|
        invariant State() == RespawnAll(scanned, queue[..k], rand)
      {
        assert queue[..k + 1][..k] == queue[..k];
        RespawnPlayer(queue[k]);
        k := k + 1;
      }
      assert queue[..k] == queue;
    }

    /**
     * The message for one client: header fields, the players in the map's
     * order with the count stopping at MAX_PLAYERS, and all 128 food slots.
     */
    method PackWorldState(clientIndex: nat, order: seq<nat>) returns (msg: WorldStateMessage)
      requires Valid() && Enumerates(order, players)
      ensures msg == WorldStateFor(State(), order, serverTick, timestamp, lastProcessedInput, clientIndex)
    {
      var ack := if clientIndex in lastProcessedInput then lastProcessedInput[clientIndex] else 0;
      var ps: seq<Player> := [];
      var i := 0;
      while i < |order|
        invariant 0 <= i <= |order| && i <= MAX_PLAYERS && |ps| == i
        invariant forall k :: 0 <= k < i ==> ps[k] == players[order[k]]
      {
        if |ps| >= MAX_PLAYERS {
          break;
        }
        ps := ps + [players[order[i]]];
        i := i + 1;
      }
      assert ps == PackPlayers(players, order);

      var records: seq<FoodRecord> := [];
      var j := 0;
      while j < MAX_FOOD
        invariant 0 <= j <= MAX_FOOD && |records| == j
        invariant forall k :: 0 <= k < j ==>
          records[k] == FoodRecord(food[k].position.x, food[k].position.y, food[k].tier)
      {
        records := records + [FoodRecord(food[j].position.x, food[j].position.y, food[j].tier)];
        j := j + 1;
      }
      assert records == FoodRecords(food[..]);
      msg := WorldStateMessage(serverTick, timestamp, ack, ps, records);
    }

    /**
     * BroadcastWorldState: for each client index below MAX_PLAYERS, a
     * message to every connected client for which one could be allocated.
     */
    method BroadcastWorldState(connected: set<nat>, allocOk: set<nat>, order: seq<nat>)
      returns (out: seq<Outgoing>)
      requires Valid() && Enumerates(order, players)
      ensures out == Broadcast(State(), order, serverTick, timestamp, lastProcessedInput,
                               connected, allocOk, MAX_PLAYERS)
    {
      out := [];
      var clientIndex := 0;
      while clientIndex < MAX_PLAYERS
        invariant 0 <= clientIndex <= MAX_PLAYERS
        invariant out == Broadcast(State(), order, serverTick, timestamp, lastProcessedInput,
                                   connected, allocOk, clientIndex)
      {
        if clientIndex in connected && clientIndex in allocOk {
          var msg := PackWorldState(clientIndex, order);
          out := out + [Outgoing(clientIndex, msg)];
        }
        clientIndex := clientIndex + 1;
      }
    }

    /**
     * Update: advance the tick (wrapping at 2^32), stamp it with the
     * server time, apply the delivered inputs in order, let the players eat
     * and fight, then broadcast the result.
     */
    method Update(inbox: seq<Incoming>, order: seq<nat>, connected: set<nat>, allocOk: set<nat>)
      returns (out: seq<Outgoing>)
      requires Valid() && Enumerates(order, players)
      requires forall k :: 0 <= k < |inbox| ==> inbox[k].msg.WellFormed()
      modifies this, food
      ensures Valid()
      ensures serverTick == NextTick(old(serverTick)) && timestamp == time && time == old(time)
      ensures lastProcessedInput == AcksAfter(old(lastProcessedInput), inbox)
      ensures players.Keys == old(players).Keys
      ensures State() == Combat(FeedAll(World(ApplyInputs(old(players), inbox), old(food[..]), old(randCalls)),
                                        order, rand),
                                order, rand)
      ensures out == Broadcast(State(), order, serverTick, timestamp, lastProcessedInput,
                               connected, allocOk, MAX_PLAYERS)
    {
      serverTick := NextTick(serverTick);
      timestamp := time;
      ProcessMessages(inbox);
      assert Enumerates(order, players);
      ghost var fed := FeedAll(State(), order, rand);
      HandleGameFood(order);
      assert State() == fed;
      HandlePlayerCollisions(order);
      out := BroadcastWorldState(connected, allocOk, order);
    }

    /** Update's first step: each delivered input, in delivery order. */
    method ProcessMessages(inbox: seq<Incoming>)
      requires Valid()
      requires forall k :: 0 <= k < |inbox| ==> inbox[k].msg.WellFormed()
      modifies this`lastProcessedInput, this`players
      ensures Valid()
      ensures players == ApplyInputs(old(players), inbox)
      ensures lastProcessedInput == AcksAfter(old(lastProcessedInput), inbox)
    {
      var k := 0;
      while k < |inbox|
        invariant 0 <= k <= |inbox|
        invariant Valid()
        invariant players == ApplyInputs(old(players), inbox[..k])
        invariant lastProcessedInput == AcksAfter(old(lastProcessedInput), inbox[..k])
      {
        assert inbox[..k + 1][..k] == inbox[..k];
        ReceivePlayerInputMessage(inbox[k].clientIndex, inbox[k].msg);
        k := k + 1;
      }
      assert inbox[..k] == inbox;
    }

    /**
     * One pass of Run's loop with the clock reading now: when the server
     * time is due, one Update and the time advanced by one tick; otherwise
     * nothing (Run sleeps).
     */
    method RunStep(now: real, inbox: seq<Incoming>, order: seq<nat>, connected: set<nat>, allocOk: set<nat>)
      returns (out: seq<Outgoing>)
      requires Valid() && Enumerates(order, players)
      requires forall k :: 0 <= k < |inbox| ==> inbox[k].msg.WellFormed()
      modifies this, food
      ensures Valid()
      ensures old(time) <= now ==>
        && time == old(time) + TICK_RATE && serverTick == NextTick(old(serverTick)) && timestamp == old(time)
        && lastProcessedInput == AcksAfter(old(lastProcessedInput), inbox)
        && State() == Combat(FeedAll(World(ApplyInputs(old(players), inbox), old(food[..]), old(randCalls)),
                                     order, rand),
                             order, rand)
        && out == Broadcast(State(), order, serverTick, timestamp, lastProcessedInput,
                            connected, allocOk, MAX_PLAYERS)
      ensures old(time) > now ==>
        && out == [] && time == old(time) && serverTick == old(serverTick) && timestamp == old(timestamp)
        && State() == old(State()) && lastProcessedInput == old(lastProcessedInput)
    {
      if time <= now {
        out := Update(inbox, order, connected, allocOk);
        time := time + TICK_RATE;
      } else {
        out := [];
      }
    }
  }

  /**
   * Every message a valid server broadcasts is well formed, carries at
   * most MAX_PLAYERS players and exactly MAX_FOOD food records, and
   * survives the wire: decoding its encoding gives it back.
   */
  lemma BroadcastOnTheWire(w: World, order: seq<nat>, tick: nat, timestamp: real, acks: map<nat, nat>,
                           connected: set<nat>, allocOk: set<nat>, rest: Codec.Stream)
    requires PlayersOk(w.players) && |w.food| == MAX_FOOD && IsUint32(tick)
    requires forall c :: c in acks ==> IsUint32(acks[c])
    requires forall c :: 0 <= c < |order| ==> order[c] in w.players
    ensures var out := Broadcast(w, order, tick, timestamp, acks, connected, allocOk, MAX_PLAYERS);
      forall k :: 0 <= k < |out| ==>
        && out[k].msg.WellFormed()
        && |out[k].msg.players| <= MAX_PLAYERS && |out[k].msg.food| == MAX_FOOD
        && Codec.DecodeWorldState(Codec.EncodeWorldState(out[k].msg) + rest) == Some(Codec.Read(out[k].msg, rest))
  {
    var out := Broadcast(w, order, tick, timestamp, acks, connected, allocOk, MAX_PLAYERS);
    forall k | 0 <= k < |out|
      ensures && out[k].msg.WellFormed()
              && |out[k].msg.players| <= MAX_PLAYERS && |out[k].msg.food| == MAX_FOOD
              && Codec.DecodeWorldState(Codec.EncodeWorldState(out[k].msg) + rest)
                 == Some(Codec.Read(out[k].msg, rest))
    {
      var c := out[k].clientIndex;
      WorldStateForShape(w, order, tick, timestamp, acks, c);
      Codec.WorldStateRoundTrip(out[k].msg, rest);
    }
  }
}
