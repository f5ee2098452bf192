# circ.io core, modelled in Dafny

circ.io is a small multiplayer "eat the smaller circle" game. An
authoritative server runs the world at 60 ticks per second. Players move
towards their input, eat food to grow and eat smaller players, who respawn.
Each tick the server broadcasts a world-state message to every client. A
client predicts its own player from the inputs it sends and reconciles that
prediction when the server acknowledges them. It buffers the other players
in snapshots for interpolation.

This project models the three pieces between the transport and the renderer:

- **Protocol** (`protocol.dfy`): the shared constants, the entity records,
  squared distance, the food-tier table and `CreateFoodItemFromTier`.
- **Codec** (`codec.dfy`): both `Serialize` templates as an encoder and a
  decoder over a stream of fields.
  - Integers are bit fields; floats and doubles are opaque words.
  - Counts and tiers are range-checked, as `serialize_int` checks them.
  - Round trips and rejection of out-of-range counts and tiers are proved.
- **Movement** (`movement.dfy`): the step that both `PredictMovement` and
  the server's input handler take. It normalises the intent, sets the
  velocity to 200 along it, advances by dt and clamps to the world.
- **Prediction** and **Interpolation** (`prediction.dfy`,
  `interpolation.dfy`): the client's bookkeeping as functions. This covers
  the bounded input history, dropping acknowledged inputs, replay as a fold,
  and the bracket search and blend of snapshots.
- **Client** (`game_client.dfy`): `GameClient` as a class whose methods
  change its fields with the client's loops. Each method's contract gives
  its new state in terms of the functions above.
- **Simulation** (`simulation.dfy`): the server's rules as functions.
  - Spawning, the food roll, eating, pairwise combat with deferred respawns.
  - The tick counter, message packing, and applying inputs and acks.
- **Server** (`game_server.dfy`): `GameServer` as a class.
  - Its state is a player map, a 128-slot food array, the ack cursors and
    the tick counter, each changed in place by its methods.
  - Each method is proved to compute its Simulation function.
  - The constructor, `ClientConnected`, `ClientDisconnected`,
    `ReceivePlayerInputMessage`, `HandleGameFood`, `HandlePlayerCollisions`,
    `ProcessMessages`, `Update` and `RunStep` are also proved to keep the
    world well formed (`Valid()`). The helpers they call (`SpawnPlayer`,
    `RespawnPlayer`, `FeedPlayer`, `EatSlot`, `FeedInOrder`, `ScanAllPairs`,
    `ScanRowFrom`, `DuelPair`, `RespawnQueued`, `FillFood`) state only the
    function they compute; the callers obtain `Valid()` from the contracts and lemmas of
    those functions.

Modelling conventions:

- Floating-point quantities are reals.
- The `sqrt` of the normalisation is a rational stand-in (`Magnitude`). It
  is zero exactly for the zero intent and exact along an axis.
- 32-bit counters wrap explicitly where the server relies on them.
- `rand()` is a stream `rand: nat -> nat` whose k-th call returns `rand(k)`.
  The server counts its calls.
- The iteration order of the players' hash map is a sequence of ids that
  enumerates its keys exactly once (`Enumerates`).
- The yojimbo transport is replaced by arguments:
  - delivered messages are sequences passed in;
  - whether a client is connected, and whether a message could be
    allocated, are booleans or sets passed in;
  - the messages sent are return values.

The code's quirks are kept as written and stated as lemmas:

- When the first player of a pair wins a fight it does not grow
  (`DuelAsymmetry`, `FirstWinsDoesNotGrow`).
- The ack cursor is last-write-wins, is written even for a client without
  a player, and survives a disconnect (`LastInputWins`, `ClientDisconnected`).
- The food reach is fixed per player before its food loop
  (`GrazeFixedReach`).
- The client's `Update` copies the newest snapshot instead of
  interpolating (`Client.GameClient.Update`).

## Model

| member | source | states |
|---|---|---|
| Protocol.Vec.DistanceSquared | common/protocol.hpp:40-44 | the squared distance is never negative, and is zero between a position and itself |
| Protocol.DistanceSquaredSymmetric | common/protocol.hpp:40-44 | the squared distance does not depend on the order of the two positions |
| Protocol.TierIndex | common/protocol.hpp:53-57 | a tier's enumerator is at most 2, and mapping it back gives the same tier |
| Protocol.TierOfIndex | common/protocol.hpp:53-57 | an enumerator value names a tier exactly when it is at most 2 |
| Protocol.GetFoodPropertiesFromTier | common/protocol.hpp:71-86 | every tier's color is a 32-bit RGBA word with full alpha, and its value is positive |
| Protocol.TierTableOrdered | common/protocol.hpp:71-86 | a higher tier is worth strictly more and has a different color |
| Protocol.CreateFoodItemFromTier | common/protocol.hpp:88-93 | the item keeps x, y and the tier, and its color and value are the table entry for that tier |
| Protocol.WellMadeDeterminedByTier | common/protocol.hpp:88-93 | two items built from the table with the same position and tier are equal, so sending only position and tier loses nothing |
| Codec.BitsRequired | common/protocol.hpp:159-175 | a range-checked field has the fewest bits that hold max - min |
| Codec.FieldWidths | common/protocol.hpp:146-175 | numPlayers takes 5 bits, numFoodItems 8 bits and a food tier 2 bits |
| Codec.ReadWriteBits | common/protocol.hpp:154-156 | reading back a written bit field gives the value and the rest of the stream |
| Codec.ReadWriteInt | common/protocol.hpp:159 | reading back a written range-checked int gives the value and the rest of the stream |
| Codec.ReadIntRejects | common/protocol.hpp:159-175 | a range-checked field whose bits hold a value above its maximum is rejected |
| Codec.PlayerRoundTrip | common/protocol.hpp:160-168 | decoding an encoded 7-field player record gives the player back and the rest of the stream |
| Codec.FoodRoundTrip | common/protocol.hpp:172-176 | decoding an encoded 3-field food record gives it back and the rest of the stream |
| Codec.FoodRejectsBadTier | common/protocol.hpp:175 | a tier field holding 3 makes the food record fail to decode |
| Codec.PlayersRoundTrip | common/protocol.hpp:160-168 | the numPlayers-times loop of player records round-trips |
| Codec.FoodsRoundTrip | common/protocol.hpp:172-176 | the numFoodItems-times loop of food records round-trips |
| Codec.HeaderRoundTrip | common/protocol.hpp:154-156 | serverTick, timestamp and the ack round-trip in that order |
| Codec.PlayerSectionRoundTrip | common/protocol.hpp:159-168 | numPlayers followed by that many records round-trips for up to MAX_PLAYERS players |
| Codec.PlayerSectionRejectsCount | common/protocol.hpp:159 | a player count of 17 to 31 is rejected |
| Codec.FoodSectionRoundTrip | common/protocol.hpp:171-176 | numFoodItems followed by that many records round-trips for up to MAX_FOOD items |
| Codec.FoodSectionRejectsCount | common/protocol.hpp:171 | a food count of 129 to 255 is rejected |
| Codec.DecodeWorldState | common/protocol.hpp:151-179 | anything the reader accepts is a well-formed message (32-bit words, counts in range) |
| Codec.WorldStateRoundTrip | common/protocol.hpp:151-179 | decoding an encoded well-formed world-state message gives it back and the rest of the stream |
| Codec.WorldStateRejectsPlayerCount | common/protocol.hpp:154-159 | an out-of-range player count after a valid header fails the whole message |
| Codec.WorldStateRejectsFoodCount | common/protocol.hpp:154-171 | an out-of-range food count after a valid header and player section fails the whole message |
| Codec.DecodeInput | common/protocol.hpp:191-198 | anything the input reader accepts has a 32-bit sequence number |
| Codec.InputRoundTrip | common/protocol.hpp:191-198 | the input message (sequence in 32 bits, timestamp, moveX, moveY) round-trips |
| Movement.Magnitude | client/game_client.cpp:207-208 | the normalisation length is never negative, and is zero exactly for the zero intent |
| Movement.MagnitudeAxis | client/game_client.cpp:207 | along one axis the length is the exact absolute value |
| Movement.MagnitudeDiagonal | client/game_client.cpp:207 | off the axes the stand-in differs from sqrt: for (1, 1) it is 17/12, whose square is not 2 |
| Movement.Direction | client/game_client.cpp:207-212 | a zero intent is left at zero |
| Movement.DirectionAlongX | client/game_client.cpp:207-212 | any positive intent along x alone normalises to (1, 0) |
| Movement.Clamp | client/game_client.cpp:221-224 | the two successive ifs leave a coordinate in [0, hi], and leave one already inside unchanged |
| Movement.Advance | client/game_client.cpp:214-224 | the velocity is 200 along the direction, the position ends inside the world, and id, size and color are kept |
| Movement.PredictMovement | client/game_client.cpp:205-225 | from any start and any intent the position ends inside [0, 3200] x [0, 2400], and id, size and color are unchanged |
| Movement.PredictIdle | client/game_client.cpp:205-225 | with no intent the player stops, and a player inside the world stays where it is |
| Movement.PredictAlongX | client/game_client.cpp:205-225 | a rightward intent moves at full speed to the right, stopping at the right edge, with y unchanged |
| Movement.PredictZeroDuration | client/game_client.cpp:218-224 | a step of zero duration leaves an in-world position where it is |
| Prediction.Intent | client/game_client.cpp:165-172 | each axis of the intent is -1, 0 or 1, and the intent is zero exactly when each pair of opposite keys is both held or both released |
| Prediction.KeepNewest | client/game_client.cpp:179-184 | push then pop-front-while-over-capacity keeps exactly min(length, cap) entries, the newest ones in their order |
| Prediction.KeepNewestPush | client/game_client.cpp:179-184 | evicting after every push leaves the same entries as evicting once after all the pushes |
| Prediction.SuffixIncreasing | client/game_client.cpp:181-184 | popping from the front keeps the history strictly increasing |
| Prediction.AppendIncreasing | client/game_client.cpp:176-179 | storing the input numbered one above the counter keeps the history strictly increasing and numbered up to the counter |
| Prediction.KeepNewestKeepsOrder | client/game_client.cpp:181-184 | eviction keeps the history strictly increasing and numbered |
| Prediction.PushKeepsOrder | client/game_client.cpp:176-184 | a stored input followed by eviction keeps the history strictly increasing and all numbers at most m_inputSequence |
| Prediction.DropAcked | client/game_client.cpp:229-232 | the front-popping loop leaves nothing longer than the history, and its front is unacknowledged |
| Prediction.DropAckedSuffix | client/game_client.cpp:229-232 | what the loop leaves is a suffix of the history, and every input it removed was acknowledged |
| Prediction.DropAckedKeepsOrder | client/game_client.cpp:229-232 | reconciling keeps the history strictly increasing and numbered |
| Prediction.Unacked | client/game_client.cpp:229-232 | the reference filter keeps only inputs numbered above the ack |
| Prediction.UnackedAll | client/game_client.cpp:229-232 | a history of unacknowledged inputs passes the filter unchanged |
| Prediction.DropAckedIsUnacked | client/game_client.cpp:229-232 | on an increasing history the front-popping loop removes exactly the acknowledged inputs |
| Prediction.DropAckedExample | client/game_client.cpp:229-232 | inputs 1 to 5 with input 3 acknowledged leave inputs 4 and 5 |
| Prediction.Apply | client/game_client.cpp:236-240 | replaying one stored input ends in the world and keeps id, size and color |
| Prediction.Replay | client/game_client.cpp:234-240 | the replay fold keeps id, size and color, and ends in the world once any input is replayed |
| Prediction.ReplayStep | client/game_client.cpp:237-240 | one more loop iteration applies the next input to the replay so far |
| Prediction.ReplayConcat | client/game_client.cpp:234-240 | replaying two batches equals replaying the first and then the second |
| Prediction.ReconcileMatchesPrediction | client/game_client.cpp:229-240 | when the server applied exactly the acknowledged inputs, resetting and replaying the survivors lands where uninterrupted prediction would |
| Interpolation.FindBracket | client/game_client.cpp:263-272 | the search returns the first i with ts[i] <= target <= ts[i+1], or nothing when no pair brackets the target |
| Interpolation.Factor | client/game_client.cpp:284-290 | the blend factor always lies in [0, 1] |
| Interpolation.FactorInsideBracket | client/game_client.cpp:284-290 | inside a proper bracket the clamp does nothing: t is the elapsed fraction |
| Interpolation.LerpBetween | client/game_client.cpp:301-303 | for t in [0, 1] the blend lies between its two ends, and meets them at t = 0 and t = 1 |
| Interpolation.Blend | client/game_client.cpp:298-303 | a blended player keeps id, velocity and color from the later snapshot |
| Interpolation.Interpolated | client/game_client.cpp:292-311 | the output has exactly the later snapshot's keys, and players missing from the earlier snapshot are copied unblended |
| Interpolation.InterpolateKeys | client/game_client.cpp:258-311 | with no bracket the output is the newest snapshot verbatim; otherwise its keys are those of the later snapshot of the bracket |
| Interpolation.InterpolatedBetween | client/game_client.cpp:284-305 | a blended player's x, y and size each lie between its two snapshot values |
| Interpolation.InterpolateExample | client/game_client.cpp:258-305 | a player at (0, 0) at time 0 and at (100, 0) at time 1 is drawn at (30, 0) for the target time 0.3 |
| Interpolation.InterpolateAfterNewest | client/game_client.cpp:274-281 | a render time after every snapshot gives the newest snapshot verbatim |
| Client.OwnEntry | client/game_client.cpp:121-134 | the client's own entry always becomes the local player; on first sight it also becomes the predicted player, afterwards the history is reconciled |
| Client.OwnEntriesAbsent | client/game_client.cpp:110-139 | a message without the client's id leaves local player, prediction, flag and history alone |
| Client.OwnEntriesOnce | client/game_client.cpp:110-139 | a message carrying the client's id once applies exactly that entry |
| Client.RemotePlayers | client/game_client.cpp:135-138 | the client's own id never goes into the snapshot |
| Client.RemotePlayersContents | client/game_client.cpp:110-139 | the snapshot holds every other id of the message, each filed under its own id and equal to one of the entries sent |
| Client.RemotePlayersDistinct | client/game_client.cpp:135-138 | with distinct ids every remote entry is in the snapshot exactly as sent |
| Client.FoodList | client/game_client.cpp:148-157 | the rebuilt food list has one item per record, with that record's position and tier, and color and value from the table |
| Client.Buffered | client/game_client.cpp:137-146 | after at least one message the buffer is not empty and its newest snapshot is the last message's |
| Client.BufferedIsKeepNewest | client/game_client.cpp:137-146 | pushing message by message with eviction keeps the newest MAX_SNAPSHOTS of the old buffer followed by all the messages' snapshots |
| Client.BufferedFull | client/game_client.cpp:141-146 | after 64 or more messages the buffer holds exactly the snapshots of the newest 64, in order |
| Client.ReconcileOnOwnEntry | client/game_client.cpp:121-134 | a later sight of the client's own entry leaves exactly the unacknowledged inputs and predicts the server's player with them replayed |
| Client.CreateOnOwnEntry | client/game_client.cpp:123-128 | first sight sets the local and the predicted player to the entry and sets the created flag |
| Client.GameClient.constructor | client/game_client.cpp:5-16 | every member starts empty or zero and the client is valid |
| Client.GameClient.CopyPlayers | client/game_client.cpp:86-90 | the clear-and-copy loop makes otherPlayers equal to the snapshot's map |
| Client.GameClient.ReconcileWithServer | client/game_client.cpp:227-241 | the history becomes what DropAcked leaves, the prediction is the server's player with the survivors replayed, and the history stays ordered |
| Client.GameClient.TrimHistory | client/game_client.cpp:181-184 | the eviction loop leaves KeepNewest of the history at capacity 128 |
| Client.GameClient.SendInput | client/game_client.cpp:160-203 | nothing changes without a local player or with a zero intent; otherwise the counter grows by one, the input is stored with eviction, the prediction takes one step, and a message is sent when one is allocated |
| Client.GameClient.ReceiveWorldState | client/game_client.cpp:104-158 | the own entries update the local view, one snapshot without the client's id is pushed with eviction at 64, and the food list is rebuilt from the records |
| Client.GameClient.ReceivePlayers | client/game_client.cpp:110-139 | the player loop applies the own entries in order and builds the remote-player map |
| Client.GameClient.TakeOwnEntry | client/game_client.cpp:121-134 | one own entry creates or reconciles as OwnEntry says |
| Client.GameClient.PushSnapshot | client/game_client.cpp:141-146 | the buffer becomes KeepNewest of the buffer plus the snapshot, at capacity 64 |
| Client.GameClient.RebuildFood | client/game_client.cpp:148-157 | the food loop rebuilds exactly FoodList of the records |
| Client.GameClient.InterpolatePlayerStates | client/game_client.cpp:243-312 | no snapshot changes nothing, one snapshot is copied, and otherwise the render time is the client time less 0.1 and the players are Interpolate of the buffer |
| Client.GameClient.SearchBracket | client/game_client.cpp:263-272 | the search loop returns FindBracket of the buffer |
| Client.GameClient.BlendPlayers | client/game_client.cpp:292-311 | the fill loop makes otherPlayers equal to Interpolated of the pair |
| Client.GameClient.ReceiveAll | client/game_client.cpp:45-67 | draining the delivered messages oldest first: the local view is Drained over them, the buffer is Buffered over them, and the food list is the last message's (unchanged when none arrived) |
| Client.GameClient.FrameInput | client/game_client.cpp:78-81 | without a window, a local player or a non-zero intent nothing changes and nothing is sent; otherwise the counter grows by one, the view becomes Stored of the old view at the current client time, and the message is sent when allocated |
| Client.GameClient.ConnectedFrame | client/game_client.cpp:74-91 | the buffer and food list after the drain; otherPlayers becomes the newest snapshot, the last message's remote players; the input step of SendInput applied to the drained view, or nothing without a window |
| Client.GameClient.Tick | client/game_client.cpp:71 | the client time advances by exactly dt |
| Client.GameClient.Update | client/game_client.cpp:69-102 | the client time advances by dt first, so a sent input carries the advanced time; a disconnected client changes nothing else; a connected one drains, sends and shows as ConnectedFrame, copying the newest snapshot rather than interpolating |
| Simulation.SpawnColor | server/game_server.cpp:179-182 | the packed spawn color is a 32-bit word with alpha byte 0xFF |
| Simulation.SpawnColorChannels | server/game_server.cpp:179-182 | the three drawn channels can be read back from their bytes of the color |
| Simulation.SpawnPosition | server/game_server.cpp:185-186 | a spawn point lies in [0, 3200) x [0, 2400) |
| Simulation.SpawnedPlayer | server/game_server.cpp:177-190 | a spawned player has id = client index, size 10, zero velocity, alpha 0xFF and an in-world position |
| Simulation.Respawned | server/game_server.cpp:295-301 | a respawned player keeps id and color and gets size 10, zero velocity and an in-world position |
| Simulation.TierOfRollBands | server/game_server.cpp:275-284 | roll < 60 gives small, 60 to 89 medium and 90 to 99 large, each as an if-and-only-if |
| Simulation.TierOfRollEdges | server/game_server.cpp:275-284 | the band edges 59/60 and 89/90, and 100 wrapping back to small |
| Simulation.NewFood | server/game_server.cpp:270-287 | CreateFood's item agrees with the tier table, lies in the world, and has the tier of its roll |
| Simulation.InitialFoodOk | server/game_server.cpp:68-71 | the initial 128 slots are well made and in the world |
| Simulation.FoodReachSquared | server/game_server.cpp:254-255 | the squared reach of a player for food is never negative |
| Simulation.GrazeOk | server/game_server.cpp:257-266 | one player's food loop keeps the food well made and in the world, never shrinks the player, and only draws forward |
| Simulation.GrazeOneSlot | server/game_server.cpp:259-264 | a slot out of reach is left alone; a slot in reach grows the player by exactly its value and is replaced by the next CreateFood |
| Simulation.GrazeFixedReach | server/game_server.cpp:254-264 | the reach is fixed before the loop: a player grown from 10 to 11.5 misses an item that the 11.5 reach would cover |
| Simulation.Feed | server/game_server.cpp:252-267 | one player eating keeps the player ids and the number of food slots |
| Simulation.FeedAll | server/game_server.cpp:252-267 | the whole food pass keeps the player ids and the number of food slots |
| Simulation.FeedOk | server/game_server.cpp:252-267 | eating keeps players and food valid; players only grow and nothing else about them changes |
| Simulation.FeedAllOk | server/game_server.cpp:252-267 | FeedOk over every player in the map's order |
| Simulation.Duel | server/game_server.cpp:318-349 | one pair of the scan keeps the set of player ids |
| Simulation.DuelEven | server/game_server.cpp:326-349 | a pair in which neither size exceeds 1.1 times the other is unchanged |
| Simulation.DuelAsymmetry | server/game_server.cpp:330-348 | if the first wins, only the second is queued and nobody grows; if the second wins, it alone grows by half the first's size and the first is queued |
| Simulation.ScanRow | server/game_server.cpp:314-350 | a row of the scan keeps the set of player ids |
| Simulation.ScanRows | server/game_server.cpp:312-351 | the whole scan keeps the set of player ids |
| Simulation.DuelOnlyGrows | server/game_server.cpp:330-348 | a pair moves nobody, shrinks nobody and only appends to the queue |
| Simulation.OnlyGrowsTrans | server/game_server.cpp:312-351 | "moves nobody, shrinks nobody, only appends" composes across steps |
| Simulation.ScanRowOnlyGrows | server/game_server.cpp:314-350 | a row of the scan moves nobody, shrinks nobody and only appends to the queue |
| Simulation.ScanRowsOnlyGrows | server/game_server.cpp:312-351 | nobody is respawned during the scan: the scan only grows players and queues ids |
| Simulation.Respawn | server/game_server.cpp:289-301 | a respawn keeps the ids and the food, and is a no-op without draws for an absent id |
| Simulation.RespawnAll | server/game_server.cpp:353-356 | the deferred respawns keep the ids and the food |
| Simulation.RespawnAllOk | server/game_server.cpp:353-356 | the deferred respawns keep the players valid and only draw forward |
| Simulation.Combat | server/game_server.cpp:308-357 | collisions keep the set of players and the food |
| Simulation.CombatOk | server/game_server.cpp:308-357 | collisions keep the players valid and only draw forward |
| Simulation.FirstWinsDoesNotGrow | server/game_server.cpp:330-338 | size 20 over size 10 at one spot: the second is respawned and the first stays at 20 |
| Simulation.SecondWinsGrows | server/game_server.cpp:339-348 | size 10 under size 20 at one spot: the first is respawned and the second grows to 25 |
| Simulation.NextTick | server/game_server.cpp:91 | the tick counter stays a 32-bit word |
| Simulation.NextTickSteps | server/game_server.cpp:91 | the tick grows by exactly one per Update, wrapping to 0 after 2^32 - 1 |
| Simulation.FoodRecords | server/game_server.cpp:230-236 | one food record per slot |
| Simulation.WorldStateForShape | server/game_server.cpp:207-236 | a message carries at most 16 players in the map's order (all of them when they fit), every food slot, an ack of 0 without a cursor, and is well formed |
| Simulation.Broadcast | server/game_server.cpp:195-246 | messages go only to connected clients with an allocated message, each built for its own client |
| Simulation.BroadcastReaches | server/game_server.cpp:197-205 | a client gets a message exactly when it is connected and its message was allocated |
| Simulation.ApplyInput | server/game_server.cpp:139-175 | an input never adds or removes players |
| Simulation.ApplyInputs | server/game_server.cpp:105-122 | the delivered inputs never add or remove players |
| Simulation.AcksAfter | server/game_server.cpp:141 | after the inputs, the clients with a cursor are the old ones plus every sender |
| Simulation.LastInputWins | server/game_server.cpp:141-146 | the last sender's cursor is its number even without a player; a sender without a player changes nothing; other players never change |
| Simulation.ApplyInputsOk | server/game_server.cpp:159-174 | after inputs every player is inside the world, with id, size and color kept |
| Server.GameServer.constructor | server/game_server.cpp:63-71 | an empty world whose 128 slots are filled by CreateFood in slot order, using 384 draws |
| Server.GameServer.FillFood | server/game_server.cpp:68-71 | the fill loop puts in slot j the CreateFood of draws 3j to 3j + 2, which is InitialFood, using 384 draws |
| Server.GameServer.Rand | server/game_server.cpp:272-275 | one rand() call returns the next outcome of the stream |
| Server.GameServer.CreateFood | server/game_server.cpp:270-287 | CreateFood returns NewFood for its three draws |
| Server.GameServer.SpawnPlayer | server/game_server.cpp:177-193 | the client's entry becomes SpawnedPlayer for the next five draws, replacing any player there |
| Server.GameServer.ClientConnected | server/game_server.cpp:46-51 | connecting spawns the client's player and keeps the world valid |
| Server.GameServer.ClientDisconnected | server/game_server.cpp:53-61 | exactly that key is removed, and the ack cursor is not touched |
| Server.GameServer.ReceivePlayerInputMessage | server/game_server.cpp:139-175 | the cursor is overwritten first; the sender's player, if any, takes the clamped movement step; the world stays valid |
| Server.GameServer.RespawnPlayer | server/game_server.cpp:289-306 | the state becomes Respawn of the state |
| Server.GameServer.FeedPlayer | server/game_server.cpp:252-267 | one outer iteration of HandleGameFood computes Feed |
| Server.GameServer.EatSlot | server/game_server.cpp:259-265 | one inner iteration computes one step of the fold over the food slots |
| Server.GameServer.FeedInOrder | server/game_server.cpp:252-267 | the outer loop computes FeedAll in the map's order |
| Server.GameServer.HandleGameFood | server/game_server.cpp:248-268 | the food pass computes FeedAll and keeps the world valid: 128 slots, sizes never decrease |
| Server.GameServer.DuelPair | server/game_server.cpp:318-349 | one pair of the nested loops computes Duel |
| Server.GameServer.ScanRowFrom | server/game_server.cpp:316-350 | the inner loop computes one row of the scan |
| Server.GameServer.ScanAllPairs | server/game_server.cpp:312-351 | the nested loops visit each pair i < j once and compute ScanRows |
| Server.GameServer.RespawnQueued | server/game_server.cpp:353-356 | the respawn loop computes RespawnAll of the queue |
| Server.GameServer.HandlePlayerCollisions | server/game_server.cpp:308-357 | the scan followed by the deferred respawns computes Combat and keeps the world valid |
| Server.GameServer.PackWorldState | server/game_server.cpp:207-236 | the packing loops with their running count build WorldStateFor the client |
| Server.GameServer.BroadcastWorldState | server/game_server.cpp:195-246 | the loop over client indices produces Broadcast of the current state |
| Server.GameServer.ProcessMessages | server/game_server.cpp:105-137 | the delivered inputs are applied in order and the cursors become AcksAfter |
| Server.GameServer.Update | server/game_server.cpp:89-103 | tick + 1 mod 2^32, timestamp = time, then inputs, food, combat and broadcast in that order, with the world kept valid |
| Server.GameServer.RunStep | server/game_server.cpp:73-86 | when the server time is due, exactly Update's new state, acks and messages, with the timestamp the pre-advance time and the time then advanced by 1/60; otherwise state, acks, tick, timestamp and time are unchanged and nothing is sent |
| Server.BroadcastOnTheWire | server/game_server.cpp:203-238 | every broadcast message is well formed, has at most 16 players and exactly 128 food records, and survives encoding and decoding |

## Left out

- The yojimbo transport is not modelled: connecting, `AdvanceTime`, packets, `CreateMessage`/`SendMessage`/`ReceiveMessage` and the `GameAdapter` callbacks. Delivered messages, the connected clients and allocation success are arguments; sent messages are return values.
- `ProcessMessages` and `ProcessServerMessages` drain the channels as given sequences. The "unknown message type" branch is not modelled, since only one message type reaches each side.
- Rendering, the camera, `RenderGrid`, the window and the `std::cout`/`std::cerr` logging are left out as user interface.
- `IsKeyDown` polling is `Prediction.Intent` over a `Keys` value; `SendInput` and the client's `Update` take the intent it yields.
- Floating point is modelled with reals. Constants such as 1.1f, 0.3f and 1/60 are their exact decimal values, and float rounding is not modelled.
- Movement.Magnitude: replaces `std::sqrt` in the normalisation by two Newton steps from |x| + |y|. It is exact along the axes and zero only for the zero intent, but off the axes it is not the Euclidean length: for (1, 1) it is 17/12, not the square root of 2 (`Movement.MagnitudeDiagonal`). A diagonal intent therefore moves at about 199.65 units per second instead of 200.
- yojimbo's bit packing is abstracted: integers are least-significant-first bit fields, and floats and doubles are opaque words. Message type tags and packet framing are not modelled.
- `rand()` is the stream `GameServer.rand`. Which numbers it yields is not modelled.
- `GameServer::Run`'s wall-clock loop is `RunStep`, which takes the clock reading; `yojimbo_time` and `yojimbo_sleep` are not modelled. Run's initial food fill is done by the constructor.
- The players' hash-map iteration order is a parameter that enumerates the keys; EASTL's bucket order is not modelled.
- `m_worldState.foodItems` is an EASTL `fixed_vector` that the code indexes as 128 slots without growing it. The model uses a 128-slot array, so the vector's `size()` is not modelled.
- Client.GameClient.SendInput: does not model the wrap of the 32-bit `m_inputSequence` after 2^32 - 1 inputs; the counter is a natural number.
- Server.GameServer.ClientConnected: requires a client index below MAX_PLAYERS, which yojimbo guarantees because the server starts with `Start(MAX_PLAYERS)`.
- Client.GameClient.Update: `UpdateCamera` and `Render` are not modelled. `InterpolatePlayerStates` is modelled, but `Update` never calls it, as in the code.
- The client constructor's camera set-up, random client id and connect call are not modelled; it takes the client index the server assigns.
- `Position::distance` (the square-root form) is unused by the core and is not modelled.
- server/main.cpp, client/main.cpp, common/eastl_allocator.cpp and the socket-level tests are not part of this model.
