/**
 * GameClient: client-side prediction, reconciliation with the server,
 * snapshot buffering and interpolation of the remote players.
 *
 * The yojimbo client is not modelled: the client index it assigns is a
 * constant of the object, world-state messages are method arguments in
 * the order ProcessServerMessages would deliver them, whether the
 * connection is up and whether a message could be allocated are boolean
 * arguments, and the keys IsKeyDown reports are a Keys value.
 */
module Client {
  import opened Protocol
  import opened Movement
  import opened Prediction
  import opened Interpolation

  /** The part of the client a world-state entry for the local player touches. */
  datatype LocalView = LocalView(local: Player, predicted: Player, created: bool, history: seq<StoredInput>)

  /**
   * One entry for the local player: the first one creates the local and the
   * predicted player; every later one sets the local player and reconciles.
   */
  function OwnEntry(v: LocalView, p: Player, ack: nat): (w: LocalView)
    ensures w.local == p && w.created
    ensures !v.created ==> w.predicted == p && w.history == v.history
    ensures v.created ==> w.history == DropAcked(v.history, ack)
  {
    if !v.created then LocalView(p, p, true, v.history)
    else
      var survivors := DropAcked(v.history, ack);
      LocalView(p, Replay(p, survivors), true, survivors)
  }

  /** The entries of ps that carry the client's own id, applied in order. */
  function OwnEntries(v: LocalView, ps: seq<Player>, me: nat, ack: nat): (w: LocalView)
  {
    if ps == [] then v
    else
      var w := OwnEntries(v, ps[..|ps| - 1], me, ack);
      if ps[|ps| - 1].id == me then OwnEntry(w, ps[|ps| - 1], ack) else w
  }

  /** A message without the client's own id leaves the local view alone. */
  lemma {:induction false} OwnEntriesAbsent(v: LocalView, ps: seq<Player>, me: nat, ack: nat)
    requires forall i :: 0 <= i < |ps| ==> ps[i].id != me
    ensures OwnEntries(v, ps, me, ack) == v
  {
    if ps != [] {
      OwnEntriesAbsent(v, ps[..|ps| - 1], me, ack);
    }
  }

  /**
   * A message that carries the client's own id once, at index k, applies
   * exactly that entry: first sight creates, later sights reconcile.
   */
  lemma {:induction false} OwnEntriesOnce(v: LocalView, ps: seq<Player>, me: nat, ack: nat, k: nat)
    requires k < |ps| && ps[k].id == me
    requires forall i :: 0 <= i < |ps| && i != k ==> ps[i].id != me
    ensures OwnEntries(v, ps, me, ack) == OwnEntry(v, ps[k], ack)
  {
    var n := |ps| - 1;
    if k == n {
      OwnEntriesAbsent(v, ps[..n], me, ack);
    } else {
      OwnEntriesOnce(v, ps[..n], me, ack, k);
    }
  }

  /**
   * The snapshot map of a message: every entry whose id is not the client's
   * own, keyed by id, a later entry with the same id replacing an earlier one.
   */
  function RemotePlayers(ps: seq<Player>, me: nat): (m: map<nat, Player>)
    ensures me !in m
  {
    if ps == [] then map[]
    else
      var p := ps[|ps| - 1];
      var m := RemotePlayers(ps[..|ps| - 1], me);
      if p.id != me then m[p.id := p] else m
  }

  /**
   * The snapshot map holds exactly the remote ids of the message, each
   * under its own id and each one of the entries sent.
   */
  lemma {:induction false} RemotePlayersContents(ps: seq<Player>, me: nat)
    ensures forall id :: id in RemotePlayers(ps, me) ==> RemotePlayers(ps, me)[id].id == id
    ensures forall i :: 0 <= i < |ps| && ps[i].id != me ==> ps[i].id in RemotePlayers(ps, me)
    ensures forall id :: id in RemotePlayers(ps, me) ==>
      exists i :: 0 <= i < |ps| && ps[i] == RemotePlayers(ps, me)[id]
  {
    if ps != [] {
      var n := |ps| - 1;
      RemotePlayersContents(ps[..n], me);
      assert forall i :: 0 <= i < n ==> ps[..n][i] == ps[i];
    }
  }

  /** With distinct ids every remote entry is in the snapshot exactly as sent. */
  lemma {:induction false} RemotePlayersDistinct(ps: seq<Player>, me: nat, k: nat)
    requires forall i, j :: 0 <= i < j < |ps| ==> ps[i].id != ps[j].id
    requires k < |ps| && ps[k].id != me
    ensures ps[k].id in RemotePlayers(ps, me) && RemotePlayers(ps, me)[ps[k].id] == ps[k]
  {
    var n := |ps| - 1;
    if k < n {
      RemotePlayersDistinct(ps[..n], me, k);
    }
  }

  /** The food list ReceiveWorldState rebuilds: one item per record, from the tier table. */
  function FoodList(fs: seq<FoodRecord>): (items: seq<FoodItem>)
    ensures |items| == |fs|
    ensures forall i :: 0 <= i < |fs| ==>
      WellMade(items[i]) && items[i].tier == fs[i].tier && items[i].position == Vec(fs[i].x, fs[i].y)
  {
    seq(|fs|, i requires 0 <= i < |fs| => CreateFoodItemFromTier(fs[i].x, fs[i].y, fs[i].tier))
  }

  /** The snapshot ReceiveWorldState files for a message: its tick, its timestamp, the remote players. */
  function SnapshotOf(msg: WorldStateMessage, me: nat): Snapshot {
    Snapshot(msg.serverTick, msg.timestamp, RemotePlayers(msg.players, me))
  }

  /** The snapshots of a run of messages, one per message, in order. */
  function Snapshots(inbox: seq<WorldStateMessage>, me: nat): (s: seq<Snapshot>)
    ensures |s| == |inbox|
  {
    seq(|inbox|, i requires 0 <= i < |inbox| => SnapshotOf(inbox[i], me))
  }

  /** The local view after the own entries of every delivered message, oldest message first. */
  function Drained(v: LocalView, inbox: seq<WorldStateMessage>, me: nat): LocalView {
    if inbox == [] then v
    else
      var msg := inbox[|inbox| - 1];
      OwnEntries(Drained(v, inbox[..|inbox| - 1], me), msg.players, me, msg.lastProcessedInputSeq)
  }

  /**
   * The snapshot buffer after one push (with eviction beyond MAX_SNAPSHOTS)
   * per delivered message: never empty after a message, and its newest
   * snapshot is the last message's.
   */
  function Buffered(b: seq<Snapshot>, inbox: seq<WorldStateMessage>, me: nat): (r: seq<Snapshot>)
    ensures inbox != [] ==> |r| > 0 && r[|r| - 1] == SnapshotOf(inbox[|inbox| - 1], me)
  {
    if inbox == [] then b
    else KeepNewest(Buffered(b, inbox[..|inbox| - 1], me) + [SnapshotOf(inbox[|inbox| - 1], me)], MAX_SNAPSHOTS)
  }

  /** One more message of the drain, as ReceiveAll's loop takes it. */
  lemma DrainedStep(v: LocalView, inbox: seq<WorldStateMessage>, k: nat, me: nat)
    requires k < |inbox|
    ensures Drained(v, inbox[..k + 1], me)
      == OwnEntries(Drained(v, inbox[..k], me), inbox[k].players, me, inbox[k].lastProcessedInputSeq)
  {
    assert inbox[..k + 1][..k] == inbox[..k];
  }

  /** One more push of the drain, as ReceiveAll's loop takes it. */
  lemma BufferedStep(b: seq<Snapshot>, inbox: seq<WorldStateMessage>, k: nat, me: nat)
    requires k < |inbox|
    ensures Buffered(b, inbox[..k + 1], me)
      == KeepNewest(Buffered(b, inbox[..k], me) + [SnapshotOf(inbox[k], me)], MAX_SNAPSHOTS)
  {
    assert inbox[..k + 1][..k] == inbox[..k];
  }

  /**
   * Pushing one message at a time, each push evicting, keeps exactly the
   * newest MAX_SNAPSHOTS of the old buffer followed by every message's
   * snapshot.
   */
  lemma {:induction false} BufferedIsKeepNewest(b: seq<Snapshot>, inbox: seq<WorldStateMessage>, me: nat)
    requires |b| <= MAX_SNAPSHOTS
    ensures Buffered(b, inbox, me) == KeepNewest(b + Snapshots(inbox, me), MAX_SNAPSHOTS)
  {
    if inbox == [] {
      assert b + Snapshots(inbox, me) == b;
    } else {
      var n := |inbox| - 1;
      var q := b + Snapshots(inbox[..n], me);
      var x := SnapshotOf(inbox[n], me);
      BufferedIsKeepNewest(b, inbox[..n], me);
      assert Buffered(b, inbox, me) == KeepNewest(KeepNewest(q, MAX_SNAPSHOTS) + [x], MAX_SNAPSHOTS);
      KeepNewestPush(q, x, MAX_SNAPSHOTS);
      SnapshotsSnoc(inbox, me);
      assert b + Snapshots(inbox, me) == q + [x];
    }
  }

  /** The snapshots of a run of messages end with the last message's; a step of BufferedIsKeepNewest. */
  lemma SnapshotsSnoc(inbox: seq<WorldStateMessage>, me: nat)
    requires inbox != []
    ensures Snapshots(inbox, me) == Snapshots(inbox[..|inbox| - 1], me) + [SnapshotOf(inbox[|inbox| - 1], me)]
  {
    var n := |inbox| - 1;
    assert forall i :: 0 <= i < n ==> inbox[..n][i] == inbox[i];
  }

  /** After MAX_SNAPSHOTS or more messages the buffer holds exactly the snapshots of the newest of them. */
  lemma BufferedFull(b: seq<Snapshot>, inbox: seq<WorldStateMessage>, me: nat)
    requires |b| <= MAX_SNAPSHOTS && |inbox| >= MAX_SNAPSHOTS
    ensures Buffered(b, inbox, me) == Snapshots(inbox[|inbox| - MAX_SNAPSHOTS..], me)
  {
    BufferedIsKeepNewest(b, inbox, me);
    var q := b + Snapshots(inbox, me);
    var r := Snapshots(inbox[|inbox| - MAX_SNAPSHOTS..], me);
    assert forall i :: 0 <= i < MAX_SNAPSHOTS ==> q[|q| - MAX_SNAPSHOTS..][i] == r[i];
  }

  /**
   * SendInput's effect on the local view when it stores the input numbered
   * seqNo, taken at time t: the prediction takes one step and the input
   * joins the history, the oldest evicted beyond MAX_INPUT_HISTORY.
   */
  function Stored(v: LocalView, seqNo: nat, t: real, moveX: real, moveY: real): LocalView {
    LocalView(v.local, PredictMovement(v.predicted, moveX, moveY, INPUT_DT), v.created,
              KeepNewest(v.history + [StoredInput(seqNo, t, moveX, moveY)], MAX_INPUT_HISTORY))
  }

  class GameClient {
    /** m_client.GetClientIndex() once connected. */
    const clientIndex: nat

    var localPlayer: Player
    var predictedPlayer: Player
    var isLocalPlayerCreated: bool
    var otherPlayers: map<nat, Player>
    var foodItems: seq<FoodItem>
    var inputSequence: nat
    var inputHistory: seq<StoredInput>
    var clientTime: real
    var snapshotBuffer: seq<Snapshot>
    var interpolationTime: real

    /**
     * The bounded buffers stay within their capacities, the input history
     * is increasing and numbered by the inputs sent so far, no snapshot
     * holds the local player, and every food item agrees with its tier.
     */
    ghost predicate Valid()
      reads this`inputHistory, this`inputSequence, this`snapshotBuffer, this`foodItems
    {
      && |inputHistory| <= MAX_INPUT_HISTORY
      && StrictlyIncreasing(inputHistory)
      && NumberedUpTo(inputHistory, inputSequence)
      && |snapshotBuffer| <= MAX_SNAPSHOTS
      && (forall i :: 0 <= i < |snapshotBuffer| ==> clientIndex !in snapshotBuffer[i].players)
      && (forall i :: 0 <= i < |foodItems| ==> WellMade(foodItems[i]))
    }

    ghost function View(): LocalView
      reads this`localPlayer, this`predictedPlayer, this`isLocalPlayerCreated, this`inputHistory
    {
      LocalView(localPlayer, predictedPlayer, isLocalPlayerCreated, inputHistory)
    }

    constructor(index: nat)
      ensures Valid()
      ensures clientIndex == index
      ensures localPlayer == DEFAULT_PLAYER && predictedPlayer == DEFAULT_PLAYER && !isLocalPlayerCreated
      ensures otherPlayers == map[] && foodItems == [] && inputSequence == 0 && inputHistory == []
      ensures clientTime == 0.0 && snapshotBuffer == [] && interpolationTime == 0.0
    {
      clientIndex := index;
      localPlayer := DEFAULT_PLAYER;
      predictedPlayer := DEFAULT_PLAYER;
      isLocalPlayerCreated := false;
      otherPlayers := map[];
      foodItems := [];
      inputSequence := 0;
      inputHistory := [];
      clientTime := 0.0;
      snapshotBuffer := [];
      interpolationTime := 0.0;
    }

    /** Fill otherPlayers from a snapshot's map, entry by entry. */
    method CopyPlayers(src: map<nat, Player>)
      modifies this`otherPlayers
      ensures otherPlayers == src
    {
      otherPlayers := map[];
      var remaining := src.Keys;
      while remaining != {}
        invariant remaining <= src.Keys
        invariant otherPlayers.Keys == src.Keys - remaining
        invariant forall id :: id in otherPlayers ==> otherPlayers[id] == src[id]
        decreases |remaining|
      {
        var id :| id in remaining;
        otherPlayers := otherPlayers[id := src[id]];
        remaining := remaining - {id};
      }
    }

    /**
     * ReconcileWithServer: drop the acknowledged inputs from the front of
     * the history, reset the prediction to the server's player and replay
     * the inputs that are left.
     */
    method ReconcileWithServer(serverPlayer: Player, lastProcessedInput: nat)
      requires Valid()
      modifies this`inputHistory, this`predictedPlayer
      ensures Valid()
      ensures inputHistory == DropAcked(old(inputHistory), lastProcessedInput)
      ensures predictedPlayer == Replay(serverPlayer, inputHistory)
    {
      while inputHistory != [] && inputHistory[0].sequenceNumber <= lastProcessedInput
        invariant DropAcked(inputHistory, lastProcessedInput) == DropAcked(old(inputHistory), lastProcessedInput)
        decreases |inputHistory|
      {
        inputHistory := inputHistory[1..];
      }
      DropAckedKeepsOrder(old(inputHistory), lastProcessedInput, inputSequence);

      predictedPlayer := serverPlayer;
      var i := 0;
      while i < |inputHistory|
        invariant 0 <= i <= |inputHistory|
        invariant inputHistory == DropAcked(old(inputHistory), lastProcessedInput)
        invariant predictedPlayer == Replay(serverPlayer, inputHistory[..i])
      {
        ReplayStep(serverPlayer, inputHistory, i);
        predictedPlayer := Apply(predictedPlayer, inputHistory[i]);
        i := i + 1;
      }
      assert inputHistory[..i] == inputHistory;
    }

    /** The eviction loop of SendInput: pop the oldest input while over capacity. */
    method TrimHistory()
      modifies this`inputHistory
      ensures inputHistory == KeepNewest(old(inputHistory), MAX_INPUT_HISTORY)
    {
      ghost var q := inputHistory;
      while |inputHistory| > MAX_INPUT_HISTORY
        invariant |inputHistory| <= |q|
        invariant inputHistory == q[|q| - |inputHistory|..]
        invariant |inputHistory| >= (if |q| > MAX_INPUT_HISTORY then MAX_INPUT_HISTORY else |q|)
        decreases |inputHistory|
      {
        inputHistory := inputHistory[1..];
      }
    }

    /**
     * SendInput, with the intent the key polling produced (Intent(keys))
     * passed in, and allocOk standing for whether CreateMessage returned a
     * message. Nothing happens before the local player exists or when the
     * intent is zero. Otherwise the next sequence number is taken, the
     * input is stored (evicting the oldest beyond MAX_INPUT_HISTORY), the
     * predicted player moves one step and the input message is sent when
     * one could be allocated.
     */
    method SendInput(moveX: real, moveY: real, allocOk: bool) returns (sent: Option<InputMessage>)
      requires Valid()
      modifies this`inputSequence, this`inputHistory, this`predictedPlayer
      ensures Valid()
      ensures !isLocalPlayerCreated || (moveX == 0.0 && moveY == 0.0) ==>
        && inputSequence == old(inputSequence) && inputHistory == old(inputHistory)
        && predictedPlayer == old(predictedPlayer) && sent == None
      ensures isLocalPlayerCreated && (moveX != 0.0 || moveY != 0.0) ==>
        && inputSequence == old(inputSequence) + 1
        && inputHistory == KeepNewest(old(inputHistory) + [StoredInput(inputSequence, clientTime, moveX, moveY)],
                                      MAX_INPUT_HISTORY)
        && predictedPlayer == PredictMovement(old(predictedPlayer), moveX, moveY, INPUT_DT)
        && sent == (if allocOk then Some(InputMessage(inputSequence, clientTime, moveX, moveY)) else None)
    {
      sent := None;
      if !isLocalPlayerCreated {
        return;
      }
      var hasInput := moveX != 0.0 || moveY != 0.0;
      if hasInput {
        inputSequence := inputSequence + 1;
        var stored := StoredInput(inputSequence, clientTime, moveX, moveY);
        PushKeepsOrder(inputHistory, inputSequence - 1, stored, MAX_INPUT_HISTORY);
        inputHistory := inputHistory + [stored];
        TrimHistory();
        predictedPlayer := PredictMovement(predictedPlayer, moveX, moveY, INPUT_DT);
        if allocOk {
          sent := Some(InputMessage(inputSequence, clientTime, moveX, moveY));
        }
      }
    }

    /**
     * ReceiveWorldState: entries for the client's own id set the local
     * player (creating it, or reconciling against the acknowledged input);
     * all other entries go into a new snapshot, which is appended to the
     * buffer (evicting the oldest beyond MAX_SNAPSHOTS); the food list is
     * rebuilt from the message's records.
     */
    method ReceiveWorldState(msg: WorldStateMessage)
      requires Valid()
      modifies this`localPlayer, this`predictedPlayer, this`isLocalPlayerCreated, this`inputHistory
      modifies this`snapshotBuffer, this`foodItems
      ensures Valid()
      ensures View() == OwnEntries(old(View()), msg.players, clientIndex, msg.lastProcessedInputSeq)
      ensures snapshotBuffer == KeepNewest(old(snapshotBuffer) + [SnapshotOf(msg, clientIndex)], MAX_SNAPSHOTS)
      ensures foodItems == FoodList(msg.food)
    {
      var players := ReceivePlayers(msg.players, msg.lastProcessedInputSeq);
      PushSnapshot(Snapshot(msg.serverTick, msg.timestamp, players));
      RebuildFood(msg.food);
    }

    /**
     * The player loop of ReceiveWorldState: the client's own entries go to
     * the local player, the others into the map that becomes the snapshot.
     */
    method ReceivePlayers(ps: seq<Player>, ack: nat) returns (players: map<nat, Player>)
      requires Valid()
      modifies this`localPlayer, this`predictedPlayer, this`isLocalPlayerCreated, this`inputHistory
      ensures Valid()
      ensures View() == OwnEntries(old(View()), ps, clientIndex, ack)
      ensures players == RemotePlayers(ps, clientIndex)
    {
      players := map[];
      var i := 0;
      while i < |ps|
        invariant 0 <= i <= |ps|
        invariant Valid()
        invariant players == RemotePlayers(ps[..i], clientIndex)
        invariant View() == OwnEntries(old(View()), ps[..i], clientIndex, ack)
      {
        var player := ps[i];
        assert ps[..i + 1][..i] == ps[..i];
        if player.id == clientIndex {
          TakeOwnEntry(player, ack);
        } else {
          players := players[player.id := player];
        }
        i := i + 1;
      }
      assert ps[..i] == ps;
    }

    /**
     * The client's own entry: on first sight it becomes both the local and
     * the predicted player; afterwards it becomes the local player and the
     * prediction is reconciled against it.
     */
    method TakeOwnEntry(player: Player, ack: nat)
      requires Valid()
      modifies this`localPlayer, this`predictedPlayer, this`isLocalPlayerCreated, this`inputHistory
      ensures Valid()
      ensures View() == OwnEntry(old(View()), player, ack)
    {
      if !isLocalPlayerCreated {
        localPlayer := player;
        predictedPlayer := player;
        isLocalPlayerCreated := true;
      } else {
        localPlayer := player;
        ReconcileWithServer(player, ack);
      }
    }

    /** Append a snapshot and pop the oldest while over MAX_SNAPSHOTS. */
    method PushSnapshot(snapshot: Snapshot)
      requires Valid() && clientIndex !in snapshot.players
      modifies this`snapshotBuffer
      ensures Valid()
      ensures snapshotBuffer == KeepNewest(old(snapshotBuffer) + [snapshot], MAX_SNAPSHOTS)
    {
      snapshotBuffer := snapshotBuffer + [snapshot];
      ghost var q := snapshotBuffer;
      assert forall k :: 0 <= k < |q| ==> clientIndex !in q[k].players;
      while |snapshotBuffer| > MAX_SNAPSHOTS
        invariant |snapshotBuffer| <= |q|
        invariant snapshotBuffer == q[|q| - |snapshotBuffer|..]
        invariant |snapshotBuffer| >= (if |q| > MAX_SNAPSHOTS then MAX_SNAPSHOTS else |q|)
        decreases |snapshotBuffer|
      {
        snapshotBuffer := snapshotBuffer[1..];
      }
      assert forall k :: 0 <= k < |snapshotBuffer| ==> snapshotBuffer[k] == q[|q| - |snapshotBuffer| + k];
    }

    /** The food loop of ReceiveWorldState: one item per record, built from its tier. */
    method RebuildFood(records: seq<FoodRecord>)
      requires Valid()
      modifies this`foodItems
      ensures Valid()
      ensures foodItems == FoodList(records)
    {
      foodItems := [];
      var j := 0;
      while j < |records|
        invariant 0 <= j <= |records|
        invariant foodItems == FoodList(records[..j])
      {
        var record := records[j];
        var food := CreateFoodItemFromTier(record.x, record.y, record.tier);
        assert records[..j + 1] == records[..j] + [record];
        foodItems := foodItems + [food];
        j := j + 1;
      }
      assert records[..j] == records;
    }

    /**
     * InterpolatePlayerStates. With no snapshot nothing changes; with one,
     * its players are copied. Otherwise the render time is the client time
     * less INTERPOLATION_DELAY, and the players are blended between the
     * first bracketing pair, or copied from the newest snapshot when no
     * pair brackets the render time.
     */
    method InterpolatePlayerStates(dt: real)
      modifies this`otherPlayers, this`interpolationTime
      ensures |snapshotBuffer| == 0 ==>
        otherPlayers == old(otherPlayers) && interpolationTime == old(interpolationTime)
      ensures |snapshotBuffer| == 1 ==>
        otherPlayers == snapshotBuffer[0].players && interpolationTime == old(interpolationTime)
      ensures |snapshotBuffer| >= 2 ==>
        && interpolationTime == clientTime - INTERPOLATION_DELAY
        && otherPlayers == Interpolate(snapshotBuffer, interpolationTime)
    {
      if |snapshotBuffer| < 2 {
        if |snapshotBuffer| != 0 {
          CopyPlayers(snapshotBuffer[|snapshotBuffer| - 1].players);
        }
        return;
      }

      interpolationTime := clientTime - INTERPOLATION_DELAY;
      var found := SearchBracket(interpolationTime);
      if found.None? {
        CopyPlayers(snapshotBuffer[|snapshotBuffer| - 1].players);
        return;
      }

      var from := snapshotBuffer[found.value];
      var to := snapshotBuffer[found.value + 1];
      var t := 0.0;
      var timeDiff := to.timestamp - from.timestamp;
      if timeDiff > 0.0 {
        t := (interpolationTime - from.timestamp) / timeDiff;
        t := if t > 1.0 then 1.0 else if t < 0.0 then 0.0 else t;
      }
      assert t == Factor(from.timestamp, to.timestamp, interpolationTime);
      BlendPlayers(from.players, to.players, t);
    }

    /** The search loop of InterpolatePlayerStates: the first pair that brackets the target. */
    method SearchBracket(target: real) returns (found: Option<nat>)
      ensures found == FindBracket(snapshotBuffer, target, 0)
    {
      found := None;
      var i := 0;
      while i + 1 < |snapshotBuffer|
        invariant FindBracket(snapshotBuffer, target, 0) == FindBracket(snapshotBuffer, target, i)
      {
        if snapshotBuffer[i].timestamp <= target && snapshotBuffer[i + 1].timestamp >= target {
          found := Some(i);
          return;
        }
        i := i + 1;
      }
    }

    /** The fill loop of InterpolatePlayerStates, one id of the later snapshot at a time. */
    method BlendPlayers(from: map<nat, Player>, to: map<nat, Player>, t: real)
      modifies this`otherPlayers
      ensures otherPlayers == Interpolated(from, to, t)
    {
      otherPlayers := map[];
      var remaining := to.Keys;
      while remaining != {}
        invariant remaining <= to.Keys
        invariant otherPlayers.Keys == to.Keys - remaining
        invariant forall id :: id in otherPlayers ==> otherPlayers[id] == Interpolated(from, to, t)[id]
        decreases |remaining|
      {
        var id :| id in remaining;
        if id in from {
          otherPlayers := otherPlayers[id := Blend(from[id], to[id], t)];
        } else {
          otherPlayers := otherPlayers[id := to[id]];
        }
        remaining := remaining - {id};
      }
    }

    /** Update's drain of the delivered world states, oldest first. */
    method ReceiveAll(inbox: seq<WorldStateMessage>)
      requires Valid()
      modifies this`localPlayer, this`predictedPlayer, this`isLocalPlayerCreated, this`inputHistory
      modifies this`snapshotBuffer, this`foodItems
      ensures Valid()
      ensures View() == Drained(old(View()), inbox, clientIndex)
      ensures snapshotBuffer == Buffered(old(snapshotBuffer), inbox, clientIndex)
      ensures foodItems == if inbox == [] then old(foodItems) else FoodList(inbox[|inbox| - 1].food)
    {
      var k := 0;
      while k < |inbox|
        invariant 0 <= k <= |inbox|
        invariant Valid()
        invariant View() == Drained(old(View()), inbox[..k], clientIndex)
        invariant snapshotBuffer == Buffered(old(snapshotBuffer), inbox[..k], clientIndex)
        invariant foodItems == if k == 0 then old(foodItems) else FoodList(inbox[k - 1].food)
      {
        DrainedStep(old(View()), inbox, k, clientIndex);
        BufferedStep(old(snapshotBuffer), inbox, k, clientIndex);
        ReceiveWorldState(inbox[k]);
        assert View() == Drained(old(View()), inbox[..k + 1], clientIndex);
        assert snapshotBuffer == Buffered(old(snapshotBuffer), inbox[..k + 1], clientIndex);
        k := k + 1;
      }
      assert inbox[..k] == inbox;
    }

    /**
     * This frame's input, sent only when the window is up: SendInput
     * stores, predicts and sends when the local player exists and the
     * intent is not zero; otherwise nothing changes.
     */
    method FrameInput(windowReady: bool, intent: Vec, allocOk: bool) returns (sent: Option<InputMessage>)
      requires Valid()
      modifies this`inputSequence, this`inputHistory, this`predictedPlayer
      ensures Valid()
      ensures sent.Some? ==> windowReady && sent.value.timestamp == clientTime
      ensures
        if windowReady && old(isLocalPlayerCreated) && (intent.x != 0.0 || intent.y != 0.0) then
          && inputSequence == old(inputSequence) + 1
          && View() == Stored(old(View()), inputSequence, clientTime, intent.x, intent.y)
          && sent == (if allocOk then Some(InputMessage(inputSequence, clientTime, intent.x, intent.y)) else None)
        else
          View() == old(View()) && inputSequence == old(inputSequence) && sent == None
    {
      sent := None;
      if windowReady {
        sent := SendInput(intent.x, intent.y, allocOk);
      }
    }

    /**
     * Update's work while connected: take in the delivered world states,
     * send this frame's input when the window is up, and copy the newest
     * snapshot's players into otherPlayers as they are.
     */
    method ConnectedFrame(windowReady: bool, inbox: seq<WorldStateMessage>, intent: Vec, allocOk: bool)
      returns (sent: Option<InputMessage>)
      requires Valid()
      modifies this`localPlayer, this`predictedPlayer, this`isLocalPlayerCreated, this`inputHistory
      modifies this`snapshotBuffer, this`foodItems, this`inputSequence, this`otherPlayers
      ensures Valid()
      ensures sent.Some? ==> windowReady && sent.value.timestamp == clientTime
      ensures snapshotBuffer == Buffered(old(snapshotBuffer), inbox, clientIndex)
      ensures foodItems == if inbox == [] then old(foodItems) else FoodList(inbox[|inbox| - 1].food)
      ensures otherPlayers == if snapshotBuffer == [] then old(otherPlayers)
                              else snapshotBuffer[|snapshotBuffer| - 1].players
      ensures inbox != [] ==> otherPlayers == RemotePlayers(inbox[|inbox| - 1].players, clientIndex)
      ensures var v := Drained(old(View()), inbox, clientIndex);
        if windowReady && v.created && (intent.x != 0.0 || intent.y != 0.0) then
          && inputSequence == old(inputSequence) + 1
          && View() == Stored(v, inputSequence, clientTime, intent.x, intent.y)
          && sent == (if allocOk then Some(InputMessage(inputSequence, clientTime, intent.x, intent.y)) else None)
        else
          View() == v && inputSequence == old(inputSequence) && sent == None
    {
      ReceiveAll(inbox);
      ghost var received := snapshotBuffer;
      ghost var v := View();
      assert v == Drained(old(View()), inbox, clientIndex);
      sent := FrameInput(windowReady, intent, allocOk);
      assert snapshotBuffer == received && Valid();
      if |snapshotBuffer| != 0 {
        CopyPlayers(snapshotBuffer[|snapshotBuffer| - 1].players);
      }
    }

    /** The frame's time step, taken before anything else. */
    method Tick(dt: real)
      modifies this`clientTime
      ensures clientTime == old(clientTime) + dt
    {
      clientTime := clientTime + dt;
    }

    /**
     * The part of Update this model covers: advance the client time and,
     * while connected, do ConnectedFrame, so an input sent this frame
     * carries the advanced time. Update never calls
     * InterpolatePlayerStates, so what is drawn is the newest snapshot,
     * not an interpolated one.
     */
    method Update(dt: real, connected: bool, windowReady: bool, inbox: seq<WorldStateMessage>,
                  intent: Vec, allocOk: bool) returns (sent: Option<InputMessage>)
      requires Valid()
      modifies this
      ensures Valid()
      ensures interpolationTime == old(interpolationTime)
      ensures clientTime == old(clientTime) + dt
      ensures sent.Some? ==> connected && windowReady && sent.value.timestamp == clientTime
      ensures !connected ==>
        && sent == None && otherPlayers == old(otherPlayers) && View() == old(View())
        && snapshotBuffer == old(snapshotBuffer) && foodItems == old(foodItems)
        && inputSequence == old(inputSequence)
      ensures connected ==>
        && snapshotBuffer == Buffered(old(snapshotBuffer), inbox, clientIndex)
        && foodItems == (if inbox == [] then old(foodItems) else FoodList(inbox[|inbox| - 1].food))
        && otherPlayers == (if snapshotBuffer == [] then old(otherPlayers)
                            else snapshotBuffer[|snapshotBuffer| - 1].players)
      ensures connected && inbox != [] ==>
        otherPlayers == RemotePlayers(inbox[|inbox| - 1].players, clientIndex)
      ensures connected ==>
        var v := Drained(old(View()), inbox, clientIndex);
        if windowReady && v.created && (intent.x != 0.0 || intent.y != 0.0) then
          && inputSequence == old(inputSequence) + 1
          && View() == Stored(v, inputSequence, clientTime, intent.x, intent.y)
          && sent == (if allocOk then Some(InputMessage(inputSequence, clientTime, intent.x, intent.y)) else None)
        else
          View() == v && inputSequence == old(inputSequence) && sent == None
    {
      Tick(dt);
      if connected {
        sent := ConnectedFrame(windowReady, inbox, intent, allocOk);
      } else {
        sent := None;
      }
    }
  }

  /**
   * Reconciliation right after the client's own entry appears once in a
   * message, with the local player already created: the surviving inputs
   * are exactly the unacknowledged ones, and the predicted player is the
   * server's player with those replayed.
   */
  lemma ReconcileOnOwnEntry(v: LocalView, ps: seq<Player>, me: nat, ack: nat, k: nat)
    requires v.created && StrictlyIncreasing(v.history)
    requires k < |ps| && ps[k].id == me
    requires forall i :: 0 <= i < |ps| && i != k ==> ps[i].id != me
    ensures OwnEntries(v, ps, me, ack).local == ps[k]
    ensures OwnEntries(v, ps, me, ack).history == Unacked(v.history, ack)
    ensures OwnEntries(v, ps, me, ack).predicted == Replay(ps[k], Unacked(v.history, ack))
  {
    OwnEntriesOnce(v, ps, me, ack, k);
    DropAckedIsUnacked(v.history, ack);
  }

  /** First sight of the client's own entry: local and predicted player are both that entry. */
  lemma CreateOnOwnEntry(v: LocalView, ps: seq<Player>, me: nat, ack: nat, k: nat)
    requires !v.created
    requires k < |ps| && ps[k].id == me
    requires forall i :: 0 <= i < |ps| && i != k ==> ps[i].id != me
    ensures OwnEntries(v, ps, me, ack) == LocalView(ps[k], ps[k], true, v.history)
  {
    OwnEntriesOnce(v, ps, me, ack, k);
  }
}
