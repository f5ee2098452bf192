/**
 * Snapshot interpolation of the remote players, as values: the search for
 * the pair of buffered snapshots that brackets the render time, the
 * clamped blend factor and the blended player map.
 *
 * GameClient.InterpolatePlayerStates (game_client.dfy) runs the same
 * search and fill as loops and is proved to compute these functions.
 */
module Interpolation {
  import opened Protocol

  /** Snapshots i and i + 1 bracket the target time. */
  predicate Brackets(buf: seq<Snapshot>, i: nat, target: real)
    requires i + 1 < |buf|
  {
    buf[i].timestamp <= target && buf[i + 1].timestamp >= target
  }

  /**
   * The scan `for i < size() - 1`, from position i on: the first index
   * whose pair brackets the target, or None when no pair does.
   */
  function FindBracket(buf: seq<Snapshot>, target: real, i: nat): (r: Option<nat>)
    decreases |buf| - i
    ensures r.Some? ==> i <= r.value && r.value + 1 < |buf| && Brackets(buf, r.value, target)
    ensures r.Some? ==> forall j :: i <= j < r.value ==> !Brackets(buf, j, target)
    ensures r.None? ==> forall j :: i <= j && j + 1 < |buf| ==> !Brackets(buf, j, target)
  {
    if i + 1 >= |buf| then None
    else if Brackets(buf, i, target) then Some(i)
    else FindBracket(buf, target, i + 1)
  }

  /**
   * The blend factor: the elapsed fraction of the bracketing interval,
   * clamped to [0, 1]; 0 when the interval is empty or reversed.
   */
  function Factor(fromTime: real, toTime: real, target: real): (t: real)
    ensures 0.0 <= t <= 1.0
  {
    var timeDiff := toTime - fromTime;
    if timeDiff > 0.0 then
      var raw := (target - fromTime) / timeDiff;
      if raw > 1.0 then 1.0 else if raw < 0.0 then 0.0 else raw
    else 0.0
  }

  /** Inside a proper bracket the clamp is inactive: t is the exact fraction. */
  lemma FactorInsideBracket(fromTime: real, toTime: real, target: real)
    requires fromTime <= target <= toTime && fromTime < toTime
    ensures Factor(fromTime, toTime, target) == (target - fromTime) / (toTime - fromTime)
  {
    var diff := toTime - fromTime;
    var raw := (target - fromTime) / diff;
    FractionWithin(target - fromTime, diff);
  }

  /** A part of a positive whole is a fraction in [0, 1]. */
  lemma FractionWithin(n: real, d: real)
    requires d > 0.0 && 0.0 <= n <= d
    ensures 0.0 <= n / d <= 1.0
  {
  }

  /** from + (to - from) * t */
  function Lerp(a: real, b: real, t: real): real {
    a + (b - a) * t
  }

  /** For t in [0, 1] the blend lies between its two ends, and meets them at 0 and 1. */
  lemma LerpBetween(a: real, b: real, t: real)
    requires 0.0 <= t <= 1.0
    ensures a <= b ==> a <= Lerp(a, b, t) <= b
    ensures b <= a ==> b <= Lerp(a, b, t) <= a
    ensures Lerp(a, b, 0.0) == a && Lerp(a, b, 1.0) == b
  {
    var c := (b - a) * t;
    assert Lerp(a, b, t) == a + c;
    if a <= b {
      ScaleWithin(b - a, t);
    } else {
      ScaleWithin(a - b, t);
      assert c == -((a - b) * t);
    }
  }

  /** Scaling a non-negative c by a factor in [0, 1] stays in [0, c]. */
  lemma ScaleWithin(c: real, t: real)
    requires c >= 0.0 && 0.0 <= t <= 1.0
    ensures 0.0 <= c * t <= c
  {
    assert c * (1.0 - t) >= 0.0;
  }

  /**
   * The interpolated copy of the later player: position and size blended,
   * everything else (id, velocity, color) taken from the later snapshot.
   */
  function Blend(from: Player, to: Player, t: real): (q: Player)
    ensures q.id == to.id && q.velocity == to.velocity && q.color == to.color
  {
    to.(position := Vec(Lerp(from.position.x, to.position.x, t), Lerp(from.position.y, to.position.y, t)),
        size := Lerp(from.size, to.size, t))
  }

  /**
   * The map filled from the later snapshot: players present in both are
   * blended, players new in the later snapshot are copied as they are.
   */
  function Interpolated(from: map<nat, Player>, to: map<nat, Player>, t: real): (m: map<nat, Player>)
    ensures m.Keys == to.Keys
    ensures forall id :: id in to && id !in from ==> m[id] == to[id]
  {
    map id | id in to :: if id in from then Blend(from[id], to[id], t) else to[id]
  }

  /**
   * InterpolatePlayerStates with at least two snapshots: the blended pair
   * that brackets the target, or the newest snapshot verbatim when none does.
   */
  function Interpolate(buf: seq<Snapshot>, target: real): (m: map<nat, Player>)
    requires |buf| >= 2
  {
    match FindBracket(buf, target, 0)
    case None => buf[|buf| - 1].players
    case Some(i) =>
      Interpolated(buf[i].players, buf[i + 1].players,
                   Factor(buf[i].timestamp, buf[i + 1].timestamp, target))
  }

  /**
   * The result always holds exactly the players of one buffered snapshot:
   * the later of the bracketing pair, or the newest.
   */
  lemma InterpolateKeys(buf: seq<Snapshot>, target: real)
    requires |buf| >= 2
    ensures FindBracket(buf, target, 0).None? ==> Interpolate(buf, target) == buf[|buf| - 1].players
    ensures FindBracket(buf, target, 0).Some? ==>
      Interpolate(buf, target).Keys == buf[FindBracket(buf, target, 0).value + 1].players.Keys
  {
  }

  /**
   * A blended player lies between its two snapshot positions, and its size
   * between its two sizes.
   */
  lemma InterpolatedBetween(buf: seq<Snapshot>, target: real, id: nat)
    requires |buf| >= 2 && FindBracket(buf, target, 0).Some?
    requires id in buf[FindBracket(buf, target, 0).value].players
    requires id in buf[FindBracket(buf, target, 0).value + 1].players
    ensures var i := FindBracket(buf, target, 0).value;
      var a := buf[i].players[id];
      var b := buf[i + 1].players[id];
      var q := Interpolate(buf, target)[id];
      && (a.position.x <= b.position.x ==> a.position.x <= q.position.x <= b.position.x)
      && (b.position.x <= a.position.x ==> b.position.x <= q.position.x <= a.position.x)
      && (a.position.y <= b.position.y ==> a.position.y <= q.position.y <= b.position.y)
      && (b.position.y <= a.position.y ==> b.position.y <= q.position.y <= a.position.y)
      && (a.size <= b.size ==> a.size <= q.size <= b.size)
      && (b.size <= a.size ==> b.size <= q.size <= a.size)
  {
    var i := FindBracket(buf, target, 0).value;
    var t := Factor(buf[i].timestamp, buf[i + 1].timestamp, target);
    var a := buf[i].players[id];
    var b := buf[i + 1].players[id];
    LerpBetween(a.position.x, b.position.x, t);
    LerpBetween(a.position.y, b.position.y, t);
    LerpBetween(a.size, b.size, t);
  }

  /**
   * A player at (0, 0) in the snapshot at time 0 and at (100, 0) in the
   * snapshot at time 1 is drawn at (30, 0) when the target time is 0.3.
   */
  lemma InterpolateExample(p: Player, q: Player)
    requires p.position == Vec(0.0, 0.0) && q.position == Vec(100.0, 0.0)
    ensures Interpolate([Snapshot(1, 0.0, map[7 := p]), Snapshot(2, 1.0, map[7 := q])], 0.3)[7].position
         == Vec(30.0, 0.0)
  {
    var buf := [Snapshot(1, 0.0, map[7 := p]), Snapshot(2, 1.0, map[7 := q])];
    assert Brackets(buf, 0, 0.3);
    assert FindBracket(buf, 0.3, 0) == Some(0);
    assert Factor(0.0, 1.0, 0.3) == 0.3;
  }

  /** A target after every snapshot brackets nothing: the newest snapshot is used as it is. */
  lemma InterpolateAfterNewest(buf: seq<Snapshot>, target: real)
    requires |buf| >= 2
    requires forall i :: 0 <= i < |buf| ==> buf[i].timestamp < target
    ensures Interpolate(buf, target) == buf[|buf| - 1].players
  {
  }
}
