/**
 * The client's input bookkeeping, as values: the intent read from the
 * movement keys, the bounded history of stored inputs, the removal of
 * acknowledged inputs and the replay of the remaining ones.
 *
 * GameClient (game_client.dfy) keeps its state in fields and changes it
 * with loops; the functions here are what those loops are proved to
 * compute.
 */
module Prediction {
  import opened Protocol
  import opened Movement

  /** The four movement keys held down this frame: W, S, A, D. */
  datatype Keys = Keys(w: bool, s: bool, a: bool, d: bool)

  /**
   * The intent SendInput builds from the keys: W and S pull y by -1 and +1,
   * A and D pull x by -1 and +1. It is zero exactly when each pair of
   * opposite keys is either both held or both released.
   */
  function Intent(k: Keys): (v: Vec)
    ensures v.x == -1.0 || v.x == 0.0 || v.x == 1.0
    ensures v.y == -1.0 || v.y == 0.0 || v.y == 1.0
    ensures v == ZERO <==> k.w == k.s && k.a == k.d
  {
    var moveY := (if k.w then -1.0 else 0.0) + (if k.s then 1.0 else 0.0);
    var moveX := (if k.a then -1.0 else 0.0) + (if k.d then 1.0 else 0.0);
    Vec(moveX, moveY)
  }

  /** The input history is ordered by strictly increasing sequence numbers. */
  ghost predicate StrictlyIncreasing(h: seq<StoredInput>) {
    forall i, j :: 0 <= i < j < |h| ==> h[i].sequenceNumber < h[j].sequenceNumber
  }

  /** Every stored sequence number lies in 1..last. */
  ghost predicate NumberedUpTo(h: seq<StoredInput>, last: nat) {
    forall i :: 0 <= i < |h| ==> 1 <= h[i].sequenceNumber <= last
  }

  /**
   * What push_back followed by `while (size() > cap) pop_front()` leaves:
   * at most cap entries, the newest ones, in their order.
   */
  function KeepNewest<T>(q: seq<T>, cap: nat): (r: seq<T>)
    ensures |r| == if |q| > cap then cap else |q|
    ensures r == q[|q| - |r|..]
    ensures |q| <= cap ==> r == q
    ensures cap > 0 && |q| > 0 ==> |r| > 0 && r[|r| - 1] == q[|q| - 1]
  {
    if |q| > cap then q[|q| - cap..] else q
  }

  /**
   * Evicting after every push leaves the same entries as evicting once
   * after all of them: the buffer never loses an entry it would keep.
   */
  lemma KeepNewestPush<T>(q: seq<T>, x: T, cap: nat)
    ensures KeepNewest(KeepNewest(q, cap) + [x], cap) == KeepNewest(q + [x], cap)
  {
    var r := KeepNewest(q, cap);
    if |q| > cap {
      assert r + [x] == (q + [x])[|q| - cap..];
    }
  }

  /** A suffix of an increasing history is increasing. */
  lemma SuffixIncreasing(h: seq<StoredInput>, k: nat)
    requires k <= |h| && StrictlyIncreasing(h)
    ensures StrictlyIncreasing(h[k..])
  {
    forall i, j | 0 <= i < j < |h| - k
      ensures h[k..][i].sequenceNumber < h[k..][j].sequenceNumber
    {
      assert h[k..][i] == h[k + i] && h[k..][j] == h[k + j];
    }
  }

  /** Appending a number above every stored one keeps the history increasing. */
  lemma AppendIncreasing(h: seq<StoredInput>, last: nat, input: StoredInput)
    requires StrictlyIncreasing(h) && NumberedUpTo(h, last)
    requires input.sequenceNumber == last + 1
    ensures StrictlyIncreasing(h + [input]) && NumberedUpTo(h + [input], last + 1)
  {
    var q := h + [input];
    forall i, j | 0 <= i < j < |q|
      ensures q[i].sequenceNumber < q[j].sequenceNumber
    {
      assert q[i] == h[i];
      if j < |h| {
        assert q[j] == h[j];
      }
    }
    forall i | 0 <= i < |q|
      ensures 1 <= q[i].sequenceNumber <= last + 1
    {
      if i < |h| {
        assert q[i] == h[i];
      }
    }
  }

  /** Keeping the newest entries keeps the history increasing and numbered. */
  lemma KeepNewestKeepsOrder(q: seq<StoredInput>, last: nat, cap: nat)
    requires StrictlyIncreasing(q) && NumberedUpTo(q, last)
    ensures StrictlyIncreasing(KeepNewest(q, cap)) && NumberedUpTo(KeepNewest(q, cap), last)
  {
    var r := KeepNewest(q, cap);
    var k := |q| - |r|;
    SuffixIncreasing(q, k);
    forall i | 0 <= i < |r|
      ensures 1 <= r[i].sequenceNumber <= last
    {
      assert r[i] == q[k + i];
    }
  }

  /**
   * Storing the input numbered last + 1 and trimming to cap keeps the
   * history increasing and numbered up to last + 1.
   */
  lemma PushKeepsOrder(h: seq<StoredInput>, last: nat, input: StoredInput, cap: nat)
    requires StrictlyIncreasing(h) && NumberedUpTo(h, last)
    requires input.sequenceNumber == last + 1
    ensures StrictlyIncreasing(KeepNewest(h + [input], cap))
    ensures NumberedUpTo(KeepNewest(h + [input], cap), last + 1)
  {
    AppendIncreasing(h, last, input);
    KeepNewestKeepsOrder(h + [input], last + 1, cap);
  }

  /**
   * The front-popping loop of ReconcileWithServer: drop inputs from the
   * front while the front one is acknowledged (its number is at most ack).
   */
  function DropAcked(h: seq<StoredInput>, ack: nat): (r: seq<StoredInput>)
    ensures |r| <= |h|
    ensures r != [] ==> r[0].sequenceNumber > ack
  {
    if h == [] || h[0].sequenceNumber > ack then h else DropAcked(h[1..], ack)
  }

  /**
   * What DropAcked leaves is a suffix of the history, and everything it
   * removed was acknowledged.
   */
  lemma {:induction false} DropAckedSuffix(h: seq<StoredInput>, ack: nat)
    ensures DropAcked(h, ack) == h[|h| - |DropAcked(h, ack)|..]
    ensures forall i :: 0 <= i < |h| - |DropAcked(h, ack)| ==> h[i].sequenceNumber <= ack
  {
    if h != [] && h[0].sequenceNumber <= ack {
      DropAckedSuffix(h[1..], ack);
      var r := DropAcked(h[1..], ack);
      assert forall i :: 1 <= i < |h| - |r| ==> h[i] == h[1..][i - 1];
    }
  }

  /** Dropping acknowledged inputs keeps the history increasing and numbered. */
  lemma DropAckedKeepsOrder(h: seq<StoredInput>, ack: nat, last: nat)
    requires StrictlyIncreasing(h) && NumberedUpTo(h, last)
    ensures StrictlyIncreasing(DropAcked(h, ack)) && NumberedUpTo(DropAcked(h, ack), last)
  {
    var r := DropAcked(h, ack);
    var k := |h| - |r|;
    DropAckedSuffix(h, ack);
    SuffixIncreasing(h, k);
    forall i | 0 <= i < |r|
      ensures 1 <= r[i].sequenceNumber <= last
    {
      assert r[i] == h[k + i];
    }
  }

  /** The inputs the server has not yet acknowledged, wherever they sit. */
  function Unacked(h: seq<StoredInput>, ack: nat): (r: seq<StoredInput>)
    ensures |r| <= |h|
    ensures forall i :: 0 <= i < |r| ==> r[i].sequenceNumber > ack
  {
    if h == [] then []
    else if h[0].sequenceNumber > ack then [h[0]] + Unacked(h[1..], ack)
    else Unacked(h[1..], ack)
  }

  /** Unacked of an all-unacknowledged history is the history itself. */
  lemma {:induction false} UnackedAll(h: seq<StoredInput>, ack: nat)
    requires forall i :: 0 <= i < |h| ==> h[i].sequenceNumber > ack
    ensures Unacked(h, ack) == h
  {
    if h != [] {
      UnackedAll(h[1..], ack);
      assert [h[0]] + h[1..] == h;
    }
  }

  /**
   * On an increasing history the front-popping loop removes exactly the
   * acknowledged inputs: every survivor is unacknowledged, every removed
   * one acknowledged.
   */
  lemma {:induction false} DropAckedIsUnacked(h: seq<StoredInput>, ack: nat)
    requires StrictlyIncreasing(h)
    ensures DropAcked(h, ack) == Unacked(h, ack)
  {
    if h != [] {
      if h[0].sequenceNumber > ack {
        assert forall i :: 0 <= i < |h| ==> h[i].sequenceNumber > ack by {
          forall i | 0 < i < |h| ensures h[i].sequenceNumber > ack {
            assert h[0].sequenceNumber < h[i].sequenceNumber;
          }
        }
        UnackedAll(h, ack);
      } else {
        SuffixIncreasing(h, 1);
        DropAckedIsUnacked(h[1..], ack);
      }
    }
  }

  /** Inputs 1..5 with input 3 acknowledged leave inputs 4 and 5. */
  lemma DropAckedExample(a: StoredInput, b: StoredInput, c: StoredInput, d: StoredInput, e: StoredInput)
    requires a.sequenceNumber == 1 && b.sequenceNumber == 2 && c.sequenceNumber == 3
    requires d.sequenceNumber == 4 && e.sequenceNumber == 5
    ensures DropAcked([a, b, c, d, e], 3) == [d, e]
  {
    assert [a, b, c, d, e][1..] == [b, c, d, e];
    assert [b, c, d, e][1..] == [c, d, e];
    assert [c, d, e][1..] == [d, e];
    assert DropAcked([d, e], 3) == [d, e];
    assert DropAcked([c, d, e], 3) == [d, e];
    assert DropAcked([b, c, d, e], 3) == [d, e];
  }

  /** One stored input replayed through PredictMovement with the fixed 1/60 step. */
  function Apply(p: Player, input: StoredInput): (q: Player)
    ensures q.position.InWorld()
    ensures q.id == p.id && q.size == p.size && q.color == p.color
  {
    PredictMovement(p, input.moveX, input.moveY, INPUT_DT)
  }

  /**
   * Prediction as a fold: start from p and apply the inputs in order.
   * It keeps id, size and color, and ends inside the world once any input
   * has been applied.
   */
  function Replay(p: Player, inputs: seq<StoredInput>): (q: Player)
    ensures q.id == p.id && q.size == p.size && q.color == p.color
    ensures inputs != [] ==> q.position.InWorld()
  {
    if inputs == [] then p
    else Apply(Replay(p, inputs[..|inputs| - 1]), inputs[|inputs| - 1])
  }

  /** Replaying one more input of a history applies it to the replay so far. */
  lemma ReplayStep(p: Player, h: seq<StoredInput>, i: nat)
    requires i < |h|
    ensures Replay(p, h[..i + 1]) == Apply(Replay(p, h[..i]), h[i])
  {
    assert h[..i + 1][..i] == h[..i];
  }

  /** Replaying two batches is replaying the first and then the second. */
  lemma {:induction false} ReplayConcat(p: Player, a: seq<StoredInput>, b: seq<StoredInput>)
    ensures Replay(p, a + b) == Replay(Replay(p, a), b)
  {
    if b == [] {
      assert a + b == a;
    } else {
      var b' := b[..|b| - 1];
      assert (a + b)[..|a + b| - 1] == a + b';
      assert (a + b)[|a + b| - 1] == b[|b| - 1];
      ReplayConcat(p, a, b');
    }
  }

  /**
   * Reconciliation agrees with uninterrupted prediction: when the server's
   * player is the start state with exactly the acknowledged inputs applied,
   * replaying the survivors of DropAcked on it lands where the client would
   * have been by predicting every input.
   */
  lemma ReconcileMatchesPrediction(start: Player, h: seq<StoredInput>, ack: nat)
    ensures Replay(Replay(start, h[..|h| - |DropAcked(h, ack)|]), DropAcked(h, ack)) == Replay(start, h)
  {
    var r := DropAcked(h, ack);
    var k := |h| - |r|;
    DropAckedSuffix(h, ack);
    assert h[..k] + r == h;
    ReplayConcat(start, h[..k], r);
  }
}
