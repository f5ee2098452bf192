/**
 * The wire codec of the two messages: WorldStateMessage::Serialize and
 * PlayerInputMessage::Serialize.
 *
 * The source writes and reads through one Serialize template; here the
 * write direction is `Encode...` and the read direction `Decode...`, and
 * both visit the fields in the same order. A stream is a sequence of
 * tokens: integer fields are written bit by bit (least significant bit
 * first) in the width the field declares, while 32-bit floats and 64-bit
 * doubles are opaque words whose bit layout is not modelled.
 */
module Codec {
  import opened Protocol

  datatype Token = Bit(b: bool) | Float32(f: real) | Float64(d: real)

  type Stream = seq<Token>

  /** A decoded value and the part of the stream after it. */
  datatype Read<T> = Read(value: T, rest: Stream)

  function Pow2(n: nat): (p: nat)
    ensures p >= 1
  {
    if n == 0 then 1 else 2 * Pow2(n - 1)
  }

  /** Powers of two multiply by adding exponents. */
  lemma {:induction false} Pow2Add(a: nat, b: nat)
    ensures Pow2(a + b) == Pow2(a) * Pow2(b)
  {
    if a > 0 {
      Pow2Add(a - 1, b);
      assert Pow2(a + b) == 2 * Pow2(a - 1 + b);
    }
  }

  /** A 32-bit field holds exactly the uint32_t values. */
  lemma Pow2Word()
    ensures Pow2(32) == UINT32_LIMIT
  {
    assert Pow2(2) == 4;
    Pow2Add(2, 2);
    Pow2Add(4, 4);
    Pow2Add(8, 8);
    Pow2Add(16, 16);
  }

  /** The integer part of the base-2 logarithm. */
  function Log2(n: nat): nat
    requires n >= 1
  {
    if n == 1 then 0 else 1 + Log2(n / 2)
  }

  /** Log2 brackets its argument between two consecutive powers of two. */
  lemma {:induction false} Log2Bounds(n: nat)
    requires n >= 1
    ensures Pow2(Log2(n)) <= n < Pow2(Log2(n) + 1)
  {
    if n > 1 {
      Log2Bounds(n / 2);
    }
  }

  /**
   * bits_required(min, max): the width serialize_int uses for a field
   * declared with the range [min, max]. It is the least width that holds
   * max - min.
   */
  function BitsRequired(min: nat, max: nat): (bits: nat)
    requires min <= max
    ensures max - min < Pow2(bits)
    ensures bits > 0 ==> Pow2(bits - 1) <= max - min
  {
    if min == max then 0
    else
      Log2Bounds(max - min);
      Log2(max - min) + 1
  }

  /** The widths of the two counts and of a food tier. */
  lemma FieldWidths()
    ensures BitsRequired(0, MAX_PLAYERS) == 5
    ensures BitsRequired(0, MAX_FOOD) == 8
    ensures BitsRequired(0, 2) == 2
  {
  }

  // ---------------------------------------------------------------------
  // Primitive fields
  // ---------------------------------------------------------------------

  /** serialize_bits on a writing stream: `bits` bits, least significant first. */
  function WriteBits(value: nat, bits: nat): (s: Stream)
    requires value < Pow2(bits)
    ensures |s| == bits
  {
    if bits == 0 then []
    else [Bit(value % 2 == 1)] + WriteBits(value / 2, bits - 1)
  }

  /**
   * serialize_bits on a reading stream. It fails when the stream ends, or
   * holds a float word, before `bits` bits have been read.
   */
  function ReadBits(s: Stream, bits: nat): (r: Option<Read<nat>>)
    ensures r.Some? ==> bits <= |s| && r.value.rest == s[bits..]
    ensures r.Some? ==> r.value.value < Pow2(bits)
  {
    if bits == 0 then Some(Read(0, s))
    else if |s| == 0 || !s[0].Bit? then None
    else
      var high :- ReadBits(s[1..], bits - 1);
      var value: nat := (if s[0].b then 1 else 0) + 2 * high.value;
      Some(Read(value, high.rest))
  }

  /** Reading back a written bit field gives the value and the rest of the stream. */
  lemma {:induction false} ReadWriteBits(value: nat, bits: nat, rest: Stream)
    requires value < Pow2(bits)
    ensures ReadBits(WriteBits(value, bits) + rest, bits) == Some(Read(value, rest))
  {
    if bits > 0 {
      var s := WriteBits(value, bits) + rest;
      assert s[1..] == WriteBits(value / 2, bits - 1) + rest;
      ReadWriteBits(value / 2, bits - 1, rest);
    }
  }

  /** serialize_int on a writing stream: value - min in BitsRequired(min, max) bits. */
  function WriteInt(value: nat, min: nat, max: nat): (s: Stream)
    requires min <= value <= max
    ensures |s| == BitsRequired(min, max)
  {
    WriteBits(value - min, BitsRequired(min, max))
  }

  /**
   * serialize_int on a reading stream: reads BitsRequired(min, max) bits,
   * adds min, and fails when the result is above max.
   */
  function ReadInt(s: Stream, min: nat, max: nat): (r: Option<Read<nat>>)
    requires min <= max
    ensures r.Some? ==> min <= r.value.value <= max
    ensures r.Some? ==> BitsRequired(min, max) <= |s| && r.value.rest == s[BitsRequired(min, max)..]
  {
    var raw :- ReadBits(s, BitsRequired(min, max));
    var value: nat := min + raw.value;
    if value > max then None else Some(Read(value, raw.rest))
  }

  lemma ReadWriteInt(value: nat, min: nat, max: nat, rest: Stream)
    requires min <= value <= max
    ensures ReadInt(WriteInt(value, min, max) + rest, min, max) == Some(Read(value, rest))
  {
    ReadWriteBits(value - min, BitsRequired(min, max), rest);
  }

  /** A field whose bits hold a value above the declared maximum is rejected. */
  lemma ReadIntRejects(raw: nat, min: nat, max: nat, rest: Stream)
    requires min <= max
    requires raw < Pow2(BitsRequired(min, max)) && min + raw > max
    ensures ReadInt(WriteBits(raw, BitsRequired(min, max)) + rest, min, max) == None
  {
    ReadWriteBits(raw, BitsRequired(min, max), rest);
  }

  /** serialize_float: one opaque 32-bit word. */
  function ReadFloat(s: Stream): (r: Option<Read<real>>)
    ensures r.Some? <==> |s| > 0 && s[0].Float32?
    ensures r.Some? ==> r.value == Read(s[0].f, s[1..])
  {
    if |s| > 0 && s[0].Float32? then Some(Read(s[0].f, s[1..])) else None
  }

  /** serialize_double: one opaque 64-bit word. */
  function ReadDouble(s: Stream): (r: Option<Read<real>>)
    ensures r.Some? <==> |s| > 0 && s[0].Float64?
    ensures r.Some? ==> r.value == Read(s[0].d, s[1..])
  {
    if |s| > 0 && s[0].Float64? then Some(Read(s[0].d, s[1..])) else None
  }

  // ---------------------------------------------------------------------
  // Records
  // ---------------------------------------------------------------------

  predicate EncodablePlayer(p: Player) {
    IsUint32(p.id) && IsUint32(p.color)
  }

  /** One player record: id, x, y, velX, velY, size, color. */
  function EncodePlayer(p: Player): Stream
    requires EncodablePlayer(p)
  {
    Pow2Word();
    WriteBits(p.id, 32)
    + [Float32(p.position.x), Float32(p.position.y),
       Float32(p.velocity.x), Float32(p.velocity.y), Float32(p.size)]
    + WriteBits(p.color, 32)
  }

  function DecodePlayer(s: Stream): (r: Option<Read<Player>>)
    ensures r.Some? ==> EncodablePlayer(r.value.value)
  {
    var id :- ReadBits(s, 32);
    var x :- ReadFloat(id.rest);
    var y :- ReadFloat(x.rest);
    var vx :- ReadFloat(y.rest);
    var vy :- ReadFloat(vx.rest);
    var size :- ReadFloat(vy.rest);
    var color :- ReadBits(size.rest, 32);
    Pow2Word();
    Some(Read(Player(id.value, Vec(x.value, y.value), Vec(vx.value, vy.value), size.value, color.value),
              color.rest))
  }

  /** The five floats of a player entry read back one after another; a step of PlayerRoundTrip. */
  lemma ReadFiveFloats(a: real, b: real, c: real, d: real, e: real, tail: Stream)
    ensures var s := [Float32(a), Float32(b), Float32(c), Float32(d), Float32(e)] + tail;
      && ReadFloat(s) == Some(Read(a, s[1..]))
      && ReadFloat(s[1..]) == Some(Read(b, s[2..]))
      && ReadFloat(s[2..]) == Some(Read(c, s[3..]))
      && ReadFloat(s[3..]) == Some(Read(d, s[4..]))
      && ReadFloat(s[4..]) == Some(Read(e, s[5..]))
      && s[5..] == tail
  {
  }

  lemma PlayerRoundTrip(p: Player, rest: Stream)
    requires EncodablePlayer(p)
    ensures DecodePlayer(EncodePlayer(p) + rest) == Some(Read(p, rest))
  {
    var floats := [Float32(p.position.x), Float32(p.position.y),
                   Float32(p.velocity.x), Float32(p.velocity.y), Float32(p.size)];
    Pow2Word();
    var tail := WriteBits(p.color, 32) + rest;
    var s1 := floats + tail;
    assert EncodePlayer(p) + rest == WriteBits(p.id, 32) + s1;
    ReadWriteBits(p.id, 32, s1);
    ReadWriteBits(p.color, 32, rest);
    ReadFiveFloats(p.position.x, p.position.y, p.velocity.x, p.velocity.y, p.size, tail);
  }

  /** One food record: x, y and the tier in two bits. */
  function EncodeFood(f: FoodRecord): Stream
  {
    [Float32(f.x), Float32(f.y)] + WriteInt(TierIndex(f.tier), 0, 2)
  }

  function DecodeFood(s: Stream): Option<Read<FoodRecord>>
  {
    var x :- ReadFloat(s);
    var y :- ReadFloat(x.rest);
    var t :- ReadInt(y.rest, 0, 2);
    var tier :- TierOfIndex(t.value);
    Some(Read(FoodRecord(x.value, y.value, tier), t.rest))
  }

  lemma FoodRoundTrip(f: FoodRecord, rest: Stream)
    ensures DecodeFood(EncodeFood(f) + rest) == Some(Read(f, rest))
  {
    var tail := WriteInt(TierIndex(f.tier), 0, 2) + rest;
    assert EncodeFood(f) + rest == [Float32(f.x), Float32(f.y)] + tail;
    ReadWriteInt(TierIndex(f.tier), 0, 2, rest);
  }

  /** A tier field holding 3, the one 2-bit value with no tier, is rejected. */
  lemma FoodRejectsBadTier(x: real, y: real, rest: Stream)
    ensures DecodeFood([Float32(x), Float32(y)] + WriteBits(3, 2) + rest) == None
  {
    FieldWidths();
    var tail := WriteBits(3, 2) + rest;
    assert [Float32(x), Float32(y)] + WriteBits(3, 2) + rest == [Float32(x), Float32(y)] + tail;
    ReadIntRejects(3, 0, 2, rest);
  }

  function EncodePlayers(ps: seq<Player>): Stream
    requires forall i :: 0 <= i < |ps| ==> EncodablePlayer(ps[i])
  {
    if ps == [] then [] else EncodePlayer(ps[0]) + EncodePlayers(ps[1..])
  }

  /** The loop `for i < numPlayers` of the reading direction. */
  function DecodePlayers(s: Stream, n: nat): (r: Option<Read<seq<Player>>>)
    ensures r.Some? ==> |r.value.value| == n
    ensures r.Some? ==> forall i :: 0 <= i < n ==> EncodablePlayer(r.value.value[i])
  {
    if n == 0 then Some(Read([], s))
    else
      var p :- DecodePlayer(s);
      var ps :- DecodePlayers(p.rest, n - 1);
      Some(Read([p.value] + ps.value, ps.rest))
  }

  lemma {:induction false} PlayersRoundTrip(ps: seq<Player>, rest: Stream)
    requires forall i :: 0 <= i < |ps| ==> EncodablePlayer(ps[i])
    ensures DecodePlayers(EncodePlayers(ps) + rest, |ps|) == Some(Read(ps, rest))
  {
    if ps != [] {
      var tail := EncodePlayers(ps[1..]) + rest;
      assert EncodePlayers(ps) + rest == EncodePlayer(ps[0]) + tail;
      PlayerRoundTrip(ps[0], tail);
      PlayersRoundTrip(ps[1..], rest);
      assert DecodePlayer(EncodePlayers(ps) + rest) == Some(Read(ps[0], tail));
      assert DecodePlayers(tail, |ps| - 1) == Some(Read(ps[1..], rest));
      assert [ps[0]] + ps[1..] == ps;
    } else {
      assert EncodePlayers(ps) + rest == rest;
    }
  }

  function EncodeFoods(fs: seq<FoodRecord>): Stream
  {
    if fs == [] then [] else EncodeFood(fs[0]) + EncodeFoods(fs[1..])
  }

  /** The loop `for i < numFoodItems` of the reading direction. */
  function DecodeFoods(s: Stream, n: nat): (r: Option<Read<seq<FoodRecord>>>)
    ensures r.Some? ==> |r.value.value| == n
  {
    if n == 0 then Some(Read([], s))
    else
      var f :- DecodeFood(s);
      var fs :- DecodeFoods(f.rest, n - 1);
      Some(Read([f.value] + fs.value, fs.rest))
  }

  lemma {:induction false} FoodsRoundTrip(fs: seq<FoodRecord>, rest: Stream)
    ensures DecodeFoods(EncodeFoods(fs) + rest, |fs|) == Some(Read(fs, rest))
  {
    if fs != [] {
      var tail := EncodeFoods(fs[1..]) + rest;
      assert EncodeFoods(fs) + rest == EncodeFood(fs[0]) + tail;
      FoodRoundTrip(fs[0], tail);
      FoodsRoundTrip(fs[1..], rest);
      assert DecodeFood(EncodeFoods(fs) + rest) == Some(Read(fs[0], tail));
      assert DecodeFoods(tail, |fs| - 1) == Some(Read(fs[1..], rest));
      assert [fs[0]] + fs[1..] == fs;
    } else {
      assert EncodeFoods(fs) + rest == rest;
    }
  }

  // ---------------------------------------------------------------------
  // WorldStateMessage
  // ---------------------------------------------------------------------

  /** The three header fields of a world-state message. */
  datatype Header = Header(tick: nat, timestamp: real, ack: nat)

  /** serverTick, timestamp and lastProcessedInputSeq, writing. */
  function EncodeHeader(h: Header): Stream
    requires IsUint32(h.tick) && IsUint32(h.ack)
  {
    Pow2Word();
    WriteBits(h.tick, 32) + [Float64(h.timestamp)] + WriteBits(h.ack, 32)
  }

  /** serverTick, timestamp and lastProcessedInputSeq, reading. */
  function DecodeHeader(s: Stream): (r: Option<Read<Header>>)
    ensures r.Some? ==> IsUint32(r.value.value.tick) && IsUint32(r.value.value.ack)
  {
    var tick :- ReadBits(s, 32);
    var timestamp :- ReadDouble(tick.rest);
    var ack :- ReadBits(timestamp.rest, 32);
    Pow2Word();
    Some(Read(Header(tick.value, timestamp.value, ack.value), ack.rest))
  }

  lemma HeaderRoundTrip(h: Header, rest: Stream)
    requires IsUint32(h.tick) && IsUint32(h.ack)
    ensures DecodeHeader(EncodeHeader(h) + rest) == Some(Read(h, rest))
  {
    Pow2Word();
    var ackPart := WriteBits(h.ack, 32) + rest;
    var tsPart := [Float64(h.timestamp)] + ackPart;
    assert EncodeHeader(h) + rest == WriteBits(h.tick, 32) + tsPart;
    ReadWriteBits(h.tick, 32, tsPart);
    ReadWriteBits(h.ack, 32, rest);
  }

  /** The player half of the message: numPlayers, then the player records. */
  function EncodePlayerSection(ps: seq<Player>): Stream
    requires |ps| <= MAX_PLAYERS && forall i :: 0 <= i < |ps| ==> EncodablePlayer(ps[i])
  {
    WriteInt(|ps|, 0, MAX_PLAYERS) + EncodePlayers(ps)
  }

  /** The player half of the reading direction; the count is at most MAX_PLAYERS. */
  function DecodePlayerSection(s: Stream): (r: Option<Read<seq<Player>>>)
    ensures r.Some? ==> |r.value.value| <= MAX_PLAYERS
    ensures r.Some? ==> forall i :: 0 <= i < |r.value.value| ==> EncodablePlayer(r.value.value[i])
  {
    var n :- ReadInt(s, 0, MAX_PLAYERS);
    DecodePlayers(n.rest, n.value)
  }

  lemma PlayerSectionRoundTrip(ps: seq<Player>, rest: Stream)
    requires |ps| <= MAX_PLAYERS && forall i :: 0 <= i < |ps| ==> EncodablePlayer(ps[i])
    ensures DecodePlayerSection(EncodePlayerSection(ps) + rest) == Some(Read(ps, rest))
  {
    var tail := EncodePlayers(ps) + rest;
    assert EncodePlayerSection(ps) + rest == WriteInt(|ps|, 0, MAX_PLAYERS) + tail;
    ReadWriteInt(|ps|, 0, MAX_PLAYERS, tail);
    PlayersRoundTrip(ps, rest);
  }

  /** A player count in 17..31 (it fits the five bits) is rejected. */
  lemma PlayerSectionRejectsCount(count: nat, rest: Stream)
    requires MAX_PLAYERS < count < Pow2(BitsRequired(0, MAX_PLAYERS))
    ensures DecodePlayerSection(WriteBits(count, BitsRequired(0, MAX_PLAYERS)) + rest) == None
  {
    ReadIntRejects(count, 0, MAX_PLAYERS, rest);
  }

  /** The food half of the message: numFoodItems, then the food records. */
  function EncodeFoodSection(fs: seq<FoodRecord>): Stream
    requires |fs| <= MAX_FOOD
  {
    WriteInt(|fs|, 0, MAX_FOOD) + EncodeFoods(fs)
  }

  /** The food half of the reading direction; the count is at most MAX_FOOD. */
  function DecodeFoodSection(s: Stream): (r: Option<Read<seq<FoodRecord>>>)
    ensures r.Some? ==> |r.value.value| <= MAX_FOOD
  {
    var n :- ReadInt(s, 0, MAX_FOOD);
    DecodeFoods(n.rest, n.value)
  }

  lemma FoodSectionRoundTrip(fs: seq<FoodRecord>, rest: Stream)
    requires |fs| <= MAX_FOOD
    ensures DecodeFoodSection(EncodeFoodSection(fs) + rest) == Some(Read(fs, rest))
  {
    var tail := EncodeFoods(fs) + rest;
    assert EncodeFoodSection(fs) + rest == WriteInt(|fs|, 0, MAX_FOOD) + tail;
    ReadWriteInt(|fs|, 0, MAX_FOOD, tail);
    FoodsRoundTrip(fs, rest);
  }

  /** A food count in 129..255 (it fits the eight bits) is rejected. */
  lemma FoodSectionRejectsCount(count: nat, rest: Stream)
    requires MAX_FOOD < count < Pow2(BitsRequired(0, MAX_FOOD))
    ensures DecodeFoodSection(WriteBits(count, BitsRequired(0, MAX_FOOD)) + rest) == None
  {
    ReadIntRejects(count, 0, MAX_FOOD, rest);
  }

  /** WorldStateMessage::Serialize, writing. */
  function EncodeWorldState(m: WorldStateMessage): Stream
    requires m.WellFormed()
  {
    EncodeHeader(Header(m.serverTick, m.timestamp, m.lastProcessedInputSeq))
    + EncodePlayerSection(m.players)
    + EncodeFoodSection(m.food)
  }

  /**
   * WorldStateMessage::Serialize, reading. Fails when the stream runs out,
   * when a count is above its maximum or when a tier is not 0, 1 or 2; what
   * it accepts is always a well-formed message.
   */
  function DecodeWorldState(s: Stream): (r: Option<Read<WorldStateMessage>>)
    ensures r.Some? ==> r.value.value.WellFormed()
  {
    var h :- DecodeHeader(s);
    var players :- DecodePlayerSection(h.rest);
    var food :- DecodeFoodSection(players.rest);
    Some(Read(WorldStateMessage(h.value.tick, h.value.timestamp, h.value.ack, players.value, food.value),
              food.rest))
  }

  /** Decoding an encoded well-formed message gives it back, and the rest of the stream. */
  lemma WorldStateRoundTrip(m: WorldStateMessage, rest: Stream)
    requires m.WellFormed()
    ensures DecodeWorldState(EncodeWorldState(m) + rest) == Some(Read(m, rest))
  {
    var h := Header(m.serverTick, m.timestamp, m.lastProcessedInputSeq);
    var foodPart := EncodeFoodSection(m.food) + rest;
    var playersPart := EncodePlayerSection(m.players) + foodPart;
    var s := EncodeWorldState(m) + rest;
    SectionsAssociate(EncodeHeader(h), EncodePlayerSection(m.players), EncodeFoodSection(m.food), rest);
    assert s == EncodeHeader(h) + playersPart;
    HeaderRoundTrip(h, playersPart);
    PlayerSectionRoundTrip(m.players, foodPart);
    FoodSectionRoundTrip(m.food, rest);
    assert DecodeHeader(s) == Some(Read(h, playersPart));
    assert DecodePlayerSection(playersPart) == Some(Read(m.players, foodPart));
    assert DecodeFoodSection(foodPart) == Some(Read(m.food, rest));
    assert m == WorldStateMessage(h.tick, h.timestamp, h.ack, m.players, m.food);
  }

  /**
   * The three sections followed by the rest of the stream, regrouped from
   * the right; a step of WorldStateRoundTrip.
   */
  lemma SectionsAssociate(a: Stream, b: Stream, c: Stream, rest: Stream)
    ensures a + b + c + rest == a + (b + (c + rest))
  {
  }

  /** A player count in 17..31 after a valid header fails the whole message. */
  lemma WorldStateRejectsPlayerCount(h: Header, count: nat, rest: Stream)
    requires IsUint32(h.tick) && IsUint32(h.ack)
    requires MAX_PLAYERS < count < Pow2(BitsRequired(0, MAX_PLAYERS))
    ensures DecodeWorldState(EncodeHeader(h) + WriteBits(count, BitsRequired(0, MAX_PLAYERS)) + rest) == None
  {
    var tail := WriteBits(count, BitsRequired(0, MAX_PLAYERS)) + rest;
    assert EncodeHeader(h) + WriteBits(count, BitsRequired(0, MAX_PLAYERS)) + rest == EncodeHeader(h) + tail;
    HeaderRoundTrip(h, tail);
    PlayerSectionRejectsCount(count, rest);
  }

  /** A food count in 129..255 after a valid header and player section fails the whole message. */
  lemma WorldStateRejectsFoodCount(h: Header, players: seq<Player>, count: nat, rest: Stream)
    requires IsUint32(h.tick) && IsUint32(h.ack)
    requires |players| <= MAX_PLAYERS && forall i :: 0 <= i < |players| ==> EncodablePlayer(players[i])
    requires MAX_FOOD < count < Pow2(BitsRequired(0, MAX_FOOD))
    ensures DecodeWorldState(
      EncodeHeader(h) + EncodePlayerSection(players) + WriteBits(count, BitsRequired(0, MAX_FOOD)) + rest) == None
  {
    var foodPart := WriteBits(count, BitsRequired(0, MAX_FOOD)) + rest;
    var playersPart := EncodePlayerSection(players) + foodPart;
    assert EncodeHeader(h) + EncodePlayerSection(players) + WriteBits(count, BitsRequired(0, MAX_FOOD)) + rest
      == EncodeHeader(h) + playersPart;
    HeaderRoundTrip(h, playersPart);
    PlayerSectionRoundTrip(players, foodPart);
    FoodSectionRejectsCount(count, rest);
  }

  // ---------------------------------------------------------------------
  // PlayerInputMessage
  // ---------------------------------------------------------------------

  /** PlayerInputMessage::Serialize, writing: sequence number, timestamp, moveX, moveY. */
  function EncodeInput(m: InputMessage): Stream
    requires m.WellFormed()
  {
    Pow2Word();
    WriteBits(m.sequenceNumber, 32) + [Float64(m.timestamp), Float32(m.moveX), Float32(m.moveY)]
  }

  /** PlayerInputMessage::Serialize, reading. */
  function DecodeInput(s: Stream): (r: Option<Read<InputMessage>>)
    ensures r.Some? ==> r.value.value.WellFormed()
  {
    var sequence :- ReadBits(s, 32);
    var timestamp :- ReadDouble(sequence.rest);
    var moveX :- ReadFloat(timestamp.rest);
    var moveY :- ReadFloat(moveX.rest);
    Pow2Word();
    Some(Read(InputMessage(sequence.value, timestamp.value, moveX.value, moveY.value), moveY.rest))
  }

  lemma InputRoundTrip(m: InputMessage, rest: Stream)
    requires m.WellFormed()
    ensures DecodeInput(EncodeInput(m) + rest) == Some(Read(m, rest))
  {
    Pow2Word();
    var words := [Float64(m.timestamp), Float32(m.moveX), Float32(m.moveY)] + rest;
    assert EncodeInput(m) + rest == WriteBits(m.sequenceNumber, 32) + words;
    ReadWriteBits(m.sequenceNumber, 32, words);
    assert ReadDouble(words) == Some(Read(m.timestamp, words[1..]));
    assert ReadFloat(words[1..]) == Some(Read(m.moveX, words[2..]));
    assert ReadFloat(words[2..]) == Some(Read(m.moveY, words[3..]));
    assert words[3..] == rest;
  }
}
