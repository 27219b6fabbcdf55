/** encode_frame of bridge_transport.py and the incremental reader of game_viewer.c that
    takes its frames apart again, however the pipe splits them. */
module ViewerFrames {
  import opened Options
  import opened Bytes
  import R = GameRecords

  const MAX_FRAME: nat := 256

  function Framed(data: seq<byte>): seq<byte> {
    Big(|data|, 4) + data
  }

  /** Refuses exactly what is empty or too long; the packets of the game are neither, and
      what is written always starts with the length a reader needs. */
  function EncodeFrame(data: seq<byte>): (r: Option<seq<byte>>)
    ensures r.None? <==> data == [] || |data| > MAX_FRAME
    ensures IsPacket(data) ==> r == Some(Framed(data))
    ensures r.Some? ==> |r.value| == 4 + |data| && r.value[..4] == Big(|data|, 4) && r.value[4..] == data
  {
    if 0 < |data| <= MAX_FRAME then Some(Framed(data)) else None
  }

  // ---- `message`: what the viewer does with one packet

  datatype Shown = Nothing | Showing(view: R.View)

  const WAITING: byte := 7

  /** A later record must belong to the same match, session and slot, and its clock and
      sequence must not go back. */
  predicate Follows(next: R.View, last: R.View) {
    && next.match_ == last.match_ && next.session == last.session && next.slot == last.slot
    && next.tick >= last.tick && next.sequence >= last.sequence
  }

  function Message(shown: Shown, packet: seq<byte>): Option<Shown> {
    if |packet| == 5 && packet[..4] == R.LGRE then
      if packet[4] == WAITING then Some(shown) else None
    else
      match R.DecodeView(packet)
      case None => None
      case Some(next) =>
        if shown.Showing? && !Follows(next, shown.view) then None else Some(Showing(next))
  }

  // ---- The reader, one byte at a time

  /** A reader that met a bad length or a refused packet reads no more. */
  datatype Reader =
    | Reading(buffer: seq<byte>, wanted: nat, delivered: seq<seq<byte>>, shown: Shown)
    | Stopped(delivered: seq<seq<byte>>)

  ghost predicate ReaderInv(r: Reader) {
    r.Reading? ==>
      && |r.buffer| < r.wanted && r.wanted in {4, 9, 84}
      && (r.wanted != 4 ==> |r.buffer| >= 4)
  }

  /** What a buffer that has just been filled turns into. */
  function Full(r: Reader): (r': Reader)
    requires r.Reading? && |r.buffer| == r.wanted && r.wanted in {4, 9, 84}
    ensures ReaderInv(r')
  {
    if r.wanted == 4 then
      var length := FromBig(r.buffer);
      if length != 80 && length != 5 then Stopped(r.delivered) else r.(wanted := 4 + length)
    else
      match Message(r.shown, r.buffer[4..])
      case None => Stopped(r.delivered)
      case Some(shown) => Reading([], 4, r.delivered + [r.buffer[4..]], shown)
  }

  function Feed(r: Reader, b: byte): (r': Reader)
    requires ReaderInv(r)
    ensures ReaderInv(r')
  {
    if r.Stopped? then r
    else
      var filled := r.(buffer := r.buffer + [b]);
      if |filled.buffer| != r.wanted then filled else Full(filled)
  }

  function FeedAll(r: Reader, bytes: seq<byte>): (r': Reader)
    requires ReaderInv(r)
    ensures ReaderInv(r')
  {
    if bytes == [] then r
    else Feed(FeedAll(r, bytes[..|bytes| - 1]), bytes[|bytes| - 1])
  }

  lemma {:induction false} FeedSplit(r: Reader, a: seq<byte>, b: seq<byte>)
    requires ReaderInv(r)
    ensures FeedAll(r, a + b) == FeedAll(FeedAll(r, a), b)
    decreases |b|
  {
    if b == [] {
      assert a + b == a;
    } else {
      assert (a + b)[..|a + b| - 1] == a + b[..|b| - 1];
      FeedSplit(r, a, b[..|b| - 1]);
    }
  }

  /** Bytes that stay short of what is wanted only fill the buffer. */
  lemma {:induction false} FeedShort(r: Reader, bytes: seq<byte>)
    requires ReaderInv(r) && r.Reading? && |r.buffer| + |bytes| < r.wanted
    ensures FeedAll(r, bytes) == r.(buffer := r.buffer + bytes)
  {
    if bytes == [] {
      assert r.buffer + bytes == r.buffer;
    } else {
      var n := |bytes| - 1;
      FeedShort(r, bytes[..n]);
      assert r.buffer + bytes[..n] + [bytes[n]] == r.buffer + bytes;
    }
  }

  // ---- A whole packet, a whole stream

  predicate IsPacket(p: seq<byte>) {
    |p| == 5 || |p| == 80
  }

  function Stream(packets: seq<seq<byte>>): seq<byte> {
    if packets == [] then []
    else Stream(packets[..|packets| - 1]) + Framed(packets[|packets| - 1])
  }

  /** Handing the packets over one after the other, with no frames at all. */
  function HandOver(r: Reader, packets: seq<seq<byte>>): (r': Reader)
    requires r.Reading? ==> r.buffer == [] && r.wanted == 4
    ensures r'.Reading? ==> r'.buffer == [] && r'.wanted == 4
  {
    if packets == [] then r
    else
      match HandOver(r, packets[..|packets| - 1])
      case Stopped(delivered) => Stopped(delivered)
      case Reading(_, _, delivered, shown) =>
        var last := packets[|packets| - 1];
        match Message(shown, last)
        case None => Stopped(delivered)
        case Some(shown') => Reading([], 4, delivered + [last], shown')
  }

  lemma FeedFilling(r: Reader, bytes: seq<byte>)
    requires ReaderInv(r) && r.Reading? && bytes != [] && |r.buffer| + |bytes| == r.wanted
    ensures FeedAll(r, bytes) == Full(r.(buffer := r.buffer + bytes))
  {
    var n := |bytes| - 1;
    FeedShort(r, bytes[..n]);
    assert r.buffer + bytes[..n] + [bytes[n]] == r.buffer + bytes;
  }

  lemma FeedHeader(r: Reader, length: nat)
    requires r.Reading? && r.buffer == [] && r.wanted == 4 && (length == 5 || length == 80)
    ensures FeedAll(r, Big(length, 4)) == r.(buffer := Big(length, 4), wanted := 4 + length)
  {
    PowValues();
    BigRoundTrip(length, 4);
    FeedFilling(r, Big(length, 4));
    assert [] + Big(length, 4) == Big(length, 4);
  }

  lemma FeedBody(r: Reader, header: seq<byte>, packet: seq<byte>)
    requires r.Reading? && |header| == 4 && IsPacket(packet)
    requires r.buffer == header && r.wanted == 4 + |packet|
    ensures FeedAll(r, packet) == Full(r.(buffer := header + packet))
    ensures (header + packet)[4..] == packet
  {
    FeedFilling(r, packet);
  }

  lemma HandOne(r: Reader, packet: seq<byte>)
    requires r.Reading? && r.buffer == [] && r.wanted == 4 && IsPacket(packet)
    ensures HandOver(r, [packet]) ==
            match Message(r.shown, packet)
            case None => Stopped(r.delivered)
            case Some(shown) => Reading([], 4, r.delivered + [packet], shown)
  {
    var single: seq<seq<byte>> := [packet];
    assert single[..0] == [] && HandOver(r, single[..0]) == r;
  }

  lemma FeedPacket(r: Reader, packet: seq<byte>)
    requires r.Reading? && r.buffer == [] && r.wanted == 4 && IsPacket(packet)
    ensures FeedAll(r, Framed(packet)) == HandOver(r, [packet])
  {
    var header := Big(|packet|, 4);
    FeedHeader(r, |packet|);
    FeedBody(r.(buffer := header, wanted := 4 + |packet|), header, packet);
    FeedSplit(r, header, packet);
    HandOne(r, packet);
  }

  lemma StoppedStays(r: Reader, bytes: seq<byte>)
    requires r.Stopped?
    ensures FeedAll(r, bytes) == r
  {
    if bytes != [] {
      StoppedStays(r, bytes[..|bytes| - 1]);
    }
  }

  /** The reader fed the frames of a list of packets delivers exactly that list, in
      order, as if each had been handed to `message` directly. */
  lemma {:induction false} StreamDelivers(r: Reader, packets: seq<seq<byte>>)
    requires r.Reading? && r.buffer == [] && r.wanted == 4
    requires forall i :: 0 <= i < |packets| ==> IsPacket(packets[i])
    ensures FeedAll(r, Stream(packets)) == HandOver(r, packets)
  {
    if packets != [] {
      var init, last := packets[..|packets| - 1], packets[|packets| - 1];
      StreamDelivers(r, init);
      var mid := HandOver(r, init);
      var frame := Framed(last);
      FeedSplit(r, Stream(init), frame);
      if mid.Stopped? {
        StoppedStays(mid, frame);
      } else {
        FeedPacket(mid, last);
        HandOne(mid, last);
      }
    }
  }

  lemma {:induction false} HandOverDelivers(r: Reader, packets: seq<seq<byte>>)
    requires r.Reading? && r.buffer == [] && r.wanted == 4
    ensures HandOver(r, packets).Reading? ==> HandOver(r, packets).delivered == r.delivered + packets
    ensures HandOver(r, packets).delivered <= r.delivered + packets
  {
    if packets != [] {
      var n := |packets| - 1;
      HandOverDelivers(r, packets[..n]);
      assert r.delivered + packets[..n] + [packets[n]] == r.delivered + packets;
    } else {
      assert r.delivered + packets == r.delivered;
    }
  }

  /** Part of a frame delivers nothing yet. */
  lemma PartialFrame(r: Reader, packet: seq<byte>, k: nat)
    requires r.Reading? && r.buffer == [] && r.wanted == 4 && IsPacket(packet) && k < 4 + |packet|
    ensures FeedAll(r, Framed(packet)[..k]).Reading?
    ensures FeedAll(r, Framed(packet)[..k]).delivered == r.delivered
  {
    var part := Framed(packet)[..k];
    if k < 4 {
      FeedShort(r, part);
    } else {
      var header, rest := Big(|packet|, 4), packet[..k - 4];
      FeedHeader(r, |packet|);
      FeedShort(r.(buffer := header, wanted := 4 + |packet|), rest);
      assert part == header + rest;
      FeedSplit(r, header, rest);
    }
  }

  /** However much of the stream has arrived, and even if a packet was refused, what was
      delivered is a prefix of the packets: nothing is lost, repeated, reordered or made up. */
  lemma {:induction false} DeliversPrefix(r: Reader, packets: seq<seq<byte>>, k: nat)
    requires r.Reading? && r.buffer == [] && r.wanted == 4 && r.delivered == []
    requires forall i :: 0 <= i < |packets| ==> IsPacket(packets[i])
    requires k <= |Stream(packets)|
    ensures FeedAll(r, Stream(packets)[..k]).delivered <= packets
    decreases |packets|
  {
    if packets != [] {
      var init, last := packets[..|packets| - 1], packets[|packets| - 1];
      var start := Stream(init);
      if k <= |start| {
        assert Stream(packets)[..k] == start[..k];
        DeliversPrefix(r, init, k);
      } else if k == |Stream(packets)| {
        assert Stream(packets)[..k] == Stream(packets);
        StreamDelivers(r, packets);
        HandOverDelivers(r, packets);
      } else {
        var j := k - |start|;
        assert Stream(packets)[..k] == start + Framed(last)[..j];
        FeedSplit(r, start, Framed(last)[..j]);
        StreamDelivers(r, init);
        HandOverDelivers(r, init);
        if HandOver(r, init).Stopped? {
          StoppedStays(HandOver(r, init), Framed(last)[..j]);
        } else {
          PartialFrame(HandOver(r, init), last, j);
        }
      }
    }
  }

  // ---- `receive`

  /** What one read of the pipe does. */
  datatype ReadEvent = Chunk(size: nat) | Interrupted | WouldBlock | Broken

  /** How many bytes a read of `want` returns when `left` are there. */
  function Given(size: nat, want: nat, left: nat): (n: nat)
    requires want > 0 && left > 0
    ensures 1 <= n <= want && n <= left
  {
    var n := if size < 1 then 1 else if size > want then want else size;
    if n > left then left else n
  }

  lemma FeedMore(r: Reader, pipe: seq<byte>, taken: nat, now: nat)
    requires ReaderInv(r) && taken <= now <= |pipe|
    ensures FeedAll(r, pipe[..now]) == FeedAll(FeedAll(r, pipe[..taken]), pipe[taken..now])
  {
    assert pipe[..taken] + pipe[taken..now] == pipe[..now];
    FeedSplit(r, pipe[..taken], pipe[taken..now]);
  }

  class Viewer {
    const buffer: array<byte>
    var used: nat
    var wanted: nat
    var shown: Shown
    ghost var delivered: seq<seq<byte>>

    ghost predicate Valid()
      reads this, buffer
    {
      && buffer.Length == 84
      && (wanted == 0 ==> used == 0)
      && used <= wanted <= 84
      && ReaderInv(Value())
    }

    /** A `wanted` of zero means nothing was read yet. */
    ghost function Value(): Reader
      reads this, buffer
      requires buffer.Length == 84 && used <= 84
    {
      Reading(buffer[..used], if wanted == 0 then 4 else wanted, delivered, shown)
    }

    constructor ()
      ensures Valid() && fresh(buffer) && Value() == Reading([], 4, [], Nothing)
    {
      buffer := new byte[84](_ => 0);
      used, wanted, shown, delivered := 0, 0, Nothing, [];
    }

    /** The buffer is full: read its length, or hand its packet to `message`. */
    method Complete() returns (ok: bool)
      requires buffer.Length == 84 && used == wanted && wanted in {4, 9, 84}
      modifies this
      ensures ok ==> Valid() && Value() == Full(old(Value()))
      ensures !ok ==> Full(old(Value())) == Stopped(delivered)
    {
      assert buffer[..used] == buffer[..wanted];
      if wanted == 4 {
        var length := BigEndian4(buffer);
        if length != 80 && length != 5 {
          return false;
        }
        wanted := 4 + length;
      } else {
        assert buffer[..used][4..] == buffer[4..wanted];
        var result := Message(shown, buffer[4..wanted]);
        if result.None? {
          return false;
        }
        delivered := delivered + [buffer[4..wanted]];
        shown := result.value;
        used, wanted := 0, 4;
      }
      return true;
    }

    /** The bytes of one read. */
    method Absorb(chunk: seq<byte>) returns (ok: bool)
      requires Valid() && 1 <= |chunk| <= wanted - used
      modifies this, buffer
      ensures ok ==> Valid() && Value() == FeedAll(old(Value()), chunk)
      ensures !ok ==> FeedAll(old(Value()), chunk) == Stopped(delivered)
    {
      ghost var before := Value();
      forall k | 0 <= k < |chunk| {
        buffer[used + k] := chunk[k];
      }
      assert buffer[..used + |chunk|] == before.buffer + chunk;
      used := used + |chunk|;
      if used != wanted {
        FeedShort(before, chunk);
        return true;
      }
      FeedFilling(before, chunk);
      ok := Complete();
    }

    method Prepare()
      requires Valid()
      modifies this`wanted
      ensures Valid() && Value() == old(Value()) && wanted > 0
    {
      if wanted == 0 {
        wanted := 4;
      }
    }

    method AbsorbAt(ghost start: Reader, pipe: seq<byte>, taken: nat, now: nat) returns (ok: bool)
      requires Valid() && taken < now <= |pipe| && now - taken <= wanted - used
      requires ReaderInv(start) && Value() == FeedAll(start, pipe[..taken])
      modifies this, buffer
      ensures ok ==> Valid() && Value() == FeedAll(start, pipe[..now])
      ensures !ok ==> FeedAll(start, pipe[..now]) == Stopped(delivered)
    {
      FeedMore(start, pipe, taken, now);
      var chunk := pipe[taken..now];
      ok := Absorb(chunk);
    }

    /** One read of the pipe and what follows from it. */
    method ReadOnce(ghost start: Reader, pipe: seq<byte>, taken: nat, event: ReadEvent) returns (ok: bool, now: nat)
      requires Valid() && !event.WouldBlock? && taken <= |pipe|
      requires ReaderInv(start) && Value() == FeedAll(start, pipe[..taken])
      modifies this, buffer
      ensures taken <= now <= |pipe|
      ensures ok ==> Valid() && Value() == FeedAll(start, pipe[..now])
      ensures !ok ==> FeedAll(start, pipe[..now]) == Stopped(delivered) || event.Broken? || now == |pipe|
    {
      Prepare();
      if event.Interrupted? {
        return true, taken;
      }
      if event.Broken? || taken == |pipe| {
        return false, taken;
      }
      var count := Given(event.size, wanted - used, |pipe| - taken);
      now := taken + count;
      ok := AbsorbAt(start, pipe, taken, now);
    }

    /** Reads at most sixteen times from `pipe`, the bytes still to come; `schedule` says
        how each read behaves. Returns how many bytes were taken. */
    method Receive(pipe: seq<byte>, schedule: seq<ReadEvent>) returns (ok: bool, taken: nat)
      requires Valid() && |schedule| == 16
      modifies this, buffer
      ensures taken <= |pipe|
      ensures ok ==> Valid() && Value() == FeedAll(old(Value()), pipe[..taken])
      ensures !ok ==>
                || FeedAll(old(Value()), pipe[..taken]) == Stopped(delivered)
                || Broken in schedule || taken == |pipe|
    {
      taken := 0;
      ghost var start := Value();
      var i := 0;
      while i < 16
        invariant 0 <= i <= 16 && taken <= |pipe|
        invariant Valid() && Value() == FeedAll(start, pipe[..taken])
      {
        var event := schedule[i];
        i := i + 1;
        if event.WouldBlock? {
          return true, taken;
        }
        ok, taken := ReadOnce(start, pipe, taken, event);
        if !ok {
          return false, taken;
        }
      }
      return true, taken;
    }
  }

  method BigEndian4(buffer: array<byte>) returns (length: nat)
    requires buffer.Length >= 4
    ensures length == FromBig(buffer[..4])
  {
    var b := buffer[..4];
    assert FromBig(b) == 256 * FromBig(b[..3]) + b[3];
    assert b[..3][..2] == b[..2] && b[..2][..1] == b[..1];
    assert FromBig(b[..3]) == 256 * FromBig(b[..2]) + b[2];
    assert FromBig(b[..2]) == 256 * FromBig(b[..1]) + b[1];
    assert FromBig(b[..1]) == b[0];
    var b0: int, b1: int, b2: int, b3: int := buffer[0], buffer[1], buffer[2], buffer[3];
    length := b0 * 0x100_0000 + b1 * 0x1_0000 + b2 * 0x100 + b3;
  }
}
