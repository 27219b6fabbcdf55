/** frame and read_frame of gateway_protocol.py: the length-prefixed frames of the tunnel
    (each with a type byte) and of the private pipe (without). */
module TunnelFrames {
  import opened Options
  import opened Bytes

  const MAX_PAYLOAD: nat := 4096

  /** A frame as its reader returns it; `kind` is absent on the private pipe. */
  datatype Packet = Packet(kind: Option<byte>, payload: seq<byte>)

  predicate Sendable(p: Packet, tunnel: bool) {
    && 1 <= |p.payload| <= MAX_PAYLOAD
    && p.kind.Some? == tunnel && (tunnel ==> p.kind.value in {1, 2})
  }

  function Body(p: Packet): seq<byte> {
    (if p.kind.Some? then [p.kind.value] else []) + p.payload
  }

  function Frame(p: Packet): Option<seq<byte>> {
    if !(1 <= |p.payload| <= MAX_PAYLOAD) || (p.kind.Some? && p.kind.value !in {1, 2}) then None
    else Some(Big(|Body(p)|, 4) + Body(p))
  }

  datatype Read = Got(packet: Packet, rest: seq<byte>) | Incomplete | BadSize | BadType

  function ReadFrame(stream: seq<byte>, tunnel: bool): (r: Read)
    ensures r.Got? ==> |r.rest| < |stream|
  {
    if |stream| < 4 then Incomplete
    else
      var size := FromBig(stream[..4]);
      if size < (if tunnel then 2 else 1) || size > (if tunnel then 4097 else 4096) then BadSize
      else if |stream| < 4 + size then Incomplete
      else
        var data := stream[4..4 + size];
        if !tunnel then Got(Packet(None, data), stream[4 + size..])
        else if data[0] !in {1, 2} then BadType
        else Got(Packet(Some(data[0]), data[1..]), stream[4 + size..])
  }

  /** Every frame of a stream that ends exactly after one, else nothing. */
  function ReadAll(stream: seq<byte>, tunnel: bool): Option<seq<Packet>>
    decreases |stream|
  {
    if stream == [] then Some([])
    else
      match ReadFrame(stream, tunnel)
      case Got(packet, rest) =>
        (match ReadAll(rest, tunnel) case Some(more) => Some([packet] + more) case None => None)
      case _ => None
  }

  function Written(packets: seq<Packet>, tunnel: bool): seq<byte>
    requires forall p :: p in packets ==> Sendable(p, tunnel)
  {
    if packets == [] then []
    else
      assert packets[0] in packets && Sendable(packets[0], tunnel);
      Frame(packets[0]).value + Written(packets[1..], tunnel)
  }

  lemma FirstReadsBack(p: Packet, rest: seq<byte>, tunnel: bool)
    requires Sendable(p, tunnel)
    ensures Frame(p).Some? && ReadFrame(Frame(p).value + rest, tunnel) == Got(p, rest)
  {
    PowValues();
    var n := |Body(p)|;
    BigRoundTrip(n, 4);
    var stream := Frame(p).value + rest;
    assert stream[..4] == Big(n, 4);
    assert stream[4..4 + n] == Body(p) && stream[4 + n..] == rest;
    if tunnel {
      assert Body(p)[1..] == p.payload;
    } else {
      assert Body(p) == p.payload;
    }
  }

  lemma FirstRewrites(stream: seq<byte>, tunnel: bool)
    requires ReadFrame(stream, tunnel).Got?
    ensures var Got(p, rest) := ReadFrame(stream, tunnel);
            Sendable(p, tunnel) && stream == Frame(p).value + rest
  {
    var Got(p, rest) := ReadFrame(stream, tunnel);
    var size := FromBig(stream[..4]);
    BigBytes(stream[..4]);
    BodyRead(stream, tunnel);
    Recut(stream, 4, 4 + size);
  }

  lemma BodyRead(stream: seq<byte>, tunnel: bool)
    requires ReadFrame(stream, tunnel).Got?
    ensures var r, size := ReadFrame(stream, tunnel), FromBig(stream[..4]);
            Sendable(r.packet, tunnel) && Body(r.packet) == stream[4..4 + size] && r.rest == stream[4 + size..]
  {
    var data := stream[4..4 + FromBig(stream[..4])];
    assert data == [data[0]] + data[1..];
  }

  lemma Recut(s: seq<byte>, i: nat, j: nat)
    requires i <= j <= |s|
    ensures s == s[..i] + s[i..j] + s[j..]
  {
  }

  /** A stream reads as a list of packets if and only if it is what writing exactly those
      packets produces. */
  lemma {:induction false} ReadsExactlyWritten(stream: seq<byte>, packets: seq<Packet>, tunnel: bool)
    ensures ReadAll(stream, tunnel) == Some(packets) <==>
            (forall p :: p in packets ==> Sendable(p, tunnel)) && stream == Written(packets, tunnel)
    decreases |packets|
  {
    if packets == [] {
      if ReadAll(stream, tunnel) == Some(packets) {
        assert stream == [];
      }
    } else {
      if ReadAll(stream, tunnel) == Some(packets) {
        var Got(p, rest) := ReadFrame(stream, tunnel);
        var more := ReadAll(rest, tunnel).value;
        assert packets == [p] + more && packets[1..] == more;
        FirstRewrites(stream, tunnel);
        ReadsExactlyWritten(rest, packets[1..], tunnel);
      }
      if (forall p :: p in packets ==> Sendable(p, tunnel)) && stream == Written(packets, tunnel) {
        var rest := Written(packets[1..], tunnel);
        assert Sendable(packets[0], tunnel);
        FirstReadsBack(packets[0], rest, tunnel);
        ReadsExactlyWritten(rest, packets[1..], tunnel);
        assert packets == [packets[0]] + packets[1..];
      }
    }
  }

  /** What can be framed, and the bytes that makes: a big-endian length of all that follows,
      the type if there is one, the payload. */
  lemma FrameExactly(p: Packet)
    ensures Frame(p).Some? <==> 1 <= |p.payload| <= 4096 && (p.kind.Some? ==> p.kind.value in {1, 2})
    ensures Frame(p).Some? ==>
              var s := Frame(p).value;
              if p.kind.Some? then
                |s| == 5 + |p.payload| && s[..4] == Big(1 + |p.payload|, 4) && s[4] == p.kind.value && s[5..] == p.payload
              else
                |s| == 4 + |p.payload| && s[..4] == Big(|p.payload|, 4) && s[4..] == p.payload
  {
  }

  /** What a reader does with a stream: which sizes and types it refuses, and when it waits. */
  lemma ReadExactly(stream: seq<byte>, tunnel: bool)
    ensures var r := ReadFrame(stream, tunnel);
            var header := |stream| >= 4;
            var size := if header then FromBig(stream[..4]) else 0;
            var sized := header && (if tunnel then 2 <= size <= 4097 else 1 <= size <= 4096);
            var whole := sized && 4 + size <= |stream|;
            var typed := whole && (tunnel ==> stream[4] in {1, 2});
            && (r.Incomplete? <==> !header || (sized && !whole))
            && (r.BadSize? <==> header && !sized)
            && (r.BadType? <==> whole && !typed)
            && (r.Got? <==> typed)
            && (r.Got? ==>
                  && r.rest == stream[4 + size..]
                  && r.packet == if tunnel then Packet(Some(stream[4]), stream[5..4 + size]) else Packet(None, stream[4..4 + size]))
  {
    if |stream| >= 4 {
      var size := FromBig(stream[..4]);
      if 2 <= size && 4 + size <= |stream| {
        assert stream[4..4 + size][0] == stream[4] && stream[4..4 + size][1..] == stream[5..4 + size];
      }
    }
  }
}
