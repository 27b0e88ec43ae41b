/** Telnet framing: what the units of a Telnet stream look like on the wire, and the byte-level
    state machine that takes them apart again. Both ends of the connection run this machine. */
module TelnetWire {

  type Byte = b: int | 0 <= b < 256

  const SE: Byte := 240
  const SB: Byte := 250
  const WILL: Byte := 251
  const WONT: Byte := 252
  const DO: Byte := 253
  const DONT: Byte := 254
  const IAC: Byte := 255

  predicate IsRequest(b: Byte) {
    b == WILL || b == WONT || b == DO || b == DONT
  }

  // ---------------------------------------------------------------------- encoding

  /** A stretch of user data, a request about an option, or a subnegotiation. */
  datatype Unit =
    | Text(data: seq<Byte>)
    | Request(command: Byte, option: Byte)
    | Block(option: Byte, data: seq<Byte>)

  predicate Sendable(u: Unit) {
    u.Request? ==> IsRequest(u.command)
  }

  predicate AllSendable(units: seq<Unit>) {
    forall i | 0 <= i < |units| :: Sendable(units[i])
  }

  function EscapeByte(b: Byte): seq<Byte> {
    if b == IAC then [IAC, IAC] else [b]
  }

  /** Doubles every IAC. */
  function Escape(data: seq<Byte>): seq<Byte> {
    if data == [] then []
    else Escape(data[..|data| - 1]) + EscapeByte(data[|data| - 1])
  }

  function Encode(u: Unit): seq<Byte> {
    match u
    case Text(data) => Escape(data)
    case Request(command, option) => [IAC, command, option]
    case Block(option, data) => [IAC, SB, option] + Escape(data) + [IAC, SE]
  }

  function EncodeAll(units: seq<Unit>): seq<Byte> {
    if units == [] then [] else EncodeAll(units[..|units| - 1]) + Encode(units[|units| - 1])
  }

  // ---------------------------------------------------------------------- decoding

  datatype ParseState = Data | AfterIac | Negotiation | SubOption | SubData | SubIac

  datatype Decoder = Decoder(state: ParseState, command: Byte, subOption: Byte, subData: seq<Byte>)

  /** What the machine hands on: a byte of user data, a request, or a subnegotiation. */
  datatype Item =
    | Payload(b: Byte)
    | Requested(command: Byte, option: Byte)
    | Subnegotiated(option: Byte, data: seq<Byte>)

  function DecodeByte(d: Decoder, b: Byte): (Decoder, seq<Item>) {
    match d.state
    case Data => if b == IAC then (d.(state := AfterIac), []) else (d, [Payload(b)])
    case AfterIac =>
      if b == IAC then (d.(state := Data), [Payload(IAC)])
      else if IsRequest(b) then (d.(state := Negotiation, command := b), [])
      else if b == SB then (d.(state := SubOption), [])
      else (d.(state := Data), [])
    case Negotiation => (d.(state := Data), [Requested(d.command, b)])
    case SubOption => (d.(state := SubData, subOption := b, subData := []), [])
    case SubData =>
      if b == IAC then (d.(state := SubIac), []) else (d.(subData := d.subData + [b]), [])
    case SubIac =>
      if b == IAC then (d.(state := SubData, subData := d.subData + [IAC]), [])
      else if b == SE then (d.(state := Data), [Subnegotiated(d.subOption, d.subData)])
      else (d.(state := Data), [])
  }

  function Decode(d: Decoder, bytes: seq<Byte>): (Decoder, seq<Item>) {
    if bytes == [] then (d, [])
    else
      var (before, items) := Decode(d, bytes[..|bytes| - 1]);
      var (after, more) := DecodeByte(before, bytes[|bytes| - 1]);
      (after, items + more)
  }

  /** Decoding chunk after chunk, as reads deliver them. */
  function DecodeChunks(d: Decoder, chunks: seq<seq<Byte>>): (Decoder, seq<Item>) {
    if chunks == [] then (d, [])
    else
      var (before, items) := DecodeChunks(d, chunks[..|chunks| - 1]);
      var (after, more) := Decode(before, chunks[|chunks| - 1]);
      (after, items + more)
  }

  function Joined(chunks: seq<seq<Byte>>): seq<Byte> {
    if chunks == [] then [] else Joined(chunks[..|chunks| - 1]) + chunks[|chunks| - 1]
  }

  // --------------------------------------------------------------- they undo each other

  function Payloads(data: seq<Byte>): seq<Item> {
    if data == [] then [] else Payloads(data[..|data| - 1]) + [Payload(data[|data| - 1])]
  }

  function Meaning(u: Unit): seq<Item> {
    match u
    case Text(data) => Payloads(data)
    case Request(command, option) => [Requested(command, option)]
    case Block(option, data) => [Subnegotiated(option, data)]
  }

  function MeaningAll(units: seq<Unit>): seq<Item> {
    if units == [] then [] else MeaningAll(units[..|units| - 1]) + Meaning(units[|units| - 1])
  }

  lemma {:induction false} DecodeAppend(d: Decoder, first: seq<Byte>, second: seq<Byte>)
    ensures Decode(d, first + second) ==
            (Decode(Decode(d, first).0, second).0, Decode(d, first).1 + Decode(Decode(d, first).0, second).1)
  {
    if second == [] {
      assert first + second == first;
      assert Decode(d, first).1 + [] == Decode(d, first).1;
    } else {
      var n := |second| - 1;
      assert (first + second)[..|first| + n] == first + second[..n];
      DecodeAppend(d, first, second[..n]);
      var (between, items) := Decode(d, first);
      var (before, more) := Decode(between, second[..n]);
      var last := DecodeByte(before, second[n]).1;
      assert (items + more) + last == items + (more + last);
    }
  }

  lemma DecodeOne(d: Decoder, b: Byte)
    ensures Decode(d, [b]) == DecodeByte(d, b)
  {
    assert [b][..0] == [];
    assert Decode(d, []) == (d, []);
    assert [] + DecodeByte(d, b).1 == DecodeByte(d, b).1;
  }

  lemma DecodeTwo(d: Decoder, a: Byte, b: Byte)
    ensures var (d', items) := DecodeByte(d, a);
            Decode(d, [a, b]) == (DecodeByte(d', b).0, items + DecodeByte(d', b).1)
  {
    DecodeOne(d, a);
    assert [a, b][..1] == [a];
  }

  lemma DecodeEscapedByte(d: Decoder, b: Byte)
    ensures d.state == Data ==> Decode(d, EscapeByte(b)) == (d, [Payload(b)])
    ensures d.state == SubData ==> Decode(d, EscapeByte(b)) == (d.(subData := d.subData + [b]), [])
  {
    DecodeOne(d, b);
    DecodeTwo(d, IAC, IAC);
    assert [] + [Payload(IAC)] == [Payload(IAC)];
  }

  lemma {:induction false} DecodeEscapedText(d: Decoder, data: seq<Byte>)
    requires d.state == Data
    ensures Decode(d, Escape(data)) == (d, Payloads(data))
  {
    if data != [] {
      var n := |data| - 1;
      DecodeEscapedText(d, data[..n]);
      DecodeAppend(d, Escape(data[..n]), EscapeByte(data[n]));
      DecodeEscapedByte(d, data[n]);
    }
  }

  /** After bytes that hand nothing on, decoding hands on what the rest does. */
  lemma DecodeSilently(d: Decoder, between: Decoder, first: seq<Byte>, second: seq<Byte>)
    requires Decode(d, first) == (between, [])
    ensures Decode(d, first + second) == Decode(between, second)
  {
    DecodeAppend(d, first, second);
    assert [] + Decode(between, second).1 == Decode(between, second).1;
  }

  /** One more byte of a block: `first` is what came before it, `whole` with it. */
  lemma DecodeEscapedNext(d: Decoder, between: Decoder, first: seq<Byte>, b: Byte, whole: seq<Byte>)
    requires Decode(d, first) == (between, []) && between.state == SubData && whole == first + EscapeByte(b)
    ensures Decode(d, whole) == (between.(subData := between.subData + [b]), [])
  {
    DecodeEscapedByte(between, b);
    DecodeSilently(d, between, first, EscapeByte(b));
  }

  lemma EscapeLast(data: seq<Byte>)
    requires data != []
    ensures Escape(data) == Escape(data[..|data| - 1]) + EscapeByte(data[|data| - 1])
  {
  }

  lemma {:induction false} DecodeEscapedBlock(d: Decoder, data: seq<Byte>)
    requires d.state == SubData
    ensures Decode(d, Escape(data)) == (d.(subData := d.subData + data), [])
  {
    if data == [] {
      assert d.subData + data == d.subData;
    } else {
      var (start, last) := (data[..|data| - 1], data[|data| - 1]);
      assert (d.subData + start) + [last] == d.subData + data;
      EscapeLast(data);
      DecodeEscapedBlock(d, start);
      DecodeEscapedNext(d, d.(subData := d.subData + start), Escape(start), last, Escape(data));
    }
  }

  lemma DecodeUnit(d: Decoder, u: Unit)
    requires d.state == Data && Sendable(u)
    ensures Decode(d, Encode(u)).0.state == Data && Decode(d, Encode(u)).1 == Meaning(u)
  {
    match u
    case Text(data) => DecodeEscapedText(d, data);
    case Request(command, option) =>
      DecodeTwo(d, IAC, command);
      DecodeOne(d.(state := Negotiation, command := command), option);
      assert [IAC, command, option] == [IAC, command] + [option];
      DecodeAppend(d, [IAC, command], [option]);
    case Block(option, data) =>
      DecodeTwo(d, IAC, SB);
      DecodeOne(d.(state := SubOption), option);
      assert [IAC, SB, option] == [IAC, SB] + [option];
      DecodeAppend(d, [IAC, SB], [option]);
      var open := d.(state := SubData, subOption := option, subData := []);
      DecodeEscapedBlock(open, data);
      DecodeAppend(d, [IAC, SB, option], Escape(data));
      assert [] + data == data;
      DecodeTwo(open.(subData := data), IAC, SE);
      DecodeAppend(d, [IAC, SB, option] + Escape(data), [IAC, SE]);
  }

  /** Decoding undoes encoding: payload bytes, requests and subnegotiations come out whole and in
      order, and the machine is ready for more. */
  lemma {:induction false} DecodeUnits(d: Decoder, units: seq<Unit>)
    requires d.state == Data && AllSendable(units)
    ensures Decode(d, EncodeAll(units)).0.state == Data && Decode(d, EncodeAll(units)).1 == MeaningAll(units)
  {
    if units != [] {
      var n := |units| - 1;
      DecodeUnits(d, units[..n]);
      DecodeAppend(d, EncodeAll(units[..n]), Encode(units[n]));
      DecodeUnit(Decode(d, EncodeAll(units[..n])).0, units[n]);
    }
  }

  /** How the bytes are split into reads makes no difference. */
  lemma {:induction false} ChunksDoNotMatter(d: Decoder, chunks: seq<seq<Byte>>)
    ensures DecodeChunks(d, chunks) == Decode(d, Joined(chunks))
  {
    if chunks != [] {
      var n := |chunks| - 1;
      ChunksDoNotMatter(d, chunks[..n]);
      DecodeAppend(d, Joined(chunks[..n]), chunks[n]);
    }
  }

  /** A peer that starts between units recovers every unit, however the bytes arrive. */
  lemma FramingRoundTrip(d: Decoder, units: seq<Unit>, chunks: seq<seq<Byte>>)
    requires d.state == Data && AllSendable(units) && Joined(chunks) == EncodeAll(units)
    ensures DecodeChunks(d, chunks).0.state == Data && DecodeChunks(d, chunks).1 == MeaningAll(units)
  {
    ChunksDoNotMatter(d, chunks);
    DecodeUnits(d, units);
  }
}
