/** The server end of a Telnet connection, as the reference application runs it, and what it learns
    from the client of module TelnetClient. */
module TelnetPeer {
  import opened Options
  import opened TelnetWire
  import opened TelnetClient

  type Size = (nat, nat)

  /** The size a window-size subnegotiation names; malformed ones and empty dimensions name none. */
  function SizeIn(option: Byte, data: seq<Byte>): Option<Size> {
    if option != WINDOW_SIZE || |data| != 4 then None
    else
      var width := data[0] as int * 256 + data[1];
      var height := data[2] as int * 256 + data[3];
      if width == 0 || height == 0 then None else Some((width, height))
  }

  datatype Peer = Peer(decoder: Decoder, pending: seq<Byte>, sizes: seq<Size>, sent: seq<Unit>)

  const NEW_PEER := Peer(Decoder(Data, 0, 0, []), [], [], [])

  function PeerHandle(p: Peer, item: Item): Peer {
    match item
    case Payload(b) => p.(pending := p.pending + [b])
    case Requested(command, option) =>
      if command == WILL && option == TERMINAL_TYPE
      then p.(sent := p.sent + [Block(TERMINAL_TYPE, [SEND])]) else p
    case Subnegotiated(option, data) =>
      match SizeIn(option, data)
      case Some(size) => p.(sizes := p.sizes + [size])
      case None => p
  }

  function PeerHandleAll(p: Peer, items: seq<Item>): Peer {
    if items == [] then p else PeerHandle(PeerHandleAll(p, items[..|items| - 1]), items[|items| - 1])
  }

  function PeerReceiveByte(p: Peer, b: Byte): Peer {
    var (decoder, items) := DecodeByte(p.decoder, b);
    PeerHandleAll(p.(decoder := decoder), items)
  }

  function PeerReceive(p: Peer, bytes: seq<Byte>): Peer {
    if bytes == [] then p else PeerReceiveByte(PeerReceive(p, bytes[..|bytes| - 1]), bytes[|bytes| - 1])
  }

  function PeerReceiveChunks(p: Peer, chunks: seq<seq<Byte>>): Peer {
    if chunks == [] then p else PeerReceive(PeerReceiveChunks(p, chunks[..|chunks| - 1]), chunks[|chunks| - 1])
  }

  // ------------------------------------------------------------- what it learns

  lemma {:induction false} HandleAllAppend(p: Peer, first: seq<Item>, second: seq<Item>)
    ensures PeerHandleAll(p, first + second) == PeerHandleAll(PeerHandleAll(p, first), second)
  {
    if second == [] {
      assert first + second == first;
    } else {
      var n := |second| - 1;
      assert (first + second)[..|first| + n] == first + second[..n];
      HandleAllAppend(p, first, second[..n]);
    }
  }

  /** Handling leaves the decoder alone. */
  lemma {:induction false} HandleAllDecoder(p: Peer, items: seq<Item>, d: Decoder)
    ensures PeerHandleAll(p.(decoder := d), items) == PeerHandleAll(p, items).(decoder := d)
  {
    if items != [] {
      HandleAllDecoder(p, items[..|items| - 1], d);
    }
  }

  /** Receiving is decoding and then handling what was decoded. */
  lemma {:induction false} ReceiveIsDecode(p: Peer, bytes: seq<Byte>)
    ensures var (decoder, items) := Decode(p.decoder, bytes);
            PeerReceive(p, bytes) == PeerHandleAll(p, items).(decoder := decoder)
  {
    if bytes != [] {
      var n := |bytes| - 1;
      ReceiveIsDecode(p, bytes[..n]);
      var (before, items) := Decode(p.decoder, bytes[..n]);
      var (after, more) := DecodeByte(before, bytes[n]);
      HandleAllAppend(p, items, more);
      HandleAllDecoder(PeerHandleAll(p, items), more, after);
    } else {
      assert PeerHandleAll(p, []) == p;
    }
  }

  lemma {:induction false} ChunksAreDecoded(p: Peer, chunks: seq<seq<Byte>>)
    ensures var (decoder, items) := DecodeChunks(p.decoder, chunks);
            PeerReceiveChunks(p, chunks) == PeerHandleAll(p, items).(decoder := decoder)
  {
    if chunks != [] {
      var n := |chunks| - 1;
      ChunksAreDecoded(p, chunks[..n]);
      var (before, items) := DecodeChunks(p.decoder, chunks[..n]);
      var (after, more) := Decode(before, chunks[n]);
      ReceiveIsDecode(PeerReceiveChunks(p, chunks[..n]), chunks[n]);
      HandleAllAppend(p, items, more);
      HandleAllDecoder(PeerHandleAll(p, items), more, before);
    } else {
      assert PeerHandleAll(p, []) == p;
    }
  }

  /** The user data among units. */
  function Texts(units: seq<Unit>): seq<Byte> {
    if units == [] then []
    else
      var u := units[|units| - 1];
      Texts(units[..|units| - 1]) + (if u.Text? then u.data else [])
  }

  /** The sizes among units. */
  function Sizes(units: seq<Unit>): seq<Size> {
    if units == [] then []
    else
      var u := units[|units| - 1];
      var size := if u.Block? then SizeIn(u.option, u.data) else None;
      Sizes(units[..|units| - 1]) + (if size.Some? then [size.value] else [])
  }

  lemma {:induction false} HandlePayloads(p: Peer, data: seq<Byte>)
    ensures PeerHandleAll(p, Payloads(data)) == p.(pending := p.pending + data)
  {
    if data == [] {
      assert p.pending + data == p.pending;
    } else {
      var n := |data| - 1;
      HandlePayloads(p, data[..n]);
      var items := Payloads(data);
      assert items[..|items| - 1] == Payloads(data[..n]);
      assert p.pending + data == p.pending + data[..n] + [data[n]];
    }
  }

  lemma HandleMeaning(p: Peer, u: Unit)
    ensures var q := PeerHandleAll(p, Meaning(u));
            && q.pending == p.pending + (if u.Text? then u.data else [])
            && q.sizes == p.sizes + (var size := if u.Block? then SizeIn(u.option, u.data) else None;
                                     if size.Some? then [size.value] else [])
  {
    match u
    case Text(data) => HandlePayloads(p, data);
    case _ => assert Meaning(u)[..0] == [] && PeerHandleAll(p, []) == p;
  }

  lemma {:induction false} HandleUnits(units: seq<Unit>)
    ensures var p := PeerHandleAll(NEW_PEER, MeaningAll(units));
            p.pending == Texts(units) && p.sizes == Sizes(units)
  {
    if units != [] {
      var n := |units| - 1;
      HandleUnits(units[..n]);
      HandleAllAppend(NEW_PEER, MeaningAll(units[..n]), Meaning(units[n]));
      HandleMeaning(PeerHandleAll(NEW_PEER, MeaningAll(units[..n])), units[n]);
    }
  }

  // ------------------------------------------------------------------ end to end

  /** What the calls asked to have written. */
  function WrittenBy(calls: seq<Call>): seq<Byte> {
    if calls == [] then []
    else
      var call := calls[|calls| - 1];
      WrittenBy(calls[..|calls| - 1]) + (if call.Writing? then call.data else [])
  }

  lemma TextsSend(sent: seq<Unit>, u: Unit)
    ensures Texts(sent + [u]) == Texts(sent) + (if u.Text? then u.data else [])
  {
    assert (sent + [u])[..|sent|] == sent;
  }

  lemma NegotiateSendsNoText(c: Client, command: Byte, option: Byte)
    ensures Texts(Negotiate(c, command, option).sent) == Texts(c.sent)
  {
    var answer := Request(if command == DO && SupportsLocal(option) then WILL
                          else if command == DO || command == DONT then WONT
                          else if command == WILL && SupportsRemote(option) then DO else DONT, option);
    TextsSend(c.sent, answer);
    TextsSend(c.sent + [answer], Block(WINDOW_SIZE, SizeBytes(c.width, c.height)));
    var next := Negotiate(c, command, option);
    assert || next.sent == c.sent || next.sent == c.sent + [answer]
           || next.sent == c.sent + [answer] + [Block(WINDOW_SIZE, SizeBytes(c.width, c.height))];
  }

  lemma {:induction false} ReceiveSendsNoText(c: Client, bytes: seq<Byte>)
    ensures Texts(Receive(c, bytes).sent) == Texts(c.sent)
  {
    if bytes != [] {
      var before := Receive(c, bytes[..|bytes| - 1]);
      ReceiveSendsNoText(c, bytes[..|bytes| - 1]);
      var (decoder, items) := DecodeByte(before.decoder, bytes[|bytes| - 1]);
      var next := before.(decoder := decoder);
      if items != [] {
        assert items[..0] == [] && HandleAll(next, []) == next;
        match items[0] {
          case Payload(_) =>
          case Requested(command, option) => NegotiateSendsNoText(next, command, option);
          case Subnegotiated(option, data) => TextsSend(next.sent, Block(TERMINAL_TYPE, [IS] + next.terminal));
        }
      }
    }
  }

  lemma {:induction false} RunSendsWrites(c: Client, calls: seq<Call>)
    requires c.sent == []
    ensures Texts(Run(c, calls).sent) == WrittenBy(calls)
  {
    if calls != [] {
      RunSendsWrites(c, calls[..|calls| - 1]);
      var before := Run(c, calls[..|calls| - 1]);
      match calls[|calls| - 1] {
        case Incoming(bytes) => ReceiveSendsNoText(before, bytes);
        case Resizing(width, height) =>
          if SizeOk(width, height) {
            TextsSend(before.sent, Block(WINDOW_SIZE, SizeBytes(width, height)));
          }
        case Writing(data) => TextsSend(before.sent, Text(data));
      }
    }
  }

  lemma SizeSurvives(width: nat, height: nat)
    requires SizeOk(width, height)
    ensures SizeIn(WINDOW_SIZE, SizeBytes(width, height)) == Some((width, height))
  {
    assert width == width / 256 * 256 + width % 256 && width / 256 < 256;
    assert height == height / 256 * 256 + height % 256 && height / 256 < 256;
  }

  lemma {:induction false} LastSizeTold(sent: seq<Unit>, width: nat, height: nat)
    requires SizeOk(width, height) && LastBlock(sent, WINDOW_SIZE) == Some(SizeBytes(width, height))
    ensures Sizes(sent) != [] && Sizes(sent)[|Sizes(sent)| - 1] == (width, height)
  {
    SizeSurvives(width, height);
    var u := sent[|sent| - 1];
    if !(u.Block? && u.option == WINDOW_SIZE) {
      LastSizeTold(sent[..|sent| - 1], width, height);
    }
  }

  /** Whatever a client is asked to do and told by its peer, and however its bytes arrive: the server
      reads exactly the data that was written and every size that was sent, and while the
      window-size option is on, the last size it heard is the current one. */
  lemma EndToEnd(terminal: seq<Byte>, width: nat, height: nat, calls: seq<Call>, chunks: seq<seq<Byte>>)
    requires SizeOk(width, height)
    requires Joined(chunks) == EncodeAll(Run(NewClient(terminal, width, height), calls).sent)
    ensures var c := Run(NewClient(terminal, width, height), calls);
            var p := PeerReceiveChunks(NEW_PEER, chunks);
            && p.decoder.state == Data
            && p.pending == WrittenBy(calls)
            && p.sizes == Sizes(c.sent)
            && (WINDOW_SIZE in c.local ==> p.sizes != [] && p.sizes[|p.sizes| - 1] == (c.width, c.height))
  {
    var c := Run(NewClient(terminal, width, height), calls);
    OptionTruth(terminal, width, height, calls);
    FramingRoundTrip(NEW_PEER.decoder, c.sent, chunks);
    ChunksAreDecoded(NEW_PEER, chunks);
    HandleUnits(c.sent);
    RunSendsWrites(NewClient(terminal, width, height), calls);
    if WINDOW_SIZE in c.local {
      LastSizeTold(c.sent, c.width, c.height);
    }
  }

  // ------------------------------------------------------------ the other direction

  lemma {:induction false} ClientHandleAllAppend(c: Client, first: seq<Item>, second: seq<Item>)
    ensures HandleAll(c, first + second) == HandleAll(HandleAll(c, first), second)
  {
    if second == [] {
      assert first + second == first;
    } else {
      var n := |second| - 1;
      assert (first + second)[..|first| + n] == first + second[..n];
      ClientHandleAllAppend(c, first, second[..n]);
    }
  }

  lemma {:induction false} ClientHandleAllDecoder(c: Client, items: seq<Item>, d: Decoder)
    ensures HandleAll(c.(decoder := d), items) == HandleAll(c, items).(decoder := d)
  {
    if items != [] {
      ClientHandleAllDecoder(c, items[..|items| - 1], d);
    }
  }

  lemma {:induction false} ClientReceiveIsDecode(c: Client, bytes: seq<Byte>)
    ensures var (decoder, items) := Decode(c.decoder, bytes);
            Receive(c, bytes) == HandleAll(c, items).(decoder := decoder)
  {
    if bytes != [] {
      var n := |bytes| - 1;
      ClientReceiveIsDecode(c, bytes[..n]);
      var (before, items) := Decode(c.decoder, bytes[..n]);
      var (after, more) := DecodeByte(before, bytes[n]);
      ClientHandleAllAppend(c, items, more);
      ClientHandleAllDecoder(HandleAll(c, items), more, after);
    } else {
      assert HandleAll(c, []) == c;
    }
  }

  lemma {:induction false} ClientHandlePayloads(c: Client, data: seq<Byte>)
    ensures HandleAll(c, Payloads(data)) == c.(pending := c.pending + data)
  {
    if data == [] {
      assert c.pending + data == c.pending;
    } else {
      var n := |data| - 1;
      ClientHandlePayloads(c, data[..n]);
      var items := Payloads(data);
      assert items[..|items| - 1] == Payloads(data[..n]);
      assert c.pending + data == c.pending + data[..n] + [data[n]];
    }
  }

  lemma ClientHandleUnit(c: Client, u: Unit)
    ensures HandleAll(c, Meaning(u)).pending == c.pending + (if u.Text? then u.data else [])
  {
    if u.Text? {
      ClientHandlePayloads(c, u.data);
    } else {
      var item := Meaning(u)[0];
      assert Meaning(u)[..0] == [] && HandleAll(c, []) == c;
      assert HandleAll(c, Meaning(u)) == Handle(c, item);
      assert Handle(c, item).pending == c.pending;
    }
  }

  lemma {:induction false} ClientHandleUnits(c: Client, units: seq<Unit>)
    requires c.pending == []
    ensures HandleAll(c, MeaningAll(units)).pending == Texts(units)
  {
    if units != [] {
      var n := |units| - 1;
      ClientHandleUnits(c, units[..n]);
      ClientHandleAllAppend(c, MeaningAll(units[..n]), Meaning(units[n]));
      ClientHandleUnit(HandleAll(c, MeaningAll(units[..n])), units[n]);
    }
  }

  function ReceiveChunks(c: Client, chunks: seq<seq<Byte>>): Client {
    if chunks == [] then c else Receive(ReceiveChunks(c, chunks[..|chunks| - 1]), chunks[|chunks| - 1])
  }

  lemma {:induction false} ReceiveAppend(c: Client, first: seq<Byte>, second: seq<Byte>)
    ensures Receive(c, first + second) == Receive(Receive(c, first), second)
  {
    if second == [] {
      assert first + second == first;
    } else {
      var n := |second| - 1;
      assert (first + second)[..|first| + n] == first + second[..n];
      ReceiveAppend(c, first, second[..n]);
    }
  }

  lemma {:induction false} ReceiveJoined(c: Client, chunks: seq<seq<Byte>>)
    ensures ReceiveChunks(c, chunks) == Receive(c, Joined(chunks))
  {
    if chunks != [] {
      var n := |chunks| - 1;
      ReceiveJoined(c, chunks[..n]);
      ReceiveAppend(c, Joined(chunks[..n]), chunks[n]);
    }
  }

  /** The client's reader gets exactly the user data of the units the server sends, among any
      negotiation, however the bytes are grouped into reads. */
  lemma ClientReads(c: Client, units: seq<Unit>, chunks: seq<seq<Byte>>)
    requires c.decoder.state == Data && c.pending == [] && AllSendable(units)
    requires Joined(chunks) == EncodeAll(units)
    ensures ReceiveChunks(c, chunks).pending == Texts(units)
    ensures ReceiveChunks(c, chunks).decoder.state == Data
  {
    ReceiveJoined(c, chunks);
    ClientReceiveIsDecode(c, EncodeAll(units));
    DecodeUnits(c.decoder, units);
    ClientHandleUnits(c, units);
  }
}
