/** What either end of a Telnet connection answers, option by option and byte for byte, and the
    exchange that opens a connection. */
module TelnetHandshake {
  import opened TelnetWire
  import opened TelnetClient
  import opened TelnetPeer
  import opened TelnetServer

  // ------------------------------------------------------------------ the client

  /** One request or subnegotiation arrives. */
  lemma ClientGets(c: Client, u: Unit)
    requires c.decoder.state == Data && Sendable(u) && !u.Text?
    ensures var t := Receive(c, Encode(u));
            t.decoder.state == Data && t == Handle(c, Meaning(u)[0]).(decoder := t.decoder)
  {
    ClientReceiveIsDecode(c, Encode(u));
    DecodeUnit(c.decoder, u);
    assert Meaning(u)[..0] == [] && HandleAll(c, []) == c;
    assert HandleAll(c, Meaning(u)) == Handle(c, Meaning(u)[0]);
  }

  /** From c to t the client has sent this and holds these options; nothing else has changed but the
      decoder. */
  predicate Answers(c: Client, t: Client, sent: seq<Unit>, local: set<Byte>, remote: set<Byte>) {
    t == c.(decoder := t.decoder, sent := c.sent + sent, local := local, remote := remote)
  }

  lemma AgreesToServe(c: Client, option: Byte)
    requires c.decoder.state == Data && option !in c.local && (option == 0 || option == 3 || option == 24)
    ensures Answers(c, Receive(c, [255, 253, option]), [Request(WILL, option)], c.local + {option}, c.remote)
  {
    ClientGets(c, Request(DO, option));
  }

  lemma AgreesToSize(c: Client)
    requires c.decoder.state == Data && SizeOk(c.width, c.height) && 31 !in c.local
    ensures Answers(c, Receive(c, [255, 253, 31]),
                    [Request(WILL, 31),
                     Block(31, [c.width / 256, c.width % 256, c.height / 256, c.height % 256])],
                    c.local + {31}, c.remote)
  {
    assert c.width / 256 % 256 == c.width / 256 && c.height / 256 % 256 == c.height / 256;
    ClientGets(c, Request(DO, 31));
  }

  /** DO of options 0, 3, 24 and 31 (binary, no go-ahead, terminal type, window size) is agreed to,
      the last one with the size, and WILL of 0, 1 and 3 (binary, echo, no go-ahead). */
  lemma AgreesTo(c: Client, option: Byte)
    requires c.decoder.state == Data && SizeOk(c.width, c.height)
    ensures option !in c.local && (option == 0 || option == 3 || option == 24) ==>
              Answers(c, Receive(c, [255, 253, option]), [Request(WILL, option)], c.local + {option}, c.remote)
    ensures option !in c.local && option == 31 ==>
              Answers(c, Receive(c, [255, 253, option]),
                      [Request(WILL, 31),
                       Block(31, [c.width / 256, c.width % 256, c.height / 256, c.height % 256])],
                      c.local + {31}, c.remote)
    ensures option !in c.remote && (option == 0 || option == 1 || option == 3) ==>
              Answers(c, Receive(c, [255, 251, option]), [Request(DO, option)], c.local, c.remote + {option})
  {
    if option !in c.local && (option == 0 || option == 3 || option == 24) {
      AgreesToServe(c, option);
    } else if option !in c.local && option == 31 {
      AgreesToSize(c);
    }
    ClientGets(c, Request(WILL, option));
  }

  /** Any other option is refused, every time, and an option that is held is given up when asked. */
  lemma Refuses(c: Client, option: Byte)
    requires c.decoder.state == Data
    ensures option != 0 && option != 3 && option != 24 && option != 31 ==>
              Answers(c, Receive(c, [255, 253, option]), [Request(WONT, option)], c.local, c.remote)
    ensures option != 0 && option != 1 && option != 3 ==>
              Answers(c, Receive(c, [255, 251, option]), [Request(DONT, option)], c.local, c.remote)
    ensures option in c.local ==>
              Answers(c, Receive(c, [255, 254, option]), [Request(WONT, option)], c.local - {option}, c.remote)
    ensures option in c.remote ==>
              Answers(c, Receive(c, [255, 252, option]), [Request(DONT, option)], c.local, c.remote - {option})
  {
    ClientGets(c, Request(DO, option));
    ClientGets(c, Request(WILL, option));
    ClientGets(c, Request(DONT, option));
    ClientGets(c, Request(WONT, option));
  }

  /** A peer that asks for the terminal type (section 2 of RFC 1091) is told it, and no
      other subnegotiation is answered. */
  lemma TellsType(c: Client, option: Byte, data: seq<Byte>)
    requires c.decoder.state == Data
    ensures Answers(c, Receive(c, [255, 250, option] + Escape(data) + [255, 240]),
                    if option == 24 && data != [] && data[0] == 1 then [Block(24, [0] + c.terminal)] else [],
                    c.local, c.remote)
  {
    ClientGets(c, Block(option, data));
  }

  // ------------------------------------------------------------------ the server

  lemma PeerGets(p: Peer, u: Unit)
    requires p.decoder.state == Data && Sendable(u) && !u.Text?
    ensures var t := PeerReceive(p, Encode(u));
            t.decoder.state == Data && t == PeerHandle(p, Meaning(u)[0]).(decoder := t.decoder)
  {
    ReceiveIsDecode(p, Encode(u));
    DecodeUnit(p.decoder, u);
    assert Meaning(u)[..0] == [] && PeerHandleAll(p, []) == p;
    assert PeerHandleAll(p, Meaning(u)) == PeerHandle(p, Meaning(u)[0]);
  }

  /** The server asks whoever offers a terminal type for it, and answers nothing else. */
  lemma AsksForType(p: Peer, u: Unit)
    requires p.decoder.state == Data && Sendable(u) && !u.Text?
    ensures PeerReceive(p, Encode(u)).sent ==
            p.sent + if u == Request(WILL, 24) then [Block(24, [1])] else []
  {
    PeerGets(p, u);
  }

  // ------------------------------------------------------------- opening a connection

  /** What a new client answers the server's opening requests. */
  function Greeting(width: nat, height: nat): seq<Unit> {
    [Request(DO, 1), Request(DO, 3), Request(WILL, 24), Request(WILL, 31), Block(31, SizeBytes(width, height))]
  }

  /** What units mean to the client, once they are decoded. */
  ghost function Handled(c: Client, units: seq<Unit>): Client {
    HandleAll(c, MeaningAll(units))
  }

  ghost function PeerHandled(p: Peer, units: seq<Unit>): Peer {
    PeerHandleAll(p, MeaningAll(units))
  }

  lemma UnitsArrive(c: Client, p: Peer, units: seq<Unit>)
    requires c.decoder.state == Data == p.decoder.state && AllSendable(units)
    ensures var t := Receive(c, EncodeAll(units));
            t.decoder.state == Data && t == Handled(c, units).(decoder := t.decoder)
    ensures var t := PeerReceive(p, EncodeAll(units));
            t.decoder.state == Data && t == PeerHandled(p, units).(decoder := t.decoder)
  {
    ClientReceiveIsDecode(c, EncodeAll(units));
    DecodeUnits(c.decoder, units);
    ReceiveIsDecode(p, EncodeAll(units));
    DecodeUnits(p.decoder, units);
  }

  lemma HandledNext(c: Client, p: Peer, units: seq<Unit>, u: Unit, all: seq<Unit>)
    requires !u.Text? && all == units + [u]
    ensures Handled(c, all) == Handle(Handled(c, units), Meaning(u)[0])
    ensures PeerHandled(p, all) == PeerHandle(PeerHandled(p, units), Meaning(u)[0])
  {
    assert all[..|units|] == units;
    var items := MeaningAll(all);
    assert items[..|items| - 1] == MeaningAll(units);
  }

  lemma HandledNone(c: Client, p: Peer)
    ensures Handled(c, []) == c && PeerHandled(p, []) == p
  {
  }

  lemma RemoteGreeted(c: Client)
    requires c.local == {} && c.remote == {} && c.sent == []
    ensures Handled(c, OPENING[..2]) == c.(remote := {1, 3}, sent := [Request(DO, 1), Request(DO, 3)])
  {
    HandledNone(c, NEW_PEER);
    HandledNext(c, NEW_PEER, [], OPENING[0], OPENING[..1]);
    HandledNext(c, NEW_PEER, OPENING[..1], OPENING[1], OPENING[..2]);
  }

  lemma ClientGreets(terminal: seq<Byte>, width: nat, height: nat)
    ensures var c := NewClient(terminal, width, height);
            var t := Receive(c, EncodeAll(OPENING));
            t.decoder.state == Data && Answers(c, t, Greeting(width, height), {24, 31}, {1, 3})
  {
    var c := NewClient(terminal, width, height);
    RemoteGreeted(c);
    HandledNext(c, NEW_PEER, OPENING[..2], OPENING[2], OPENING[..3]);
    HandledNext(c, NEW_PEER, OPENING[..3], OPENING[3], OPENING);
    UnitsArrive(c, NEW_PEER, OPENING);
  }

  lemma PeerGreeted(p: Peer, width: nat, height: nat)
    ensures PeerHandled(p, Greeting(width, height)[..3]) == p.(sent := p.sent + [Block(24, [1])])
  {
    var (c, units) := (NewClient([], 1, 1), Greeting(width, height));
    HandledNone(c, p);
    HandledNext(c, p, [], units[0], units[..1]);
    HandledNext(c, p, units[..1], units[1], units[..2]);
    HandledNext(c, p, units[..2], units[2], units[..3]);
  }

  lemma PeerSized(p: Peer, width: nat, height: nat)
    requires SizeOk(width, height)
    ensures PeerHandled(p, Greeting(width, height)) ==
            p.(sizes := p.sizes + [(width, height)], sent := p.sent + [Block(24, [1])])
  {
    var (c, units) := (NewClient([], 1, 1), Greeting(width, height));
    SizeSurvives(width, height);
    PeerGreeted(p, width, height);
    HandledNext(c, p, units[..3], units[3], units[..4]);
    HandledNext(c, p, units[..4], units[4], units);
  }

  lemma PeerLearns(p: Peer, width: nat, height: nat)
    requires p.decoder.state == Data && SizeOk(width, height)
    ensures var t := PeerReceive(p, EncodeAll(Greeting(width, height)));
            && t.decoder.state == Data
            && t == p.(decoder := t.decoder, sizes := p.sizes + [(width, height)],
                       sent := p.sent + [Block(24, [1])])
  {
    PeerSized(p, width, height);
    UnitsArrive(NewClient([], 1, 1), p, Greeting(width, height));
  }

  lemma TypeTold(c: Client, p: Peer, terminal: seq<Byte>)
    requires c.decoder.state == Data == p.decoder.state && c.terminal == terminal
    ensures Receive(c, Encode(Block(24, [1]))).sent == c.sent + [Block(24, [0] + terminal)]
    ensures var told := PeerReceive(p, Encode(Block(24, [0] + terminal))); told == p.(decoder := told.decoder)
  {
    ClientGets(c, Block(24, [1]));
    PeerGets(p, Block(24, [0] + terminal));
  }

  /** A connection opens with three exchanges, after which neither end has anything to say: the
      server knows the client's size and has been told the terminal type, and the client has agreed
      to all that was asked. */
  lemma Opening(terminal: seq<Byte>, width: nat, height: nat)
    requires SizeOk(width, height)
    ensures var server := NEW_PEER.(sent := OPENING);
            var client := Receive(NewClient(terminal, width, height), EncodeAll(OPENING));
            var asking := PeerReceive(server, EncodeAll(client.sent));
            var telling := Receive(client, Encode(Block(24, [1])));
            var told := PeerReceive(asking, Encode(Block(24, [0] + terminal)));
            && client.local == {24, 31} && client.remote == {1, 3}
            && asking.sizes == [(width, height)] && asking.sent == OPENING + [Block(24, [1])]
            && telling.sent == client.sent + [Block(24, [0] + terminal)]
            && told == asking.(decoder := told.decoder)
  {
    ClientGreets(terminal, width, height);
    var client := Receive(NewClient(terminal, width, height), EncodeAll(OPENING));
    assert client.sent == Greeting(width, height);
    PeerLearns(NEW_PEER.(sent := OPENING), width, height);
    TypeTold(client, PeerReceive(NEW_PEER.(sent := OPENING), EncodeAll(client.sent)), terminal);
  }

  // ------------------------------------------------------------------ what is skipped

  /** Any other command of two bytes means nothing, and so does a subnegotiation that is broken off
      by one; what comes behind is read as if nothing had come before. */
  lemma Skipped(d: Decoder, command: Byte, option: Byte, data: seq<Byte>)
    requires d.state == Data && command != 255 && command < 250
    ensures Decode(d, [255, command]) == (d, [])
    ensures command != 240 ==>
              var (after, items) := Decode(d, [255, 250, option] + Escape(data) + [255, command]);
              after.state == Data && items == []
  {
    DecodeTwo(d, 255, command);
    if command != 240 {
      DecodeTwo(d, 255, 250);
      DecodeOne(d.(state := SubOption), option);
      assert [255, 250, option] == [255, 250] + [option];
      DecodeSilently(d, d.(state := SubOption), [255, 250], [option]);
      var begun := d.(state := SubData, subOption := option, subData := []);
      DecodeEscapedBlock(begun, data);
      DecodeSilently(d, begun, [255, 250, option], Escape(data));
      var full := begun.(subData := [] + data);
      DecodeTwo(full, 255, command);
      DecodeSilently(d, full, [255, 250, option] + Escape(data), [255, command]);
    }
  }
}
