/** The server end of a Telnet connection as it runs. Between two resizes that nobody has taken, the
    newer replaces the older. */
module TelnetServer {
  import opened Options
  import opened TelnetWire
  import opened TelnetClient
  import opened TelnetOutlet
  import opened TelnetPeer

  const OPENING: seq<Unit> :=
    [Request(WILL, ECHO), Request(WILL, SUPPRESS_GO_AHEAD), Request(DO, TERMINAL_TYPE), Request(DO, WINDOW_SIZE)]

  method Escaped(data: seq<Byte>) returns (encoded: seq<Byte>)
    ensures encoded == Escape(data)
  {
    encoded := [];
    var i := 0;
    while i < |data|
      invariant 0 <= i <= |data| && encoded == Escape(data[..i])
    {
      assert data[..i + 1][..i] == data[..i];
      encoded := encoded + [data[i]];
      if data[i] == IAC {
        encoded := encoded + [IAC];
      }
      i := i + 1;
    }
    assert data[..|data|] == data;
  }

  lemma HandledAtMostOne(p: Peer, b: Byte)
    ensures var (decoder, items) := DecodeByte(p.decoder, b);
            var next := p.(decoder := decoder);
            PeerReceiveByte(p, b) == if items == [] then next else PeerHandle(next, items[0])
  {
    var (decoder, items) := DecodeByte(p.decoder, b);
    var next := p.(decoder := decoder);
    if items != [] {
      assert items[..0] == [] && PeerHandleAll(next, []) == next;
    }
  }

  lemma RequestStep(p: Peer, b: Byte)
    requires p.decoder.state == Negotiation
    ensures PeerReceiveByte(p, b) ==
            PeerHandle(p.(decoder := p.decoder.(state := Data)), Item.Requested(p.decoder.command, b))
  {
    HandledAtMostOne(p, b);
  }

  lemma PeerReceiveStep(p: Peer, data: seq<Byte>, i: nat)
    requires i < |data|
    ensures PeerReceive(p, data[..i + 1]) == PeerReceiveByte(PeerReceive(p, data[..i]), data[i])
  {
    assert data[..i + 1][..i] == data[..i];
  }

  lemma EscapeOne(b: Byte)
    requires b != IAC
    ensures Escape([b]) == [b]
  {
    assert [b][..0] == [] && Escape([]) == [];
  }

  lemma EncodeRequests(sent: seq<Unit>, a: Unit, b: Unit)
    requires a.Request? && b.Request?
    ensures EncodeAll(sent + [a, b]) == EncodeAll(sent) + [IAC, a.command, a.option, IAC, b.command, b.option]
  {
    EncodeLast(sent, a);
    EncodeLast(sent + [a], b);
    assert sent + [a] + [b] == sent + [a, b];
  }

  lemma EncodedOpening(sent: seq<Unit>)
    ensures EncodeAll(sent + OPENING) ==
            EncodeAll(sent) + [IAC, WILL, ECHO, IAC, WILL, SUPPRESS_GO_AHEAD,
                               IAC, DO, TERMINAL_TYPE, IAC, DO, WINDOW_SIZE]
  {
    var half := sent + [OPENING[0], OPENING[1]];
    EncodeRequests(sent, OPENING[0], OPENING[1]);
    EncodeRequests(half, OPENING[2], OPENING[3]);
    assert half + [OPENING[2], OPENING[3]] == sent + OPENING;
  }

  class ProtocolStream {
    var state: ParseState
    var command: Byte
    var subOption: Byte
    var subData: seq<Byte>
    var pending: seq<Byte>
    /** The one-place channel of sizes. */
    var resizes: Option<Size>
    const outlet: Outlet
    ghost var sizes: seq<Size>

    ghost function Model(): Peer
      reads this, outlet
    {
      Peer(Decoder(state, command, subOption, subData), pending, sizes, outlet.sent)
    }

    ghost predicate Valid()
      reads this, outlet
    {
      && outlet.Valid()
      && resizes == (if sizes == [] then None else Some(sizes[|sizes| - 1]))
    }

    constructor ()
      ensures Valid() && fresh(outlet) && Model() == NEW_PEER && !outlet.broken
    {
      state, command, subOption, subData, pending := Data, 0, 0, [], [];
      resizes, sizes := None, [];
      outlet := new Outlet();
    }

    /** Every failure of the connection is reported to the caller. */
    ghost predicate Reported(before: bool, failed: bool)
      reads outlet
    {
      outlet.broken == (before || failed)
    }

    /** The requests a server opens with, in one write. */
    method Negotiate() returns (failed: bool)
      requires Valid()
      modifies outlet
      ensures Valid() && Model() == old(Model()).(sent := old(outlet.sent) + OPENING)
      ensures Reported(old(outlet.broken), failed)
    {
      EncodedOpening(outlet.sent);
      failed := outlet.Write([IAC, WILL, ECHO, IAC, WILL, SUPPRESS_GO_AHEAD,
                               IAC, DO, TERMINAL_TYPE, IAC, DO, WINDOW_SIZE], OPENING);
    }

    /** The data goes out escaped, as one unit, of which a failing connection takes the beginning. */
    method Write(data: seq<Byte>) returns (failed: bool)
      requires Valid()
      modifies outlet
      ensures Valid() && Model() == old(Model()).(sent := old(outlet.sent) + [Text(data)])
      ensures Reported(old(outlet.broken), failed)
      ensures old(outlet.wire) <= outlet.wire <= old(outlet.wire) + Escape(data)
      ensures !failed ==> outlet.wire == old(outlet.wire) + Escape(data)
    {
      var encoded := Escaped(data);
      failed := outlet.WriteUnit(encoded, Text(data));
    }

    /** Stops behind the byte at whose handling a write fails. */
    method Process(data: seq<Byte>) returns (failed: bool, ghost end: nat)
      requires Valid()
      modifies this, outlet
      ensures Valid() && Reported(old(outlet.broken), failed)
      ensures end <= |data| && Model() == PeerReceive(old(Model()), data[..end])
      ensures !failed ==> end == |data|
    {
      var i := 0;
      failed := false;
      while i < |data| && !failed
        invariant 0 <= i <= |data|
        invariant Valid() && Model() == PeerReceive(old(Model()), data[..i])
        invariant Reported(old(outlet.broken), failed)
      {
        PeerReceiveStep(old(Model()), data, i);
        failed := ProcessByte(data[i]);
        i := i + 1;
      }
      end := i;
    }

    method ProcessByte(b: Byte) returns (failed: bool)
      requires Valid()
      modifies this, outlet
      ensures Valid() && Model() == PeerReceiveByte(old(Model()), b)
      ensures Reported(old(outlet.broken), failed)
    {
      failed := false;
      match state
      case Data =>
        HandledAtMostOne(Model(), b);
        if b == IAC {
          state := AfterIac;
        } else {
          pending := pending + [b];
        }
      case AfterIac => ProcessCommand(b);
      case Negotiation => failed := ProcessRequest(b);
      case _ => ProcessSubnegotiation(b);
    }

    /** The option of a request. */
    method ProcessRequest(b: Byte) returns (failed: bool)
      requires Valid() && state == Negotiation
      modifies this, outlet
      ensures Valid() && Model() == PeerReceiveByte(old(Model()), b)
      ensures Reported(old(outlet.broken), failed)
    {
      RequestStep(Model(), b);
      state := Data;
      failed := Requested(command, b);
    }

    /** The byte after an IAC. */
    method ProcessCommand(b: Byte)
      requires Valid() && state == AfterIac
      modifies this
      ensures Valid() && Model() == PeerReceiveByte(old(Model()), b)
    {
      HandledAtMostOne(Model(), b);
      if b == IAC {
        pending := pending + [b];
        state := Data;
      } else if b == WILL || b == WONT || b == DO || b == DONT {
        command := b;
        state := Negotiation;
      } else if b == SB {
        state := SubOption;
      } else {
        state := Data;
      }
    }

    method ProcessSubnegotiation(b: Byte)
      requires Valid() && (state == SubOption || state == SubData || state == SubIac)
      modifies this
      ensures Valid() && Model() == PeerReceiveByte(old(Model()), b)
    {
      HandledAtMostOne(Model(), b);
      match state
      case SubOption =>
        subOption := b;
        subData := [];
        state := SubData;
      case SubData =>
        if b == IAC {
          state := SubIac;
        } else {
          subData := subData + [b];
        }
      case SubIac => EndSubnegotiation(b);
    }

    /** The byte after an IAC in a subnegotiation. */
    method EndSubnegotiation(b: Byte)
      requires Valid() && state == SubIac
      modifies this
      ensures Valid() && Model() == PeerReceiveByte(old(Model()), b)
    {
      HandledAtMostOne(Model(), b);
      if b == IAC {
        subData := subData + [b];
        state := SubData;
      } else {
        state := Data;
        if b == SE {
          ApplySubnegotiation();
        }
      }
    }

    /** A client that offers its terminal type is asked for it. */
    method Requested(request: Byte, option: Byte) returns (failed: bool)
      requires Valid()
      modifies outlet
      ensures Valid() && Model() == PeerHandle(old(Model()), Item.Requested(request, option))
      ensures Reported(old(outlet.broken), failed)
    {
      failed := false;
      if request == WILL && option == TERMINAL_TYPE {
        EscapeOne(SEND);
        failed := outlet.WriteUnit([IAC, SB, TERMINAL_TYPE, SEND, IAC, SE], Block(TERMINAL_TYPE, [SEND]));
      }
    }

    method ApplySubnegotiation()
      requires Valid()
      modifies this`resizes, this`sizes
      ensures Valid() && Model() == PeerHandle(old(Model()), Subnegotiated(subOption, subData))
    {
      if subOption != WINDOW_SIZE || |subData| != 4 {
        return;
      }
      var width := subData[0] as int * 256 + subData[1];
      var height := subData[2] as int * 256 + subData[3];
      if width == 0 || height == 0 {
        return;
      }
      resizes := Some((width, height));
      sizes := sizes + [(width, height)];
    }
  }
}
