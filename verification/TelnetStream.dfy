/** The Telnet client stream as it runs, byte by byte, on a connection that may fail. Its methods are
    proved to have the effect module TelnetClient gives them, as far as a failing write lets them. */
module TelnetStream {
  import opened TelnetWire
  import opened TelnetClient
  import opened TelnetOutlet

  datatype Outcome = Done | Refused | Failed

  lemma HandledAtMostOne(c: Client, b: Byte)
    ensures var (decoder, items) := DecodeByte(c.decoder, b);
            var next := c.(decoder := decoder);
            ReceiveByte(c, b) == if items == [] then next else Handle(next, items[0])
  {
    var (decoder, items) := DecodeByte(c.decoder, b);
    var next := c.(decoder := decoder);
    if items != [] {
      assert items[..0] == [] && HandleAll(next, []) == next;
    }
  }

  lemma {:induction false} EscapePrefix(b: Byte, data: seq<Byte>)
    requires b != IAC
    ensures Escape([b] + data) == [b] + Escape(data)
  {
    var whole := [b] + data;
    EscapeLast(whole);
    if data == [] {
      assert whole == [b] && whole[..0] == [];
    } else {
      var (start, last) := (data[..|data| - 1], EscapeByte(data[|data| - 1]));
      EscapePrefix(b, start);
      EscapeLast(data);
      assert whole[..|whole| - 1] == [b] + start;
      assert ([b] + Escape(start)) + last == [b] + (Escape(start) + last);
    }
  }

  lemma TypePayload(terminal: seq<Byte>)
    ensures Encode(Block(TERMINAL_TYPE, [IS] + terminal)) ==
            [IAC, SB, TERMINAL_TYPE, IS] + Escape(terminal) + [IAC, SE]
  {
    EscapePrefix(IS, terminal);
    assert [IAC, SB, TERMINAL_TYPE] + ([IS] + Escape(terminal)) == [IAC, SB, TERMINAL_TYPE, IS] + Escape(terminal);
  }

  method AppendEscaped(destination: seq<Byte>, data: seq<Byte>) returns (r: seq<Byte>)
    ensures r == destination + Escape(data)
  {
    r := destination;
    var i := 0;
    while i < |data|
      invariant 0 <= i <= |data|
      invariant r == destination + Escape(data[..i])
    {
      assert data[..i + 1][..i] == data[..i];
      r := r + [data[i]];
      if data[i] == IAC {
        r := r + [IAC];
      }
      i := i + 1;
    }
    assert data[..|data|] == data;
  }

  class Stream {
    var state: ParseState
    var negotiation: Byte
    var subOption: Byte
    var subData: seq<Byte>
    var pending: seq<Byte>
    const terminal: seq<Byte>
    var width: nat
    var height: nat
    var local: set<Byte>
    var remote: set<Byte>
    const outlet: Outlet

    ghost function Model(): Client
      reads this, outlet
    {
      Client(Decoder(state, negotiation, subOption, subData), terminal, width, height, local, remote,
             outlet.sent, pending)
    }

    ghost predicate Valid()
      reads outlet
    {
      outlet.Valid()
    }

    constructor (terminal: seq<Byte>, width: nat, height: nat)
      ensures Valid() && fresh(outlet) && Model() == NewClient(terminal, width, height) && !outlet.broken
    {
      state, negotiation, subOption, subData, pending := Data, 0, 0, [], [];
      this.terminal, this.width, this.height := terminal, width, height;
      local, remote := {}, {};
      outlet := new Outlet();
    }

    method WriteBytes(bytes: seq<Byte>, ghost u: Unit) returns (failed: bool)
      requires Valid() && bytes == Encode(u)
      modifies outlet
      ensures Valid() && Model() == Send(old(Model()), u) && Reported(old(outlet.broken), failed)
      ensures old(outlet.wire) <= outlet.wire <= old(outlet.wire) + bytes
      ensures !failed ==> outlet.wire == old(outlet.wire) + bytes
    {
      failed := outlet.WriteUnit(bytes, u);
    }

    /** Every failure of the connection is reported to the caller. */
    ghost predicate Reported(before: bool, failed: bool)
      reads outlet
    {
      outlet.broken == (before || failed)
    }

    method SendCommand(command: Byte, option: Byte) returns (failed: bool)
      requires Valid()
      modifies outlet
      ensures Valid() && Model() == Send(old(Model()), Request(command, option)) && Reported(old(outlet.broken), failed)
    {
      failed := WriteBytes([IAC, command, option], Request(command, option));
    }

    method SendBlock(option: Byte, data: seq<Byte>) returns (failed: bool)
      requires Valid()
      modifies outlet
      ensures Valid() && Model() == Send(old(Model()), Block(option, data)) && Reported(old(outlet.broken), failed)
    {
      var payload := AppendEscaped([IAC, SB, option], data);
      payload := payload + [IAC, SE];
      failed := WriteBytes(payload, Block(option, data));
    }

    method SendWindowSize() returns (failed: bool)
      requires Valid()
      modifies outlet
      ensures Valid() && Model() == SendSize(old(Model())) && Reported(old(outlet.broken), failed)
    {
      failed := SendBlock(WINDOW_SIZE, [width / 256 % 256, width % 256, height / 256 % 256, height % 256]);
    }

    /** The data goes out escaped, as one unit, of which a failing connection takes the beginning. */
    method Write(data: seq<Byte>) returns (failed: bool)
      requires Valid()
      modifies outlet
      ensures Valid() && Model() == TelnetClient.Write(old(Model()), data) && Reported(old(outlet.broken), failed)
      ensures old(outlet.wire) <= outlet.wire <= old(outlet.wire) + Escape(data)
      ensures !failed ==> outlet.wire == old(outlet.wire) + Escape(data)
    {
      var encoded := AppendEscaped([], data);
      failed := WriteBytes(encoded, Text(data));
    }

    /** Refuses sizes that do not fit a window-size subnegotiation. */
    method Resize(newWidth: int, newHeight: int) returns (outcome: Outcome)
      requires Valid()
      modifies this`width, this`height, outlet
      ensures Valid() && Model() == TelnetClient.Resize(old(Model()), newWidth, newHeight)
      ensures outcome == Refused <==> !SizeOk(newWidth, newHeight)
      ensures outcome == Failed ==> WINDOW_SIZE in local
      ensures Reported(old(outlet.broken), outcome == Failed)
    {
      if newWidth <= 0 || newHeight <= 0 || newWidth > 65535 || newHeight > 65535 {
        return Refused;
      }
      width, height := newWidth, newHeight;
      if WINDOW_SIZE in local {
        var failed := SendWindowSize();
        if failed {
          return Failed;
        }
      }
      return Done;
    }

    /** Stops at the byte at whose handling a write fails. */
    method Process(data: seq<Byte>) returns (failed: bool, ghost at: nat)
      requires Valid()
      modifies this, outlet
      ensures Valid() && Reported(old(outlet.broken), failed)
      ensures !failed ==> Model() == Receive(old(Model()), data)
      ensures failed ==> at < |data| && StoppedAt(old(Model()), Model(), data, at)
    {
      var i := 0;
      at := 0;
      while i < |data|
        invariant 0 <= i <= |data|
        invariant Valid() && Model() == Receive(old(Model()), data[..i]) && outlet.broken == old(outlet.broken)
      {
        at := i;
        failed := ProcessNext(old(Model()), data, i);
        if failed {
          return;
        }
        i := i + 1;
      }
      assert data[..|data|] == data;
      failed := false;
    }

    /** One turn of that loop. */
    method ProcessNext(ghost start: Client, data: seq<Byte>, i: nat) returns (failed: bool)
      requires Valid() && i < |data| && Model() == Receive(start, data[..i])
      modifies this, outlet
      ensures Valid() && Reported(old(outlet.broken), failed)
      ensures !failed ==> Model() == Receive(start, data[..i + 1])
      ensures failed ==> StoppedAt(start, Model(), data, i)
    {
      ReceiveStep(start, data, i);
      failed := ProcessByte(data[i]);
    }

    method ProcessByte(b: Byte) returns (failed: bool)
      requires Valid()
      modifies this, outlet
      ensures Valid() && Reported(old(outlet.broken), failed)
      ensures !failed ==> Model() == ReceiveByte(old(Model()), b)
      ensures failed ==> CutShort(old(Model()), Model(), ReceiveByte(old(Model()), b))
    {
      HandledAtMostOne(Model(), b);
      failed := false;
      match state
      case Data =>
        if b == IAC {
          state := AfterIac;
        } else {
          pending := pending + [b];
        }
      case AfterIac =>
        if b == IAC {
          pending := pending + [IAC];
          state := Data;
        } else if b == DO || b == DONT || b == WILL || b == WONT {
          negotiation := b;
          state := Negotiation;
        } else if b == SB {
          state := SubOption;
        } else {
          state := Data;
        }
      case Negotiation =>
        state := Data;
        failed := Negotiate(negotiation, b);
      case SubOption =>
        subOption := b;
        subData := [];
        state := SubData;
      case SubData =>
        if b == IAC {
          state := SubIac;
        } else {
          subData := subData + [b];
        }
      case SubIac =>
        if b == IAC {
          subData := subData + [IAC];
          state := SubData;
        } else if b == SE {
          state := Data;
          failed := Subnegotiate();
        } else {
          state := Data;
        }
    }

    method Negotiate(command: Byte, option: Byte) returns (failed: bool)
      requires Valid()
      modifies this`local, this`remote, outlet
      ensures Valid() && Reported(old(outlet.broken), failed)
      ensures !failed ==> Model() == TelnetClient.Negotiate(old(Model()), command, option)
      ensures failed ==> CutShort(old(Model()), Model(), TelnetClient.Negotiate(old(Model()), command, option))
    {
      failed := false;
      if command == DO {
        failed := EnableLocal(option);
      } else if command == DONT {
        failed := DisableLocal(option);
      } else if command == WILL {
        failed := EnableRemote(option);
      } else if command == WONT {
        failed := DisableRemote(option);
      }
    }

    /** The answer to DONT. */
    method DisableLocal(option: Byte) returns (failed: bool)
      requires Valid()
      modifies this`local, outlet
      ensures Valid() && Model() == TelnetClient.Negotiate(old(Model()), DONT, option)
      ensures Reported(old(outlet.broken), failed) && (failed ==> old(outlet.sent) < outlet.sent)
    {
      var enabled := option in local;
      local := local - {option};
      failed := false;
      if enabled {
        failed := SendCommand(WONT, option);
      }
    }

    /** The answer to WONT. */
    method DisableRemote(option: Byte) returns (failed: bool)
      requires Valid()
      modifies this`remote, outlet
      ensures Valid() && Model() == TelnetClient.Negotiate(old(Model()), WONT, option)
      ensures Reported(old(outlet.broken), failed) && (failed ==> old(outlet.sent) < outlet.sent)
    {
      var enabled := option in remote;
      remote := remote - {option};
      failed := false;
      if enabled {
        failed := SendCommand(DONT, option);
      }
    }

    /** The answer to WILL. */
    method EnableRemote(option: Byte) returns (failed: bool)
      requires Valid()
      modifies this`remote, outlet
      ensures Valid() && Model() == TelnetClient.Negotiate(old(Model()), WILL, option)
      ensures Reported(old(outlet.broken), failed) && (failed ==> old(outlet.sent) < outlet.sent)
    {
      if !SupportsRemote(option) {
        failed := SendCommand(DONT, option);
        return;
      }
      var alreadyEnabled := option in remote;
      remote := remote + {option};
      failed := false;
      if !alreadyEnabled {
        failed := SendCommand(DO, option);
      }
    }

    /** Announces an option that has just been enabled, and the window size with it. */
    method Announce(option: Byte) returns (failed: bool)
      requires Valid()
      modifies outlet
      ensures Valid() && Reported(old(outlet.broken), failed)
      ensures var c := old(Model());
              var said := Send(c, Request(WILL, option));
              var full := if option == WINDOW_SIZE then SendSize(said) else said;
              if failed then Model() == said || Model() == full else Model() == full
    {
      failed := SendCommand(WILL, option);
      if !failed && option == WINDOW_SIZE {
        failed := SendWindowSize();
      }
    }

    /** The answer to DO. */
    method EnableLocal(option: Byte) returns (failed: bool)
      requires Valid()
      modifies this`local, outlet
      ensures Valid() && Reported(old(outlet.broken), failed)
      ensures !failed ==> Model() == TelnetClient.Negotiate(old(Model()), DO, option)
      ensures failed ==> CutShort(old(Model()), Model(), TelnetClient.Negotiate(old(Model()), DO, option))
    {
      if !SupportsLocal(option) {
        failed := SendCommand(WONT, option);
        return;
      }
      var alreadyEnabled := option in local;
      local := local + {option};
      failed := false;
      if !alreadyEnabled {
        failed := Announce(option);
      }
    }

    method Subnegotiate() returns (failed: bool)
      requires Valid()
      modifies outlet
      ensures Valid() && Model() == TelnetClient.Subnegotiate(old(Model()), subOption, subData)
      ensures Reported(old(outlet.broken), failed) && (failed ==> old(outlet.sent) < outlet.sent)
    {
      if subOption != TERMINAL_TYPE || |subData| == 0 || subData[0] != SEND {
        return false;
      }
      var payload := AppendEscaped([IAC, SB, TERMINAL_TYPE, IS], terminal);
      payload := payload + [IAC, SE];
      TypePayload(terminal);
      failed := WriteBytes(payload, Block(TERMINAL_TYPE, [IS] + terminal));
    }
  }
}
