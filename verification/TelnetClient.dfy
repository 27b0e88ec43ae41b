/** The Telnet client stream: option negotiation, window size and terminal type, over the framing
    of module TelnetWire. */
module TelnetClient {
  import opened Options
  import opened TelnetWire

  const BINARY: Byte := 0
  const ECHO: Byte := 1
  const SUPPRESS_GO_AHEAD: Byte := 3
  const TERMINAL_TYPE: Byte := 24
  const WINDOW_SIZE: Byte := 31
  const IS: Byte := 0
  const SEND: Byte := 1

  predicate SupportsLocal(option: Byte) {
    option == BINARY || option == SUPPRESS_GO_AHEAD || option == TERMINAL_TYPE || option == WINDOW_SIZE
  }

  predicate SupportsRemote(option: Byte) {
    option == BINARY || option == ECHO || option == SUPPRESS_GO_AHEAD
  }

  /** The four bytes of a window size, high bytes first; larger dimensions lose their high bits. */
  function SizeBytes(width: nat, height: nat): seq<Byte> {
    [width / 256 % 256, width % 256, height / 256 % 256, height % 256]
  }

  predicate SizeOk(width: int, height: int) {
    0 < width <= 65535 && 0 < height <= 65535
  }

  // ------------------------------------------------------------------------- model

  /** What the stream remembers and what it has put on the wire and handed to its reader. */
  datatype Client = Client(
    decoder: Decoder,
    terminal: seq<Byte>,
    width: nat,
    height: nat,
    local: set<Byte>,
    remote: set<Byte>,
    sent: seq<Unit>,
    pending: seq<Byte>)

  function NewClient(terminal: seq<Byte>, width: nat, height: nat): Client {
    Client(Decoder(Data, 0, 0, []), terminal, width, height, {}, {}, [], [])
  }

  function Send(c: Client, u: Unit): Client {
    c.(sent := c.sent + [u])
  }

  function SendSize(c: Client): Client {
    Send(c, Block(WINDOW_SIZE, SizeBytes(c.width, c.height)))
  }

  /** Answers a request about an option. */
  function Negotiate(c: Client, command: Byte, option: Byte): Client {
    if command == DO then
      if !SupportsLocal(option) then Send(c, Request(WONT, option))
      else if option in c.local then c
      else
        var on := Send(c.(local := c.local + {option}), Request(WILL, option));
        if option == WINDOW_SIZE then SendSize(on) else on
    else if command == DONT then
      if option in c.local then Send(c.(local := c.local - {option}), Request(WONT, option)) else c
    else if command == WILL then
      if !SupportsRemote(option) then Send(c, Request(DONT, option))
      else if option in c.remote then c
      else Send(c.(remote := c.remote + {option}), Request(DO, option))
    else if command == WONT then
      if option in c.remote then Send(c.(remote := c.remote - {option}), Request(DONT, option)) else c
    else c
  }

  function Subnegotiate(c: Client, option: Byte, data: seq<Byte>): Client {
    if option != TERMINAL_TYPE || data == [] || data[0] != SEND then c
    else Send(c, Block(TERMINAL_TYPE, [IS] + c.terminal))
  }

  function Handle(c: Client, item: Item): Client {
    match item
    case Payload(b) => c.(pending := c.pending + [b])
    case Requested(command, option) => Negotiate(c, command, option)
    case Subnegotiated(option, data) => Subnegotiate(c, option, data)
  }

  function HandleAll(c: Client, items: seq<Item>): Client {
    if items == [] then c else Handle(HandleAll(c, items[..|items| - 1]), items[|items| - 1])
  }

  /** The effect of one byte from the peer. */
  function ReceiveByte(c: Client, b: Byte): Client {
    var (decoder, items) := DecodeByte(c.decoder, b);
    HandleAll(c.(decoder := decoder), items)
  }

  function Receive(c: Client, bytes: seq<Byte>): Client {
    if bytes == [] then c else ReceiveByte(Receive(c, bytes[..|bytes| - 1]), bytes[|bytes| - 1])
  }

  /** Refused sizes change nothing. */
  function Resize(c: Client, width: int, height: int): Client {
    if !SizeOk(width, height) then c
    else
      var sized := c.(width := width, height := height);
      if WINDOW_SIZE in c.local then SendSize(sized) else sized
  }

  function Write(c: Client, data: seq<Byte>): Client {
    Send(c, Text(data))
  }

  datatype Call = Incoming(bytes: seq<Byte>) | Resizing(width: int, height: int) | Writing(data: seq<Byte>)

  function Act(c: Client, call: Call): Client {
    match call
    case Incoming(bytes) => Receive(c, bytes)
    case Resizing(width, height) => Resize(c, width, height)
    case Writing(data) => Write(c, data)
  }

  function Run(c: Client, calls: seq<Call>): Client {
    if calls == [] then c else Act(Run(c, calls[..|calls| - 1]), calls[|calls| - 1])
  }

  // -------------------------------------------------------------------- what was said

  /** The last request about an option among those sent, restricted to one direction: WILL or WONT
      when `local`, DO or DONT otherwise. */
  function LastSaid(sent: seq<Unit>, local: bool, option: Byte): Option<Byte> {
    if sent == [] then None
    else
      var u := sent[|sent| - 1];
      if u.Request? && u.option == option && local == (u.command == WILL || u.command == WONT)
      then Some(u.command)
      else LastSaid(sent[..|sent| - 1], local, option)
  }

  function LastBlock(sent: seq<Unit>, option: Byte): Option<seq<Byte>> {
    if sent == [] then None
    else
      var u := sent[|sent| - 1];
      if u.Block? && u.option == option then Some(u.data) else LastBlock(sent[..|sent| - 1], option)
  }

  /** An option is on exactly when the last thing said about it turned it on; only supported options
      are on; and while the window-size option is on, the peer has been told the current size. */
  predicate Truthful(c: Client) {
    && (forall o: Byte :: o in c.local <==> LastSaid(c.sent, true, o) == Some(WILL))
    && (forall o: Byte :: o in c.remote <==> LastSaid(c.sent, false, o) == Some(DO))
    && (forall o: Byte | o in c.local :: SupportsLocal(o))
    && (forall o: Byte | o in c.remote :: SupportsRemote(o))
    && (WINDOW_SIZE in c.local ==> LastBlock(c.sent, WINDOW_SIZE) == Some(SizeBytes(c.width, c.height)))
    && AllSendable(c.sent)
    && SizeOk(c.width, c.height)
  }

  lemma SendSaid(sent: seq<Unit>, u: Unit)
    ensures forall local, o: Byte ::
      (LastSaid(sent + [u], local, o) ==
       if u.Request? && u.option == o && local == (u.command == WILL || u.command == WONT)
       then Some(u.command) else LastSaid(sent, local, o))
    ensures forall o: Byte ::
      (LastBlock(sent + [u], o) == if u.Block? && u.option == o then Some(u.data) else LastBlock(sent, o))
  {
    assert (sent + [u])[..|sent|] == sent;
  }

  lemma EnabledTruthful(c: Client, option: Byte)
    requires Truthful(c)
    ensures Truthful(Negotiate(c, DO, option))
  {
    var answer := Request(if SupportsLocal(option) then WILL else WONT, option);
    SendSaid(c.sent, answer);
    SendSaid(c.sent + [answer], Block(WINDOW_SIZE, SizeBytes(c.width, c.height)));
  }

  lemma DisabledTruthful(c: Client, option: Byte)
    requires Truthful(c)
    ensures Truthful(Negotiate(c, DONT, option))
  {
    SendSaid(c.sent, Request(WONT, option));
  }

  lemma RemoteTruthful(c: Client, command: Byte, option: Byte)
    requires Truthful(c) && (command == WILL || command == WONT)
    ensures Truthful(Negotiate(c, command, option))
  {
    SendSaid(c.sent, Request(if command == WILL && SupportsRemote(option) then DO else DONT, option));
  }

  lemma NegotiateTruthful(c: Client, command: Byte, option: Byte)
    requires Truthful(c) && IsRequest(command)
    ensures Truthful(Negotiate(c, command, option))
  {
    if command == DO {
      EnabledTruthful(c, option);
    } else if command == DONT {
      DisabledTruthful(c, option);
    } else {
      RemoteTruthful(c, command, option);
    }
  }

  lemma SendBlockTruthful(c: Client, width: nat, height: nat, option: Byte, data: seq<Byte>)
    requires Truthful(c) && SizeOk(width, height)
    requires if option == WINDOW_SIZE then data == SizeBytes(width, height)
             else WINDOW_SIZE in c.local ==> width == c.width && height == c.height
    ensures Truthful(Send(c.(width := width, height := height), Block(option, data)))
  {
    SendSaid(c.sent, Block(option, data));
  }

  lemma HandleTruthful(c: Client, item: Item)
    requires Truthful(c) && (item.Requested? ==> IsRequest(item.command))
    ensures Truthful(Handle(c, item))
  {
    match item
    case Payload(_) =>
    case Requested(command, option) => NegotiateTruthful(c, command, option);
    case Subnegotiated(option, data) =>
      SendBlockTruthful(c, c.width, c.height, TERMINAL_TYPE, [IS] + c.terminal);
  }

  /** The decoder only ever reports the four request commands. */
  predicate Ready(d: Decoder) {
    d.state == Negotiation ==> IsRequest(d.command)
  }

  lemma ReceiveByteTruthful(c: Client, b: Byte)
    requires Truthful(c) && Ready(c.decoder)
    ensures Truthful(ReceiveByte(c, b)) && Ready(ReceiveByte(c, b).decoder)
  {
    var (decoder, items) := DecodeByte(c.decoder, b);
    var next := c.(decoder := decoder);
    if items != [] {
      assert items[..0] == [] && HandleAll(next, []) == next;
      HandleTruthful(next, items[0]);
    }
  }

  lemma {:induction false} ReceiveTruthful(c: Client, bytes: seq<Byte>)
    requires Truthful(c) && Ready(c.decoder)
    ensures Truthful(Receive(c, bytes)) && Ready(Receive(c, bytes).decoder)
  {
    if bytes != [] {
      ReceiveTruthful(c, bytes[..|bytes| - 1]);
      ReceiveByteTruthful(Receive(c, bytes[..|bytes| - 1]), bytes[|bytes| - 1]);
    }
  }

  lemma ActTruthful(c: Client, call: Call)
    requires Truthful(c) && Ready(c.decoder)
    ensures Truthful(Act(c, call)) && Ready(Act(c, call).decoder)
  {
    match call
    case Incoming(bytes) => ReceiveTruthful(c, bytes);
    case Resizing(width, height) =>
      if SizeOk(width, height) && WINDOW_SIZE in c.local {
        SendBlockTruthful(c, width, height, WINDOW_SIZE, SizeBytes(width, height));
      }
    case Writing(data) => SendSaid(c.sent, Text(data));
  }

  /** Whatever the peer sends and the caller asks for, the stream's idea of every option is what it
      last said about it. */
  lemma {:induction false} OptionTruth(terminal: seq<Byte>, width: nat, height: nat, calls: seq<Call>)
    requires SizeOk(width, height)
    ensures var c := Run(NewClient(terminal, width, height), calls);
            Truthful(c) && Ready(c.decoder)
  {
    if calls != [] {
      OptionTruth(terminal, width, height, calls[..|calls| - 1]);
      ActTruthful(Run(NewClient(terminal, width, height), calls[..|calls| - 1]), calls[|calls| - 1]);
    }
  }

  /** Is the option already in the state this request asks for? */
  predicate AlreadyHeld(c: Client, command: Byte, option: Byte) {
    if command == DO then option in c.local
    else if command == DONT then option !in c.local
    else if command == WILL then option in c.remote
    else option !in c.remote
  }

  /** A request gets no answer exactly when it asks for the state the option is in, and an answer
      says what the state has become. */
  lemma AnswersOnlyChanges(c: Client, command: Byte, option: Byte)
    requires Truthful(c) && IsRequest(command)
    ensures var next := Negotiate(c, command, option);
            && (next.sent == c.sent <==> AlreadyHeld(c, command, option))
            && (AlreadyHeld(c, command, option) ==> next == c)
            && (!AlreadyHeld(c, command, option) ==>
                  && |next.sent| > |c.sent| && next.sent[..|c.sent|] == c.sent
                  && next.sent[|c.sent|] == Request(
                       if command == DO || command == DONT then (if option in next.local then WILL else WONT)
                       else (if option in next.remote then DO else DONT), option))
  {
    assert forall u: Unit :: (c.sent + [u])[..|c.sent|] == c.sent;
  }

  // --------------------------------------------------------------- failing connections

  /** A write to the connection failed on the way from `c` to `full`: the units up to that one were
      attempted, the rest were not, and everything else is as in `full`. */
  predicate CutShort(c: Client, next: Client, full: Client) {
    c.sent < next.sent <= full.sent && next == full.(sent := next.sent)
  }

  /** Handling the byte `at` of the data was cut short. */
  predicate StoppedAt(c: Client, next: Client, data: seq<Byte>, at: nat)
    requires at < |data|
  {
    var before := Receive(c, data[..at]);
    CutShort(before, next, ReceiveByte(before, data[at]))
  }

  lemma ReceiveStep(c: Client, data: seq<Byte>, i: nat)
    requires i < |data|
    ensures Receive(c, data[..i + 1]) == ReceiveByte(Receive(c, data[..i]), data[i])
  {
    assert data[..i + 1][..i] == data[..i];
  }

  lemma OnlySizeIsCut(c: Client, next: Client, command: Byte, option: Byte)
    requires CutShort(c, next, Negotiate(c, command, option)) && next != Negotiate(c, command, option)
    ensures command == DO && option == WINDOW_SIZE && WINDOW_SIZE !in c.local
    ensures next == Send(c.(local := c.local + {WINDOW_SIZE}), Request(WILL, WINDOW_SIZE))
  {
    var full := Negotiate(c, command, option);
    assert |full.sent| >= |c.sent| + 2;
    assert next.sent == full.sent[..|c.sent| + 1];
  }

  /** An answer that is cut short leaves the options true to what was attempted, and the size told as
      well, exactly if nothing was missing or the peer had been told this size before. */
  lemma CutTruthIff(c: Client, next: Client, command: Byte, option: Byte)
    requires Truthful(c) && IsRequest(command) && CutShort(c, next, Negotiate(c, command, option))
    ensures Truthful(next) <==>
            next == Negotiate(c, command, option)
            || LastBlock(c.sent, WINDOW_SIZE) == Some(SizeBytes(c.width, c.height))
    ensures next != Negotiate(c, command, option) ==> command == DO && option == WINDOW_SIZE
  {
    NegotiateTruthful(c, command, option);
    if next != Negotiate(c, command, option) {
      OnlySizeIsCut(c, next, command, option);
      SendSaid(c.sent, Request(WILL, WINDOW_SIZE));
    }
  }
}
