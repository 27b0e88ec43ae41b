/** What stands between the host and the byte-stream parser while a control string is open: bytes of
    multi-byte characters are replaced where the parser would take them for the end of the string. The
    parser is a library; here it is whatever state it reports before each byte. */
module StringGuard {

  type Byte = b: int | 0 <= b < 256

  datatype ParserState = OscString | DcsString | SosString | PmString | ApcString | Elsewhere

  /** Strings whose content is delivered. */
  predicate Delivered(s: ParserState) {
    s == OscString || s == DcsString
  }

  /** The 8-bit string terminator, which is also a UTF-8 continuation byte. */
  const TERMINATOR: Byte := 0x9C

  /** Stands in for a continuation byte of 0x9C; never occurs in UTF-8. */
  const PLACEHOLDER: Byte := 0xFE

  // ------------------------------------------------------------------------ the guard

  /** How many continuation bytes are still expected after this byte. */
  function Expected(continuation: nat, b: Byte): nat {
    if continuation > 0 && 0x80 <= b <= 0xBF then continuation - 1
    else if 0xC2 <= b <= 0xDF then 1
    else if 0xE0 <= b <= 0xEF then 2
    else if 0xF0 <= b <= 0xF4 then 3
    else 0
  }

  /** Is this byte part of a multi-byte character? */
  predicate InCharacter(continuation: nat, b: Byte) {
    (continuation > 0 && 0x80 <= b <= 0xBF) || 0xC2 <= b <= 0xF4
  }

  /** What the parser is given for a byte, and the counter after it. */
  function ProtectByte(s: ParserState, continuation: nat, b: Byte): (Byte, nat) {
    if s == Elsewhere then (b, 0)
    else if !InCharacter(continuation, b) then (b, 0)
    else
      (if Delivered(s) then (if b == TERMINATOR then PLACEHOLDER else b) else '?' as int,
       Expected(continuation, b))
  }

  function Protect(states: seq<ParserState>, continuation: nat, bytes: seq<Byte>): (seq<Byte>, nat)
    requires |states| == |bytes|
    decreases |bytes|
  {
    if bytes == [] then ([], continuation)
    else
      var (first, next) := ProtectByte(states[0], continuation, bytes[0]);
      var (rest, last) := Protect(states[1..], next, bytes[1..]);
      ([first] + rest, last)
  }

  function RestoreByte(b: Byte): Byte {
    if b == PLACEHOLDER then TERMINATOR else b
  }

  function Replaced(data: seq<Byte>): seq<Byte> {
    seq(|data|, i requires 0 <= i < |data| => RestoreByte(data[i]))
  }

  /** Applied to the content of a delivered string. */
  function Restore(data: seq<Byte>): seq<Byte> {
    if PLACEHOLDER !in data then data else Replaced(data)
  }

  // --------------------------------------------------------------------------- UTF-8

  predicate Tail(b: Byte) {
    0x80 <= b <= 0xBF
  }

  /** The length of the character that `bytes` starts with, by section 4 of RFC 3629; 0 if none. */
  function CharacterLength(bytes: seq<Byte>): (n: nat)
    ensures n <= |bytes| && n <= 4
  {
    if bytes == [] then 0
    else
      var b := bytes[0];
      if b <= 0x7F then 1
      else if |bytes| >= 2 && 0xC2 <= b <= 0xDF && Tail(bytes[1]) then 2
      else if |bytes| >= 3 && Tail(bytes[2])
              && ((b == 0xE0 && 0xA0 <= bytes[1] <= 0xBF) || (0xE1 <= b <= 0xEC && Tail(bytes[1]))
                  || (b == 0xED && 0x80 <= bytes[1] <= 0x9F) || (0xEE <= b <= 0xEF && Tail(bytes[1]))) then 3
      else if |bytes| >= 4 && Tail(bytes[2]) && Tail(bytes[3])
              && ((b == 0xF0 && 0x90 <= bytes[1] <= 0xBF) || (0xF1 <= b <= 0xF3 && Tail(bytes[1]))
                  || (b == 0xF4 && 0x80 <= bytes[1] <= 0x8F)) then 4
      else 0
  }

  predicate IsUtf8(bytes: seq<Byte>)
    decreases |bytes|
  {
    bytes == [] || (CharacterLength(bytes) > 0 && IsUtf8(bytes[CharacterLength(bytes)..]))
  }

  predicate AllDelivered(states: seq<ParserState>) {
    forall i | 0 <= i < |states| :: Delivered(states[i])
  }

  predicate AllDiscarded(states: seq<ParserState>) {
    forall i | 0 <= i < |states| :: !Delivered(states[i]) && states[i] != Elsewhere
  }

  // ------------------------------------------------------------------- what it promises

  lemma {:induction false} ProtectLength(states: seq<ParserState>, continuation: nat, bytes: seq<Byte>)
    requires |states| == |bytes|
    ensures |Protect(states, continuation, bytes).0| == |bytes|
    decreases |bytes|
  {
    if bytes != [] {
      ProtectLength(states[1..], ProtectByte(states[0], continuation, bytes[0]).1, bytes[1..]);
    }
  }

  /** Every protected byte comes from the byte in its place and the counter there. */
  lemma {:induction false} ProtectAt(states: seq<ParserState>, continuation: nat, bytes: seq<Byte>, i: nat)
    requires |states| == |bytes| && i < |bytes|
    ensures |Protect(states, continuation, bytes).0| == |bytes|
    ensures Protect(states, continuation, bytes).0[i] ==
            ProtectByte(states[i], Protect(states[..i], continuation, bytes[..i]).1, bytes[i]).0
    decreases |bytes|
  {
    ProtectLength(states, continuation, bytes);
    if i > 0 {
      var next := ProtectByte(states[0], continuation, bytes[0]).1;
      ProtectAt(states[1..], next, bytes[1..], i - 1);
      assert bytes[..i][1..] == bytes[1..][..i - 1] && states[..i][1..] == states[1..][..i - 1];
    } else {
      assert bytes[..0] == [] && states[..0] == [];
    }
  }

  /** A terminator reaches the parser exactly when it is not inside a multi-byte character, so a
      string can still be ended. */
  lemma TerminatorPassesIff(states: seq<ParserState>, continuation: nat, bytes: seq<Byte>, i: nat)
    requires |states| == |bytes| && i < |bytes| && AllDelivered(states)
    ensures |Protect(states, continuation, bytes).0| == |bytes|
    ensures Protect(states, continuation, bytes).0[i] == TERMINATOR <==>
            bytes[i] == TERMINATOR && Protect(states[..i], continuation, bytes[..i]).1 == 0
  {
    ProtectAt(states, continuation, bytes, i);
  }

  /** Restoring undoes protecting exactly for content without the placeholder. */
  lemma RestoreIff(states: seq<ParserState>, continuation: nat, bytes: seq<Byte>)
    requires |states| == |bytes| && AllDelivered(states)
    ensures Restore(Protect(states, continuation, bytes).0) == bytes <==> PLACEHOLDER !in bytes
  {
    var protected := Protect(states, continuation, bytes).0;
    ProtectLength(states, continuation, bytes);
    forall i | 0 <= i < |bytes|
      ensures RestoreByte(protected[i]) == if bytes[i] == PLACEHOLDER then TERMINATOR else bytes[i]
    {
      ProtectAt(states, continuation, bytes, i);
    }
    assert Restore(protected) == Replaced(protected);
    if PLACEHOLDER in bytes {
      var i :| 0 <= i < |bytes| && bytes[i] == PLACEHOLDER;
      assert Replaced(protected)[i] != bytes[i];
    }
  }

  /** The rest of a character of which `k` bytes are missing, and then UTF-8. */
  predicate InText(k: nat, bytes: seq<Byte>)
    decreases |bytes|
  {
    if k == 0 then IsUtf8(bytes)
    else bytes != [] && Tail(bytes[0]) && InText(k - 1, bytes[1..])
  }

  /** The first byte of a character tells how many more it has. */
  lemma FirstByte(bytes: seq<Byte>)
    requires IsUtf8(bytes) && bytes != []
    ensures InText(Expected(0, bytes[0]), bytes[1..])
    ensures bytes[0] < 0x80 || InCharacter(0, bytes[0])
    ensures bytes[0] != TERMINATOR
  {
    var n := CharacterLength(bytes);
    if n >= 2 {
      assert bytes[1..][1..] == bytes[2..];
    }
    if n >= 3 {
      assert bytes[2..][1..] == bytes[3..];
      if n == 4 {
        assert bytes[3..][1..] == bytes[4..];
        assert InText(1, bytes[3..]);
      }
      assert InText(n - 2, bytes[2..]);
    }
  }

  /** The same promise in the middle of a character. */
  lemma {:induction false} GuardsRest(states: seq<ParserState>, k: nat, bytes: seq<Byte>)
    requires |states| == |bytes| && InText(k, bytes) && (AllDelivered(states) || AllDiscarded(states))
    ensures Protect(states, k, bytes).1 == 0
    ensures AllDelivered(states) ==> TERMINATOR !in Protect(states, k, bytes).0
    ensures AllDiscarded(states) ==> forall b | b in Protect(states, k, bytes).0 :: b < 0x80
    decreases |bytes|
  {
    if bytes != [] {
      if k == 0 {
        FirstByte(bytes);
      }
      var (first, next) := ProtectByte(states[0], k, bytes[0]);
      assert next == Expected(k, bytes[0]) && InText(next, bytes[1..]);
      GuardsRest(states[1..], next, bytes[1..]);
    }
  }

  lemma {:induction false} Utf8HasNoPlaceholder(bytes: seq<Byte>)
    requires IsUtf8(bytes)
    ensures PLACEHOLDER !in bytes
    decreases |bytes|
  {
    if bytes != [] {
      var n := CharacterLength(bytes);
      Utf8HasNoPlaceholder(bytes[n..]);
      assert bytes == bytes[..n] + bytes[n..];
    }
  }

  /** UTF-8 text that arrives while the parser stays in a delivered string never shows it a
      terminator and is restored exactly; in a discarded string it shows only ASCII. Either way the
      counter is back at zero. */
  lemma GuardsUtf8(states: seq<ParserState>, bytes: seq<Byte>)
    requires |states| == |bytes| && IsUtf8(bytes) && (AllDelivered(states) || AllDiscarded(states))
    ensures Protect(states, 0, bytes).1 == 0
    ensures AllDelivered(states) ==>
      TERMINATOR !in Protect(states, 0, bytes).0 && Restore(Protect(states, 0, bytes).0) == bytes
    ensures AllDiscarded(states) ==> forall b | b in Protect(states, 0, bytes).0 :: b < 0x80
  {
    GuardsRest(states, 0, bytes);
    Utf8HasNoPlaceholder(bytes);
    if AllDelivered(states) {
      RestoreIff(states, 0, bytes);
    }
  }

  // ------------------------------------------------------------- any bytes in any states

  /** How many bytes follow the first byte of a character, by section 3 of RFC 3629. */
  function Following(b: Byte): nat {
    if 0xC2 <= b <= 0xDF then 1 else if 0xE0 <= b <= 0xEF then 2 else if 0xF0 <= b <= 0xF4 then 3 else 0
  }

  /** The bytes of a string from j up to i are the first of a character, and it has more. */
  predicate Unfinished(states: seq<ParserState>, bytes: seq<Byte>, j: nat, i: nat)
    requires |states| == |bytes| && i <= |bytes|
  {
    && j < i && i - j <= Following(bytes[j])
    && (forall k | j < k < i :: Tail(bytes[k]))
    && (forall k | j <= k < i :: states[k] != Elsewhere)
  }

  /** Does byte i begin or continue a multi-byte character of a string? */
  ghost predicate OfCharacter(states: seq<ParserState>, bytes: seq<Byte>, i: nat)
    requires |states| == |bytes| && i < |bytes|
  {
    || 0xC2 <= bytes[i] <= 0xF4
    || (Tail(bytes[i]) && exists j :: 0 <= j < i && Unfinished(states, bytes, j, i))
  }

  lemma Prepend(first: seq<Byte>, second: seq<Byte>, b: Byte)
    ensures ([b] + first) + second == [b] + (first + second)
  {
  }

  lemma ProtectFirst(states: seq<ParserState>, continuation: nat, bytes: seq<Byte>)
    returns (b: Byte, next: nat, rest: seq<Byte>, last: nat)
    requires |states| == |bytes| && bytes != []
    ensures (b, next) == ProtectByte(states[0], continuation, bytes[0])
    ensures (rest, last) == Protect(states[1..], next, bytes[1..])
    ensures Protect(states, continuation, bytes) == ([b] + rest, last)
  {
    b, next := ProtectByte(states[0], continuation, bytes[0]).0, ProtectByte(states[0], continuation, bytes[0]).1;
    rest, last := Protect(states[1..], next, bytes[1..]).0, Protect(states[1..], next, bytes[1..]).1;
  }

  /** How a stream is split into writes makes no difference. */
  lemma {:induction false} ProtectSplit(states: seq<ParserState>, states': seq<ParserState>, continuation: nat,
                                        bytes: seq<Byte>, bytes': seq<Byte>)
    requires |states| == |bytes| && |states'| == |bytes'|
    ensures var (first, next) := Protect(states, continuation, bytes);
            var (second, last) := Protect(states', next, bytes');
            Protect(states + states', continuation, bytes + bytes') == (first + second, last)
    decreases |bytes|
  {
    if bytes == [] {
      assert states + states' == states' && bytes + bytes' == bytes';
      assert [] + Protect(states', continuation, bytes').0 == Protect(states', continuation, bytes').0;
    } else {
      var b, next, first, middle := ProtectFirst(states, continuation, bytes);
      ProtectSplit(states[1..], states', next, bytes[1..], bytes');
      Prepend(first, Protect(states', middle, bytes').0, b);
      assert (states + states')[1..] == states[1..] + states' && (bytes + bytes')[1..] == bytes[1..] + bytes';
      var _, _, _, _ := ProtectFirst(states + states', continuation, bytes + bytes');
    }
  }

  /** The counter behind the first i bytes. */
  function CounterAt(states: seq<ParserState>, bytes: seq<Byte>, i: nat): nat
    requires |states| == |bytes| && i <= |bytes|
  {
    Protect(states[..i], 0, bytes[..i]).1
  }

  lemma OneByte(s: ParserState, continuation: nat, b: Byte)
    ensures Protect([s], continuation, [b]).1 == ProtectByte(s, continuation, b).1
  {
    assert [s][1..] == [] && [b][1..] == [];
  }

  lemma CounterStep(states: seq<ParserState>, bytes: seq<Byte>, i: nat)
    requires |states| == |bytes| && i < |bytes|
    ensures CounterAt(states, bytes, i + 1) ==
            ProtectByte(states[i], CounterAt(states, bytes, i), bytes[i]).1
  {
    var c := CounterAt(states, bytes, i);
    ProtectSplit(states[..i], [states[i]], 0, bytes[..i], [bytes[i]]);
    assert states[..i] + [states[i]] == states[..i + 1] && bytes[..i] + [bytes[i]] == bytes[..i + 1];
    OneByte(states[i], c, bytes[i]);
  }

  /** The counter says how many bytes the unfinished character still has. */
  ghost predicate Counts(states: seq<ParserState>, bytes: seq<Byte>, i: nat, counter: nat)
    requires |states| == |bytes| && i <= |bytes|
  {
    && (counter > 0 ==> exists j :: 0 <= j < i && Unfinished(states, bytes, j, i))
    && (forall j | 0 <= j < i && Unfinished(states, bytes, j, i) :: counter == Following(bytes[j]) + 1 - (i - j))
  }

  lemma CountsStep(states: seq<ParserState>, bytes: seq<Byte>, i: nat, counter: nat)
    requires |states| == |bytes| && i < |bytes| && Counts(states, bytes, i, counter)
    ensures Counts(states, bytes, i + 1, ProtectByte(states[i], counter, bytes[i]).1)
  {
    var after := ProtectByte(states[i], counter, bytes[i]).1;
    forall j | 0 <= j < i + 1 && Unfinished(states, bytes, j, i + 1)
      ensures after == Following(bytes[j]) - (i - j)
    {
      assert j < i ==> Unfinished(states, bytes, j, i);
    }
    if after > 0 {
      if Tail(bytes[i]) {
        var j :| 0 <= j < i && Unfinished(states, bytes, j, i);
        assert Unfinished(states, bytes, j, i + 1);
      } else {
        assert Unfinished(states, bytes, i, i + 1);
      }
    }
  }

  lemma {:induction false} CounterCounts(states: seq<ParserState>, bytes: seq<Byte>, i: nat)
    requires |states| == |bytes| && i <= |bytes|
    ensures Counts(states, bytes, i, CounterAt(states, bytes, i))
  {
    if i == 0 {
      assert states[..0] == [] && bytes[..0] == [];
    } else {
      CounterCounts(states, bytes, i - 1);
      CountsStep(states, bytes, i - 1, CounterAt(states, bytes, i - 1));
      CounterStep(states, bytes, i - 1);
    }
  }

  /** What the parser is given, for any bytes in any states: outside of strings, and for a byte of a
      string that is not part of a multi-byte character (ESC and BEL among them), the byte itself;
      for one that is, a question mark in a string that is discarded, and in one that is delivered
      the byte itself unless it is a terminator. Outside of strings nothing is left to expect. */
  lemma ProtectedExactly(states: seq<ParserState>, bytes: seq<Byte>, i: nat)
    requires |states| == |bytes| && i < |bytes|
    ensures |Protect(states, 0, bytes).0| == |bytes|
    ensures Protect(states, 0, bytes).0[i] ==
            if states[i] == Elsewhere || !OfCharacter(states, bytes, i) then bytes[i]
            else if !Delivered(states[i]) then 0x3F
            else if bytes[i] == 0x9C then 0xFE
            else bytes[i]
    ensures states[i] == Elsewhere ==> Protect(states[..i + 1], 0, bytes[..i + 1]).1 == 0
  {
    ProtectAt(states, 0, bytes, i);
    CounterCounts(states, bytes, i);
    CounterStep(states, bytes, i);
  }

  // --------------------------------------------------------------------- the parser front

  class Parser {
    var continuation: nat

    constructor ()
      ensures continuation == 0
    {
      continuation := 0;
    }

    method ProtectString(state: ParserState, b: Byte) returns (r: Byte)
      modifies this
      ensures (r, continuation) == ProtectByte(state, old(continuation), b)
    {
      if state == Elsewhere {
        continuation := 0;
        return b;
      }
      if continuation > 0 && b >= 0x80 && b <= 0xBF {
        continuation := continuation - 1;
      } else if b >= 0xC2 && b <= 0xDF {
        continuation := 1;
      } else if b >= 0xE0 && b <= 0xEF {
        continuation := 2;
      } else if b >= 0xF0 && b <= 0xF4 {
        continuation := 3;
      } else {
        continuation := 0;
        return b;
      }
      if state == OscString || state == DcsString {
        if b == TERMINATOR {
          return PLACEHOLDER;
        }
        return b;
      }
      return '?' as int;
    }

    /** `states[i]` is the parser's state before byte i, and `advanced` what it is advanced with. */
    method Write(data: seq<Byte>, states: seq<ParserState>) returns (advanced: seq<Byte>)
      requires |states| == |data|
      modifies this
      ensures (advanced, continuation) == Protect(states, old(continuation), data)
    {
      advanced := [];
      var i := 0;
      assert states[0..] == states && data[0..] == data;
      assert [] + Protect(states, continuation, data).0 == Protect(states, continuation, data).0;
      while i < |data|
        invariant 0 <= i <= |data|
        invariant Protect(states, old(continuation), data) ==
                  (advanced + Protect(states[i..], continuation, data[i..]).0,
                   Protect(states[i..], continuation, data[i..]).1)
      {
        ghost var rest := Protect(states[i + 1..], ProtectByte(states[i], continuation, data[i]).1, data[i + 1..]).0;
        assert states[i..][1..] == states[i + 1..] && data[i..][1..] == data[i + 1..];
        var b := ProtectString(states[i], data[i]);
        assert (advanced + [b]) + rest == advanced + ([b] + rest);
        advanced := advanced + [b];
        i := i + 1;
      }
      assert Protect(states[i..], continuation, data[i..]) == ([], continuation);
      assert advanced + [] == advanced;
    }
  }
}
