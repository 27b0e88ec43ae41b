/** The sending side that both ends of a Telnet connection share: whole units are encoded, and
    written to a connection that may take only part of the bytes, or fail. */
module TelnetOutlet {
  import opened TelnetWire

  lemma EncodeLast(units: seq<Unit>, last: Unit)
    ensures EncodeAll(units + [last]) == EncodeAll(units) + Encode(last)
  {
    assert (units + [last])[..|units|] == units;
  }

  class Outlet {
    /** Everything the connection has taken. */
    var wire: seq<Byte>
    /** The units attempted, those attempted before the first failure, and whether there was one. */
    ghost var sent: seq<Unit>
    ghost var whole: seq<Unit>
    ghost var broken: bool

    /** The wire carries whole units, one after the other, as long as no write has failed. */
    ghost predicate Valid()
      reads this
    {
      && whole <= sent && EncodeAll(whole) <= wire
      && (!broken ==> whole == sent && wire == EncodeAll(sent))
    }

    constructor ()
      ensures Valid() && sent == [] && !broken
    {
      wire, sent, whole, broken := [], [], [], false;
    }

    /** The connection: it takes any part of the bytes, with or without an error. */
    method ConnectionWrite(bytes: seq<Byte>) returns (n: nat, failed: bool)
      modifies this`wire
      ensures n <= |bytes| && wire == old(wire) + bytes[..n]
    {
      n :| 0 <= n <= |bytes|;
      failed := *;
      wire := wire + bytes[..n];
    }

    /** Writes until all is taken, or the connection fails or takes nothing. */
    method WriteAll(bytes: seq<Byte>) returns (failed: bool)
      modifies this`wire
      ensures old(wire) <= wire <= old(wire) + bytes
      ensures !failed ==> wire == old(wire) + bytes
    {
      var i := 0;
      while i < |bytes|
        invariant 0 <= i <= |bytes| && wire == old(wire) + bytes[..i]
      {
        var n;
        n, failed := ConnectionWrite(bytes[i..]);
        assert bytes[..i] + bytes[i..][..n] == bytes[..i + n];
        i := i + n;
        if failed || n == 0 {
          return true;
        }
      }
      return false;
    }

    /** One write of some units. */
    method Write(bytes: seq<Byte>, ghost units: seq<Unit>) returns (failed: bool)
      requires Valid() && EncodeAll(sent + units) == EncodeAll(sent) + bytes
      modifies this
      ensures Valid() && sent == old(sent) + units && broken == (old(broken) || failed)
      ensures old(wire) <= wire <= old(wire) + bytes && (!failed ==> wire == old(wire) + bytes)
    {
      failed := WriteAll(bytes);
      sent := sent + units;
      if !broken && !failed {
        whole := sent;
      }
      broken := broken || failed;
    }

    method WriteUnit(bytes: seq<Byte>, ghost u: Unit) returns (failed: bool)
      requires Valid() && bytes == Encode(u)
      modifies this
      ensures Valid() && sent == old(sent) + [u] && broken == (old(broken) || failed)
      ensures old(wire) <= wire <= old(wire) + bytes && (!failed ==> wire == old(wire) + bytes)
    {
      EncodeLast(sent, u);
      failed := Write(bytes, [u]);
    }
  }
}
