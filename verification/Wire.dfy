/** Byte streams as the listeners see them. A connection delivers its input in
    chunks of any size and then ends (end of file or an expired deadline); a
    prefixConn serves sniffed bytes ahead of it. Writes are recorded one by one
    and succeed as long as the peer accepts them. */
module Wire {
  type byte = c: char | c as int < 256

  function Byte(n: nat): byte
    requires n < 256
  {
    n as char
  }

  function Code(b: byte): (n: nat)
    ensures n < 256 && Byte(n) == b
  {
    b as int
  }

  /** Big-endian 16-bit numbers. */
  function PutUint16(n: nat): (bs: seq<byte>)
    requires n < 65536
    ensures |bs| == 2 && Uint16(bs) == n
  {
    [Byte(n / 256), Byte(n % 256)]
  }

  function Uint16(bs: seq<byte>): (n: nat)
    requires |bs| == 2
    ensures n < 65536
  {
    256 * Code(bs[0]) + Code(bs[1])
  }

  lemma Uint16IsInjective(bs: seq<byte>)
    requires |bs| == 2
    ensures PutUint16(Uint16(bs)) == bs
  {
    var hi, lo := Code(bs[0]), Code(bs[1]);
    assert (256 * hi + lo) / 256 == hi && (256 * hi + lo) % 256 == lo;
  }

  function Flatten(chunks: seq<seq<byte>>): seq<byte> {
    if chunks == [] then [] else chunks[0] + Flatten(chunks[1..])
  }

  lemma {:induction false} FlattenConcat(a: seq<seq<byte>>, b: seq<seq<byte>>)
    ensures Flatten(a + b) == Flatten(a) + Flatten(b)
  {
    if a == [] {
      assert a + b == b;
    } else {
      FlattenConcat(a[1..], b);
      assert (a + b)[0] == a[0] && (a + b)[1..] == a[1..] + b;
    }
  }

  /** The writes that reach the peer when it accepts so many. */
  function Delivered(writes: seq<seq<byte>>, accepts: nat): seq<seq<byte>> {
    if |writes| <= accepts then writes else writes[..accepts]
  }

  /** What follows a part already read, cut once more. */
  lemma Cut(s: seq<byte>, from: nat, to: nat)
    requires from <= to <= |s|
    ensures s[from..][..to - from] == s[from..to] && s[from..][to - from..] == s[to..]
  {
  }

  lemma DeliveredFirst(w: seq<byte>, rest: seq<seq<byte>>, accepts: nat)
    ensures accepts == 0 ==> Delivered([w] + rest, accepts) == []
    ensures accepts > 0 ==> Delivered([w] + rest, accepts) == [w] + Delivered(rest, accepts - 1)
  {
  }

  class Conn {
    /** Sniffed bytes still to be replayed. */
    var replay: seq<byte>
    /** What successive reads of the socket return. */
    var chunks: seq<seq<byte>>
    var written: seq<seq<byte>>
    /** How many more writes the peer accepts. */
    var accepts: nat
    var closed: bool

    /** Everything a reader will still see, whatever the chunking. */
    ghost function Pending(): seq<byte>
      reads this
    {
      replay + Flatten(chunks)
    }

    constructor (chunks: seq<seq<byte>>, accepts: nat)
      ensures Pending() == Flatten(chunks) && written == [] && this.accepts == accepts && !closed
    {
      this.chunks, this.accepts := chunks, accepts;
      replay, written, closed := [], [], false;
    }

    /** One Read call with room for max bytes: the replayed prefix first, then
        at most one chunk. */
    method Read(max: nat) returns (got: seq<byte>, ok: bool)
      requires max > 0
      modifies this`replay, this`chunks
      ensures |got| <= max && got + Pending() == old(Pending())
      ensures ok <==> old(replay) != [] || old(chunks) != []
      ensures !ok ==> old(Pending()) == []
      ensures ok ==> |replay| < old(|replay|) || (replay == old(replay) && |chunks| <= old(|chunks|))
      ensures ok && replay == old(replay) && |chunks| == old(|chunks|) ==> got != []
    {
      if replay != [] {
        var n := if max <= |replay| then max else |replay|;
        got, replay := replay[..n], replay[n..];
        assert got + replay == old(replay);
        return got, true;
      }
      if chunks == [] {
        return [], false;
      }
      var first := chunks[0];
      if |first| <= max {
        got, chunks := first, chunks[1..];
      } else {
        got := first[..max];
        chunks := [first[max..]] + chunks[1..];
        assert got + first[max..] == first;
      }
      return got, true;
    }

    /** io.ReadFull: n bytes, or an error once the input has ended. The result
        depends on the pending bytes only, not on how they are chunked. */
    method ReadFull(n: nat) returns (buf: seq<byte>, ok: bool)
      modifies this`replay, this`chunks
      ensures ok <==> n <= |old(Pending())|
      ensures ok ==> buf == old(Pending())[..n] && Pending() == old(Pending())[n..]
      ensures !ok ==> Pending() == []
    {
      buf := [];
      while |buf| < n
        invariant |buf| <= n
        invariant buf + Pending() == old(Pending())
        decreases |replay|, |chunks|, n - |buf|
      {
        var got, more := Read(n - |buf|);
        if !more {
          return buf, false;
        }
        buf := buf + got;
      }
      return buf, true;
    }

    /** newPrefixConn: bytes already taken are served again, ahead of the rest. */
    method Prefix(prefix: seq<byte>)
      modifies this`replay
      ensures Pending() == prefix + old(Pending())
    {
      replay := prefix + replay;
      assert prefix + old(replay) + Flatten(chunks) == prefix + old(Pending());
    }

    method Write(bs: seq<byte>) returns (ok: bool)
      modifies this`written, this`accepts
      ensures ok <==> old(accepts) > 0
      ensures written == if ok then old(written) + [bs] else old(written)
      ensures accepts == if ok then old(accepts) - 1 else 0
    {
      ok := accepts > 0;
      if ok {
        written := written + [bs];
        accepts := accepts - 1;
      }
    }

    method Close()
      modifies this`closed
      ensures closed
    {
      closed := true;
    }
  }
}
