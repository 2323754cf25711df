/**
  The stream transport: np_fdtrans_recv cuts a byte stream into packets, whatever pieces read()
  hands out, and np_fdtrans_send writes a packet in whatever pieces write() takes.
*/
module FdtransModule {
  import opened Common
  import opened Wire
  import C = Codec

  datatype Outcome = Frame(pkt: seq<byte>) | Eof | Error

  /** What the next call returns when `b` is still to be delivered. */
  function NextFrame(b: seq<byte>, msize: nat): Outcome {
    var size := C.PeekSize(b);
    if size == 0 then Eof
    else if size > msize then Error
    else if |b| < size then Eof
    else Frame(b[..size])
  }

  /** memcpy to the bytes from `at` on. */
  method Copy(pkt: array<byte>, at: nat, b: seq<byte>)
    requires at + |b| <= pkt.Length
    modifies pkt
    ensures pkt[..at] == old(pkt[..at]) && pkt[..at + |b|] == old(pkt[..at]) + b
  {
    var i := 0;
    while i < |b|
      invariant 0 <= i <= |b| && pkt[..at] == old(pkt[..at]) && pkt[at..at + i] == b[..i]
    {
      pkt[at + i] := b[i];
      i := i + 1;
    }
    assert pkt[..at + |b|] == pkt[..at] + pkt[at..at + |b|];
  }

  class Fdtrans {
    var input: seq<byte>              // what the peer has sent and read() has not yet handed out
    var cached: seq<byte>             // fdt->fc, up to fc_len
    var output: seq<byte>             // what has been written
    ghost var stream: seq<byte>       // all the peer sends
    ghost var delivered: seq<byte>

    /** Bytes read are delivered or cached; the rest is still in the stream. */
    ghost predicate Valid(msize: nat)
      reads this
    {
      |cached| < msize && stream == delivered + cached + input
    }

    constructor (peer: seq<byte>, msize: nat)
      requires msize > 0
      ensures Valid(msize) && stream == peer && delivered == [] && cached == [] && input == peer
    {
      input, cached, output, stream, delivered := peer, [], [], peer, [];
    }

    /** read(): some of the next bytes, at least one unless the stream has ended or there is no
        room; which number is not up to the caller.  An interrupted read is tried again. */
    method Read(pkt: array<byte>, len: nat, wish: nat) returns (n: nat)
      requires len <= pkt.Length
      modifies this`input, pkt
      ensures n <= pkt.Length - len && n <= |old(input)|
      ensures n == 0 <==> len == pkt.Length || old(input) == []
      ensures |input| == |old(input)| - n && pkt[..len + n] + input == old(pkt[..len] + input)
      ensures pkt[..len] == old(pkt[..len])
    {
      n := pkt.Length - len;
      if |input| < n { n := |input|; }
      if 1 <= wish < n { n := wish; }
      Copy(pkt, len, input[..n]);
      Assoc(old(pkt[..len]), input[..n], input[n..]);
      assert input[..n] + input[n..] == input;
      input := input[n..];
    }

    /** The loop of np_fdtrans_recv: reads until the buffer holds a packet. */
    method Fill(pkt: array<byte>, len0: nat, size0: nat, wish: seq<nat>) returns (r: Outcome, len: nat, size: nat)
      requires len0 <= pkt.Length && pkt.Length >= 4 && size0 == C.PeekSize(pkt[..len0]) <= pkt.Length
      modifies this`input, pkt
      ensures len <= pkt.Length && pkt[..len] + input == old(pkt[..len0] + input)
      ensures r.Frame? <==> NextFrame(old(pkt[..len0] + input), pkt.Length).Frame?
      ensures !r.Frame? ==> r == NextFrame(old(pkt[..len0] + input), pkt.Length)
      ensures r.Frame? ==> 0 < size <= len && size == C.PeekSize(old(pkt[..len0] + input))
    {
      ghost var b := pkt[..len0] + input;
      len, size := len0, size0;
      var k := 0;
      while size == 0 || len < size
        invariant 0 <= k && len <= pkt.Length && pkt[..len] + input == b && size == C.PeekSize(pkt[..len]) <= pkt.Length
        decreases |input|
      {
        var n := Read(pkt, len, if k < |wish| then wish[k] else 1);
        k := k + 1;
        PeekFront(pkt[..len], pkt[len..len + n]);
        assert pkt[..len + n] == pkt[..len] + pkt[len..len + n];
        PeekFront(pkt[..len + n], input);
        if n == 0 {
          return Eof, len, size;
        }
        len := len + n;
        if size == 0 {
          size := C.PeekSize(pkt[..len]);
          if size > pkt.Length {
            return Error, len, size;
          }
        }
      }
      PeekFront(pkt[..len], input);
      r := Frame(pkt[..size]);
    }

    /** np_fdtrans_recv, for a fixed msize; `wish` stands for how read() chops the stream. */
    method Recv(msize: nat, wish: seq<nat>) returns (r: Outcome)
      requires msize >= 4 && Valid(msize)
      modifies this
      ensures stream == old(stream) && r == NextFrame(old(cached + input), msize)
      ensures r.Frame? ==> Valid(msize) && delivered == old(delivered) + r.pkt && cached + input == old(cached + input)[|r.pkt|..]
    {
      ghost var b := cached + input;
      Assoc(delivered, cached, input);
      PeekFront(cached, input);
      var pkt := new byte[msize];
      Copy(pkt, 0, cached);
      var len, size := |cached|, C.PeekSize(cached);
      assert pkt[..len] == [] + cached == cached;
      cached := [];
      if size > msize {
        return Error;
      }
      r, len, size := Fill(pkt, len, size, wish);
      if r.Frame? {
        var packet := Deliver(pkt, len, size, b);
        r := Frame(packet);
      }
    }

    /** np_fdtrans_send; `wish` stands for how much write() takes at a time. */
    method Send(pkt: seq<byte>, wish: seq<nat>) returns (len: nat)
      modifies this`output
      ensures output == old(output) + pkt && len == |pkt|
    {
      len := 0;
      var k := 0;
      while len < |pkt|
        invariant 0 <= k && len <= |pkt| && output == old(output) + pkt[..len]
      {
        var n := if k < |wish| && 1 <= wish[k] <= |pkt| - len then wish[k] else |pkt| - len;
        output := output + pkt[len..len + n];
        assert pkt[..len + n] == pkt[..len] + pkt[len..len + n];
        len, k := len + n, k + 1;
      }
      assert pkt[..len] == pkt;
    }

    /** The packet goes to the caller, what was read beyond it is kept. */
    method Deliver(pkt: array<byte>, len: nat, size: nat, ghost b: seq<byte>) returns (packet: seq<byte>)
      requires 0 < size <= len <= pkt.Length && pkt[..len] + input == b && stream == delivered + b
      modifies this
      ensures size <= |b| && packet == b[..size] && Valid(pkt.Length)
      ensures stream == old(stream) && delivered == old(delivered) + packet && cached + input == b[size..]
    {
      packet := pkt[..size];
      cached := pkt[size..len];
      CutFront(packet, cached, input, pkt[..len], b);
      CutStream(delivered, packet, cached, input, b);
      delivered := delivered + packet;
    }
  }

  /** The packets that `b` is cut into. */
  function Frames(b: seq<byte>, msize: nat): seq<seq<byte>>
    decreases |b|
  {
    var r := NextFrame(b, msize);
    if r.Frame? then [r.pkt] + Frames(b[|r.pkt|..], msize) else []
  }

  predicate GoodFrame(f: seq<byte>, msize: nat) {
    4 <= |f| <= msize && C.PeekSize(f) == |f|
  }

  function Joined(fs: seq<seq<byte>>): seq<byte> {
    if fs == [] then [] else fs[0] + Joined(fs[1..])
  }

  /** A stream of good packets is cut into these packets, and then ends. */
  lemma {:induction false} CutAsSent(fs: seq<seq<byte>>, msize: nat)
    requires forall k :: 0 <= k < |fs| ==> GoodFrame(fs[k], msize)
    ensures Frames(Joined(fs), msize) == fs
    ensures fs == [] ==> NextFrame(Joined(fs), msize) == Eof
  {
    if fs != [] {
      var f, rest := fs[0], Joined(fs[1..]);
      PeekFront(f, rest);
      assert Joined(fs)[..|f|] == f && Joined(fs)[|f|..] == rest;
      CutAsSent(fs[1..], msize);
    }
  }

  function Encoded(ms: seq<C.Msg>): (fs: seq<seq<byte>>)
    requires forall k :: 0 <= k < |ms| ==> C.Valid(ms[k])
    ensures |fs| == |ms| && forall k :: 0 <= k < |ms| ==> fs[k] == C.Encode(ms[k])
  {
    seq(|ms|, k requires 0 <= k < |ms| => C.Encode(ms[k]))
  }

  /** Messages that were built, sent back to back and received decode to themselves, in order. */
  lemma {:induction false} MessagesArrive(ms: seq<C.Msg>, msize: nat)
    requires forall k :: 0 <= k < |ms| ==> C.Valid(ms[k]) && |C.Encode(ms[k])| <= msize
    ensures var fs := Frames(Joined(Encoded(ms)), msize);
            |fs| == |ms| && forall k :: 0 <= k < |ms| ==> C.PeekSize(fs[k]) == |fs[k]| && C.Decode(fs[k]) == Some(ms[k])
  {
    var fs := Encoded(ms);
    forall k | 0 <= k < |ms| ensures GoodFrame(fs[k], msize) && C.Decode(fs[k]) == Some(ms[k]) {
      C.RoundTrip(ms[k]);
    }
    CutAsSent(fs, msize);
  }

  /** Calling np_fdtrans_recv until it returns no packet: the packets come in the order they were
      sent, for every way of chopping the stream. */
  method RecvAll(t: Fdtrans, msize: nat, wishes: seq<seq<nat>>) returns (fs: seq<seq<byte>>, last: Outcome)
    requires msize >= 4 && t.Valid(msize)
    modifies t
    ensures fs == Frames(old(t.cached + t.input), msize) && !last.Frame?
    ensures t.stream == old(t.stream)
  {
    fs := [];
    var k := 0;
    ghost var b := t.cached + t.input;
    last := t.Recv(msize, if k < |wishes| then wishes[k] else []);
    while last.Frame?
      invariant 0 <= k && t.stream == old(t.stream) && last == NextFrame(b, msize)
      invariant last.Frame? ==> t.Valid(msize) && t.cached + t.input == b[|last.pkt|..]
      invariant Frames(old(t.cached + t.input), msize) == fs + Frames(b, msize)
      decreases |b|
    {
      fs := fs + [last.pkt];
      b := b[|last.pkt|..];
      k := k + 1;
      last := t.Recv(msize, if k < |wishes| then wishes[k] else []);
    }
  }

  lemma {:induction false} CutFront(packet: seq<byte>, cached: seq<byte>, input: seq<byte>, front: seq<byte>, b: seq<byte>)
    requires front == packet + cached && front + input == b
    ensures packet == b[..|packet|] && cached + input == b[|packet|..]
  {
  }

  lemma {:induction false} CutStream(delivered: seq<byte>, packet: seq<byte>, cached: seq<byte>, input: seq<byte>, b: seq<byte>)
    requires |packet| <= |b| && packet == b[..|packet|] && cached + input == b[|packet|..]
    ensures delivered + packet + cached + input == delivered + b
  {
    assert b == packet + (cached + input);
  }

  /** The size field does not change once it has arrived. */
  lemma {:induction false} PeekFront(a: seq<byte>, b: seq<byte>)
    ensures |a| >= 4 ==> C.PeekSize(a + b) == C.PeekSize(a)
  {
    if |a| >= 4 {
      assert (a + b)[..4] == a[..4];
    }
  }
}
