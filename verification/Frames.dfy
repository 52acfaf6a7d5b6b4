/** Length-prefixed frames over a byte stream: four bytes of big-endian length, then the payload.
  *
  * A stream is what is left to read until the peer closes it.
  */
module Frames {

  type Byte = x: int | 0 <= x < 256 witness 0

  type Bytes = seq<Byte>

  const U32: nat := 0x1_0000_0000
  const MAX_FRAME: nat := 10 * 1024 * 1024

  datatype Result = Frame(payload: Bytes) | TooLarge | UnexpectedEof

  // ---- Specification ----

  function BigEndian(n: nat): (r: Bytes)
    requires n < U32
    ensures |r| == 4
  {
    [n / 0x100_0000, n / 0x1_0000 % 0x100, n / 0x100 % 0x100, n % 0x100]
  }

  function Number(b: Bytes): (n: nat)
    requires |b| == 4
    ensures n < U32
  {
    (((b[0] as int) * 0x100 + b[1]) * 0x100 + b[2]) * 0x100 + b[3]
  }

  /** A length as an unsigned 32-bit number. */
  function Cut(n: nat): (r: nat)
    ensures r < U32 && r <= n
    ensures n < U32 ==> r == n
    ensures n >= U32 ==> r < n
  {
    n % U32
  }

  /** The length is cut to 32 bits, the payload is not. */
  function Written(payload: Bytes): Bytes {
    BigEndian(Cut(|payload|)) + payload
  }

  /** Reads one frame; also what is left of the stream. */
  function Read(s: Bytes): (Result, Bytes) {
    if |s| < 4 then (UnexpectedEof, [])
    else
      var n := Number(s[..4]);
      if n > MAX_FRAME then (TooLarge, s[4..])
      else if |s| - 4 < n then (UnexpectedEof, [])
      else (Frame(s[4..4 + n]), s[4 + n..])
  }

  function WrittenAll(payloads: seq<Bytes>): Bytes {
    if payloads == [] then [] else Written(payloads[0]) + WrittenAll(payloads[1..])
  }

  /** Reads frames to the end of the stream; whether that went well. */
  function ReadAll(s: Bytes): (seq<Bytes>, bool)
    decreases |s|
  {
    if s == [] then ([], true)
    else
      var (first, rest) := Read(s);
      if !first.Frame? then ([], false)
      else
        var (more, ok) := ReadAll(rest);
        ([first.payload] + more, ok)
  }

  // ---- What the format promises ----

  lemma NumberRoundTrip(n: nat)
    requires n < U32
    ensures Number(BigEndian(n)) == n
  {
    Digits(n);
  }

  lemma Digits(n: nat)
    ensures n == (n / 0x100) * 0x100 + n % 0x100
    ensures n / 0x100 == (n / 0x1_0000) * 0x100 + n / 0x100 % 0x100
    ensures n / 0x1_0000 == (n / 0x100_0000) * 0x100 + n / 0x1_0000 % 0x100
  {
  }

  lemma BytesRoundTrip(b: Bytes)
    requires |b| == 4
    ensures BigEndian(Number(b)) == b
  {
    var n := Number(b);
    LastDigit(((b[0] as int) * 0x100 + b[1]) * 0x100 + b[2], b[3]);
    LastDigit((b[0] as int) * 0x100 + b[1], b[2]);
    LastDigit(b[0], b[1]);
    assert n / 0x1_0000 == n / 0x100 / 0x100 && n / 0x100_0000 == n / 0x1_0000 / 0x100;
  }

  /** Byte strings in the order of a dictionary. */
  predicate Before(a: Bytes, b: Bytes)
    requires |a| == 4 && |b| == 4
  {
    || a[0] < b[0]
    || (a[0] == b[0] && a[1] < b[1])
    || (a[..2] == b[..2] && a[2] < b[2])
    || (a[..3] == b[..3] && a[3] < b[3])
  }

  lemma NumbersInOrder(a: Bytes, b: Bytes)
    requires |a| == 4 && |b| == 4 && Before(a, b)
    ensures Number(a) < Number(b)
  {
    assert a[..2] == b[..2] ==> a[0] == b[0] && a[1] == b[1] by {
      assert a[..2][0] == a[0] && a[..2][1] == a[1] && b[..2][0] == b[0] && b[..2][1] == b[1];
    }
    assert a[..3] == b[..3] ==> a[0] == b[0] && a[1] == b[1] && a[2] == b[2] by {
      assert a[..3][0] == a[0] && a[..3][1] == a[1] && a[..3][2] == a[2];
      assert b[..3][0] == b[0] && b[..3][1] == b[1] && b[..3][2] == b[2];
    }
  }

  lemma BeforeOrAfter(a: Bytes, b: Bytes)
    requires |a| == 4 && |b| == 4
    ensures a == b || Before(a, b) || Before(b, a)
  {
    if a[0] == b[0] && a[1] == b[1] {
      assert a[..2] == b[..2];
      if a[2] == b[2] {
        assert a[..3] == b[..3];
        assert a[3] == b[3] ==> a == b;
      }
    }
  }

  /** The most significant byte comes first: the headers of two lengths are in the order of the lengths. */
  lemma HeadersInOrderIff(m: nat, n: nat)
    requires m < U32 && n < U32
    ensures m < n <==> Before(BigEndian(m), BigEndian(n))
  {
    var a, b := BigEndian(m), BigEndian(n);
    NumberRoundTrip(m);
    NumberRoundTrip(n);
    BeforeOrAfter(a, b);
    if Before(a, b) {
      NumbersInOrder(a, b);
    }
    if Before(b, a) {
      NumbersInOrder(b, a);
    }
  }

  lemma LastDigit(high: nat, low: Byte)
    ensures (high * 0x100 + low) / 0x100 == high && (high * 0x100 + low) % 0x100 == low
  {
  }

  /** What reading a written frame gives, for every payload: the payload up to the bound, a refusal above it, and from
    * 2^32 bytes on whatever the cut length says. */
  lemma ReadOfWritten(payload: Bytes, rest: Bytes)
    ensures var n := Cut(|payload|);
      Read(Written(payload) + rest) ==
        if n > MAX_FRAME then (TooLarge, payload + rest) else (Frame(payload[..n]), payload[n..] + rest)
  {
    var n := Cut(|payload|);
    var s := Written(payload) + rest;
    NumberRoundTrip(n);
    assert s[..4] == BigEndian(n);
    assert s[4..] == payload + rest;
    if n <= MAX_FRAME {
      assert s[4..4 + n] == payload[..n];
      assert s[4 + n..] == payload[n..] + rest;
    }
  }

  /** A frame comes back, and the stream goes on behind it, exactly when the payload is within the bound. */
  lemma RoundTripIff(payload: Bytes, rest: Bytes)
    ensures Read(Written(payload) + rest) == (Frame(payload), rest) <==> |payload| <= MAX_FRAME
  {
    ReadOfWritten(payload, rest);
    if |payload| <= MAX_FRAME {
      assert payload[..|payload|] == payload && payload[|payload|..] + rest == rest;
    } else {
      var n := Cut(|payload|);
      assert n <= MAX_FRAME ==> |payload[..n]| < |payload|;
    }
  }

  /** Payloads above the bound and below 2^32 bytes are refused. */
  lemma LargeFramesAreRefused(payload: Bytes, rest: Bytes)
    requires MAX_FRAME < |payload| < U32
    ensures Read(Written(payload) + rest) == (TooLarge, payload + rest)
  {
    ReadOfWritten(payload, rest);
  }

  /** From 2^32 bytes on a payload can pass for a shorter one: the rest of it is then read as further frames. */
  lemma HugeFramesAreMisread(payload: Bytes, rest: Bytes)
    requires |payload| >= U32 && Cut(|payload|) <= MAX_FRAME
    ensures Read(Written(payload) + rest) == (Frame(payload[..Cut(|payload|)]), payload[Cut(|payload|)..] + rest)
    ensures |payload[..Cut(|payload|)]| < |payload|
  {
    ReadOfWritten(payload, rest);
  }

  lemma ThreeParts(s: Bytes, n: nat)
    requires 4 + n <= |s|
    ensures s == s[..4] + s[4..4 + n] + s[4 + n..]
  {
  }

  /** Whatever is read was written: a frame and the rest of the stream determine the stream. */
  lemma WrittenOfRead(s: Bytes)
    requires Read(s).0.Frame?
    ensures s == Written(Read(s).0.payload) + Read(s).1 && |Read(s).0.payload| <= MAX_FRAME
  {
    var n := Number(s[..4]);
    HeaderOf(s[..4], s[4..4 + n]);
    ThreeParts(s, n);
  }

  lemma HeaderOf(head: Bytes, payload: Bytes)
    requires |head| == 4 && |payload| == Number(head)
    ensures Written(payload) == head + payload
  {
    BytesRoundTrip(head);
  }

  lemma {:induction false} ReadAllOfWritten(payloads: seq<Bytes>)
    requires forall i :: 0 <= i < |payloads| ==> |payloads[i]| <= MAX_FRAME
    ensures ReadAll(WrittenAll(payloads)) == (payloads, true)
  {
    if payloads == [] {
    } else {
      RoundTripIff(payloads[0], WrittenAll(payloads[1..]));
      ReadAllOfWritten(payloads[1..]);
      assert payloads == [payloads[0]] + payloads[1..];
    }
  }

  /** Reading everything back gives what was written exactly when every payload is within the bound. */
  lemma {:induction false} ReadAllIff(payloads: seq<Bytes>)
    ensures ReadAll(WrittenAll(payloads)) == (payloads, true) <==>
      forall i :: 0 <= i < |payloads| ==> |payloads[i]| <= MAX_FRAME
  {
    if ReadAll(WrittenAll(payloads)) == (payloads, true) {
      BoundedWhenReadBack(payloads);
    }
    if forall i :: 0 <= i < |payloads| ==> |payloads[i]| <= MAX_FRAME {
      ReadAllOfWritten(payloads);
    }
  }

  lemma {:induction false} BoundedWhenReadBack(payloads: seq<Bytes>)
    requires ReadAll(WrittenAll(payloads)) == (payloads, true)
    ensures forall i :: 0 <= i < |payloads| ==> |payloads[i]| <= MAX_FRAME
  {
    if payloads == [] {
    } else {
      var head, tail := payloads[0], WrittenAll(payloads[1..]);
      var s := Written(head) + tail;
      var (first, rest) := Read(s);
      assert first.Frame? && first.payload == head by {
        assert ([first.payload] + ReadAll(rest).0)[0] == first.payload;
      }
      WrittenOfRead(s);
      RoundTripIff(head, tail);
      assert rest == tail by {
        ReadOfWritten(head, tail);
        assert head[|head|..] + tail == tail;
      }
      assert ReadAll(tail).0 == payloads[1..] by {
        assert payloads == [head] + ReadAll(tail).0;
      }
      BoundedWhenReadBack(payloads[1..]);
    }
  }

  /** A stream that ends inside a frame within the bound is an error, wherever it ends. */
  lemma CutFramesEndTheStream(payload: Bytes, k: nat)
    requires |payload| <= MAX_FRAME && k < |Written(payload)|
    ensures Read(Written(payload)[..k]) == (UnexpectedEof, [])
  {
    if k >= 4 {
      var n := Cut(|payload|);
      TakeOfTake(BigEndian(n), payload, k);
      NumberRoundTrip(n);
    }
  }

  lemma TakeOfTake(head: Bytes, tail: Bytes, k: nat)
    requires |head| <= k <= |head + tail|
    ensures (head + tail)[..k][..|head|] == head
  {
  }

  // ---- The codec over a stream ----

  class ByteStream {
    var bytes: Bytes

    constructor (bytes: Bytes)
      ensures this.bytes == bytes
    {
      this.bytes := bytes;
    }

    /** Takes one byte after the other; the number grows from its high end. */
    method ReadU32() returns (ok: bool, n: nat)
      modifies this
      ensures ok <==> |old(bytes)| >= 4
      ensures ok ==> n == Number(old(bytes)[..4]) && bytes == old(bytes)[4..]
      ensures !ok ==> bytes == []
    {
      n := 0;
      if |bytes| < 4 {
        bytes := [];
        return false, 0;
      }
      n := bytes[0];
      n := n * 0x100 + bytes[1];
      n := n * 0x100 + bytes[2];
      n := n * 0x100 + bytes[3];
      bytes := bytes[4..];
      ok := true;
    }

    /** Fills the whole buffer, or uses up the stream. */
    method ReadExact(buf: array<Byte>) returns (ok: bool)
      modifies this, buf
      ensures ok <==> |old(bytes)| >= buf.Length
      ensures ok ==> buf[..] == old(bytes)[..buf.Length] && bytes == old(bytes)[buf.Length..]
      ensures !ok ==> bytes == []
    {
      var filled := 0;
      while filled < buf.Length && bytes != []
        invariant filled <= buf.Length && filled <= |old(bytes)|
        invariant bytes == old(bytes)[filled..]
        invariant forall j :: 0 <= j < filled ==> buf[j] == old(bytes)[j]
      {
        buf[filled] := bytes[0];
        bytes := bytes[1..];
        filled := filled + 1;
      }
      ok := filled == buf.Length;
    }

    method ReadFrame() returns (result: Result)
      modifies this
      ensures (result, bytes) == Read(old(bytes))
    {
      var ok, len := ReadU32();
      if !ok {
        return UnexpectedEof;
      }
      if len > MAX_FRAME {
        return TooLarge;
      }
      var buf := new Byte[len](_ => 0);
      ok := ReadExact(buf);
      if !ok {
        return UnexpectedEof;
      }
      assert old(bytes)[4..][..len] == old(bytes)[4..4 + len];
      result := Frame(buf[..]);
    }

    method WriteU32(n: nat)
      requires n < U32
      modifies this
      ensures bytes == old(bytes) + BigEndian(n)
    {
      Digits(n);
      bytes := bytes + [n / 0x100_0000];
      bytes := bytes + [n / 0x1_0000 % 0x100];
      bytes := bytes + [n / 0x100 % 0x100];
      bytes := bytes + [n % 0x100];
    }

    method WriteFrame(data: Bytes)
      modifies this
      ensures bytes == old(bytes) + Written(data)
    {
      var len := Cut(|data|);
      WriteU32(len);
      bytes := bytes + data;
    }
  }
}
