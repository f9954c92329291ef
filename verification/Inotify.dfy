/** internal/watch: reading a batch of inotify events off the wire. */
module Inotify {

  type Byte = b: int | 0 <= b < 256

  /** wd, mask, cookie and len, four bytes each. */
  const HEADER: nat := 16

  const TWO_TO_THE_32: int := 0x1_0000_0000

  /** The four bytes of a number, lowest first. */
  function LittleEndian(n: nat): (bytes: seq<Byte>)
    requires n < TWO_TO_THE_32
    ensures |bytes| == 4
  {
    [n % 256, n / 256 % 256, n / 256 / 256 % 256, n / 256 / 256 / 256]
  }

  function Number(bytes: seq<Byte>): nat
    requires |bytes| == 4
  {
    var b0: int, b1: int, b2: int, b3: int := bytes[0], bytes[1], bytes[2], bytes[3];
    b0 + 256 * (b1 + 256 * (b2 + 256 * b3))
  }

  /** A name without the NULs that pad it to an alignment boundary. */
  function Unpadded(field: seq<Byte>): seq<Byte> {
    if field == [] || field[0] == 0 then [] else [field[0]] + Unpadded(field[1..])
  }

  /** One event: wd, mask and cookie, and the name field, which may be empty. */
  datatype Event = Event(head: seq<Byte>, field: seq<Byte>) {
    predicate Valid() {
      |head| == 12 && |field| < TWO_TO_THE_32
    }

    function Encoded(): seq<Byte>
      requires Valid()
    {
      head + LittleEndian(|field|) + field
    }

    /** An event about the directory itself carries no name. */
    predicate About(name: seq<Byte>) {
      field != [] && Padded(field, name)
    }
  }

  function EncodedAll(events: seq<Event>): seq<Byte>
    requires forall e :: e in events ==> e.Valid()
  {
    if events == [] then [] else events[0].Encoded() + EncodedAll(events[1..])
  }

  /** The bytes of less than one event. */
  predicate Truncated(bytes: seq<Byte>) {
    |bytes| < HEADER || |bytes| < HEADER + Number(bytes[12..16])
  }

  /** Some complete event the bytes start with is about the name. */
  predicate Mentioned(bytes: seq<Byte>, name: seq<Byte>)
    decreases |bytes|
  {
    if Truncated(bytes) then false
    else
      var end := HEADER + Number(bytes[12..16]);
      (end > HEADER && Unpadded(bytes[HEADER..end]) == name) || Mentioned(bytes[end..], name)
  }

  /** A name field holds a name: it starts with it, and goes on with a NUL if it goes
      on at all, and the name has none. */
  predicate Padded(field: seq<Byte>, name: seq<Byte>) {
    name <= field && (|name| < |field| ==> field[|name|] == 0) && 0 !in name
  }

  lemma {:induction false} UnpaddedExactly(field: seq<Byte>, name: seq<Byte>)
    ensures Unpadded(field) == name <==> Padded(field, name)
  {
    if field != [] && field[0] != 0 {
      if name != [] {
        UnpaddedExactly(field[1..], name[1..]);
        assert name == [name[0]] + name[1..] && field == [field[0]] + field[1..];
        assert 0 in name <==> name[0] == 0 || 0 in name[1..];
      }
    }
  }

  method TrimNUL(s: seq<Byte>) returns (r: seq<Byte>)
    ensures r == Unpadded(s) && Padded(s, r)
  {
    for i := 0 to |s|
      invariant Unpadded(s) == s[..i] + Unpadded(s[i..])
      invariant 0 !in s[..i]
    {
      if s[i] == 0 {
        return s[..i];
      }
      assert s[i..][1..] == s[i + 1..] && s[..i] + [s[i]] == s[..i + 1];
    }
    return s;
  }

  /** A part of a part of the buffer is a part of the buffer. */
  lemma Within(buf: array<Byte>, i: nat, n: nat, a: nat, b: nat)
    requires a <= b && i + b <= n <= buf.Length
    ensures buf[i..n][a..b] == buf[i + a..i + b]
  {
    var part := buf[i..n];
    assert |part[a..b]| == b - a == |buf[i + a..i + b]|;
    forall k | 0 <= k < b - a ensures part[a..b][k] == buf[i + a..i + b][k] {
      assert part[a..b][k] == part[a + k] == buf[i + (a + k)];
    }
  }

  /** mentions: decodes the first n bytes of the buffer field by field, never past
      them. */
  method Mentions(buf: array<Byte>, n: nat, name: seq<Byte>) returns (found: bool)
    requires n <= buf.Length
    ensures found <==> Mentioned(buf[..n], name)
  {
    var i := 0;
    while i + HEADER <= n
      invariant i <= n
      invariant Mentioned(buf[..n], name) <==> Mentioned(buf[i..n], name)
      decreases n - i
    {
      var nameLen := Number(buf[i + 12..i + 16]);
      var end := i + HEADER + nameLen;
      Within(buf, i, n, 12, 16);
      if end > n {
        return false;
      }
      Within(buf, i, n, HEADER, end - i);
      assert buf[i..n][end - i..] == buf[end..n];
      if nameLen > 0 {
        var unpadded := TrimNUL(buf[i + HEADER..end]);
        if unpadded == name {
          return true;
        }
      }
      i := end;
    }
    return false;
  }

  lemma NumberRead(n: nat)
    requires n < TWO_TO_THE_32
    ensures Number(LittleEndian(n)) == n
  {
  }

  lemma NumberWritten(bytes: seq<Byte>)
    requires |bytes| == 4
    ensures Number(bytes) < TWO_TO_THE_32 && LittleEndian(Number(bytes)) == bytes
    ensures Number(bytes) == bytes[0] as int + 256 * bytes[1] as int + 65_536 * bytes[2] as int + 16_777_216 * bytes[3] as int
  {
    var b0: int, b1: int, b2: int, b3: int := bytes[0], bytes[1], bytes[2], bytes[3];
    Shifted(b0, b1 + 256 * (b2 + 256 * b3));
    Shifted(b1, b2 + 256 * b3);
    Shifted(b2, b3);
  }

  lemma Shifted(low: int, rest: int)
    requires 0 <= low < 256 && 0 <= rest
    ensures (low + 256 * rest) % 256 == low && (low + 256 * rest) / 256 == rest
  {
  }

  /** Whatever batch the kernel writes, cut short or not, a name is mentioned
      exactly when some complete event is about it. */
  lemma {:induction false} MentionedExactly(events: seq<Event>, tail: seq<Byte>, name: seq<Byte>)
    requires (forall e :: e in events ==> e.Valid()) && Truncated(tail)
    ensures Mentioned(EncodedAll(events) + tail, name) <==> exists e :: e in events && e.About(name)
  {
    if events == [] {
      assert EncodedAll(events) + tail == tail;
    } else {
      var e, rest := events[0], EncodedAll(events[1..]) + tail;
      var bytes := e.Encoded() + rest;
      assert EncodedAll(events) + tail == bytes;
      FirstDecoded(e, rest);
      MentionedExactly(events[1..], tail, name);
      var end := HEADER + |e.field|;
      assert Mentioned(bytes, name) <==> e.About(name) || Mentioned(rest, name) by {
        UnpaddedExactly(e.field, name);
        assert (end > HEADER && Unpadded(bytes[HEADER..end]) == name) <==> e.About(name);
      }
      if Mentioned(rest, name) {
        var x :| x in events[1..] && x.About(name);
        assert x in events;
      }
      if x :| x in events && x.About(name) {
        assert x == e || x in events[1..];
      }
    }
  }

  lemma FirstDecoded(e: Event, rest: seq<Byte>)
    requires e.Valid()
    ensures var bytes := e.Encoded() + rest;
      var end := HEADER + |e.field|;
      && |bytes| >= end && Number(bytes[12..16]) == |e.field|
      && bytes[HEADER..end] == e.field && bytes[end..] == rest
  {
    var bytes := e.Encoded() + rest;
    NumberRead(|e.field|);
    assert bytes[12..16] == LittleEndian(|e.field|);
  }

  /** And every buffer is such a batch: what the decoder sees is never anything
      but complete events and one that is cut short. */
  lemma {:induction false} EveryBufferDecodes(bytes: seq<Byte>) returns (events: seq<Event>, tail: seq<Byte>)
    ensures (forall e :: e in events ==> e.Valid()) && Truncated(tail)
    ensures bytes == EncodedAll(events) + tail
    decreases |bytes|
  {
    if Truncated(bytes) {
      return [], bytes;
    }
    var end := HEADER + Number(bytes[12..16]);
    var e := Event(bytes[..12], bytes[HEADER..end]);
    NumberWritten(bytes[12..16]);
    assert e.Encoded() == bytes[..end];
    events, tail := EveryBufferDecodes(bytes[end..]);
    events := [e] + events;
  }
}
