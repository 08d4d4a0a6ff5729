/** Length-prefixed framing over a byte stream (src/server/Protocol.cpp) and the loop that reads
    messages off a connection (Connection::handle in src/server/Connection.cpp). */
module Framing {
  type byte = b: int | 0 <= b < 256

  type Message = seq<byte>

  const MAX_MESSAGE_SIZE := 1024 * 1024
  const TWO_TO_THE_32 := 0x1_0000_0000

  /** htonl: the four bytes of a 32-bit number, the highest first. */
  function BigEndian(n: nat): (b: seq<byte>)
    requires n < TWO_TO_THE_32
    ensures |b| == 4
  {
    [n / 0x100_0000, n / 0x1_0000 % 256, n / 0x100 % 256, n % 256]
  }

  /** ntohl. */
  function FromBigEndian(b: seq<byte>): (n: nat)
    requires |b| == 4
    ensures n < TWO_TO_THE_32
  {
    (b[0] as int) * 0x100_0000 + (b[1] as int) * 0x1_0000 + (b[2] as int) * 0x100 + b[3]
  }

  lemma {:induction false} BigEndianRoundTrip(n: nat, b: seq<byte>)
    requires n < TWO_TO_THE_32 && |b| == 4
    ensures FromBigEndian(b) == n <==> b == BigEndian(n)
  {
    ThereAndBack(n);
    BackAndThere(b);
  }

  lemma ThereAndBack(n: nat)
    requires n < TWO_TO_THE_32
    ensures FromBigEndian(BigEndian(n)) == n
  {
    assert n == n / 0x100 * 0x100 + n % 256;
    assert n / 0x100 == n / 0x1_0000 * 0x100 + n / 0x100 % 256;
    assert n / 0x1_0000 == n / 0x100_0000 * 0x100 + n / 0x1_0000 % 256;
  }

  lemma BackAndThere(b: seq<byte>)
    requires |b| == 4
    ensures BigEndian(FromBigEndian(b)) == b
  {
    var n := FromBigEndian(b);
    assert n / 0x100 == (b[0] as int) * 0x1_0000 + (b[1] as int) * 0x100 + b[2];
    assert n / 0x1_0000 == (b[0] as int) * 0x100 + b[1];
    assert n / 0x100_0000 == b[0];
  }

  ghost predicate LexicallyBefore(a: seq<byte>, b: seq<byte>) {
    exists i :: 0 <= i < |a| && i < |b| && a[..i] == b[..i] && a[i] < b[i]
  }

  /** The first byte counts most: lengths compare like their headers, byte by byte from the front. */
  lemma HeadersInOrder(a: nat, b: nat)
    requires a < TWO_TO_THE_32 && b < TWO_TO_THE_32
    ensures a < b <==> LexicallyBefore(BigEndian(a), BigEndian(b))
  {
    ThereAndBack(a);
    ThereAndBack(b);
    var x, y := BigEndian(a), BigEndian(b);
    if a < b {
      var i :| 0 <= i < 4 && x[i] != y[i] && x[..i] == y[..i];
      if y[i] < x[i] {
        LexicalOrder(y, x, i);
      }
    } else if LexicallyBefore(x, y) {
      var i :| 0 <= i < 4 && x[..i] == y[..i] && x[i] < y[i];
      LexicalOrder(x, y, i);
    }
  }

  lemma LexicalOrder(x: seq<byte>, y: seq<byte>, i: nat)
    requires |x| == 4 && |y| == 4 && i < 4 && x[..i] == y[..i] && x[i] < y[i]
    ensures FromBigEndian(x) < FromBigEndian(y)
  {
    forall k | 0 <= k < i ensures x[k] == y[k] {
      assert x[k] == x[..i][k] == y[..i][k];
    }
  }

  /** What is sent for a message: its length cut to 32 bits, then all of its bytes. */
  function Frame(m: Message): (f: seq<byte>)
    ensures |f| == 4 + |m|
  {
    BigEndian(|m| % TWO_TO_THE_32) + m
  }

  function Frames(ms: seq<Message>): seq<byte> {
    if ms == [] then [] else Frame(ms[0]) + Frames(ms[1..])
  }

  /** Resizing the output vector keeps old bytes and fills up with zeros. */
  function Resize(out: Message, len: nat): (r: Message)
    ensures |r| == len
  {
    if len <= |out| then out[..len] else out + Zeros(len - |out|)
  }

  function Zeros(n: nat): (z: seq<byte>)
    ensures |z| == n
  {
    seq(n, _ => 0)
  }

  /** The bytes a receive gets: all it asked for, or what there is. */
  function Available(incoming: seq<byte>, wanted: nat): seq<byte> {
    if |incoming| <= wanted then incoming else incoming[..wanted]
  }

  datatype Received = Received(ok: bool, out: Message, rest: seq<byte>)

  /** How long a receive with MSG_WAITALL waits: on a blocking socket until all has come or the
      stream has ended, on a non-blocking one not at all, so that it gets what has arrived. */
  datatype Wait = UntilAll | Arrived(bytes: nat)

  datatype Arrival = Arrival(header: Wait, body: Wait)

  const BLOCKING: Arrival := Arrival(UntilAll, UntilAll)

  function Ready(incoming: seq<byte>, wait: Wait): seq<byte> {
    if wait.UntilAll? then incoming else Available(incoming, wait.bytes)
  }

  /** One recvMessage on everything that will still arrive. Only a receive of no bytes at all
      counts as a failure, so a header or a body cut short is accepted. */
  function ReceiveWhen(out: Message, incoming: seq<byte>, arrival: Arrival): (r: Received)
    ensures r.ok ==> |r.rest| < |incoming| && 1 <= |r.out| <= MAX_MESSAGE_SIZE
  {
    var header := Available(Ready(incoming, arrival.header), 4);
    var afterHeader := incoming[|header|..];
    if header == [] then Received(false, out, afterHeader)
    else
      var len := FromBigEndian(header + Zeros(4 - |header|));
      if len == 0 || len > MAX_MESSAGE_SIZE then Received(false, out, afterHeader)
      else ReceiveBody(out, len, afterHeader, arrival.body)
  }

  function ReceiveBody(out: Message, len: nat, incoming: seq<byte>, wait: Wait): (r: Received)
    ensures |r.out| == len && |r.rest| <= |incoming|
  {
    var resized := Resize(out, len);
    var body := Available(Ready(incoming, wait), len);
    if body == [] then Received(false, resized, incoming)
    else Received(true, body + resized[|body|..], incoming[|body|..])
  }

  /** On a blocking socket. */
  function Receive(out: Message, incoming: seq<byte>): Received {
    ReceiveWhen(out, incoming, BLOCKING)
  }

  /** The messages a connection handles before it closes; the vector is reused. */
  ghost function Decode(out: Message, incoming: seq<byte>): seq<Message>
    decreases |incoming|
  {
    var r := Receive(out, incoming);
    if r.ok then [r.out] + Decode(r.out, r.rest) else []
  }

  /** What a read loop still handles after a receive that gave `ok` and `out`. */
  ghost function Pending(ok: bool, out: Message, incoming: seq<byte>): seq<Message> {
    if ok then [out] + Decode(out, incoming) else []
  }

  lemma PendingUnfolds(handled: seq<Message>, out: Message, incoming: seq<byte>)
    ensures var r := Receive(out, incoming);
            handled + Pending(true, out, incoming) == handled + [out] + Pending(r.ok, r.out, r.rest)
  {
  }

  /** From 1 byte to 1 MiB. */
  ghost predicate Sendable(m: Message) {
    1 <= |m| <= 1_048_576
  }

  ghost predicate Enough(wait: Wait, n: nat) {
    wait.UntilAll? || wait.bytes >= n
  }

  ghost predicate IsTornCopy(torn: Message, m: Message, arrived: nat) {
    && |torn| == |m| && 0 < arrived < |m|
    && torn[..arrived] == m[..arrived]
  }

  lemma AfterHeader(out: Message, len: nat, follows: seq<byte>, arrival: Arrival)
    requires 1 <= len <= MAX_MESSAGE_SIZE && Enough(arrival.header, 4)
    ensures ReceiveWhen(out, BigEndian(len) + follows, arrival)
         == ReceiveBody(out, len, follows, arrival.body)
  {
    var incoming := BigEndian(len) + follows;
    assert Available(Ready(incoming, arrival.header), 4) == BigEndian(len);
    assert incoming[4..] == follows;
    assert BigEndian(len) + Zeros(0) == BigEndian(len);
    ThereAndBack(len);
  }

  lemma FrameOf(m: Message, rest: seq<byte>)
    requires Sendable(m)
    ensures Frame(m) == BigEndian(|m|) + m
    ensures Frame(m) + rest == BigEndian(|m|) + (m + rest)
  {
    assert |m| % TWO_TO_THE_32 == |m|;
    Regrouped(BigEndian(|m|), m, rest);
  }

  lemma Regrouped(a: seq<byte>, b: seq<byte>, c: seq<byte>)
    ensures a + b + c == a + (b + c)
  {
  }

  /** A receive that gets the whole header of a frame goes on with the frame's body. */
  lemma FrameHeader(out: Message, m: Message, rest: seq<byte>, arrival: Arrival)
    requires Sendable(m) && Enough(arrival.header, 4)
    ensures ReceiveWhen(out, Frame(m) + rest, arrival)
         == ReceiveBody(out, |m|, m + rest, arrival.body)
  {
    FrameOf(m, rest);
    AfterHeader(out, |m|, m + rest, arrival);
  }

  lemma WholeBody(out: Message, m: Message, rest: seq<byte>, wait: Wait)
    requires m != [] && Enough(wait, |m|)
    ensures ReceiveBody(out, |m|, m + rest, wait) == Received(true, m, rest)
  {
    assert Available(Ready(m + rest, wait), |m|) == m && (m + rest)[|m|..] == rest;
    assert m + Resize(out, |m|)[|m|..] == m;
  }

  lemma PartialBody(out: Message, m: Message, incoming: seq<byte>, wait: Wait, arrived: nat)
    requires 0 < arrived < |m| && arrived <= |incoming| && incoming[..arrived] == m[..arrived]
    requires if wait.UntilAll? then |incoming| == arrived else wait.bytes == arrived
    ensures var r := ReceiveBody(out, |m|, incoming, wait);
            r.ok && IsTornCopy(r.out, m, arrived) && r.rest == incoming[arrived..]
  {
    assert Available(Ready(incoming, wait), |m|) == m[..arrived];
    var resized := Resize(out, |m|);
    assert (m[..arrived] + resized[arrived..])[..arrived] == m[..arrived];
  }

  /** When they are asked for, the whole header and the whole body have arrived. */
  ghost predicate InTime(arrival: Arrival, m: Message) {
    Enough(arrival.header, 4) && Enough(arrival.body, |m|)
  }

  /** A successful receive consumes at most the frame of what it returns, and all of it only if
      header and body were received whole. */
  lemma ConsumesAtMost(out: Message, incoming: seq<byte>, arrival: Arrival)
    requires ReceiveWhen(out, incoming, arrival).ok
    ensures var r := ReceiveWhen(out, incoming, arrival);
            && |incoming| <= |r.rest| + 4 + |r.out|
            && (|incoming| == |r.rest| + 4 + |r.out| ==> InTime(arrival, r.out))
  {
  }

  lemma ReceivedInTime(out: Message, m: Message, rest: seq<byte>, arrival: Arrival)
    requires Sendable(m) && InTime(arrival, m)
    ensures ReceiveWhen(out, Frame(m) + rest, arrival) == Received(true, m, rest)
  {
    FrameHeader(out, m, rest, arrival);
    WholeBody(out, m, rest, arrival.body);
  }

  lemma OnlySendable(out: Message, m: Message, rest: seq<byte>, arrival: Arrival)
    requires ReceiveWhen(out, Frame(m) + rest, arrival) == Received(true, m, rest)
    ensures Sendable(m) && InTime(arrival, m)
  {
    ConsumesAtMost(out, Frame(m) + rest, arrival);
  }

  /** On any socket: a frame is received as the message it was made from, with nothing more or less
      consumed, exactly when the message has 1 byte to 1 MiB, its header has arrived whole when
      it is asked for, and so has its body. */
  lemma InTimeIff(out: Message, m: Message, rest: seq<byte>, arrival: Arrival)
    ensures ReceiveWhen(out, Frame(m) + rest, arrival) == Received(true, m, rest)
       <==> Sendable(m) && InTime(arrival, m)
  {
    if ReceiveWhen(out, Frame(m) + rest, arrival) == Received(true, m, rest) {
      OnlySendable(out, m, rest, arrival);
    } else if Sendable(m) && InTime(arrival, m) {
      ReceivedInTime(out, m, rest, arrival);
    }
  }

  /** On a blocking socket: exactly when the message has 1 byte to 1 MiB. */
  lemma FrameRoundTripIff(out: Message, m: Message, rest: seq<byte>)
    ensures Receive(out, Frame(m) + rest) == Received(true, m, rest) <==> Sendable(m)
  {
    InTimeIff(out, m, rest, BLOCKING);
  }

  /** Decoding the concatenation of any sent messages gives exactly those messages, whatever the
      vector held before. */
  lemma DecodeInvertsFrames(out: Message, ms: seq<Message>)
    requires forall i :: 0 <= i < |ms| ==> Sendable(ms[i])
    ensures Decode(out, Frames(ms)) == ms
  {
    WholeOfAll(ms);
    assert Frames(ms)[..|Frames(ms)|] == Frames(ms) && ms[..|ms|] == ms;
    DecodeCut(out, ms, |Frames(ms)|);
  }

  // ---------- a stream that ends early ----------

  /** How many frames are complete in the first `cut` bytes. */
  ghost function Whole(ms: seq<Message>, cut: nat): (w: nat)
    ensures w <= |ms|
  {
    if ms == [] || cut < |Frame(ms[0])| then 0 else 1 + Whole(ms[1..], cut - |Frame(ms[0])|)
  }

  lemma {:induction false} WholeOfAll(ms: seq<Message>)
    ensures Whole(ms, |Frames(ms)|) == |ms|
  {
    if ms != [] {
      WholeOfAll(ms[1..]);
    }
  }

  /** The first `cut` bytes end inside the body of a message: after its first byte, before its
      last. */
  ghost predicate EndsInBody(ms: seq<Message>, cut: nat) {
    cut > |Frames(ms[..Whole(ms, cut)])| + 4
  }

  /** The complete messages in order; then, if the stream ends inside a body, one more of full
      length of which only the start has arrived. */
  ghost predicate DecodesTo(got: seq<Message>, ms: seq<Message>, cut: nat) {
    var w := Whole(ms, cut);
    && |got| == (if EndsInBody(ms, cut) then w + 1 else w)
    && got[..w] == ms[..w]
    && (EndsInBody(ms, cut) ==>
          w < |ms| && IsTornCopy(got[w], ms[w], cut - |Frames(ms[..w])| - 4))
  }

  /** What is handled of a stream that ends after `cut` bytes. */
  lemma {:induction false} DecodeCut(out: Message, ms: seq<Message>, cut: nat)
    requires forall i :: 0 <= i < |ms| ==> Sendable(ms[i])
    requires cut <= |Frames(ms)|
    ensures DecodesTo(Decode(out, Frames(ms)[..cut]), ms, cut)
    decreases ms
  {
    if ms != [] {
      var m, f, later := ms[0], Frame(ms[0]), ms[1..];
      if cut < |f| {
        assert Frames(ms)[..cut] == f[..cut];
        TornFrame(out, m, cut);
        NoWholeFrame(ms, cut, Decode(out, f[..cut]));
      } else {
        var rest := Frames(later)[..cut - |f|];
        DecodeCut(m, later, cut - |f|);
        assert Frames(ms)[..cut] == f + rest;
        FrameRoundTripIff(out, m, rest);
        OneMoreFrame(ms, cut, Decode(m, rest));
      }
    }
  }

  lemma NoWholeFrame(ms: seq<Message>, cut: nat, got: seq<Message>)
    requires ms != [] && cut < |Frame(ms[0])|
    requires if cut <= 4 then got == [] else |got| == 1 && IsTornCopy(got[0], ms[0], cut - 4)
    ensures DecodesTo(got, ms, cut)
  {
    assert ms[..0] == [];
  }

  lemma OneMoreFrame(ms: seq<Message>, cut: nat, got: seq<Message>)
    requires ms != [] && |Frame(ms[0])| <= cut
    requires DecodesTo(got, ms[1..], cut - |Frame(ms[0])|)
    ensures DecodesTo([ms[0]] + got, ms, cut)
  {
    var m, later := ms[0], ms[1..];
    var w := Whole(later, cut - |Frame(m)|);
    assert ms[..w + 1] == [m] + later[..w];
    assert ([m] + later[..w])[1..] == later[..w];
    assert |Frames(ms[..w + 1])| == |Frame(m)| + |Frames(later[..w])|;
    assert ([m] + got)[..w + 1] == [m] + got[..w];
  }

  lemma TornFrame(out: Message, m: Message, cut: nat)
    requires Sendable(m) && cut < |Frame(m)|
    ensures var got := Decode(out, Frame(m)[..cut]);
            if cut <= 4 then got == [] else |got| == 1 && IsTornCopy(got[0], m, cut - 4)
  {
    var incoming := Frame(m)[..cut];
    if cut < 4 {
      PartialHeader(out, incoming);
    } else {
      var arrived := m[..cut - 4];
      assert incoming == BigEndian(|m|) + arrived;
      AfterHeader(out, |m|, arrived, BLOCKING);
      if cut > 4 {
        PartialBody(out, m, arrived, UntilAll, cut - 4);
        NothingLeft(out, incoming);
      }
    }
  }

  lemma PartialHeader(out: Message, incoming: seq<byte>)
    requires |incoming| <= 4
    ensures Decode(out, incoming) == []
  {
  }

  lemma NothingLeft(out: Message, incoming: seq<byte>)
    requires Receive(out, incoming).ok && Receive(out, incoming).rest == []
    ensures Decode(out, incoming) == [Receive(out, incoming).out]
  {
  }

  /** A connection that ends early handles exactly the messages that arrived completely if and
      only if it does not end inside a body. */
  lemma CutIsCleanIff(out: Message, ms: seq<Message>, cut: nat)
    requires forall i :: 0 <= i < |ms| ==> Sendable(ms[i])
    requires cut <= |Frames(ms)|
    ensures Decode(out, Frames(ms)[..cut]) == ms[..Whole(ms, cut)] <==> !EndsInBody(ms, cut)
  {
    DecodeCut(out, ms, cut);
  }

  // ---------- sockets that do not wait ----------

  /** A pause inside the body tears a message although the stream is complete: the part that has
      arrived counts as the message, and what comes later is read as the next header. */
  lemma PauseTears(out: Message, m: Message, rest: seq<byte>, header: Wait, arrived: nat)
    requires Sendable(m) && Enough(header, 4) && 0 < arrived < |m|
    ensures var r := ReceiveWhen(out, Frame(m) + rest, Arrival(header, Arrived(arrived)));
            r.ok && IsTornCopy(r.out, m, arrived) && r.rest == m[arrived..] + rest
  {
    FrameHeader(out, m, rest, Arrival(header, Arrived(arrived)));
    SplitIn(m, rest, arrived);
    PartialBody(out, m, m + rest, Arrived(arrived), arrived);
  }

  lemma SplitIn(a: seq<byte>, b: seq<byte>, k: nat)
    requires k <= |a|
    ensures (a + b)[..k] == a[..k] && (a + b)[k..] == a[k..] + b
  {
  }

  /** The length that the first k bytes of a header come to: n without what the others stand for. */
  function RoundedDown(n: nat, k: nat): (len: nat)
    requires 0 < k < 4
    ensures len <= n
  {
    if k == 1 then n - n % 0x100_0000 else if k == 2 then n - n % 0x1_0000 else n - n % 0x100
  }

  lemma CutHeader(n: nat, k: nat)
    requires n <= 1_048_576 && 0 < k < 4
    ensures FromBigEndian(BigEndian(n)[..k] + Zeros(4 - k)) == RoundedDown(n, k)
  {
    var b := BigEndian(n)[..k] + Zeros(4 - k);
    assert n / 0x100_0000 == 0;
    if k == 2 {
      assert b == [0, n / 0x1_0000 % 256, 0, 0];
    } else if k == 3 {
      assert b == [0, n / 0x1_0000 % 256, n / 0x100 % 256, 0];
      assert n / 0x100 == n / 0x1_0000 * 0x100 + n / 0x100 % 256;
    } else {
      assert b == [0, 0, 0, 0];
    }
  }

  /** A receive that gets `header`, fewer than four bytes, goes on with what they come to. */
  lemma ShortHeader(out: Message, header: seq<byte>, later: seq<byte>, body: Wait)
    requires 0 < |header| < 4
    ensures var len := FromBigEndian(header + Zeros(4 - |header|));
            ReceiveWhen(out, header + later, Arrival(Arrived(|header|), body))
            == if len == 0 || len > MAX_MESSAGE_SIZE then Received(false, out, later)
               else ReceiveBody(out, len, later, body)
  {
    var incoming := header + later;
    assert Available(Ready(incoming, Arrived(|header|)), 4) == header;
    assert incoming[|header|..] == later;
  }

  /** A header cut short is not refused as such: the bytes that have not arrived count as zeros, so the
      length is rounded down, and the rest of the header is read as the start of the body. Only
      a length rounded down to 0, or a body of which nothing has arrived, is refused. */
  lemma CutHeaderMisleads(out: Message, m: Message, rest: seq<byte>, k: nat, body: Wait)
    requires Sendable(m) && 0 < k < 4
    ensures var r := ReceiveWhen(out, Frame(m) + rest, Arrival(Arrived(k), body));
            && (r.ok <==> RoundedDown(|m|, k) > 0 && (body.UntilAll? || body.bytes > 0))
            && (r.ok ==> |r.out| == RoundedDown(|m|, k) && r.out[0] == Frame(m)[k])
  {
    var header := BigEndian(|m|);
    var later := header[k..] + (m + rest);
    FrameOf(m, rest);
    assert Frame(m) + rest == header[..k] + later;
    ShortHeader(out, header[..k], later, body);
    CutHeader(|m|, k);
    if RoundedDown(|m|, k) > 0 {
      BodyStarts(out, RoundedDown(|m|, k), later, body);
    }
  }

  lemma BodyStarts(out: Message, len: nat, incoming: seq<byte>, wait: Wait)
    requires len > 0 && incoming != []
    ensures var r := ReceiveBody(out, len, incoming, wait);
            && |r.out| == len && (r.ok <==> wait.UntilAll? || wait.bytes > 0)
            && (r.ok ==> r.out[0] == incoming[0])
  {
  }

  datatype Decoded = Decoded(handled: seq<Message>, rest: seq<byte>)

  /** What a read loop handles in as many receives as there are arrivals, and what it leaves. */
  ghost function DecodeWhen(out: Message, incoming: seq<byte>, arrivals: seq<Arrival>): Decoded
    decreases arrivals
  {
    if arrivals == [] then Decoded([], incoming)
    else
      var r := ReceiveWhen(out, incoming, arrivals[0]);
      if !r.ok then Decoded([], r.rest)
      else
        var later := DecodeWhen(r.out, r.rest, arrivals[1..]);
        Decoded([r.out] + later.handled, later.rest)
  }

  lemma {:induction false} DecodeConsumesAtMost(out: Message, incoming: seq<byte>,
                                                arrivals: seq<Arrival>)
    requires |DecodeWhen(out, incoming, arrivals).handled| == |arrivals|
    ensures var d := DecodeWhen(out, incoming, arrivals);
            |incoming| <= |d.rest| + |Frames(d.handled)|
    decreases arrivals
  {
    if arrivals != [] {
      var r := ReceiveWhen(out, incoming, arrivals[0]);
      ConsumesAtMost(out, incoming, arrivals[0]);
      DecodeConsumesAtMost(r.out, r.rest, arrivals[1..]);
      var later := DecodeWhen(r.out, r.rest, arrivals[1..]);
      assert ([r.out] + later.handled)[1..] == later.handled;
    }
  }

  /** On any socket: the sent messages are what is handled, and exactly their frames are consumed,
      if and only if every header and every body has arrived whole when it is asked for. */
  lemma {:induction false} AllInTimeIff(out: Message, ms: seq<Message>, rest: seq<byte>,
                                        arrivals: seq<Arrival>)
    requires |arrivals| == |ms| && forall i :: 0 <= i < |ms| ==> Sendable(ms[i])
    ensures DecodeWhen(out, Frames(ms) + rest, arrivals) == Decoded(ms, rest)
       <==> forall i :: 0 <= i < |ms| ==> InTime(arrivals[i], ms[i])
    decreases ms
  {
    if ms == [] {
      assert Frames(ms) + rest == rest;
    } else {
      AllInTimeIff(ms[0], ms[1..], rest, arrivals[1..]);
      AllSplit(arrivals, ms);
      if InTime(arrivals[0], ms[0]) {
        FirstHandled(out, ms, rest, arrivals);
      } else if DecodeWhen(out, Frames(ms) + rest, arrivals) == Decoded(ms, rest) {
        FirstInTime(out, ms, rest, arrivals);
      }
    }
  }

  lemma AllSplit(arrivals: seq<Arrival>, ms: seq<Message>)
    requires |arrivals| == |ms| > 0
    ensures (forall i :: 0 <= i < |ms| ==> InTime(arrivals[i], ms[i]))
       <==> (InTime(arrivals[0], ms[0])
             && forall i :: 0 <= i < |ms[1..]| ==> InTime(arrivals[1..][i], ms[1..][i]))
  {
    if forall i :: 0 <= i < |ms[1..]| ==> InTime(arrivals[1..][i], ms[1..][i]) {
      forall i | 0 < i < |ms| ensures InTime(arrivals[i], ms[i]) {
        assert InTime(arrivals[1..][i - 1], ms[1..][i - 1]);
      }
    }
  }

  lemma FirstHandled(out: Message, ms: seq<Message>, rest: seq<byte>, arrivals: seq<Arrival>)
    requires |arrivals| == |ms| > 0 && Sendable(ms[0]) && InTime(arrivals[0], ms[0])
    ensures DecodeWhen(out, Frames(ms) + rest, arrivals) == Decoded(ms, rest)
       <==> DecodeWhen(ms[0], Frames(ms[1..]) + rest, arrivals[1..]) == Decoded(ms[1..], rest)
  {
    var left := Frames(ms[1..]) + rest;
    assert Frames(ms) + rest == Frame(ms[0]) + left;
    ReceivedInTime(out, ms[0], left, arrivals[0]);
    var later := DecodeWhen(ms[0], left, arrivals[1..]);
    assert ([ms[0]] + later.handled)[1..] == later.handled;
    assert ms == [ms[0]] + ms[1..];
  }

  lemma FirstInTime(out: Message, ms: seq<Message>, rest: seq<byte>, arrivals: seq<Arrival>)
    requires |arrivals| == |ms| > 0 && Sendable(ms[0])
    requires DecodeWhen(out, Frames(ms) + rest, arrivals) == Decoded(ms, rest)
    ensures InTime(arrivals[0], ms[0])
  {
    var incoming := Frames(ms) + rest;
    var r := ReceiveWhen(out, incoming, arrivals[0]);
    var later := DecodeWhen(r.out, r.rest, arrivals[1..]);
    assert ([r.out] + later.handled)[1..] == later.handled == ms[1..];
    ConsumesAtMost(out, incoming, arrivals[0]);
    DecodeConsumesAtMost(r.out, r.rest, arrivals[1..]);
  }

  ghost function Continued(handled: seq<Message>, later: Decoded): Decoded {
    Decoded(handled + later.handled, later.rest)
  }

  lemma ContinuedUnfolds(handled: seq<Message>, out: Message, incoming: seq<byte>,
                         arrivals: seq<Arrival>)
    requires arrivals != []
    ensures var r := ReceiveWhen(out, incoming, arrivals[0]);
            Continued(handled, DecodeWhen(out, incoming, arrivals))
            == if r.ok then Continued(handled + [r.out], DecodeWhen(r.out, r.rest, arrivals[1..]))
               else Decoded(handled, r.rest)
  {
  }

  // ---------- the health check ----------

  /** What the health check of a node sends: four bytes without a length before them. */
  const PING: seq<byte> := [0x50, 0x49, 0x4E, 0x47]

  /** A server of this program reads them as a length above 1 MiB, however many have arrived, and
      gives the connection up: it handles no message, so it sends no reply. */
  lemma PingIsRefused(out: Message, arrival: Arrival, arrivals: seq<Arrival>)
    ensures !ReceiveWhen(out, PING, arrival).ok
    ensures Decode(out, PING) == [] && DecodeWhen(out, PING, arrivals).handled == []
  {
    PingIsTooLong(out, arrival);
    PingIsTooLong(out, BLOCKING);
    if arrivals != [] {
      PingIsTooLong(out, arrivals[0]);
    }
  }

  lemma PingIsTooLong(out: Message, arrival: Arrival)
    ensures !ReceiveWhen(out, PING, arrival).ok
  {
    var header := Available(Ready(PING, arrival.header), 4);
    if header != [] {
      assert (header + Zeros(4 - |header|))[0] == 0x50;
    }
  }

  // ---------- the socket ----------

  /** The stream that the pieces spell out. */
  ghost function Flat(pieces: seq<seq<byte>>): seq<byte> {
    if pieces == [] then [] else pieces[0] + Flat(pieces[1..])
  }

  /** A connected socket. The incoming stream arrives in pieces of any positive size and then
      ends. */
  class Socket {
    var pieces: seq<seq<byte>>
    var outgoing: seq<byte>

    ghost predicate Valid()
      reads this
    {
      forall i :: 0 <= i < |pieces| ==> pieces[i] != []
    }

    ghost function Incoming(): seq<byte>
      reads this
    {
      Flat(pieces)
    }

    constructor (pieces: seq<seq<byte>>)
      requires forall i :: 0 <= i < |pieces| ==> pieces[i] != []
      ensures Valid() && Incoming() == Flat(pieces) && outgoing == []
    {
      this.pieces := pieces;
      outgoing := [];
    }

    /** One recv: some of what has arrived, or nothing at the end of the stream. */
    method Recv(wanted: nat) returns (got: seq<byte>)
      requires Valid() && wanted > 0
      modifies this`pieces
      ensures Valid() && old(Incoming()) == got + Incoming()
      ensures |got| <= wanted && (got == [] <==> old(Incoming()) == [])
    {
      if pieces == [] {
        return [];
      }
      var piece := pieces[0];
      if |piece| <= wanted {
        got, pieces := piece, pieces[1..];
      } else {
        got := piece[..wanted];
        ghost var later := pieces[1..];
        pieces := [piece[wanted..]] + pieces[1..];
        assert pieces[1..] == later && got + piece[wanted..] == piece;
        assert got + (piece[wanted..] + Flat(later)) == piece + Flat(later);
      }
    }

    /** Fills the whole buffer, or fails because the stream ended first. */
    method RecvAll(buf: array<byte>) returns (ok: bool)
      requires Valid()
      modifies this`pieces, buf
      ensures Valid() && (ok <==> buf.Length <= |old(Incoming())|)
      ensures ok ==> buf[..] + Incoming() == old(Incoming())
      ensures !ok ==> Incoming() == [] && buf[..|old(Incoming())|] == old(Incoming())
    {
      var total := 0;
      while total < buf.Length
        invariant total <= buf.Length && Valid()
        invariant buf[..total] + Incoming() == old(Incoming())
      {
        var got := Recv(buf.Length - total);
        if got == [] {
          assert buf[..total] + [] == buf[..total];
          return false;
        }
        ghost var filled := buf[..total];
        forall i | 0 <= i < |got| {
          buf[total + i] := got[i];
        }
        total := total + |got|;
        assert buf[..total] == filled + got;
        assert filled + got + Incoming() == filled + (got + Incoming());
      }
      assert buf[..total] == buf[..];
      ok := true;
    }

    /** recv with MSG_WAITALL: waits until all bytes have come or the stream has ended. */
    method RecvWaitAll(wanted: nat) returns (got: seq<byte>)
      requires Valid()
      modifies this`pieces
      ensures Valid() && got == Available(old(Incoming()), wanted)
      ensures Incoming() == old(Incoming())[|got|..]
    {
      got := [];
      while |got| < wanted
        invariant |got| <= wanted && Valid()
        invariant got + Incoming() == old(Incoming())
        decreases wanted - |got|
      {
        var more := Recv(wanted - |got|);
        if more == [] {
          break;
        }
        assert got + (more + Incoming()) == got + more + Incoming();
        got := got + more;
      }
    }

    /** recv with MSG_WAITALL on either kind of socket. */
    method RecvAs(wanted: nat, wait: Wait) returns (got: seq<byte>)
      requires Valid()
      modifies this`pieces
      ensures Valid() && got == Available(Ready(old(Incoming()), wait), wanted)
      ensures Incoming() == old(Incoming())[|got|..]
    {
      got := RecvWaitAll(if wait.Arrived? && wait.bytes < wanted then wait.bytes else wanted);
    }

    /** recvMessage: fills the caller's vector. */
    method RecvMessage(vector: Message, arrival: Arrival) returns (ok: bool, out: Message)
      requires Valid()
      modifies this`pieces
      ensures Valid() && Received(ok, out, Incoming()) == ReceiveWhen(vector, old(Incoming()), arrival)
    {
      out := vector;
      var header := RecvAs(4, arrival.header);
      if header == [] {
        return false, out;
      }
      var len := FromBigEndian(header + Zeros(4 - |header|));
      if len == 0 || len > MAX_MESSAGE_SIZE {
        return false, out;
      }
      out := Resize(out, len);
      var body := RecvAs(len, arrival.body);
      if body == [] {
        return false, out;
      }
      out := body + out[|body|..];
      ok := true;
    }

    /** The read loop of a connection, on a blocking socket. */
    method ReceiveMessages() returns (handled: seq<Message>)
      requires Valid()
      modifies this`pieces
      ensures Valid() && handled == Decode([], old(Incoming()))
    {
      handled := [];
      var vector: Message := [];
      var ok: bool;
      ok, vector := RecvMessage(vector, BLOCKING);
      while ok
        invariant Valid()
        invariant handled + Pending(ok, vector, Incoming()) == Decode([], old(Incoming()))
        decreases |Incoming()|, ok
      {
        PendingUnfolds(handled, vector, Incoming());
        handled := handled + [vector];
        ok, vector := RecvMessage(vector, BLOCKING);
      }
    }

    /** The read loop on any socket, for as many receives as there are arrivals. */
    method ReceiveMessagesWhen(arrivals: seq<Arrival>) returns (handled: seq<Message>)
      requires Valid()
      modifies this`pieces
      ensures Valid()
      ensures Decoded(handled, Incoming()) == DecodeWhen([], old(Incoming()), arrivals)
    {
      handled := [];
      var vector: Message := [];
      var i := 0;
      ghost var whole := DecodeWhen([], Incoming(), arrivals);
      while i < |arrivals|
        invariant i <= |arrivals| && Valid()
        invariant Continued(handled, DecodeWhen(vector, Incoming(), arrivals[i..])) == whole
      {
        var ok;
        ghost var before, left := vector, Incoming();
        ok, vector := RecvMessage(vector, arrivals[i]);
        ContinuedUnfolds(handled, before, left, arrivals[i..]);
        if !ok {
          return;
        }
        handled := handled + [vector];
        i := i + 1;
      }
    }

    /** One send: the kernel takes `taken` bytes, or refuses with -1. */
    method Send(data: seq<byte>, taken: int) returns (n: int)
      requires -1 <= taken <= |data|
      modifies this`outgoing
      ensures n == taken
      ensures outgoing == old(outgoing) + (if taken < 0 then [] else data[..taken])
    {
      n := taken;
      if taken >= 0 {
        outgoing := outgoing + data[..taken];
      }
    }

    /** sendMessage: the two sends take `headerTaken` and `bodyTaken` bytes. It succeeds exactly
        when the whole frame is out; otherwise a proper prefix of it is. */
    method SendMessage(data: Message, headerTaken: int, bodyTaken: int) returns (ok: bool)
      requires -1 <= headerTaken <= 4 && -1 <= bodyTaken <= |data|
      modifies this`outgoing
      ensures ok <==> headerTaken == 4 && bodyTaken == |data|
      ensures ok ==> outgoing == old(outgoing) + Frame(data)
      ensures !ok ==> exists k :: 0 <= k <= |Frame(data)| && (k == |Frame(data)| ==> data == [])
                                  && outgoing == old(outgoing) + Frame(data)[..k]
    {
      var header := BigEndian(|data| % TWO_TO_THE_32);
      var n := Send(header, headerTaken);
      if n != 4 {
        ghost var k := if n < 0 then 0 else n;
        assert header[..k] == Frame(data)[..k];
        return false;
      }
      assert header[..4] == header;
      n := Send(data, bodyTaken);
      ghost var k := 4 + if n < 0 then 0 else n;
      assert Frame(data)[..k] == header + data[..k - 4];
      if n != |data| {
        assert outgoing == old(outgoing) + Frame(data)[..k];
        return false;
      }
      assert data[..|data|] == data;
      ok := true;
    }
  }
}
