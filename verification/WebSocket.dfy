/** WebSocket framing of the app-server client (sections 5.2 to 5.4 of RFC 6455): bytes arrive
    in chunks of any size, frames are cut out of them, fragments are joined, pings answered. */
module WebSocket {

  import opened Bytes
  import opened Wrappers

  type Mask = m: seq<Byte> | |m| == 4 witness [0, 0, 0, 0]

  const CONTINUATION := 0
  const TEXT := 1
  const CLOSE := 8
  const PING := 9
  const PONG := 10

  // ---- Exclusive or ----

  function Xor(a: nat, b: nat): nat
    decreases a + b
  {
    if a == 0 && b == 0 then 0
    else (if a % 2 == b % 2 then 0 else 1) + 2 * Xor(a / 2, b / 2)
  }

  predicate PowerOfTwo(m: nat) {
    m == 1 || (m > 1 && m % 2 == 0 && PowerOfTwo(m / 2))
  }

  lemma {:induction false} XorBound(a: nat, b: nat, m: nat)
    requires PowerOfTwo(m) && a < m && b < m
    ensures Xor(a, b) < m
  {
    if a > 0 || b > 0 {
      XorBound(a / 2, b / 2, m / 2);
    }
  }

  lemma {:induction false} XorTwice(a: nat, b: nat)
    ensures Xor(Xor(a, b), b) == a
    decreases a + b
  {
    if a > 0 || b > 0 {
      XorTwice(a / 2, b / 2);
      var x := Xor(a, b);
      assert x / 2 == Xor(a / 2, b / 2);
      if x == 0 && b == 0 {
        XorZero(a);
      }
    }
  }

  lemma {:induction false} XorZero(a: nat)
    ensures Xor(a, 0) == a
  {
    if a > 0 {
      XorZero(a / 2);
    }
  }

  function XorByte(a: Byte, b: Byte): Byte {
    assert PowerOfTwo(2) && PowerOfTwo(4) && PowerOfTwo(8) && PowerOfTwo(16);
    assert PowerOfTwo(32) && PowerOfTwo(64) && PowerOfTwo(128) && PowerOfTwo(256);
    XorBound(a, b, 256);
    Xor(a, b)
  }

  function Masked(data: seq<Byte>, mask: Mask): (r: seq<Byte>)
    ensures |r| == |data|
  {
    seq(|data|, i requires 0 <= i < |data| => XorByte(data[i], mask[i % 4]))
  }

  lemma MaskedTwice(data: seq<Byte>, mask: Mask)
    ensures Masked(Masked(data, mask), mask) == data
  {
    forall i | 0 <= i < |data|
      ensures Masked(Masked(data, mask), mask)[i] == data[i]
    {
      XorTwice(data[i], mask[i % 4]);
    }
  }

  /** Bit `k` of a number, the lowest first. */
  predicate Bit(n: nat, k: nat) {
    if k == 0 then n % 2 == 1 else Bit(n / 2, k - 1)
  }

  lemma {:induction false} XorBit(a: nat, b: nat, k: nat)
    ensures Bit(Xor(a, b), k) <==> (Bit(a, k) != Bit(b, k))
  {
    assert Xor(a, b) / 2 == Xor(a / 2, b / 2);
    if k > 0 {
      XorBit(a / 2, b / 2, k - 1);
    }
  }

  lemma {:induction false} BitsDetermine(a: nat, b: nat, n: nat)
    requires a < PowerOf2(n) && b < PowerOf2(n)
    requires forall k: nat :: k < n ==> Bit(a, k) == Bit(b, k)
    ensures a == b
  {
    if n > 0 {
      forall k: nat | k < n - 1
        ensures Bit(a / 2, k) == Bit(b / 2, k)
      {
        assert Bit(a, k + 1) == Bit(b, k + 1);
      }
      BitsDetermine(a / 2, b / 2, n - 1);
      assert Bit(a, 0) == Bit(b, 0);
    }
  }

  function PowerOf2(n: nat): nat {
    if n == 0 then 1 else 2 * PowerOf2(n - 1)
  }

  /** Each bit of these bytes is set exactly when those of the data and of the mask, repeated over
      the data, differ (section 5.3 of RFC 6455). */
  predicate DiffersBitwise(out: seq<Byte>, data: seq<Byte>, mask: Mask) {
    |out| == |data| && forall i :: 0 <= i < |data| ==> DiffersAt(out[i], data[i], mask[i % 4])
  }

  predicate DiffersAt(out: Byte, a: Byte, b: Byte) {
    forall k :: 0 <= k < 8 ==> Bit(out, k) == (Bit(a, k) != Bit(b, k))
  }

  lemma XorDiffers(out: Byte, a: Byte, b: Byte)
    ensures DiffersAt(out, a, b) <==> out == XorByte(a, b)
  {
    forall k: nat
      ensures Bit(XorByte(a, b), k) == (Bit(a, k) != Bit(b, k))
    {
      XorBit(a, b, k);
    }
    if DiffersAt(out, a, b) {
      assert PowerOf2(8) == 2 * 2 * 2 * 2 * 2 * 2 * 2 * 2 * PowerOf2(0);
      BitsDetermine(out, XorByte(a, b), 8);
    }
  }

  /** Masking gives the bytes that differ from the data in the bits of the mask, and only these. */
  lemma MaskedBits(out: seq<Byte>, data: seq<Byte>, mask: Mask)
    ensures out == Masked(data, mask) <==> DiffersBitwise(out, data, mask)
  {
    forall i | 0 <= i < |data| && i < |out|
      ensures DiffersAt(out[i], data[i], mask[i % 4]) <==> out[i] == Masked(data, mask)[i]
    {
      XorDiffers(out[i], data[i], mask[i % 4]);
    }
  }

  // ---- Lengths ----

  function Power256(k: nat): (p: nat)
  {
    if k == 0 then 1 else 256 * Power256(k - 1)
  }

  /** `n` in `k` bytes, most significant first. */
  function BigEndian(n: nat, k: nat): (s: seq<Byte>)
    ensures |s| == k
  {
    if k == 0 then [] else BigEndian(n / 256, k - 1) + [n % 256]
  }

  function FromBigEndian(s: seq<Byte>): nat {
    if s == [] then 0 else 256 * FromBigEndian(s[..|s| - 1]) + s[|s| - 1]
  }

  lemma {:induction false} BigEndianReads(n: nat, k: nat)
    requires n < Power256(k)
    ensures FromBigEndian(BigEndian(n, k)) == n
  {
    if k > 0 {
      BigEndianReads(n / 256, k - 1);
      assert BigEndian(n, k)[..k - 1] == BigEndian(n / 256, k - 1);
    }
  }

  // ---- Frames on the wire ----

  datatype Form = Short | Medium | Long

  datatype Masking = Plain | With(mask: Mask)

  /** A frame as its sender writes it; `rsv` is the three reserved bits. */
  datatype Frame = Frame(fin: bool, rsv: nat, op: nat, form: Form, masking: Masking, data: seq<Byte>)

  predicate FormHolds(form: Form, n: nat) {
    match form
    case Short => n < 126
    case Medium => n < 65536
    case Long => n < Power256(8)
  }

  predicate Writable(f: Frame) {
    f.rsv < 8 && f.op < 16 && FormHolds(f.form, |f.data|)
  }

  function LengthBytes(form: Form, n: nat): seq<Byte>
    requires FormHolds(form, n)
  {
    match form
    case Short => []
    case Medium => BigEndian(n, 2)
    case Long => BigEndian(n, 8)
  }

  function LengthCode(form: Form, n: nat): (c: nat)
    requires FormHolds(form, n)
  {
    match form
    case Short => n
    case Medium => 126
    case Long => 127
  }

  function Header(f: Frame): seq<Byte>
    requires Writable(f)
  {
    [(if f.fin then 128 else 0) + 16 * f.rsv + f.op,
     (if f.masking.With? then 128 else 0) + LengthCode(f.form, |f.data|)] + LengthBytes(f.form, |f.data|)
  }

  function Body(f: Frame): seq<Byte> {
    if f.masking.With? then f.masking.mask + Masked(f.data, f.masking.mask) else f.data
  }

  function Write(f: Frame): seq<Byte>
    requires Writable(f)
  {
    Header(f) + Body(f)
  }

  function WriteAll(fs: seq<Frame>): seq<Byte>
    requires forall i :: 0 <= i < |fs| ==> Writable(fs[i])
  {
    if fs == [] then [] else Write(fs[0]) + WriteAll(fs[1..])
  }

  // ---- Frames as they are read ----

  /** What the reader keeps of a frame. */
  datatype Seen = Seen(fin: bool, op: nat, payload: seq<Byte>)

  datatype Cut = Cut(frame: Seen, rest: seq<Byte>) | Wait

  function SeenOf(f: Frame): Seen {
    Seen(f.fin, f.op, f.data)
  }

  /** Bytes up to and including the length, by the length code. */
  function HeaderSize(code: nat): nat {
    if code == 126 then 4 else if code == 127 then 10 else 2
  }

  function PayloadLength(s: seq<Byte>): nat
    requires |s| >= 2 && |s| >= HeaderSize(s[1] % 128)
  {
    if s[1] % 128 == 126 then FromBigEndian(s[2..4])
    else if s[1] % 128 == 127 then FromBigEndian(s[2..10])
    else s[1] % 128
  }

  /** Where the payload begins: after the mask, if there is one. */
  function PayloadStart(s: seq<Byte>): nat
    requires |s| >= 2
  {
    HeaderSize(s[1] % 128) + (if s[1] >= 128 then 4 else 0)
  }

  predicate Whole(s: seq<Byte>) {
    |s| >= 2 && |s| >= HeaderSize(s[1] % 128) && |s| >= PayloadStart(s) + PayloadLength(s)
  }

  function CutFrame(s: seq<Byte>): (c: Cut)
  {
    if !Whole(s) then Wait
    else CutAt(s, PayloadStart(s), PayloadStart(s) + PayloadLength(s))
  }

  /** The frame whose payload lies between these places. */
  function CutAt(s: seq<Byte>, start: nat, need: nat): Cut
    requires 2 <= start <= need <= |s| && (s[1] >= 128 ==> start >= 4)
  {
    var payload := if s[1] >= 128 then Masked(s[start..need], s[start - 4..start]) else s[start..need];
    Cut(Seen(s[0] >= 128, s[0] % 16, payload), s[need..])
  }

  lemma HeaderReads(f: Frame, rest: seq<Byte>)
    requires Writable(f)
    ensures var s := Header(f) + rest;
            |s| >= 2 && |Header(f)| == HeaderSize(s[1] % 128) && PayloadLength(s) == |f.data|
            && (s[1] >= 128) == f.masking.With? && (s[0] >= 128) == f.fin && s[0] % 16 == f.op
  {
    var s, n := Header(f) + rest, |f.data|;
    assert s[1] % 128 == LengthCode(f.form, n);
    match f.form
    case Short =>
    case Medium =>
      assert Power256(2) == 256 * (256 * Power256(0));
      BigEndianReads(n, 2);
      hide BigEndian, FromBigEndian, Power256;
      assert s[2..4] == BigEndian(n, 2);
    case Long =>
      BigEndianReads(n, 8);
      hide BigEndian, FromBigEndian, Power256;
      assert s[2..10] == BigEndian(n, 8);
  }

  lemma WrittenHeader(f: Frame, rest: seq<Byte>)
    requires Writable(f)
    ensures var s := Write(f) + rest;
            |s| >= 2 && |Header(f)| == HeaderSize(s[1] % 128) && PayloadLength(s) == |f.data|
            && (s[1] >= 128) == f.masking.With? && (s[0] >= 128) == f.fin && s[0] % 16 == f.op
  {
    assert Write(f) + rest == Header(f) + (Body(f) + rest);
    HeaderReads(f, Body(f) + rest);
  }

  /** Every frame, in any length form, masked or not, is cut out as it was sent. */
  lemma CutsWritten(f: Frame, rest: seq<Byte>)
    requires Writable(f)
    ensures CutFrame(Write(f) + rest) == Cut(SeenOf(f), rest)
  {
    hide Header, PayloadLength, CutAt, Masked, Write, Body, BigEndian, FromBigEndian;
    WrittenHeader(f, rest);
    BodyCuts(f, rest);
    assert Whole(Write(f) + rest);
  }

  /** Behind the header lie the mask, if there is one, the payload and the rest. */
  lemma BodyCuts(f: Frame, rest: seq<Byte>)
    requires Writable(f) && |Header(f)| >= 2
    requires
      var s := Write(f) + rest;
      (s[1] >= 128) == f.masking.With? && (s[0] >= 128) == f.fin && s[0] % 16 == f.op
    ensures
      var s := Write(f) + rest;
      var start := |Header(f)| + if f.masking.With? then 4 else 0;
      var need := start + |f.data|;
      need <= |s| && CutAt(s, start, need) == Cut(SeenOf(f), rest)
  {
    hide Header;
    var s := Write(f) + rest;
    var start := |Header(f)| + if f.masking.With? then 4 else 0;
    var need := start + |f.data|;
    assert s == Header(f) + (Body(f) + rest);
    assert s[need..] == rest;
    if f.masking.With? {
      assert s[start - 4..start] == f.masking.mask;
      assert s[start..need] == Masked(f.data, f.masking.mask);
      MaskedTwice(f.data, f.masking.mask);
    } else {
      assert s[start..need] == f.data;
    }
  }

  /** A frame already whole is cut the same way whatever follows it. */
  lemma CutStands(s: seq<Byte>, t: seq<Byte>)
    requires CutFrame(s).Cut?
    ensures CutFrame(s + t) == Cut(CutFrame(s).frame, CutFrame(s).rest + t)
  {
    SizesStand(s, t);
    hide FromBigEndian, PayloadLength, HeaderSize, CutAt;
    assert Whole(s) && Whole(s + t);
    CutAtStands(s, t, PayloadStart(s), PayloadStart(s) + PayloadLength(s));
  }

  lemma CutAtStands(s: seq<Byte>, t: seq<Byte>, start: nat, need: nat)
    requires 2 <= start <= need <= |s| && (s[1] >= 128 ==> start >= 4)
    ensures (s + t)[1] == s[1]
    ensures CutAt(s + t, start, need) == Cut(CutAt(s, start, need).frame, CutAt(s, start, need).rest + t)
  {
    hide Masked;
    var u := s + t;
    assert u[start..need] == s[start..need];
    assert u[need..] == s[need..] + t;
    if s[1] >= 128 {
      assert u[start - 4..start] == s[start - 4..start];
    }
  }

  lemma SizesStand(s: seq<Byte>, t: seq<Byte>)
    requires |s| >= 2 && |s| >= HeaderSize(s[1] % 128)
    ensures PayloadStart(s + t) == PayloadStart(s) && PayloadLength(s + t) == PayloadLength(s)
  {
    hide FromBigEndian;
    var u := s + t;
    assert u[1] == s[1];
    assert s[1] % 128 == 126 ==> u[2..4] == s[2..4];
    assert s[1] % 128 == 127 ==> u[2..10] == s[2..10];
  }

  // ---- The session ----

  /** What was handed to the socket, by opcode and unmasked data. */
  datatype Sent = Sent(op: nat, data: seq<Byte>)

  datatype Session = Session(parts: seq<seq<Byte>>, closed: bool, messages: seq<seq<Byte>>, sent: seq<Sent>)

  function Deliver(st: Session, f: Seen): Session {
    if f.op == PING then (if st.closed then st else st.(sent := st.sent + [Sent(PONG, f.payload)]))
    else if f.op == CLOSE then st.(closed := true)
    else if f.op == TEXT || f.op == CONTINUATION then
      var parts := st.parts + [f.payload];
      if f.fin then st.(parts := [], messages := st.messages + [Flat(parts)]) else st.(parts := parts)
    else st
  }

  function DeliverAll(st: Session, fs: seq<Seen>): Session
    decreases |fs|
  {
    if fs == [] then st else DeliverAll(Deliver(st, fs[0]), fs[1..])
  }

  datatype Fed = Fed(session: Session, held: seq<Byte>)

  /** Every whole frame in `s` delivered, the rest held. */
  function Consume(st: Session, s: seq<Byte>): Fed
    decreases |s|
  {
    match CutFrame(s)
    case Wait => Fed(st, s)
    case Cut(frame, rest) => Consume(Deliver(st, frame), rest)
  }

  function FeedAll(fed: Fed, chunks: seq<seq<Byte>>): Fed
    decreases |chunks|
  {
    if chunks == [] then fed else FeedAll(Consume(fed.session, fed.held + chunks[0]), chunks[1..])
  }

  lemma {:induction false} ConsumeResumes(st: Session, s: seq<Byte>, t: seq<Byte>)
    ensures Consume(st, s + t) == Consume(Consume(st, s).session, Consume(st, s).held + t)
    decreases |s|
  {
    match CutFrame(s)
    case Wait =>
    case Cut(frame, rest) =>
      CutStands(s, t);
      ConsumeResumes(Deliver(st, frame), rest, t);
  }

  /** However the bytes are cut into chunks, the session and what it holds are the same. */
  lemma {:induction false} ChunksDoNotMatter(st: Session, held: seq<Byte>, chunks: seq<seq<Byte>>)
    requires CutFrame(held) == Wait
    ensures FeedAll(Fed(st, held), chunks) == Consume(st, held + Flat(chunks))
    decreases |chunks|
  {
    hide CutFrame, Consume, Flat;
    FlatSplits(held, chunks);
    if chunks == [] {
      ConsumeWaits(st, held);
    } else {
      var chunk, later := held + chunks[0], chunks[1..];
      var next := Consume(st, chunk);
      ConsumeStops(st, chunk);
      ChunksDoNotMatter(next.session, next.held, later);
      ConsumeResumes(st, chunk, Flat(later));
    }
  }

  lemma FlatSplits(held: seq<Byte>, chunks: seq<seq<Byte>>)
    ensures chunks == [] ==> held + Flat(chunks) == held
    ensures chunks != [] ==> held + Flat(chunks) == held + chunks[0] + Flat(chunks[1..])
  {
  }

  lemma ConsumeWaits(st: Session, s: seq<Byte>)
    requires CutFrame(s) == Wait
    ensures Consume(st, s) == Fed(st, s)
  {
  }

  lemma {:induction false} ConsumeStops(st: Session, s: seq<Byte>)
    ensures CutFrame(Consume(st, s).held) == Wait
    decreases |s|
  {
    match CutFrame(s)
    case Wait =>
    case Cut(frame, rest) => ConsumeStops(Deliver(st, frame), rest);
  }

  function AllSeen(fs: seq<Frame>): seq<Seen> {
    if fs == [] then [] else [SeenOf(fs[0])] + AllSeen(fs[1..])
  }

  /** The bytes of any sequence of frames deliver exactly those frames, with nothing left. */
  lemma {:induction false} ConsumesWritten(st: Session, fs: seq<Frame>)
    requires forall i :: 0 <= i < |fs| ==> Writable(fs[i])
    ensures Consume(st, WriteAll(fs)) == Fed(DeliverAll(st, AllSeen(fs)), [])
    decreases |fs|
  {
    if fs != [] {
      CutsWritten(fs[0], WriteAll(fs[1..]));
      ConsumesWritten(Deliver(st, SeenOf(fs[0])), fs[1..]);
      assert AllSeen(fs)[1..] == AllSeen(fs[1..]);
    }
  }

  // ---- Reassembly ----

  predicate IsData(f: Seen) {
    f.op == TEXT || f.op == CONTINUATION
  }

  function DataOnly(fs: seq<Seen>): seq<Seen> {
    if fs == [] then []
    else if IsData(fs[0]) then [fs[0]] + DataOnly(fs[1..])
    else DataOnly(fs[1..])
  }

  /** A message cut into fragments: TEXT first, then continuations, the last one final. */
  function Fragments(message: seq<seq<Byte>>, op: nat): seq<Seen>
    requires message != []
  {
    if |message| == 1 then [Seen(true, op, message[0])]
    else [Seen(false, op, message[0])] + Fragments(message[1..], CONTINUATION)
  }

  function AllFragments(messages: seq<seq<seq<Byte>>>): seq<Seen>
    requires forall i :: 0 <= i < |messages| ==> messages[i] != []
  {
    if messages == [] then [] else Fragments(messages[0], TEXT) + AllFragments(messages[1..])
  }

  function Joined(messages: seq<seq<seq<Byte>>>): seq<seq<Byte>> {
    if messages == [] then [] else [Flat(messages[0])] + Joined(messages[1..])
  }

  /** The payloads of pings that arrive before any close, each answered once, in order. */
  function Pongs(fs: seq<Seen>): seq<Sent> {
    if fs == [] || fs[0].op == CLOSE then []
    else if fs[0].op == PING then [Sent(PONG, fs[0].payload)] + Pongs(fs[1..])
    else Pongs(fs[1..])
  }

  /** Frames that carry no text do not touch the messages, wherever they fall. */
  lemma {:induction false} ControlsPassBy(st: Session, fs: seq<Seen>)
    ensures DeliverAll(st, fs).messages == DeliverAll(st, DataOnly(fs)).messages
    ensures DeliverAll(st, fs).parts == DeliverAll(st, DataOnly(fs)).parts
    decreases |fs|
  {
    if fs != [] {
      var next := Deliver(st, fs[0]);
      ControlsPassBy(next, fs[1..]);
      if IsData(fs[0]) {
        assert DataOnly(fs)[1..] == DataOnly(fs[1..]);
      } else {
        OnlyPartsMatter(st, next, DataOnly(fs[1..]));
      }
    }
  }

  lemma {:induction false} OnlyPartsMatter(st: Session, other: Session, fs: seq<Seen>)
    requires st.messages == other.messages && st.parts == other.parts
    ensures DeliverAll(st, fs).messages == DeliverAll(other, fs).messages
    ensures DeliverAll(st, fs).parts == DeliverAll(other, fs).parts
    decreases |fs|
  {
    if fs != [] {
      OnlyPartsMatter(Deliver(st, fs[0]), Deliver(other, fs[0]), fs[1..]);
    }
  }

  lemma {:induction false} DeliverAllJoins(st: Session, a: seq<Seen>, b: seq<Seen>)
    ensures DeliverAll(st, a + b) == DeliverAll(DeliverAll(st, a), b)
    decreases |a|
  {
    if a == [] {
      assert a + b == b;
    } else {
      assert (a + b)[1..] == a[1..] + b;
      DeliverAllJoins(Deliver(st, a[0]), a[1..], b);
    }
  }

  lemma {:induction false} FragmentsJoin(st: Session, message: seq<seq<Byte>>, op: nat)
    requires message != [] && op in {TEXT, CONTINUATION}
    ensures DeliverAll(st, Fragments(message, op)) ==
            st.(parts := [], messages := st.messages + [Flat(st.parts + message)])
    decreases |message|
  {
    var next := Deliver(st, Fragments(message, op)[0]);
    if |message| == 1 {
      assert message == [message[0]];
      assert DeliverAll(next, []) == next;
    } else {
      FragmentsJoin(next, message[1..], CONTINUATION);
      assert st.parts + [message[0]] + message[1..] == st.parts + message;
      assert Fragments(message, op)[1..] == Fragments(message[1..], CONTINUATION);
    }
  }

  lemma {:induction false} AllFragmentsJoin(st: Session, messages: seq<seq<seq<Byte>>>)
    requires st.parts == [] && forall i :: 0 <= i < |messages| ==> messages[i] != []
    ensures DeliverAll(st, AllFragments(messages)) == st.(messages := st.messages + Joined(messages))
    decreases |messages|
  {
    if messages == [] {
      assert st.messages + [] == st.messages;
    } else {
      var first := Fragments(messages[0], TEXT);
      DeliverAllJoins(st, first, AllFragments(messages[1..]));
      FragmentsJoin(st, messages[0], TEXT);
      assert [] + messages[0] == messages[0];
      AllFragmentsJoin(DeliverAll(st, first), messages[1..]);
      assert st.messages + [Flat(messages[0])] + Joined(messages[1..]) == st.messages + Joined(messages);
    }
  }

  lemma {:induction false} PingsAnswered(st: Session, fs: seq<Seen>)
    ensures DeliverAll(st, fs).sent == if st.closed then st.sent else st.sent + Pongs(fs)
    decreases |fs|
  {
    if fs != [] {
      PingsAnswered(Deliver(st, fs[0]), fs[1..]);
    }
  }

  const FRESH := Session([], false, [], [])

  lemma EmptyWaits()
    ensures CutFrame([]) == Wait
  {
  }

  /** Messages fragmented in any way, with any other frames in between, in any length forms
      and masks, cut into any chunks: each is handed over once, whole and in order, and every
      ping before a close is answered with its own payload. */
  lemma ReceivesWhatWasSent(messages: seq<seq<seq<Byte>>>, frames: seq<Frame>, chunks: seq<seq<Byte>>)
    requires forall i :: 0 <= i < |messages| ==> messages[i] != []
    requires forall i :: 0 <= i < |frames| ==> Writable(frames[i])
    requires DataOnly(AllSeen(frames)) == AllFragments(messages)
    requires Flat(chunks) == WriteAll(frames)
    ensures var fed := FeedAll(Fed(FRESH, []), chunks);
            && fed.held == [] && fed.session.parts == []
            && fed.session.messages == Joined(messages)
            && fed.session.sent == Pongs(AllSeen(frames))
  {
    hide FeedAll, Consume, DeliverAll, CutFrame, WriteAll, Flat, AllSeen, DataOnly, AllFragments, Joined, Pongs;
    EmptyWaits();
    ChunksDoNotMatter(FRESH, [], chunks);
    assert [] + Flat(chunks) == WriteAll(frames);
    ConsumesWritten(FRESH, frames);
    ControlsPassBy(FRESH, AllSeen(frames));
    AllFragmentsJoin(FRESH, messages);
    PingsAnswered(FRESH, AllSeen(frames));
    assert [] + Joined(messages) == Joined(messages);
    assert [] + Pongs(AllSeen(frames)) == Pongs(AllSeen(frames));
  }

  // ---- The client ----

  /** The shortest form, as the client itself writes. */
  function Shortest(n: nat): Form {
    if n < 126 then Short else if n < 65536 then Medium else Long
  }

  function Own(op: nat, mask: Mask, data: seq<Byte>): Frame {
    Frame(true, 0, op, Shortest(|data|), With(mask), data)
  }

  /** Reading back a frame of the client's own gives the payload it was asked to send. */
  lemma FeedInvertsFrame(op: nat, mask: Mask, data: seq<Byte>, rest: seq<Byte>)
    requires op < 16 && |data| < Power256(8)
    ensures Writable(Own(op, mask, data))
    ensures CutFrame(Write(Own(op, mask, data)) + rest) == Cut(Seen(true, op, data), rest)
  {
    CutsWritten(Own(op, mask, data), rest);
  }

  /** Frames of section 5.7 of RFC 6455, byte for byte: text whole, in fragments, ping and pong. */
  lemma SamplePlain(data: seq<Byte>)
    requires |data| == 3
    ensures Write(Frame(true, 0, TEXT, Short, Plain, data)) == [0x81, 0x03] + data
    ensures Write(Frame(false, 0, TEXT, Short, Plain, data)) == [0x01, 0x03] + data
    ensures Write(Frame(true, 0, CONTINUATION, Short, Plain, data)) == [0x80, 0x03] + data
    ensures Write(Frame(true, 0, PING, Short, Plain, data)) == [0x89, 0x03] + data
    ensures Write(Frame(true, 0, PONG, Short, Plain, data)) == [0x8a, 0x03] + data
  {
  }

  /** A masked one, which is how the client itself writes: the mask goes before the payload. */
  lemma SampleMasked(mask: Mask, data: seq<Byte>)
    requires |data| == 5
    ensures Write(Own(TEXT, mask, data)) == [0x81, 0x85] + mask + Masked(data, mask)
  {
    hide Masked;
  }

  /** The two longer forms of the length, most significant byte first. */
  lemma SampleLengths()
    ensures Shortest(125) == Short && LengthCode(Short, 125) == 125
    ensures Shortest(256) == Medium && LengthCode(Medium, 256) == 0x7e && LengthBytes(Medium, 256) == [1, 0]
    ensures Shortest(65536) == Long && FormHolds(Long, 65536)
    ensures LengthCode(Long, 65536) == 0x7f && LengthBytes(Long, 65536) == [0, 0, 0, 0, 0, 1, 0, 0]
  {
    assert Power256(8) > 65536;
    assert BigEndian(65536, 8) == [0, 0, 0, 0, 0, 1, 0, 0];
  }

  function SeenAs(b0: Byte, payload: seq<Byte>): Seen {
    Seen(b0 >= 128, b0 % 16, payload)
  }

  function AllSent(fs: seq<Frame>): seq<Sent> {
    seq(|fs|, i requires 0 <= i < |fs| => Sent(fs[i].op, fs[i].data))
  }

  class AppClient {
    var buf: seq<Byte>
    var parts: seq<seq<Byte>>
    var closed: bool
    /** Texts handed to `dispatch`, in order. */
    ghost var messages: seq<seq<Byte>>
    /** Bytes handed to the socket, and the frames they are. */
    ghost var written: seq<Byte>
    ghost var frames: seq<Frame>

    constructor ()
      ensures Valid() && View() == FRESH && buf == [] && written == []
    {
      buf, parts, closed := [], [], false;
      messages, written, frames := [], [], [];
    }

    ghost predicate Valid()
      reads this
    {
      (forall i :: 0 <= i < |frames| ==> Writable(frames[i])) && written == WriteAll(frames)
    }

    ghost function View(): Session
      reads this
    {
      Session(parts, closed, messages, AllSent(frames))
    }

    /** One masked frame, unless the connection is shut. */
    method SendFrame(op: nat, data: seq<Byte>)
      requires Valid() && op < 16 && |data| < Power256(8)
      modifies this`written, this`frames
      ensures Valid()
      ensures View() == if closed then old(View()) else old(View()).(sent := old(View()).sent + [Sent(op, data)])
      ensures if closed then written == old(written) && frames == old(frames)
              else exists mask: Mask :: written == old(written) + Write(Own(op, mask, data))
    {
      if closed {
        return;
      }
      var n := |data|;
      var head: seq<Byte> := [128 + op];
      if n < 126 {
        head := head + [128 + n];
      } else if n < 65536 {
        head := head + [128 + 126, n / 256 % 256, n % 256];
      } else {
        head := head + [128 + 127] + BigEndian(n, 8);
      }
      var mask: Mask := *;
      var body := Masked(data, mask);
      ghost var f := Own(op, mask, data);
      HeaderBytes(op, mask, data, head);
      assert head + mask + body == Write(f);
      WriteAllAppends(frames, f);
      hide Header, Masked, WriteAll, BigEndian;
      written := written + (head + mask + body);
      frames := frames + [f];
      assert View().sent == old(View()).sent + [Sent(op, data)];
    }

    method Shut()
      requires Valid()
      modifies this`closed
      ensures Valid() && View() == old(View()).(closed := true)
    {
      closed := true;
    }

    method Dispatch(text: seq<Byte>)
      requires Valid()
      modifies this`messages
      ensures Valid() && View() == old(View()).(messages := old(View()).messages + [text])
    {
      messages := messages + [text];
    }

    /** The next whole frame, its payload unmasked. */
    method TakeFrame() returns (taken: Option<(Byte, seq<Byte>)>)
      modifies this`buf
      ensures CutFrame(old(buf)) == Wait ==> taken == None && buf == old(buf)
      ensures CutFrame(old(buf)).Cut? ==>
                taken.Some? && |taken.value.1| <= |old(buf)|
                && CutFrame(old(buf)) == Cut(SeenAs(taken.value.0, taken.value.1), buf)
    {
      hide FromBigEndian, Masked;
      if |buf| < 2 {
        return None;
      }
      var b0, b1 := buf[0], buf[1];
      var n := b1 % 128;
      var at := 2;
      if n == 126 {
        if |buf| < 4 {
          return None;
        }
        n := FromBigEndian(buf[2..4]);
        at := 4;
      } else if n == 127 {
        if |buf| < 10 {
          return None;
        }
        n := FromBigEndian(buf[2..10]);
        at := 10;
      }
      var masked := b1 >= 128;
      var need := at + (if masked then 4 else 0) + n;
      if |buf| < need {
        return None;
      }
      var payload := buf[at + (if masked then 4 else 0)..need];
      if masked {
        var mask := buf[at..at + 4];
        payload := Masked(payload, mask);
      }
      buf := buf[need..];
      return Some((b0, payload));
    }

    method Feed(chunk: seq<Byte>)
      requires Valid() && |buf| + |chunk| < Power256(8)
      modifies this
      ensures Valid()
      ensures Fed(View(), buf) == Consume(old(View()), old(buf) + chunk)
    {
      buf := buf + chunk;
      while true
        invariant Valid() && |buf| < Power256(8)
        invariant Consume(View(), buf) == Consume(old(View()), old(buf) + chunk)
        decreases |buf|
      {
        var taken := TakeFrame();
        if taken.None? {
          return;
        }
        hide CutFrame;
        Receive(taken.value.0, taken.value.1);
      }
    }

    method Receive(b0: Byte, payload: seq<Byte>)
      requires Valid() && |payload| < Power256(8)
      modifies this`parts, this`closed, this`messages, this`written, this`frames
      ensures Valid()
      ensures View() == Deliver(old(View()), SeenAs(b0, payload))
    {
      var op := b0 % 16;
      if op == PING {
        SendFrame(PONG, payload);
      } else if op == CLOSE {
        Shut();
      } else if op == TEXT || op == CONTINUATION {
        parts := parts + [payload];
        if b0 >= 128 {
          var text := Flat(parts);
          parts := [];
          Dispatch(text);
        }
      }
    }
  }

  lemma HeaderBytes(op: nat, mask: Mask, data: seq<Byte>, head: seq<Byte>)
    requires op < 16 && |data| < Power256(8)
    requires var n := |data|;
             head == if n < 126 then [128 + op] + [128 + n]
                     else if n < 65536 then [128 + op] + [128 + 126, n / 256 % 256, n % 256]
                     else [128 + op] + [128 + 127] + BigEndian(n, 8)
    ensures Writable(Own(op, mask, data)) && head == Header(Own(op, mask, data))
  {
    var n := |data|;
    assert BigEndian(n, 2) == [n / 256 % 256, n % 256] by {
      assert BigEndian(n / 256 / 256, 0) == [];
      assert BigEndian(n / 256, 1) == [n / 256 % 256];
    }
  }

  lemma {:induction false} WriteAllAppends(fs: seq<Frame>, f: Frame)
    requires Writable(f) && forall i :: 0 <= i < |fs| ==> Writable(fs[i])
    ensures WriteAll(fs + [f]) == WriteAll(fs) + Write(f)
  {
    if fs == [] {
      assert fs + [f] == [f];
      assert WriteAll([f]) == Write(f) + WriteAll([]);
    } else {
      assert (fs + [f])[1..] == fs[1..] + [f];
      WriteAllAppends(fs[1..], f);
    }
  }
}
