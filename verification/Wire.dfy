/**
 The wire format of messages: header, annotation chunks, keyed digest (src/Pyro4/message.py), and messages sent
 one after another over a socket. `mac` stands for the keyed digest function.
 */
module Wire {
  import opened Common
  import opened Transport

  const PROTOCOL_VERSION := 48
  const CHECKSUM_MAGIC := 0x34E9
  const HEADER_SIZE := 24
  const MAX_DATA_SIZE := 0x7fff_ffff
  const TAG: Bytes := [0x50, 0x59, 0x52, 0x4F]  // "PYRO"
  const HMAC := "HMAC"

  datatype Chunk = Chunk(key: string, value: Bytes)

  /** A dictionary in insertion order, no key twice. */
  type Annotations = seq<Chunk>

  datatype Message = Message(
    msgType: int, flags: int, seqNo: int, serializerId: int, annotations: Annotations, data: Bytes)

  datatype Header = Header(msgType: int, flags: int, seqNo: int, dataSize: int, serializerId: int, annotationsSize: int)

  datatype WireError =
    | TooLarge | BadSize | FieldOutOfRange | BadKey             // building and packing
    | BadHeader | WrongType | BadChunk                          // parsing
    | HmacMismatch | HmacAsymmetric
    | Socket(error: Transport.Error)

  /** How a receiver is set up: the message types it accepts (none: all), its key (empty: none), the size limit
      (not positive: none), and whether the socket has MSG_WAITALL. */
  datatype Receiver = Receiver(types: set<int>, key: Bytes, maxSize: int, waitAll: bool)

  // ------------------------------------------------------------ dictionaries

  ghost predicate DistinctKeys(d: Annotations) {
    forall i, j :: 0 <= i < j < |d| ==> d[i].key != d[j].key
  }

  function Put(d: Annotations, k: string, v: Bytes): Annotations {
    if d == [] then [Chunk(k, v)]
    else if d[0].key == k then [Chunk(k, v)] + d[1..]
    else [d[0]] + Put(d[1..], k, v)
  }

  function Lookup(d: Annotations, k: string): Option<Bytes> {
    if d == [] then None else if d[0].key == k then Some(d[0].value) else Lookup(d[1..], k)
  }

  /** Total size of all chunks. */
  function ChunksSize(d: Annotations): nat {
    if d == [] then 0 else 6 + |d[0].value| + ChunksSize(d[1..])
  }

  // ------------------------------------------------------------- the digest

  /** The order of Python strings. */
  predicate Less(a: string, b: string) {
    b != [] && (a == [] || a[0] < b[0] || (a[0] == b[0] && Less(a[1..], b[1..])))
  }

  function Insert(c: Chunk, d: Annotations): Annotations {
    if d == [] then [c]
    else if Less(c.key, d[0].key) then [c] + d
    else [d[0]] + Insert(c, d[1..])
  }

  function Sorted(d: Annotations): Annotations {
    if d == [] then [] else Insert(d[0], Sorted(d[1..]))
  }

  function DigestValues(d: Annotations): Bytes {
    if d == [] then [] else (if d[0].key == HMAC then [] else d[0].value) + DigestValues(d[1..])
  }

  /** What the digest is taken of: the data, then the chunk values in the order of their keys. */
  function DigestInput(d: Annotations, data: Bytes): Bytes {
    data + DigestValues(Sorted(d))
  }

  // ----------------------------------------------------------------- packing

  /** Big-endian fields of `struct`: H, and i. */
  function U16(n: int): (b: Bytes)
    requires 0 <= n < 0x1_0000
    ensures |b| == 2 && ReadU16(b) == n
  {
    [n / 256, n % 256]
  }

  function ReadU16(b: Bytes): (n: int)
    requires |b| == 2
    ensures 0 <= n < 0x1_0000
  {
    (b[0] as int) * 256 + b[1]
  }

  function I32(n: int): (b: Bytes)
    requires -0x8000_0000 <= n < 0x8000_0000
    ensures |b| == 4 && ReadI32(b) == n
  {
    var u := n % 0x1_0000_0000;
    U16(u / 0x1_0000) + U16(u % 0x1_0000)
  }

  function ReadI32(b: Bytes): (n: int)
    requires |b| == 4
    ensures -0x8000_0000 <= n < 0x8000_0000
  {
    var u := ReadU16(b[..2]) * 0x1_0000 + ReadU16(b[2..]);
    if u < 0x8000_0000 then u else u - 0x1_0000_0000
  }

  predicate IsU16(n: int) { 0 <= n < 0x1_0000 }

  predicate IsAscii(k: string) {
    forall i :: 0 <= i < |k| ==> k[i] as int < 128
  }

  predicate AllAscii(b: Bytes) {
    forall i :: 0 <= i < |b| ==> b[i] < 128
  }

  function Encode(k: string): (b: Bytes)
    requires IsAscii(k)
    ensures |b| == |k| && AllAscii(b) && Decode(b) == k
  {
    seq(|k|, i requires 0 <= i < |k| => k[i] as int)
  }

  function Decode(b: Bytes): string
    requires AllAscii(b)
  {
    seq(|b|, i requires 0 <= i < |b| => b[i] as char)
  }

  function Checksum(h: Header): int {
    (h.msgType + PROTOCOL_VERSION + h.dataSize + h.annotationsSize + h.serializerId + h.flags + h.seqNo + CHECKSUM_MAGIC) % 0x1_0000
  }

  function HeaderOf(m: Message): Header {
    Header(m.msgType, m.flags, m.seqNo, |m.data|, m.serializerId, ChunksSize(m.annotations))
  }

  function HeaderBytes(h: Header): Result<Bytes, WireError> {
    if !(0 <= h.dataSize <= MAX_DATA_SIZE) then Err(BadSize)
    else if !(IsU16(h.msgType) && IsU16(h.flags) && IsU16(h.seqNo) && IsU16(h.serializerId) && IsU16(h.annotationsSize))
    then Err(FieldOutOfRange)
    else Ok(TAG + U16(PROTOCOL_VERSION) + U16(h.msgType) + U16(h.flags) + U16(h.seqNo) + I32(h.dataSize)
            + U16(h.serializerId) + U16(h.annotationsSize) + U16(0) + U16(Checksum(h)))
  }

  function AnnotationsBytes(d: Annotations): Result<Bytes, WireError> {
    if d == [] then Ok([])
    else if |d[0].key| != 4 || !IsAscii(d[0].key) then Err(BadKey)
    else if !IsU16(|d[0].value|) then Err(FieldOutOfRange)
    else match AnnotationsBytes(d[1..])
         case Err(e) => Err(e)
         case Ok(rest) => Ok(Encode(d[0].key) + U16(|d[0].value|) + d[0].value + rest)
  }

  function ToBytes(m: Message): Result<Bytes, WireError> {
    match HeaderBytes(HeaderOf(m))
    case Err(e) => Err(e)
    case Ok(header) =>
      match AnnotationsBytes(m.annotations)
      case Err(e) => Err(e)
      case Ok(chunks) => Ok(header + chunks + m.data)
  }

  /** `Message.__init__`. */
  function Build(m: Message, key: Bytes, mac: (Bytes, Bytes) -> Bytes, maxSize: int): Result<Message, WireError> {
    var anns := if key == [] then m.annotations
                else Put(m.annotations, HMAC, mac(key, DigestInput(m.annotations, m.data)));
    if 0 < maxSize < |m.data| + ChunksSize(anns) then Err(TooLarge)
    else Ok(m.(annotations := anns))
  }

  // ----------------------------------------------------------------- parsing

  function FromHeader(b: Bytes): Result<Header, WireError> {
    if |b| != HEADER_SIZE then Err(BadHeader)
    else
      var h := Header(ReadU16(b[6..8]), ReadU16(b[8..10]), ReadU16(b[10..12]), ReadI32(b[12..16]), ReadU16(b[16..18]), ReadU16(b[18..20]));
      if b[..4] != TAG || ReadU16(b[4..6]) != PROTOCOL_VERSION then Err(BadHeader)
      else if ReadU16(b[22..24]) != Checksum(h) then Err(BadHeader)
      else Ok(h)
  }

  /** The chunks from position `i` on. A chunk that claims to be longer than what is left is cut short. */
  function ParseChunks(b: Bytes, i: nat, d: Annotations): Result<Annotations, WireError>
    decreases |b| - i
  {
    if i >= |b| then Ok(d)
    else if i + 6 > |b| || !AllAscii(b[i..i + 4]) then Err(BadChunk)
    else
      var n := ReadU16(b[i + 4..i + 6]);
      ParseChunks(b, i + 6 + n, Put(d, Decode(b[i..i + 4]), b[i + 6..Min(i + 6 + n, |b|)]))
  }

  /** The test for the HMAC chunk at the end of `recv`. */
  function Verify(m: Message, key: Bytes, mac: (Bytes, Bytes) -> Bytes): Result<Message, WireError> {
    var digest := Lookup(m.annotations, HMAC);
    if digest.Some? && key != [] then
      if digest.value != mac(key, DigestInput(m.annotations, m.data)) then Err(HmacMismatch) else Ok(m)
    else if digest.Some? != (key != []) then Err(HmacAsymmetric)
    else Ok(m)
  }

  function Take(b: Bytes, n: int, waitAll: bool): Result<Bytes, WireError> {
    if n < 0 then Err(Socket(if waitAll then NegativeSize else NotEnoughData([])))
    else if n > |b| then Err(Socket(NotEnoughData(b)))
    else Ok(b[..n])
  }

  /** What `recv` makes of a byte stream, and what it leaves of it. */
  function Parse(b: Bytes, c: Receiver, mac: (Bytes, Bytes) -> Bytes): Result<(Message, Bytes), WireError> {
    match Take(b, HEADER_SIZE, c.waitAll)
    case Err(e) => Err(e)
    case Ok(first) =>
      match FromHeader(first)
      case Err(e) => Err(e)
      case Ok(h) =>
        if 0 < c.maxSize < h.dataSize + h.annotationsSize then Err(TooLarge)
        else if c.types != {} && h.msgType !in c.types then Err(WrongType)
        else ParseBody(h, b[HEADER_SIZE..], c, mac)
  }

  function ParseBody(h: Header, b: Bytes, c: Receiver, mac: (Bytes, Bytes) -> Bytes): Result<(Message, Bytes), WireError> {
    if h.annotationsSize == 0 then ParseData(h, [], b, c, mac)
    else
      match Take(b, h.annotationsSize, c.waitAll)
      case Err(e) => Err(e)
      case Ok(chunks) =>
        match ParseChunks(chunks, 0, [])
        case Err(e) => Err(e)
        case Ok(anns) => ParseData(h, anns, b[h.annotationsSize..], c, mac)
  }

  function ParseData(h: Header, anns: Annotations, b: Bytes, c: Receiver, mac: (Bytes, Bytes) -> Bytes): Result<(Message, Bytes), WireError> {
    match Take(b, h.dataSize, c.waitAll)
    case Err(e) => Err(e)
    case Ok(data) =>
      match Verify(Message(h.msgType, h.flags, h.seqNo, h.serializerId, anns, data), c.key, mac)
      case Err(e) => Err(e)
      case Ok(m) => Ok((m, b[h.dataSize..]))
  }

  // --------------------------------------------------------- the code: recv

  method ReadAnnotations(b: Bytes) returns (r: Result<Annotations, WireError>)
    ensures r == ParseChunks(b, 0, [])
    ensures r.Err? ==> r.error.BadChunk?
  {
    var d: Annotations := [];
    var i := 0;
    while i < |b|
      invariant ParseChunks(b, i, d) == ParseChunks(b, 0, [])
      decreases |b| - i
    {
      if i + 6 > |b| || !AllAscii(b[i..i + 4]) {
        return Err(BadChunk);
      }
      var length := ReadU16(b[i + 4..i + 6]);
      d := Put(d, Decode(b[i..i + 4]), b[i + 6..Min(i + 6 + length, |b|)]);
      i := i + 6 + length;
    }
    return Ok(d);
  }

  /** `SocketConnection.recv`: `Take` from the stream, unless the socket fails. */
  method ConnectionRecv(sock: Transport.Socket, n: int, waitAll: bool) returns (r: Result<Bytes, WireError>)
    modifies sock`incoming, sock`schedule
    ensures IsSuffix(sock.incoming, old(sock.incoming))
    ensures r.Ok? ==> Take(old(sock.incoming), n, waitAll) == r && n <= |old(sock.incoming)| && sock.incoming == old(sock.incoming)[n..]
    ensures r.Err? ==> r.error.Socket?
    ensures Smooth(old(sock.schedule)) && Supply(old(sock.schedule)) > |old(sock.incoming)| + 1 ==>
              && Take(old(sock.incoming), n, waitAll) == r
              && (r.Ok? ==> Smooth(sock.schedule) && Supply(sock.schedule) >= Supply(old(sock.schedule)) - n - 1)
  {
    var data, got := ReceiveData(sock, n, waitAll);
    assert old(sock.incoming)[..|got|] == got && old(sock.incoming)[|got|..] == sock.incoming;
    match data {
      case Ok(b) => r := Ok(b);
      case Err(e) => r := Err(Socket(e));
    }
  }

  ghost predicate IsSuffix(rest: Bytes, b: Bytes) {
    |rest| <= |b| && rest == b[|b| - |rest|..]
  }

  /** The part of `recv` after the header. */
  method RecvBody(sock: Transport.Socket, h: Header, c: Receiver, mac: (Bytes, Bytes) -> Bytes) returns (r: Result<Message, WireError>)
    modifies sock`incoming, sock`schedule
    ensures r != Err(TooLarge) && IsSuffix(sock.incoming, old(sock.incoming))
    ensures r.Ok? ==> r.value.msgType == h.msgType && |r.value.data| == h.dataSize
    ensures r.Ok? && c.key == [] ==> Lookup(r.value.annotations, HMAC) == None
    ensures r.Ok? && c.key != [] ==>
              Lookup(r.value.annotations, HMAC) == Some(mac(c.key, DigestInput(r.value.annotations, r.value.data)))
    ensures r.Ok? ==> ParseBody(h, old(sock.incoming), c, mac) == Ok((r.value, sock.incoming))
    ensures r.Err? && !r.error.Socket? ==> ParseBody(h, old(sock.incoming), c, mac) == Err(r.error)
    ensures Smooth(old(sock.schedule)) && Supply(old(sock.schedule)) > |old(sock.incoming)| + 2 ==>
              && (r.Err? ==> ParseBody(h, old(sock.incoming), c, mac) == Err(r.error))
              && (r.Ok? ==> Smooth(sock.schedule)
                            && Supply(sock.schedule) >= Supply(old(sock.schedule)) - (|old(sock.incoming)| - |sock.incoming|) - 2)
  {
    var anns: Annotations := [];
    if h.annotationsSize != 0 {
      var chunks := ConnectionRecv(sock, h.annotationsSize, c.waitAll);
      if chunks.Err? { return Err(chunks.error); }
      var parsed := ReadAnnotations(chunks.value);
      if parsed.Err? { return Err(parsed.error); }
      anns := parsed.value;
    }
    var data := ConnectionRecv(sock, h.dataSize, c.waitAll);
    if data.Err? { return Err(data.error); }
    r := Verify(Message(h.msgType, h.flags, h.seqNo, h.serializerId, anns, data.value), c.key, mac);
  }

  /** `Message.recv`. Whatever the socket does, a message is only returned if it is the first one of the stream,
      and then exactly its bytes are consumed; if the socket only makes progress or asks to retry, the outcome is
      the one of the stream. */
  method Recv(sock: Transport.Socket, c: Receiver, mac: (Bytes, Bytes) -> Bytes) returns (r: Result<Message, WireError>)
    modifies sock`incoming, sock`schedule, sock`open
    ensures sock.open == (old(sock.open) && r != Err(TooLarge))
    ensures r.Ok? ==> (c.types == {} || r.value.msgType in c.types) && (0 < c.maxSize ==> |r.value.data| <= c.maxSize)
    ensures r.Ok? && c.key == [] ==> Lookup(r.value.annotations, HMAC) == None
    ensures r.Ok? && c.key != [] ==>
              Lookup(r.value.annotations, HMAC) == Some(mac(c.key, DigestInput(r.value.annotations, r.value.data)))
    ensures IsSuffix(sock.incoming, old(sock.incoming))
    ensures r.Ok? ==> Parse(old(sock.incoming), c, mac) == Ok((r.value, sock.incoming))
    ensures r.Err? && !r.error.Socket? ==> Parse(old(sock.incoming), c, mac) == Err(r.error)
    ensures Smooth(old(sock.schedule)) && Supply(old(sock.schedule)) > |old(sock.incoming)| + 3 ==>
              && (r.Err? ==> Parse(old(sock.incoming), c, mac) == Err(r.error))
              && (r.Ok? ==> Smooth(sock.schedule)
                            && Supply(sock.schedule) >= Supply(old(sock.schedule)) - (|old(sock.incoming)| - |sock.incoming|) - 3)
  {
    var first := ConnectionRecv(sock, HEADER_SIZE, c.waitAll);
    if first.Err? { return Err(first.error); }
    var header := FromHeader(first.value);
    if header.Err? { return Err(header.error); }
    var h := header.value;
    if 0 < c.maxSize < h.dataSize + h.annotationsSize {
      sock.Close();
      return Err(TooLarge);
    }
    if c.types != {} && h.msgType !in c.types { return Err(WrongType); }
    r := RecvBody(sock, h, c, mac);
  }

  // -------------------------------------------------------------- round trips

  /** A piece of a sequence stays where it is when more is appended. */
  lemma PieceStays(a: Bytes, more: Bytes, i: nat, j: nat)
    requires i <= j <= |a|
    ensures (a + more)[i..j] == a[i..j]
  {}

  lemma FirstFields(tag: Bytes, f4: Bytes, f6: Bytes, f8: Bytes, f10: Bytes)
    requires |tag| == 4 && |f4| == |f6| == |f8| == |f10| == 2
    ensures var b := tag + f4 + f6 + f8 + f10;
            |b| == 12 && b[..4] == tag && b[4..6] == f4 && b[6..8] == f6 && b[8..10] == f8 && b[10..12] == f10
  {
    var b6 := tag + f4;
    assert b6[..4] == tag && b6[4..6] == f4;
    var b8 := b6 + f6;
    assert b8[6..8] == f6;
    PieceStays(b6, f6, 0, 4);
    PieceStays(b6, f6, 4, 6);
    var b10 := b8 + f8;
    assert b10[8..10] == f8;
    PieceStays(b8, f8, 0, 4);
    PieceStays(b8, f8, 4, 6);
    PieceStays(b8, f8, 6, 8);
    PieceStays(b10, f10, 0, 4);
    PieceStays(b10, f10, 4, 6);
    PieceStays(b10, f10, 6, 8);
    PieceStays(b10, f10, 8, 10);
  }

  lemma LastFields(a: Bytes, f12: Bytes, f16: Bytes, f18: Bytes, f20: Bytes, f22: Bytes)
    requires |a| == 12 && |f12| == 4 && |f16| == |f18| == |f20| == |f22| == 2
    ensures var b := a + f12 + f16 + f18 + f20 + f22;
            |b| == 24 && b[..12] == a && b[12..16] == f12 && b[16..18] == f16 && b[18..20] == f18 && b[22..24] == f22
  {
    var b16 := a + f12;
    assert b16[..12] == a && b16[12..16] == f12;
    var b18 := b16 + f16;
    assert b18[16..18] == f16;
    PieceStays(b16, f16, 0, 12);
    PieceStays(b16, f16, 12, 16);
    var b20 := b18 + f18;
    assert b20[18..20] == f18;
    PieceStays(b18, f18, 0, 12);
    PieceStays(b18, f18, 12, 16);
    PieceStays(b18, f18, 16, 18);
    var b := b20 + (f20 + f22);
    assert b == b20 + f20 + f22;
    PieceStays(b20, f20 + f22, 0, 12);
    PieceStays(b20, f20 + f22, 12, 16);
    PieceStays(b20, f20 + f22, 16, 18);
    PieceStays(b20, f20 + f22, 18, 20);
  }

  /** Every header that can be packed is parsed back, checksum and all. */
  lemma HeaderRoundTrip(h: Header)
    requires HeaderBytes(h).Ok?
    ensures |HeaderBytes(h).value| == HEADER_SIZE && FromHeader(HeaderBytes(h).value) == Ok(h)
  {
    var b := HeaderBytes(h).value;
    var a := TAG + U16(PROTOCOL_VERSION) + U16(h.msgType) + U16(h.flags) + U16(h.seqNo);
    FirstFields(TAG, U16(PROTOCOL_VERSION), U16(h.msgType), U16(h.flags), U16(h.seqNo));
    LastFields(a, I32(h.dataSize), U16(h.serializerId), U16(h.annotationsSize), U16(0), U16(Checksum(h)));
    assert b == a + I32(h.dataSize) + U16(h.serializerId) + U16(h.annotationsSize) + U16(0) + U16(Checksum(h));
    hide HeaderBytes, U16, I32, ReadU16, ReadI32;
    PieceOfPiece(b, 12, 0, 4);
    PieceOfPiece(b, 12, 4, 6);
    PieceOfPiece(b, 12, 6, 8);
    PieceOfPiece(b, 12, 8, 10);
    PieceOfPiece(b, 12, 10, 12);
  }

  lemma PieceOfPiece(b: Bytes, n: nat, i: nat, j: nat)
    requires i <= j <= n <= |b|
    ensures b[..n][i..j] == b[i..j]
  {}

  /** Two bytes, the high one first. */
  function Pair(high: byte, low: byte): int { (high as int) * 256 + low }

  /** Where everything stands in a header, byte by byte. */
  lemma HeaderLayout(h: Header)
    requires HeaderBytes(h).Ok?
    ensures var b := HeaderBytes(h).value;
            && |b| == 24 && b[..4] == [0x50, 0x59, 0x52, 0x4F]
            && Pair(b[4], b[5]) == 48 && Pair(b[6], b[7]) == h.msgType && Pair(b[8], b[9]) == h.flags
            && Pair(b[10], b[11]) == h.seqNo
            && Pair(b[12], b[13]) * 0x1_0000 + Pair(b[14], b[15]) == h.dataSize
            && Pair(b[16], b[17]) == h.serializerId && Pair(b[18], b[19]) == h.annotationsSize
            && b[20] == b[21] == 0
            && Pair(b[22], b[23]) ==
               (h.msgType + h.flags + h.seqNo + h.dataSize + h.serializerId + h.annotationsSize + 48 + 0x34E9) % 0x1_0000
  {
    var b := HeaderBytes(h).value;
    var u, v, w, x := U16(PROTOCOL_VERSION), U16(h.msgType), U16(h.flags), U16(h.seqNo);
    var a := TAG + u + v + w + x;
    FirstFields(TAG, u, v, w, x);
    LastFields(a, I32(h.dataSize), U16(h.serializerId), U16(h.annotationsSize), U16(0), U16(Checksum(h)));
    ReservedField(a, I32(h.dataSize), U16(h.serializerId), U16(h.annotationsSize), U16(0), U16(Checksum(h)));
    assert b == a + I32(h.dataSize) + U16(h.serializerId) + U16(h.annotationsSize) + U16(0) + U16(Checksum(h));
    hide HeaderBytes, U16, I32, Checksum;
    PieceOfPiece(b, 12, 0, 4);
    PieceOfPiece(b, 12, 4, 6);
    PieceOfPiece(b, 12, 6, 8);
    PieceOfPiece(b, 12, 8, 10);
    PieceOfPiece(b, 12, 10, 12);
    PairAt(b, 4, PROTOCOL_VERSION);
    PairAt(b, 6, h.msgType);
    PairAt(b, 8, h.flags);
    PairAt(b, 10, h.seqNo);
    WordAt(b, 12, h.dataSize);
    PairAt(b, 16, h.serializerId);
    PairAt(b, 18, h.annotationsSize);
    PairAt(b, 20, 0);
    PairAt(b, 22, Checksum(h));
    assert Checksum(h) == (h.msgType + h.flags + h.seqNo + h.dataSize + h.serializerId + h.annotationsSize + 48 + 0x34E9) % 0x1_0000 by {
      ChecksumIs(h);
    }
  }

  lemma ChecksumIs(h: Header)
    ensures Checksum(h) == (h.msgType + h.flags + h.seqNo + h.dataSize + h.serializerId + h.annotationsSize + 48 + 0x34E9) % 0x1_0000
  {}

  lemma PairAt(b: Bytes, i: nat, n: int)
    requires i + 2 <= |b| && 0 <= n < 0x1_0000 && b[i..i + 2] == U16(n)
    ensures Pair(b[i], b[i + 1]) == n
    ensures n == 0 ==> b[i] == b[i + 1] == 0
  {
    BytesAt(b, i, U16(n));
  }

  lemma ReservedField(a: Bytes, f12: Bytes, f16: Bytes, f18: Bytes, f20: Bytes, f22: Bytes)
    requires |a| == 12 && |f12| == 4 && |f16| == |f18| == |f20| == |f22| == 2
    ensures (a + f12 + f16 + f18 + f20 + f22)[20..22] == f20
  {}

  lemma BytesAt(b: Bytes, i: nat, field: Bytes)
    requires i + |field| <= |b| && b[i..i + |field|] == field
    ensures forall k :: 0 <= k < |field| ==> b[i + k] == field[k]
  {
    forall k | 0 <= k < |field| ensures b[i + k] == field[k] {
      assert b[i..i + |field|][k] == b[i + k];
    }
  }

  lemma WordAt(b: Bytes, i: nat, n: int)
    requires i + 4 <= |b| && 0 <= n < 0x8000_0000 && b[i..i + 4] == I32(n)
    ensures Pair(b[i], b[i + 1]) * 0x1_0000 + Pair(b[i + 2], b[i + 3]) == n
  {
    BytesAt(b, i, I32(n));
    assert n % 0x1_0000_0000 == n;
  }

  /** And in the chunks. */
  lemma ChunkLayout(d: Annotations)
    requires d != [] && AnnotationsBytes(d).Ok?
    ensures var b, v := AnnotationsBytes(d).value, d[0].value;
            && |d[0].key| == 4 && |b| >= 6 + |v| && (forall i :: 0 <= i < 4 ==> b[i] == d[0].key[i] as int)
            && Pair(b[4], b[5]) == |v| && b[6..6 + |v|] == v
            && AnnotationsBytes(d[1..]) == Ok(b[6 + |v|..])
  {
    var v, rest := d[0].value, AnnotationsBytes(d[1..]).value;
    var k, n := Encode(d[0].key), U16(|v|);
    var b := k + n + v + rest;
    assert b[6..6 + |v|] == v && b[6 + |v|..] == rest;
    assert forall i :: 0 <= i < 4 ==> b[i] == k[i];
    assert b[4] == n[0] && b[5] == n[1];
  }

  lemma OtherSum(a: int, x: int, y: int)
    requires 0 <= x < 0x1_0000 && 0 <= y < 0x1_0000 && x != y
    ensures (a + x) % 0x1_0000 != (a + y) % 0x1_0000
  {}

  lemma SameFields(b: Bytes, b': Bytes, k: nat, i: nat)
    requires |b| == |b'| && i + 2 <= |b| && (i + 1 < k || k + 1 < i || i == k)
    requires forall j :: 0 <= j < |b| && j != k && j != k + 1 ==> b'[j] == b[j]
    ensures i != k ==> b'[i..i + 2] == b[i..i + 2]
  {}

  /** Damage that is confined to one 16-bit field of a header is always noticed. */
  lemma DamageIsNoticed(b: Bytes, b': Bytes, k: nat)
    requires FromHeader(b).Ok? && |b'| == HEADER_SIZE && k in {4, 6, 8, 10, 16, 18, 22}
    requires forall i :: 0 <= i < HEADER_SIZE && i != k && i != k + 1 ==> b'[i] == b[i]
    requires b'[k..k + 2] != b[k..k + 2]
    ensures FromHeader(b') == Err(BadHeader)
  {
    U16Injective(b[k..k + 2]);
    U16Injective(b'[k..k + 2]);
    var x, y := ReadU16(b[k..k + 2]), ReadU16(b'[k..k + 2]);
    SameFields(b, b', k, 4);
    SameFields(b, b', k, 6);
    SameFields(b, b', k, 8);
    SameFields(b, b', k, 10);
    SameFields(b, b', k, 16);
    SameFields(b, b', k, 18);
    SameFields(b, b', k, 22);
    assert b'[12..16] == b[12..16];
    hide ReadU16, ReadI32;
    var sum := ReadU16(b[6..8]) + PROTOCOL_VERSION + ReadI32(b[12..16]) + ReadU16(b[18..20]) + ReadU16(b[16..18])
               + ReadU16(b[8..10]) + ReadU16(b[10..12]) + CHECKSUM_MAGIC;
    if k != 4 && k != 22 { OtherSum(sum - x, x, y); }
  }

  lemma U16Injective(b: Bytes)
    requires |b| == 2
    ensures U16(ReadU16(b)) == b
  {
  }

  lemma I32Injective(b: Bytes)
    requires |b| == 4
    ensures I32(ReadI32(b)) == b
  {
    var high, low := ReadU16(b[..2]), ReadU16(b[2..]);
    U16Injective(b[..2]);
    U16Injective(b[2..]);
    UnsignedOf(high, low);
    assert b == b[..2] + b[2..];
    hide U16, ReadU16;
  }

  lemma UnsignedOf(high: int, low: int)
    requires 0 <= high < 0x1_0000 && 0 <= low < 0x1_0000
    ensures var u := high * 0x1_0000 + low;
            var n := if u < 0x8000_0000 then u else u - 0x1_0000_0000;
            n % 0x1_0000_0000 == u && u / 0x1_0000 == high && u % 0x1_0000 == low
  {}

  /** And every header that is accepted with a size that is not negative packs to itself, but for the reserved
      field. */
  lemma AcceptedHeaderPacks(b: Bytes)
    requires FromHeader(b).Ok? && FromHeader(b).value.dataSize >= 0
    ensures HeaderBytes(FromHeader(b).value) == Ok(b[..20] + U16(0) + b[22..])
  {
    var h := FromHeader(b).value;
    U16Injective(b[4..6]);
    U16Injective(b[6..8]);
    U16Injective(b[8..10]);
    U16Injective(b[10..12]);
    I32Injective(b[12..16]);
    U16Injective(b[16..18]);
    U16Injective(b[18..20]);
    U16Injective(b[22..24]);
    assert b[22..24] == b[22..];
    assert HeaderBytes(h) == Ok(b[..4] + b[4..6] + b[6..8] + b[8..10] + b[10..12] + b[12..16] + b[16..18] + b[18..20] + U16(0) + b[22..24]);
    assert b[..4] + b[4..6] + b[6..8] + b[8..10] + b[10..12] + b[12..16] + b[16..18] + b[18..20] == b[..20];
  }

  lemma {:induction false} PutNew(d: Annotations, k: string, v: Bytes)
    requires forall i :: 0 <= i < |d| ==> d[i].key != k
    ensures Put(d, k, v) == d + [Chunk(k, v)]
  {
    if d != [] {
      PutNew(d[1..], k, v);
      assert [d[0]] + (d[1..] + [Chunk(k, v)]) == d + [Chunk(k, v)];
    }
  }

  lemma {:induction false} PutKeeps(d: Annotations, k: string, v: Bytes)
    requires DistinctKeys(d)
    ensures DistinctKeys(Put(d, k, v)) && Lookup(Put(d, k, v), k) == Some(v)
    ensures forall c :: c in Put(d, k, v) ==> c == Chunk(k, v) || (c in d && c.key != k)
    ensures forall c :: c in d && c.key != k ==> c in Put(d, k, v)
  {
    if d != [] && d[0].key != k {
      PutKeeps(d[1..], k, v);
      var p := Put(d[1..], k, v);
      forall i | 0 <= i < |p| ensures p[i].key != d[0].key {
        assert p[i] in p;
      }
      forall c | c in d && c.key != k ensures c in [d[0]] + p {
        assert c == d[0] || c in d[1..];
      }
    }
  }

  /** Storing a value changes what is found under its key, and nothing else. */
  lemma {:induction false} LookupAfterPut(d: Annotations, k: string, v: Bytes, k': string)
    ensures Lookup(Put(d, k, v), k') == if k' == k then Some(v) else Lookup(d, k')
  {
    if d != [] && d[0].key != k {
      LookupAfterPut(d[1..], k, v, k');
      assert ([d[0]] + Put(d[1..], k, v))[1..] == Put(d[1..], k, v);
    } else if d != [] {
      assert ([Chunk(k, v)] + d[1..])[1..] == d[1..];
    }
  }

  lemma {:induction false} PackedSize(d: Annotations)
    requires AnnotationsBytes(d).Ok?
    ensures |AnnotationsBytes(d).value| == ChunksSize(d)
  {
    if d != [] {
      PackedSize(d[1..]);
    }
  }

  /** Parsing chunks after those already parsed. */
  lemma ChunkPieces(before: Bytes, key: Bytes, size: Bytes, value: Bytes, rest: Bytes)
    requires |key| == 4 && |size| == 2
    ensures var b, i := before + (key + size + value) + rest, |before|;
            b[i..i + 4] == key && b[i + 4..i + 6] == size && b[i + 6..i + 6 + |value|] == value
  {
    var head := key + size + value;
    var b, i := before + head + rest, |before|;
    assert b[i..i + |head|] == head;
    assert head[..4] == key && head[4..6] == size && head[6..] == value;
    assert b[i..i + 4] == head[..4] && b[i + 4..i + 6] == head[4..6] && b[i + 6..i + |head|] == head[6..];
  }

  lemma {:induction false} ChunksRoundTripFrom(before: Bytes, done: Annotations, d: Annotations)
    requires AnnotationsBytes(d).Ok? && DistinctKeys(done + d)
    ensures ParseChunks(before + AnnotationsBytes(d).value, |before|, done) == Ok(done + d)
    decreases |d|
  {
    var b := before + AnnotationsBytes(d).value;
    if d == [] {
      assert done + d == done;
    } else {
      var c, i := d[0], |before|;
      var head := Encode(c.key) + U16(|c.value|) + c.value;
      var rest := AnnotationsBytes(d[1..]).value;
      assert b == before + head + rest;
      ChunkPieces(before, Encode(c.key), U16(|c.value|), c.value, rest);
      forall j | 0 <= j < |done| ensures done[j].key != c.key {
        assert (done + d)[j].key != (done + d)[|done|].key;
      }
      PutNew(done, c.key, c.value);
      assert done + d == done + [c] + d[1..];
      ChunksRoundTripFrom(before + head, done + [c], d[1..]);
    }
  }

  lemma ChunksRoundTrip(d: Annotations)
    requires AnnotationsBytes(d).Ok? && DistinctKeys(d)
    ensures ParseChunks(AnnotationsBytes(d).value, 0, []) == Ok(d)
  {
    assert [] + d == d;
    assert [] + AnnotationsBytes(d).value == AnnotationsBytes(d).value;
    ChunksRoundTripFrom([], [], d);
  }

  predicate WellFormed(m: Message) {
    && IsU16(m.msgType) && IsU16(m.flags) && IsU16(m.seqNo) && IsU16(m.serializerId)
    && |m.data| <= MAX_DATA_SIZE
    && ChunksSize(m.annotations) < 0x1_0000
    && forall i :: 0 <= i < |m.annotations| ==> |m.annotations[i].key| == 4 && IsAscii(m.annotations[i].key)
  }

  lemma {:induction false} ChunksPack(d: Annotations)
    ensures AnnotationsBytes(d).Ok? <==>
              forall i :: 0 <= i < |d| ==> |d[i].key| == 4 && IsAscii(d[i].key) && IsU16(|d[i].value|)
    ensures forall i :: 0 <= i < |d| ==> |d[i].value| <= ChunksSize(d)
  {
    if d != [] {
      ChunksPack(d[1..]);
      assert forall i :: 0 < i < |d| ==> d[i] == d[1..][i - 1];
    }
  }

  /** Exactly the well-formed messages can be packed. */
  lemma WellFormedPacks(m: Message)
    ensures ToBytes(m).Ok? <==> WellFormed(m)
  {
    ChunksPack(m.annotations);
  }

  /** The receiver takes messages of this type and size. */
  predicate Admits(c: Receiver, m: Message) {
    && !(0 < c.maxSize < |m.data| + ChunksSize(m.annotations))
    && (c.types == {} || m.msgType in c.types)
  }

  ghost function Outcome(m: Message, rest: Bytes, key: Bytes, mac: (Bytes, Bytes) -> Bytes): Result<(Message, Bytes), WireError> {
    match Verify(m, key, mac) case Ok(_) => Ok((m, rest)) case Err(e) => Err(e)
  }

  lemma DataRoundTrip(m: Message, rest: Bytes, c: Receiver, mac: (Bytes, Bytes) -> Bytes)
    ensures ParseData(HeaderOf(m), m.annotations, m.data + rest, c, mac) == Outcome(m, rest, c.key, mac)
  {
    assert (m.data + rest)[..|m.data|] == m.data && (m.data + rest)[|m.data|..] == rest;
  }

  lemma BodyRoundTrip(m: Message, rest: Bytes, c: Receiver, mac: (Bytes, Bytes) -> Bytes)
    requires AnnotationsBytes(m.annotations).Ok? && DistinctKeys(m.annotations)
    ensures ParseBody(HeaderOf(m), AnnotationsBytes(m.annotations).value + (m.data + rest), c, mac) == Outcome(m, rest, c.key, mac)
  {
    var chunks := AnnotationsBytes(m.annotations).value;
    PackedSize(m.annotations);
    ChunksRoundTrip(m.annotations);
    DataRoundTrip(m, rest, c, mac);
    assert (chunks + (m.data + rest))[..|chunks|] == chunks && (chunks + (m.data + rest))[|chunks|..] == m.data + rest;
    if chunks == [] {
      assert m.annotations == [] && chunks + (m.data + rest) == m.data + rest;
    }
  }

  /** A message that can be packed is the first one parsed from any stream that starts with its bytes, provided
      its digest passes; otherwise the receiver gets the digest's error. */
  lemma MessageRoundTrip(m: Message, rest: Bytes, c: Receiver, mac: (Bytes, Bytes) -> Bytes)
    requires ToBytes(m).Ok? && DistinctKeys(m.annotations) && Admits(c, m)
    ensures Parse(ToBytes(m).value + rest, c, mac) ==
            match Verify(m, c.key, mac) case Ok(_) => Ok((m, rest)) case Err(e) => Err(e)
  {
    hide ParseBody;
    hide FromHeader;
    hide HeaderBytes;
    hide AnnotationsBytes;
    hide Verify;
    var h := HeaderOf(m);
    var header, body := HeaderBytes(h).value, AnnotationsBytes(m.annotations).value + (m.data + rest);
    HeaderRoundTrip(h);
    BodyRoundTrip(m, rest, c, mac);
    assert ToBytes(m).value + rest == header + body;
    assert (header + body)[..HEADER_SIZE] == header && (header + body)[HEADER_SIZE..] == body;
  }

  // ------------------------------------------------- the digest knows no order

  ghost predicate StrictlySorted(d: Annotations) {
    forall i, j :: 0 <= i < j < |d| ==> Less(d[i].key, d[j].key)
  }

  ghost predicate SameChunks(d: Annotations, e: Annotations) {
    forall c :: c in d <==> c in e
  }

  lemma {:induction false} LessIsStrictOrder(a: string, b: string, c: string)
    ensures !Less(a, a)
    ensures a == b || Less(a, b) || Less(b, a)
    ensures Less(a, b) && Less(b, c) ==> Less(a, c)
  {
    if a != [] && b != [] {
      LessIsStrictOrder(a[1..], b[1..], if c == [] then [] else c[1..]);
      if a[0] == b[0] && a[1..] == b[1..] {
        assert a == [a[0]] + a[1..] && b == [b[0]] + b[1..];
      }
    } else if a != [] {
      LessIsStrictOrder(a[1..], [], []);
    }
  }

  lemma {:induction false} InsertSorts(c: Chunk, d: Annotations)
    requires StrictlySorted(d) && forall i :: 0 <= i < |d| ==> d[i].key != c.key
    ensures StrictlySorted(Insert(c, d))
    ensures forall x :: x in Insert(c, d) <==> x == c || x in d
  {
    if d != [] {
      LessIsStrictOrder(c.key, d[0].key, []);
      if Less(c.key, d[0].key) {
        forall j | 0 <= j < |d| ensures Less(c.key, d[j].key) {
          LessIsStrictOrder(c.key, d[0].key, d[j].key);
        }
      } else {
        InsertSorts(c, d[1..]);
        var rest := Insert(c, d[1..]);
        forall j | 0 <= j < |rest| ensures Less(d[0].key, rest[j].key) {
          assert rest[j] in rest;
          if rest[j] != c {
            var k :| 0 <= k < |d[1..]| && d[1..][k] == rest[j];
            assert d[k + 1] == rest[j];
          }
        }
        assert forall x :: x in d <==> x == d[0] || x in d[1..];
      }
    }
  }

  lemma {:induction false} SortingSorts(d: Annotations)
    requires DistinctKeys(d)
    ensures StrictlySorted(Sorted(d)) && SameChunks(Sorted(d), d)
  {
    if d != [] {
      SortingSorts(d[1..]);
      forall i | 0 <= i < |Sorted(d[1..])| ensures Sorted(d[1..])[i].key != d[0].key {
        assert Sorted(d[1..])[i] in d[1..];
        var k :| 0 <= k < |d[1..]| && d[1..][k] == Sorted(d[1..])[i];
        assert d[k + 1].key != d[0].key;
      }
      InsertSorts(d[0], Sorted(d[1..]));
    }
  }

  lemma {:induction false} SortedIsUnique(d: Annotations, e: Annotations)
    requires StrictlySorted(d) && StrictlySorted(e) && SameChunks(d, e)
    ensures d == e
  {
    SomeChunk(e);
    if d != [] {
      assert d[0] in e && e[0] in d;
      var i :| 0 <= i < |e| && e[i] == d[0];
      var j :| 0 <= j < |d| && d[j] == e[0];
      LessIsStrictOrder(d[0].key, e[0].key, d[0].key);
      assert d[0] == e[0];
      forall c | c in d[1..] ensures c in e[1..] { InTail(c, d, e); }
      forall c | c in e[1..] ensures c in d[1..] { InTail(c, e, d); }
      SortedIsUnique(d[1..], e[1..]);
      assert d == [d[0]] + d[1..] && e == [e[0]] + e[1..];
    }
  }

  lemma SomeChunk(d: Annotations)
    ensures d != [] ==> exists c :: c in d
  {
    if d != [] {
      assert d[0] in d;
    }
  }

  lemma InTail(c: Chunk, d: Annotations, e: Annotations)
    requires StrictlySorted(d) && d != [] && c in d[1..] && e != [] && e[0] == d[0] && c in e
    ensures c in e[1..]
  {
    var k :| 0 <= k < |d[1..]| && d[1..][k] == c;
    assert Less(d[0].key, d[k + 1].key);
    LessIsStrictOrder(c.key, c.key, []);
    assert c != e[0];
  }

  function WithoutHmac(d: Annotations): Annotations {
    if d == [] then [] else (if d[0].key == HMAC then [] else [d[0]]) + WithoutHmac(d[1..])
  }

  lemma {:induction false} WithoutHmacFilters(d: Annotations)
    ensures DigestValues(WithoutHmac(d)) == DigestValues(d)
    ensures forall c :: c in WithoutHmac(d) <==> c in d && c.key != HMAC
  {
    if d != [] {
      WithoutHmacFilters(d[1..]);
      assert forall c :: c in d <==> c == d[0] || c in d[1..];
      if d[0].key != HMAC {
        assert ([d[0]] + WithoutHmac(d[1..]))[1..] == WithoutHmac(d[1..]);
      } else {
        assert [] + DigestValues(d[1..]) == DigestValues(d[1..]);
        assert WithoutHmac(d) == WithoutHmac(d[1..]);
      }
    }
  }

  lemma {:induction false} WithoutHmacKeepsOrder(d: Annotations)
    requires StrictlySorted(d)
    ensures StrictlySorted(WithoutHmac(d))
  {
    if d != [] {
      WithoutHmacKeepsOrder(d[1..]);
      WithoutHmacFilters(d[1..]);
      var rest := WithoutHmac(d[1..]);
      forall j | 0 <= j < |rest| ensures Less(d[0].key, rest[j].key) {
        assert rest[j] in d[1..];
        FirstIsLeast(d, rest[j]);
      }
      hide WithoutHmac, Less;
    }
  }

  lemma FirstIsLeast(d: Annotations, c: Chunk)
    requires StrictlySorted(d) && d != [] && c in d[1..]
    ensures Less(d[0].key, c.key)
  {
    var k :| 0 <= k < |d[1..]| && d[1..][k] == c;
    assert d[k + 1] == c;
  }

  /** The digest input depends on the data and on which chunks there are, the HMAC chunk aside, and not on the
      order in which they were put in, packed or parsed. */
  lemma DigestKnowsNoOrder(d: Annotations, e: Annotations, data: Bytes)
    requires DistinctKeys(d) && DistinctKeys(e)
    requires forall c: Chunk :: c.key != HMAC ==> (c in d <==> c in e)
    ensures DigestInput(d, data) == DigestInput(e, data)
  {
    SortingSorts(d);
    SortingSorts(e);
    WithoutHmacKeepsOrder(Sorted(d));
    WithoutHmacKeepsOrder(Sorted(e));
    WithoutHmacFilters(Sorted(d));
    WithoutHmacFilters(Sorted(e));
    SortedIsUnique(WithoutHmac(Sorted(d)), WithoutHmac(Sorted(e)));
  }

  // ------------------------------------------------------------ keyed messages

  lemma BuiltPassesItsKey(m: Message, key: Bytes, mac: (Bytes, Bytes) -> Bytes, maxSize: int)
    requires DistinctKeys(m.annotations) && Build(m, key, mac, maxSize).Ok?
    requires key == [] ==> Lookup(m.annotations, HMAC) == None
    ensures var built := Build(m, key, mac, maxSize).value;
            && DistinctKeys(built.annotations)
            && Verify(built, key, mac) == Ok(built)
            && (Lookup(built.annotations, HMAC).Some? <==> key != [])
            && built == m.(annotations := built.annotations)
  {
    if key != [] {
      var digest := mac(key, DigestInput(m.annotations, m.data));
      PutKeeps(m.annotations, HMAC, digest);
      DigestKnowsNoOrder(m.annotations, Put(m.annotations, HMAC, digest), m.data);
    }
  }

  /** A message is refused by its sender exactly when the limit is set and its data and chunks, the digest's included,
      exceed it; otherwise only the digest's chunk is added or replaced, and only with a key. */
  lemma BuildRespectsLimit(m: Message, key: Bytes, mac: (Bytes, Bytes) -> Bytes, maxSize: int)
    ensures var anns := if key == [] then m.annotations else Put(m.annotations, HMAC, mac(key, DigestInput(m.annotations, m.data)));
            && Build(m, key, mac, maxSize) ==
               (if maxSize > 0 && |m.data| + ChunksSize(anns) > maxSize then Err(TooLarge) else Ok(m.(annotations := anns)))
            && forall k :: k != HMAC ==> Lookup(anns, k) == Lookup(m.annotations, k)
  {
    if key != [] {
      forall k | k != HMAC ensures Lookup(Put(m.annotations, HMAC, mac(key, DigestInput(m.annotations, m.data))), k) == Lookup(m.annotations, k) {
        LookupAfterPut(m.annotations, HMAC, mac(key, DigestInput(m.annotations, m.data)), k);
      }
    }
  }

  /** A message built with a key, or built without one and without an HMAC chunk, is received unchanged by
      whoever has the same key. */
  lemma SameKeyReceives(m: Message, key: Bytes, mac: (Bytes, Bytes) -> Bytes, maxSize: int, c: Receiver, rest: Bytes)
    requires DistinctKeys(m.annotations) && Build(m, key, mac, maxSize).Ok?
    requires key == [] ==> Lookup(m.annotations, HMAC) == None
    requires ToBytes(Build(m, key, mac, maxSize).value).Ok? && Admits(c, Build(m, key, mac, maxSize).value) && c.key == key
    ensures var built := Build(m, key, mac, maxSize).value;
            Parse(ToBytes(built).value + rest, c, mac) == Ok((built, rest))
  {
    var built := Build(m, key, mac, maxSize).value;
    BuiltPassesItsKey(m, key, mac, maxSize);
    MessageRoundTrip(built, rest, c, mac);
  }

  /** Whoever has a key when the sender has none, or none when the sender has one, rejects every message. */
  lemma OneSidedKeyIsRejected(m: Message, key: Bytes, mac: (Bytes, Bytes) -> Bytes, maxSize: int, c: Receiver, rest: Bytes)
    requires DistinctKeys(m.annotations) && Build(m, key, mac, maxSize).Ok?
    requires key == [] ==> Lookup(m.annotations, HMAC) == None
    requires ToBytes(Build(m, key, mac, maxSize).value).Ok? && Admits(c, Build(m, key, mac, maxSize).value)
    requires (key == []) != (c.key == [])
    ensures Parse(ToBytes(Build(m, key, mac, maxSize).value).value + rest, c, mac) == Err(HmacAsymmetric)
  {
    BuiltPassesItsKey(m, key, mac, maxSize);
    MessageRoundTrip(Build(m, key, mac, maxSize).value, rest, c, mac);
  }

  /** A message whose digest chunk is not the keyed digest of its contents is refused by whoever has a key. */
  lemma WrongDigestIsRejected(m: Message, c: Receiver, mac: (Bytes, Bytes) -> Bytes, rest: Bytes)
    requires ToBytes(m).Ok? && DistinctKeys(m.annotations) && Admits(c, m) && c.key != []
    requires Lookup(m.annotations, HMAC).Some? && Lookup(m.annotations, HMAC).value != mac(c.key, DigestInput(m.annotations, m.data))
    ensures Parse(ToBytes(m).value + rest, c, mac) == Err(HmacMismatch)
  {
    hide ToBytes, Parse, DigestInput, Lookup;
    MessageRoundTrip(m, rest, c, mac);
  }

  /** In particular, a receiver whose key gives another digest refuses what was built with the sender's key. */
  lemma OtherKeyIsRejected(m: Message, key: Bytes, mac: (Bytes, Bytes) -> Bytes, maxSize: int, c: Receiver, rest: Bytes)
    requires DistinctKeys(m.annotations) && key != [] && c.key != []
    ensures var built := Build(m, key, mac, maxSize);
            && built.Ok? && ToBytes(built.value).Ok? && Admits(c, built.value)
            && mac(c.key, DigestInput(m.annotations, m.data)) != mac(key, DigestInput(m.annotations, m.data))
            ==> Parse(ToBytes(built.value).value + rest, c, mac) == Err(HmacMismatch)
  {
    PutKeeps(m.annotations, HMAC, mac(key, DigestInput(m.annotations, m.data)));
    DigestKnowsNoOrder(m.annotations, Put(m.annotations, HMAC, mac(key, DigestInput(m.annotations, m.data))), m.data);
    var built := Build(m, key, mac, maxSize);
    hide DigestInput, ToBytes, Parse;
    if built.Ok? && ToBytes(built.value).Ok? && Admits(c, built.value)
       && mac(c.key, DigestInput(m.annotations, m.data)) != mac(key, DigestInput(m.annotations, m.data))
    {
      WrongDigestIsRejected(built.value, c, mac, rest);
    }
  }

  /** A message of another type, or one that is too large, is refused before anything else of it is looked at. */
  lemma NotAdmittedIsRejected(m: Message, c: Receiver, mac: (Bytes, Bytes) -> Bytes, rest: Bytes)
    requires ToBytes(m).Ok? && !Admits(c, m)
    ensures Parse(ToBytes(m).value + rest, c, mac) ==
            Err(if 0 < c.maxSize < |m.data| + ChunksSize(m.annotations) then TooLarge else WrongType)
  {
    var h := HeaderOf(m);
    HeaderRoundTrip(h);
    var header := HeaderBytes(h).value;
    var body := AnnotationsBytes(m.annotations).value + m.data + rest;
    assert ToBytes(m).value + rest == header + body;
    assert (header + body)[..HEADER_SIZE] == header;
    hide HeaderBytes, FromHeader, AnnotationsBytes;
  }

  // ---------------------------------------------------- what the digest covers

  function Zeros(n: nat): Bytes { seq(n, _ => 0) }

  /** The chunks with their contents wiped. */
  function Blank(d: Annotations): Annotations {
    seq(|d|, i requires 0 <= i < |d| => Chunk(d[i].key, Zeros(|d[i].value|)))
  }

  /** Every chunk of `d` has one in `e` with the same key and length. */
  ghost predicate Covers(e: Annotations, d: Annotations) {
    forall c :: c in d ==> exists c' :: c' in e && c'.key == c.key && |c'.value| == |c.value|
  }

  lemma BlankInside(d: Annotations, e: Annotations, sd: Annotations, se: Annotations)
    requires Covers(e, d) && SameChunks(sd, d) && SameChunks(se, e)
    ensures forall b :: b in Blank(sd) ==> b in Blank(se)
  {
    forall b | b in Blank(sd) ensures b in Blank(se) {
      var i :| 0 <= i < |sd| && Blank(sd)[i] == b;
      assert sd[i] in d;
      var c' :| c' in e && c'.key == sd[i].key && |c'.value| == |sd[i].value|;
      assert c' in se;
      var j :| 0 <= j < |se| && se[j] == c';
      assert Blank(se)[j] == b;
    }
  }

  /** Sorted dictionaries with the same keys and lengths are aligned. */
  lemma SortedAligned(d: Annotations, e: Annotations)
    requires DistinctKeys(d) && DistinctKeys(e) && Covers(d, e) && Covers(e, d)
    ensures Blank(Sorted(d)) == Blank(Sorted(e))
  {
    SortingSorts(d);
    SortingSorts(e);
    BlankInside(d, e, Sorted(d), Sorted(e));
    BlankInside(e, d, Sorted(e), Sorted(d));
    SortedIsUnique(Blank(Sorted(d)), Blank(Sorted(e)));
  }

  lemma {:induction false} AlignedValues(d: Annotations, e: Annotations)
    requires Blank(d) == Blank(e) && DigestValues(d) == DigestValues(e)
    ensures |d| == |e| && forall i :: 0 <= i < |d| ==> d[i].key == e[i].key && (d[i].key != HMAC ==> d[i] == e[i])
  {
    assert |d| == |Blank(d)| == |Blank(e)| == |e|;
    if d != [] {
      assert Blank(d)[0] == Blank(e)[0];
      var v, w, p, q := d[0].value, e[0].value, DigestValues(d[1..]), DigestValues(e[1..]);
      assert |v| == |Zeros(|v|)| == |Zeros(|w|)| == |w| && d[0].key == e[0].key;
      if d[0].key != HMAC {
        assert (v + p)[..|v|] == v && (w + q)[..|w|] == w && (v + p)[|v|..] == p && (w + q)[|w|..] == q;
      } else {
        assert [] + p == p && [] + q == q;
      }
      assert Blank(d[1..]) == Blank(d)[1..] && Blank(e[1..]) == Blank(e)[1..];
      AlignedValues(d[1..], e[1..]);
      assert forall i :: 0 < i < |d| ==> d[i] == d[1..][i - 1] && e[i] == e[1..][i - 1];
    }
  }

  /** Main result: for annotations with the same keys and lengths, and data of one length, the digest input tells
      any difference in the data or in a chunk other than the digest's own. */
  lemma DigestCoversContents(d: Annotations, e: Annotations, data: Bytes, data': Bytes)
    requires DistinctKeys(d) && DistinctKeys(e) && Covers(d, e) && Covers(e, d) && |data| == |data'|
    ensures DigestInput(d, data) == DigestInput(e, data') <==>
              data == data' && forall c: Chunk :: c.key != HMAC ==> (c in d <==> c in e)
  {
    if data == data' && forall c: Chunk :: c.key != HMAC ==> (c in d <==> c in e) {
      DigestKnowsNoOrder(d, e, data);
    } else if DigestInput(d, data) == DigestInput(e, data') {
      var sd, se := Sorted(d), Sorted(e);
      assert (data + DigestValues(sd))[..|data|] == data && (data' + DigestValues(se))[..|data|] == data';
      assert (data + DigestValues(sd))[|data|..] == DigestValues(sd) && (data' + DigestValues(se))[|data|..] == DigestValues(se);
      SameContents(d, e);
    }
  }

  lemma SameContents(d: Annotations, e: Annotations)
    requires DistinctKeys(d) && DistinctKeys(e) && Covers(d, e) && Covers(e, d)
    requires DigestValues(Sorted(d)) == DigestValues(Sorted(e))
    ensures forall c: Chunk :: c.key != HMAC ==> (c in d <==> c in e)
  {
    SortedAligned(d, e);
    AlignedValues(Sorted(d), Sorted(e));
    AlignedMembers(Sorted(d), Sorted(e));
    SortingSorts(d);
    SortingSorts(e);
    hide Sorted, StrictlySorted, DistinctKeys, Covers, Blank, DigestValues;
  }

  lemma AlignedMembers(d: Annotations, e: Annotations)
    requires |d| == |e| && forall i :: 0 <= i < |d| ==> d[i].key == e[i].key && (d[i].key != HMAC ==> d[i] == e[i])
    ensures forall c: Chunk :: c.key != HMAC ==> (c in d <==> c in e)
  {}

  // ------------------------------------------------------ streams of messages

  ghost predicate AllPack(ms: seq<Message>) {
    forall i :: 0 <= i < |ms| ==> ToBytes(ms[i]).Ok?
  }

  /** The messages from the i-th on, one after another. */
  ghost function Frames(ms: seq<Message>, i: nat): Bytes
    requires AllPack(ms)
    decreases |ms| - i
  {
    if i >= |ms| then [] else ToBytes(ms[i]).value + Frames(ms, i + 1)
  }

  ghost predicate Receivable(ms: seq<Message>, c: Receiver, mac: (Bytes, Bytes) -> Bytes) {
    && AllPack(ms)
    && forall i :: 0 <= i < |ms| ==>
         DistinctKeys(ms[i].annotations) && Admits(c, ms[i]) && Verify(ms[i], c.key, mac) == Ok(ms[i])
  }

  /** Packs and sends messages one after another. */
  method SendMessages(sock: Transport.Socket, ms: seq<Message>, blocking: bool) returns (ok: bool)
    requires AllPack(ms)
    modifies sock`outgoing, sock`schedule
    ensures ok ==> sock.outgoing == old(sock.outgoing) + Frames(ms, 0)
    ensures !blocking && Smooth(old(sock.schedule)) && Supply(old(sock.schedule)) >= |Frames(ms, 0)| ==> ok
  {
    hide ToBytes;
    ghost var before := sock.outgoing;
    ghost var smooth := !blocking && Smooth(sock.schedule) && Supply(sock.schedule) >= |Frames(ms, 0)|;
    for i := 0 to |ms|
      invariant sock.outgoing + Frames(ms, i) == before + Frames(ms, 0)
      invariant smooth ==> Smooth(sock.schedule) && Supply(sock.schedule) >= |Frames(ms, i)|
    {
      var data := ToBytes(ms[i]).value;
      ghost var sofar := sock.outgoing;
      var r := SendData(sock, data, blocking);
      if r.Err? { return false; }
      assert sofar + (data + Frames(ms, i + 1)) == sofar + data + Frames(ms, i + 1);
    }
    return true;
  }

  /** Receives messages one after another. However the bytes arrive, what is received is what was sent, in order;
      only the socket can prevent it, and one that merely asks to retry does not. */
  method ReceiveMessages(sock: Transport.Socket, c: Receiver, mac: (Bytes, Bytes) -> Bytes, n: nat, ghost ms: seq<Message>, ghost rest: Bytes)
    returns (r: Result<seq<Message>, WireError>)
    requires |ms| == n && Receivable(ms, c, mac)
    requires sock.incoming == Frames(ms, 0) + rest
    modifies sock`incoming, sock`schedule, sock`open
    ensures sock.open == old(sock.open)
    ensures r.Ok? ==> r.value == ms && sock.incoming == rest
    ensures r.Err? ==> r.error.Socket?
    ensures Smooth(old(sock.schedule)) && Supply(old(sock.schedule)) > |old(sock.incoming)| + 3 * n ==> r.Ok?
  {
    hide ToBytes;
    hide Parse;
    hide Verify;
    var got := [];
    ghost var smooth := Smooth(sock.schedule) && Supply(sock.schedule) > |sock.incoming| + 3 * n;
    for i := 0 to n
      invariant sock.open == old(sock.open)
      invariant got == ms[..i] && sock.incoming == Frames(ms, i) + rest
      invariant smooth ==> Smooth(sock.schedule) && Supply(sock.schedule) > |sock.incoming| + 3 * (n - i)
    {
      NextFrame(ms, i, rest, c, mac);
      var m := Recv(sock, c, mac);
      if m.Err? { return Err(m.error); }
      got := got + [m.value];
    }
    return Ok(got);
  }

  lemma NextFrame(ms: seq<Message>, i: nat, rest: Bytes, c: Receiver, mac: (Bytes, Bytes) -> Bytes)
    requires Receivable(ms, c, mac) && i < |ms|
    ensures Parse(Frames(ms, i) + rest, c, mac) == Ok((ms[i], Frames(ms, i + 1) + rest))
  {
    hide ToBytes;
    hide Parse;
    var b := ToBytes(ms[i]).value;
    assert Frames(ms, i) + rest == b + (Frames(ms, i + 1) + rest);
    MessageRoundTrip(ms[i], Frames(ms, i + 1) + rest, c, mac);
  }

  ghost function ParseAll(b: Bytes, n: nat, c: Receiver, mac: (Bytes, Bytes) -> Bytes): Result<(seq<Message>, Bytes), WireError> {
    if n == 0 then Ok(([], b))
    else
      match Parse(b, c, mac)
      case Err(e) => Err(e)
      case Ok((m, rest)) =>
        match ParseAll(rest, n - 1, c, mac)
        case Err(e) => Err(e)
        case Ok((ms, left)) => Ok(([m] + ms, left))
  }

  /** The same for the streams themselves: a sequence of messages is recovered from the bytes of its frames. */
  lemma {:induction false} StreamRoundTrip(ms: seq<Message>, i: nat, rest: Bytes, c: Receiver, mac: (Bytes, Bytes) -> Bytes)
    requires Receivable(ms, c, mac) && i <= |ms|
    ensures ParseAll(Frames(ms, i) + rest, |ms| - i, c, mac) == Ok((ms[i..], rest))
    decreases |ms| - i
  {
    hide Parse;
    hide ToBytes;
    if i < |ms| {
      NextFrame(ms, i, rest, c, mac);
      StreamRoundTrip(ms, i + 1, rest, c, mac);
      assert [ms[i]] + ms[i + 1..] == ms[i..];
    } else {
      assert Frames(ms, i) + rest == rest && ms[i..] == [];
    }
  }
}
