/** The binary frame of a project file: preheader, chunks, footer and locator. */
module GpfContainer {
  import opened Basics
  import opened Utf8

  const MAGIC: Bytes := [0x89, 0x47, 0x50, 0x46, 0x0D, 0x0A, 0x1A, 0x0A]
  const VERSION: nat := 1
  const FLAG_ENCRYPTED: nat := 1
  const FLAG_PASSPHRASE: nat := 2
  const CHUNK_PAYLOAD: Byte := 0x81
  const PREHEADER_SIZE: nat := 16
  const LOCATOR_SIZE: nat := 12
  const MAX_HEADER: nat := 0x10_0000
  const MAX_FOOTER: nat := 0x1_0000
  const MAX_PAYLOAD: nat := 0x400_0000
  const UINT32: nat := 0x1_0000_0000

  datatype Refusal =
    | NotGpf
    | Malformed
    | UnsupportedVersion(found: int)
    | UnsupportedFlags(flags: int)
    | UnsupportedChunk(kind: Byte)
    | PasswordRequired
    | IdentityRequired
    | WrongPassword
    | WrongRealm(file: string, local: string)
    | Undecryptable
    | BadDocument
    | BothKinds

  datatype Read<+T> = Ok(value: T) | Err(refusal: Refusal)

  datatype Preheader = Preheader(version: nat, flags: nat, headerLen: nat)

  // ------------------------------------------------------------- integers

  function Little16(x: nat): (b: Bytes)
    ensures |b| == 2
  {
    [x % 256, x / 256 % 256]
  }

  function Little32(x: nat): (b: Bytes)
    ensures |b| == 4
  {
    [x % 256, x / 256 % 256, x / 65536 % 256, x / 16777216 % 256]
  }

  function Value16(b: Bytes): (x: nat)
    requires |b| == 2
  {
    var low: int, high: int := b[0], b[1];
    low + 256 * high
  }

  function Value32(b: Bytes): (x: nat)
    requires |b| == 4
  {
    var a: int, c: int, d: int, e: int := b[0], b[1], b[2], b[3];
    a + 256 * c + 65536 * d + 16777216 * e
  }

  /** What is written is read back, and a length past 32 bits wraps. */
  lemma LittleRoundTrip(x: nat)
    ensures Value32(Little32(x)) == x % UINT32
    ensures x < 65536 ==> Value16(Little16(x)) == x
  {
    var y, p := x / 256, x % 256;
    var z, q := y / 256, y % 256;
    var w, r := z / 256, z % 256;
    var v, s := w / 256, w % 256;
    assert x == 256 * y + p && y == 256 * z + q && z == 256 * w + r && w == 256 * v + s;
    Bytes16(z, p + 256 * q);
    Bytes24(w, p + 256 * q + 65536 * r);
    Bytes32(v, p + 256 * q + 65536 * r + 16777216 * s);
    assert Little32(x) == [p, q, r, s] && Little16(x) == [p, q];
  }

  lemma Bytes16(high: nat, low: nat)
    requires low < 65536
    ensures (65536 * high + low) / 65536 == high
  {
  }

  lemma Bytes24(high: nat, low: nat)
    requires low < 16777216
    ensures (16777216 * high + low) / 16777216 == high
  {
  }

  lemma Bytes32(high: nat, low: nat)
    requires low < UINT32
    ensures (UINT32 * high + low) % UINT32 == low
  {
  }

  // ------------------------------------------------------------ preheader

  predicate Looks(data: Bytes) {
    |data| >= 8 && data[..8] == MAGIC
  }

  predicate Encrypted(flags: nat) {
    flags % 2 == 1
  }

  predicate Passphrase(flags: nat) {
    flags / 2 % 2 == 1
  }

  /** The critical bits this reader does not know: bits 2 to 7. */
  function UnknownCritical(flags: nat): nat {
    flags / 4 % 64 * 4
  }

  function ReadPreheader(data: Bytes): (r: Read<Preheader>)
    ensures r.Ok? ==> PREHEADER_SIZE + r.value.headerLen <= |data| && r.value.headerLen <= MAX_HEADER
  {
    if !Looks(data) then Err(NotGpf)
    else if |data| < PREHEADER_SIZE then Err(Malformed)
    else
      var head := Preheader(Value16(data[8..10]), Value16(data[10..12]), Value32(data[12..16]));
      if head.version != VERSION then Err(UnsupportedVersion(head.version))
      else if UnknownCritical(head.flags) != 0 then Err(UnsupportedFlags(UnknownCritical(head.flags)))
      else if Passphrase(head.flags) && !Encrypted(head.flags) then Err(Malformed)
      else if head.headerLen > MAX_HEADER then Err(Malformed)
      else if PREHEADER_SIZE + head.headerLen > |data| then Err(Malformed)
      else Ok(head)
  }

  function WritePreheader(head: Preheader): (b: Bytes)
    ensures |b| == PREHEADER_SIZE
  {
    MAGIC + Little16(head.version) + Little16(head.flags) + Little32(head.headerLen)
  }

  lemma PreheaderRoundTrip(head: Preheader, rest: Bytes)
    requires head.version == VERSION && head.flags in {0, FLAG_ENCRYPTED, FLAG_ENCRYPTED + FLAG_PASSPHRASE}
    requires head.headerLen <= MAX_HEADER && head.headerLen <= |rest|
    ensures ReadPreheader(WritePreheader(head) + rest) == Ok(head)
  {
    var data := WritePreheader(head) + rest;
    LittleRoundTrip(head.version);
    LittleRoundTrip(head.flags);
    LittleRoundTrip(head.headerLen);
    assert data[..8] == MAGIC && data[8..10] == Little16(head.version);
    assert data[10..12] == Little16(head.flags) && data[12..16] == Little32(head.headerLen);
  }

  /**
   * What is written, byte by byte: the magic, then the version, flags and header length of a preheader; the type and
   * length before a chunk's body; the length before the magic at the end. Lengths are 32 bits, lowest byte first.
   */
  lemma WrittenBytes(flags: nat, length: nat, kind: Byte, body: Bytes)
    requires flags < 256 && |body| < UINT32
    ensures WritePreheader(Preheader(1, flags, length))
            == [0x89, 0x47, 0x50, 0x46, 0x0D, 0x0A, 0x1A, 0x0A, 1, 0, flags, 0,
                length % 256, length / 256 % 256, length / 65536 % 256, length / 16777216 % 256]
    ensures WriteChunk(kind, body)
            == [kind, |body| % 256, |body| / 256 % 256, |body| / 65536 % 256, |body| / 16777216 % 256] + body
    ensures WriteLocator(|body|)
            == [|body| % 256, |body| / 256 % 256, |body| / 65536 % 256, |body| / 16777216 % 256,
                0x89, 0x47, 0x50, 0x46, 0x0D, 0x0A, 0x1A, 0x0A]
  {
  }

  lemma FlagsInBits(flags: nat)
    ensures FlagsFit(flags) <==> flags < 65536 && flags % 256 in {0, 1, 3}
    ensures UnknownCritical(flags) == flags % 256 - flags % 4
    ensures Encrypted(flags) <==> flags % 4 in {1, 3}
    ensures Passphrase(flags) <==> flags % 4 in {2, 3}
  {
    var low, rest := flags % 4, flags / 4;
    var middle, high := rest % 64, rest / 64;
    LowBits(low, rest);
    assert flags == 256 * high + (4 * middle + low);
    HighBits(high, 4 * middle + low);
  }

  lemma LowBits(low: nat, rest: nat)
    requires low < 4
    ensures Encrypted(4 * rest + low) <==> low in {1, 3}
    ensures Passphrase(4 * rest + low) <==> low in {2, 3}
  {
    assert 4 * rest + low == 2 * (2 * rest + low / 2) + low % 2;
  }

  lemma HighBits(high: nat, low: nat)
    requires low < 256
    ensures (256 * high + low) % 256 == low
  {
  }

  /** Why other bytes are refused, for the first thing wrong with them. */
  lemma PreheaderRefusals(data: Bytes)
    ensures ReadPreheader(data) == Err(NotGpf)
            <==> |data| < 8 || data[..8] != [0x89, 0x47, 0x50, 0x46, 0x0D, 0x0A, 0x1A, 0x0A]
    ensures |data| >= 16 && data[..8] == [0x89, 0x47, 0x50, 0x46, 0x0D, 0x0A, 0x1A, 0x0A] ==>
              var low: int, high: int := data[8], data[9];
              var version := low + 256 * high;
              if version != 1 then ReadPreheader(data) == Err(UnsupportedVersion(version))
              else if data[10] >= 4 then ReadPreheader(data) == Err(UnsupportedFlags(data[10] - data[10] % 4))
              else ReadPreheader(data).Ok? || ReadPreheader(data) == Err(Malformed)
  {
    hide Value32, UnknownCritical, Encrypted, Passphrase;
    if |data| >= 16 {
      var low: int, high: int := data[10], data[11];
      FlagsInBits(Value16(data[10..12]));
      HighBits(high, low);
      FourBits(high, low);
      assert Value16(data[10..12]) == 256 * high + low;
    }
  }

  lemma FourBits(high: nat, low: nat)
    requires low < 256
    ensures (256 * high + low) % 4 == low % 4
  {
    assert 256 * high + low == 4 * (64 * high + low / 4) + low % 4;
  }

  /** What this reader accepts of flags: no unknown critical bit, and a passphrase only on something encrypted. */
  predicate FlagsFit(flags: nat) {
    flags < 65536 && UnknownCritical(flags) == 0 && (Passphrase(flags) ==> Encrypted(flags))
  }

  /** A file is accepted with a preheader exactly when it begins with that preheader written, and the header fits. */
  lemma PreheaderAcceptedExactly(data: Bytes, head: Preheader)
    ensures ReadPreheader(data) == Ok(head)
            <==> && head.version == 1 && head.flags < 65536 && head.flags % 256 in {0, 1, 3}
                 && head.headerLen <= 0x10_0000 && 16 + head.headerLen <= |data| && data[..16] == WritePreheader(head)
  {
    FlagsInBits(head.flags);
    hide Little16, Little32, Value16, Value32, UnknownCritical;
    if |data| >= PREHEADER_SIZE {
      var start := data[..PREHEADER_SIZE];
      assert start == data[..8] + data[8..10] + data[10..12] + data[12..16];
      TwoBytes(data[8..10]);
      TwoBytes(data[10..12]);
      FourBytes(data[12..16]);
      var written := WritePreheader(head);
      if start == written {
        assert data[..8] == written[..8] == MAGIC && data[8..10] == written[8..10] == Little16(head.version);
        assert data[10..12] == written[10..12] == Little16(head.flags);
        assert data[12..16] == written[12..16] == Little32(head.headerLen);
        LittleRoundTrip(head.version);
        LittleRoundTrip(head.flags);
        LittleRoundTrip(head.headerLen);
      }
    }
  }

  lemma TwoBytes(b: Bytes)
    requires |b| == 2
    ensures Value16(b) < 65536 && Little16(Value16(b)) == b
  {
    LowByte(b[0], b[1]);
  }

  // --------------------------------------------------------------- chunks

  datatype Chunk = Chunk(kind: Byte, body: Bytes)

  function WriteChunk(kind: Byte, body: Bytes): Bytes {
    [kind] + Little32(|body| % UINT32) + body
  }

  function Flatten(cs: seq<Chunk>): Bytes {
    if cs == [] then [] else WriteChunk(cs[0].kind, cs[0].body) + Flatten(cs[1..])
  }

  /** Walks a framed region from its start. `found` is the payload met so far. */
  function Walk(region: Bytes, found: Option<Bytes>): Read<Bytes>
    decreases |region|
  {
    if region == [] then (if found.None? then Err(Malformed) else Ok(found.value))
    else if |region| < 5 then Err(Malformed)
    else
      var kind, length, rest := region[0], Value32(region[1..5]), region[5..];
      if length > |rest| || length > MAX_PAYLOAD then Err(Malformed)
      else if kind != CHUNK_PAYLOAD then
        if kind >= 0x80 then Err(UnsupportedChunk(kind)) else Walk(rest[length..], found)
      else if found.Some? then Err(Malformed)
      else Walk(rest[length..], Some(rest[..length]))
  }

  /** The loop over the region: the one payload it frames, or why it is refused. */
  method ReadPayload(region: Bytes) returns (r: Read<Bytes>)
    ensures r == Walk(region, None)
    ensures r.Ok? ==> |r.value| <= MAX_PAYLOAD && |r.value| + 5 <= |region|
  {
    hide Walk, Value32;
    var payload: Option<Bytes> := None;
    var offset := 0;
    WalkEnds(region);
    while offset < |region|
      invariant 0 <= offset <= |region|
      invariant Walk(region[offset..], payload) == Walk(region, None)
      invariant payload.Some? ==> |payload.value| <= MAX_PAYLOAD && |payload.value| + 5 <= offset
    {
      WalkStep(region, offset, payload);
      if |region| - offset < 5 {
        return Err(Malformed);
      }
      var kind := region[offset];
      var length := Value32(region[offset + 1..offset + 5]);
      offset := offset + 5;
      if length > |region| - offset {
        return Err(Malformed);
      }
      if length > MAX_PAYLOAD {
        return Err(Malformed);
      }
      var body := region[offset..offset + length];
      offset := offset + length;
      if kind != CHUNK_PAYLOAD {
        if kind >= 0x80 {
          return Err(UnsupportedChunk(kind));
        }
        continue;
      }
      if payload.Some? {
        return Err(Malformed);
      }
      payload := Some(body);
    }
    if payload.None? {
      return Err(Malformed);
    }
    return Ok(payload.value);
  }

  lemma WalkEnds(region: Bytes)
    ensures region[0..] == region && region[|region|..] == []
    ensures forall found: Option<Bytes> :: Walk([], found) == if found.None? then Err(Malformed) else Ok(found.value)
  {
  }

  /** One pass of the loop, in offsets into the whole region. */
  lemma WalkStep(region: Bytes, offset: nat, found: Option<Bytes>)
    requires offset < |region|
    ensures Walk(region[offset..], found)
            == if |region| - offset < 5 then Err(Malformed)
               else
                 var kind, length, at := region[offset], Value32(region[offset + 1..offset + 5]), offset + 5;
                 if length > |region| - at || length > MAX_PAYLOAD then Err(Malformed)
                 else if kind != CHUNK_PAYLOAD then
                   if kind >= 0x80 then Err(UnsupportedChunk(kind)) else Walk(region[at + length..], found)
                 else if found.Some? then Err(Malformed)
                 else Walk(region[at + length..], Some(region[at..at + length]))
  {
    hide Value32;
    var left := region[offset..];
    if |left| >= 5 {
      assert left[1..5] == region[offset + 1..offset + 5] && left[5..] == region[offset + 5..];
      var length := Value32(left[1..5]);
      if length <= |left| - 5 {
        assert left[5..][length..] == region[offset + 5 + length..];
        assert left[5..][..length] == region[offset + 5..offset + 5 + length];
      }
    }
  }

  // ------------------------------------------------- what is accepted, exactly

  /** Frames within the cap, none of an unknown critical type. */
  predicate Fine(cs: seq<Chunk>) {
    forall i :: 0 <= i < |cs| ==> |cs[i].body| <= MAX_PAYLOAD && (cs[i].kind == CHUNK_PAYLOAD || cs[i].kind < 0x80)
  }

  function Payloads(cs: seq<Chunk>): seq<Bytes> {
    if cs == [] then [] else (if cs[0].kind == CHUNK_PAYLOAD then [cs[0].body] else []) + Payloads(cs[1..])
  }

  function Listed(found: Option<Bytes>): seq<Bytes> {
    if found.None? then [] else [found.value]
  }

  lemma ChunkParts(c: Chunk, rest: Bytes)
    requires |c.body| <= MAX_PAYLOAD
    ensures var region := WriteChunk(c.kind, c.body) + rest;
            && |region| >= 5 && region[0] == c.kind && Value32(region[1..5]) == |c.body|
            && region[5..] == c.body + rest && region[5..][..|c.body|] == c.body && region[5..][|c.body|..] == rest
  {
    hide Little32, Value32;
    LittleRoundTrip(|c.body|);
    Slices(c.kind, Little32(|c.body|), c.body, rest);
  }

  lemma Slices(kind: Byte, length: Bytes, body: Bytes, rest: Bytes)
    requires |length| == 4
    ensures var region := [kind] + length + body + rest;
            && region[0] == kind && region[1..5] == length && region[5..] == body + rest
            && (body + rest)[..|body|] == body && (body + rest)[|body|..] == rest
  {
  }

  /** One frame of the region, whatever follows it. */
  lemma WalkChunk(c: Chunk, rest: Bytes, found: Option<Bytes>)
    requires |c.body| <= MAX_PAYLOAD
    ensures Walk(WriteChunk(c.kind, c.body) + rest, found)
            == if c.kind == CHUNK_PAYLOAD then (if found.Some? then Err(Malformed) else Walk(rest, Some(c.body)))
               else if c.kind >= 0x80 then Err(UnsupportedChunk(c.kind)) else Walk(rest, found)
  {
    ChunkParts(c, rest);
    assert WriteChunk(c.kind, c.body) + rest != [];
  }

  lemma {:induction false} WalkOfFrames(cs: seq<Chunk>, found: Option<Bytes>)
    requires Fine(cs)
    ensures var all := Listed(found) + Payloads(cs);
            Walk(Flatten(cs), found) == if |all| == 1 then Ok(all[0]) else Err(Malformed)
  {
    if cs != [] {
      WalkChunk(cs[0], Flatten(cs[1..]), found);
      assert Fine(cs[1..]);
      if cs[0].kind != CHUNK_PAYLOAD {
        WalkOfFrames(cs[1..], found);
        assert Listed(found) + Payloads(cs) == Listed(found) + Payloads(cs[1..]);
      } else if found.None? {
        WalkOfFrames(cs[1..], Some(cs[0].body));
        assert Listed(found) + Payloads(cs) == Listed(Some(cs[0].body)) + Payloads(cs[1..]);
      } else {
        assert (Listed(found) + Payloads(cs))[1] == cs[0].body;
      }
    }
  }

  /** The frames of an accepted region. */
  function Chunks(region: Bytes): seq<Chunk>
    decreases |region|
  {
    if |region| < 5 || Value32(region[1..5]) > |region| - 5 then []
    else
      var n := 5 + Value32(region[1..5]);
      [Chunk(region[0], region[5..n])] + Chunks(region[n..])
  }

  lemma ReframesItself(region: Bytes)
    requires |region| >= 5 && Value32(region[1..5]) <= |region| - 5
    ensures var n := 5 + Value32(region[1..5]);
            WriteChunk(region[0], region[5..n]) + region[n..] == region
  {
    var b := region[1..5];
    var x := Value32(b);
    LittleRoundTrip(x);
    FourBytes(b);
    assert region == [region[0]] + region[1..5] + region[5..5 + x] + region[5 + x..];
  }

  lemma FourBytes(b: Bytes)
    requires |b| == 4
    ensures Value32(b) < UINT32 && Little32(Value32(b)) == b
  {
    var p: int, q: int, r: int, s: int := b[0], b[1], b[2], b[3];
    var z := r + 256 * s;
    var y := q + 256 * z;
    LowByte(p, y);
    LowByte(q, z);
    LowByte(r, s);
    var x := Value32(b);
    assert x == p + 256 * y;
    assert x / 65536 == x / 256 / 256 && x / 16777216 == x / 65536 / 256;
  }

  lemma LowByte(low: int, high: int)
    requires 0 <= low < 256 && high >= 0
    ensures (low + 256 * high) % 256 == low && (low + 256 * high) / 256 == high
  {
  }

  lemma {:induction false} WalkFindsFrames(region: Bytes, found: Option<Bytes>)
    requires Walk(region, found).Ok?
    ensures Flatten(Chunks(region)) == region && Fine(Chunks(region))
    ensures Listed(found) + Payloads(Chunks(region)) == [Walk(region, found).value]
    decreases |region|
  {
    if region != [] {
      var n := 5 + Value32(region[1..5]);
      var c := Chunk(region[0], region[5..n]);
      ReframesItself(region);
      assert region[5..][n - 5..] == region[n..] && region[5..][..n - 5] == region[5..n];
      assert Chunks(region) == [c] + Chunks(region[n..]);
      assert Chunks(region)[1..] == Chunks(region[n..]);
      WalkFindsFrames(region[n..], if c.kind == CHUNK_PAYLOAD then Some(c.body) else found);
    }
  }

  ghost predicate Frames(region: Bytes, cs: seq<Chunk>, payload: Bytes) {
    region == Flatten(cs) && Fine(cs) && Payloads(cs) == [payload]
  }

  /**
   * A region is accepted exactly when it is frames within the cap, one of them a payload and no other critical, and
   * the payload is that frame's body.
   */
  lemma AcceptedExactly(region: Bytes, payload: Bytes)
    ensures Walk(region, None) == Ok(payload) <==> exists cs :: Frames(region, cs, payload)
  {
    if Walk(region, None) == Ok(payload) {
      WalkFindsFrames(region, None);
      assert Listed(None) + Payloads(Chunks(region)) == Payloads(Chunks(region));
      assert Frames(region, Chunks(region), payload);
    }
    if exists cs :: Frames(region, cs, payload) {
      var cs :| Frames(region, cs, payload);
      WalkOfFrames(cs, None);
      assert Listed(None) + Payloads(cs) == Payloads(cs);
    }
  }

  lemma {:induction false} SkipsUnknown(extra: seq<Chunk>, rest: Bytes, found: Option<Bytes>)
    requires forall i :: 0 <= i < |extra| ==> extra[i].kind < 0x80 && |extra[i].body| <= MAX_PAYLOAD
    ensures Walk(Flatten(extra) + rest, found) == Walk(rest, found)
  {
    if extra == [] {
      assert Flatten(extra) + rest == rest;
    } else {
      assert Flatten(extra) + rest
          == WriteChunk(extra[0].kind, extra[0].body) + (Flatten(extra[1..]) + rest);
      WalkChunk(extra[0], Flatten(extra[1..]) + rest, found);
      SkipsUnknown(extra[1..], rest, found);
    }
  }

  /** A later version's sections change nothing for this reader, wherever they stand among the frames. */
  lemma {:induction false} InsertingIsHarmless(before: seq<Chunk>, extra: seq<Chunk>, rest: Bytes, found: Option<Bytes>)
    requires forall i :: 0 <= i < |before| ==> |before[i].body| <= MAX_PAYLOAD
    requires forall i :: 0 <= i < |extra| ==> extra[i].kind < 0x80 && |extra[i].body| <= MAX_PAYLOAD
    ensures Walk(Flatten(before) + Flatten(extra) + rest, found) == Walk(Flatten(before) + rest, found)
  {
    hide Walk, WriteChunk, Flatten;
    if before == [] {
      NoFrames(Flatten(extra) + rest);
      NoFrames(rest);
      assert Flatten([]) + Flatten(extra) + rest == Flatten([]) + (Flatten(extra) + rest);
      SkipsUnknown(extra, rest, found);
    } else {
      var c, more := before[0], before[1..];
      FirstFrame(before, Flatten(extra) + rest);
      FirstFrame(before, rest);
      assert Flatten(before) + Flatten(extra) + rest == Flatten(before) + (Flatten(extra) + rest);
      assert Flatten(more) + Flatten(extra) + rest == Flatten(more) + (Flatten(extra) + rest);
      WalkChunk(c, Flatten(more) + (Flatten(extra) + rest), found);
      WalkChunk(c, Flatten(more) + rest, found);
      InsertingIsHarmless(more, extra, rest, found);
      InsertingIsHarmless(more, extra, rest, Some(c.body));
    }
  }

  /** A section this reader must not pass over is refused by its type, after any number it may. */
  lemma UnknownCriticalIsRefused(before: seq<Chunk>, kind: Byte, body: Bytes, rest: Bytes)
    requires forall i :: 0 <= i < |before| ==> before[i].kind < 0x80 && |before[i].body| <= MAX_PAYLOAD
    requires kind >= 0x80 && kind != 0x81 && |body| <= 0x400_0000
    ensures Walk(Flatten(before) + WriteChunk(kind, body) + rest, None) == Err(UnsupportedChunk(kind))
  {
    hide Walk, WriteChunk, Flatten;
    assert Flatten(before) + WriteChunk(kind, body) + rest == Flatten(before) + (WriteChunk(kind, body) + rest);
    SkipsUnknown(before, WriteChunk(kind, body) + rest, None);
    WalkChunk(Chunk(kind, body), rest, None);
  }

  /** One payload among sections this reader may pass over is read; a second one, and none at all, are refused. */
  lemma OnePayload(before: seq<Chunk>, body: Bytes, after: seq<Chunk>)
    requires forall i :: 0 <= i < |before| ==> before[i].kind < 0x80 && |before[i].body| <= 0x400_0000
    requires forall i :: 0 <= i < |after| ==> after[i].kind < 0x80 || after[i].kind == 0x81
    requires |body| <= 0x400_0000 && forall i :: 0 <= i < |after| ==> |after[i].body| <= 0x400_0000
    ensures Walk(Flatten(before) + WriteChunk(0x81, body) + Flatten(after), None)
            == if exists i :: 0 <= i < |after| && after[i].kind == 0x81 then Err(Malformed) else Ok(body)
    ensures Walk(Flatten(before), None) == Err(Malformed)
  {
    hide Walk, WriteChunk, Flatten;
    assert Flatten(before) + WriteChunk(0x81, body) + Flatten(after)
        == Flatten(before) + (WriteChunk(0x81, body) + Flatten(after));
    SkipsUnknown(before, WriteChunk(0x81, body) + Flatten(after), None);
    WalkChunk(Chunk(0x81, body), Flatten(after), None);
    WalkOfFrames(after, Some(body));
    NoPayloads(after);
    WalkOfFrames(before, None);
    NoPayloads(before);
  }

  lemma {:induction false} NoPayloads(cs: seq<Chunk>)
    ensures Payloads(cs) == [] <==> forall i :: 0 <= i < |cs| ==> cs[i].kind != CHUNK_PAYLOAD
  {
    if cs != [] {
      NoPayloads(cs[1..]);
      assert forall i :: 1 <= i < |cs| ==> cs[i] == cs[1..][i - 1];
    }
  }

  lemma NoFrames(rest: Bytes)
    ensures Flatten([]) + rest == rest
  {
  }

  lemma FirstFrame(cs: seq<Chunk>, rest: Bytes)
    requires cs != []
    ensures Flatten(cs) + rest == WriteChunk(cs[0].kind, cs[0].body) + (Flatten(cs[1..]) + rest)
  {
  }

  /** A written payload is read back exactly when it is within the cap: a longer one is refused or cut short. */
  lemma PayloadRoundTrip(body: Bytes)
    ensures Walk(WriteChunk(0x81, body), None) == Ok(body) <==> |body| <= 0x400_0000
  {
    if |body| <= MAX_PAYLOAD {
      var c := Chunk(CHUNK_PAYLOAD, body);
      assert WriteChunk(c.kind, c.body) + [] == WriteChunk(CHUNK_PAYLOAD, body);
      WalkChunk(c, [], None);
    } else if Walk(WriteChunk(CHUNK_PAYLOAD, body), None) == Ok(body) {
      AcceptedExactly(WriteChunk(CHUNK_PAYLOAD, body), body);
      var cs :| Frames(WriteChunk(CHUNK_PAYLOAD, body), cs, body);
      PayloadIsOneOf(cs, body);
    }
  }

  lemma {:induction false} PayloadIsOneOf(cs: seq<Chunk>, body: Bytes)
    requires Fine(cs) && body in Payloads(cs)
    ensures |body| <= MAX_PAYLOAD
  {
    if cs[0].kind != CHUNK_PAYLOAD || cs[0].body != body {
      PayloadIsOneOf(cs[1..], body);
    }
  }

  // --------------------------------------------------------------- footer

  function WriteLocator(footerLen: nat): (b: Bytes)
    ensures |b| == LOCATOR_SIZE
  {
    Little32(footerLen % UINT32) + MAGIC
  }

  /** The footer found from the end of the file, and the bytes between it and the header. */
  function ReadFooterRegion(data: Bytes, after: nat): (r: Read<(Bytes, Bytes)>)
    requires after <= |data|
    ensures r.Ok? ==> after + LOCATOR_SIZE <= |data| && r.value.1 + r.value.0 == data[after..|data| - LOCATOR_SIZE]
  {
    if |data| < after + LOCATOR_SIZE then Err(Malformed)
    else
      var locator := data[|data| - LOCATOR_SIZE..];
      var footerLen := Value32(locator[..4]);
      var end := |data| - LOCATOR_SIZE;
      if locator[4..] != MAGIC then Err(Malformed)
      else if footerLen > MAX_FOOTER then Err(Malformed)
      else if footerLen > end - after then Err(Malformed)
      else Ok((data[end - footerLen..end], data[after..end - footerLen]))
  }

  lemma FooterRoundTrip(front: Bytes, region: Bytes, footer: Bytes)
    requires |footer| <= MAX_FOOTER
    ensures ReadFooterRegion(front + region + footer + WriteLocator(|footer|), |front|) == Ok((footer, region))
  {
    hide Little32, Value32;
    var data := front + region + footer + WriteLocator(|footer|);
    var locator := data[|data| - LOCATOR_SIZE..];
    assert locator == WriteLocator(|footer|);
    LittleRoundTrip(|footer|);
    assert locator[..4] == Little32(|footer|) && locator[4..] == MAGIC;
    var end := |data| - LOCATOR_SIZE;
    assert data[end - |footer|..end] == footer && data[|front|..end - |footer|] == region;
  }

  /** And nothing else is found there: a file is cut exactly where its locator says. */
  lemma FooterFoundExactly(data: Bytes, after: nat, footer: Bytes, region: Bytes)
    requires after <= |data|
    ensures ReadFooterRegion(data, after) == Ok((footer, region))
            <==> |footer| <= 0x1_0000 && data == data[..after] + region + footer + WriteLocator(|footer|)
  {
    hide ReadFooterRegion, WriteLocator;
    if |footer| <= MAX_FOOTER && data == data[..after] + region + footer + WriteLocator(|footer|) {
      FooterRoundTrip(data[..after], region, footer);
    }
    if ReadFooterRegion(data, after) == Ok((footer, region)) {
      LocatorIsWritten(data, after, footer, region);
      ThreeSlices(data, after, |data| - LOCATOR_SIZE);
      assert data[..after] + region + footer == data[..after] + (region + footer);
    }
  }

  lemma ThreeSlices(data: Bytes, a: nat, b: nat)
    requires a <= b <= |data|
    ensures data == data[..a] + data[a..b] + data[b..]
  {
  }

  lemma LocatorIsWritten(data: Bytes, after: nat, footer: Bytes, region: Bytes)
    requires after <= |data| && ReadFooterRegion(data, after) == Ok((footer, region))
    ensures |footer| <= MAX_FOOTER && after + LOCATOR_SIZE <= |data|
    ensures region + footer == data[after..|data| - LOCATOR_SIZE]
    ensures data[|data| - LOCATOR_SIZE..] == WriteLocator(|footer|)
  {
    hide Little32, Value32;
    var locator := data[|data| - LOCATOR_SIZE..];
    FourBytes(locator[..4]);
    assert locator == locator[..4] + locator[4..];
  }
}
