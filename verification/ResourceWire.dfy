/** reticulum-patched/src/resource.rs: splitting data into parts and the request for missing parts. */
module ResourceWire {
  import opened Common

  type u32 = x: int | 0 <= x < U32_SIZE
  type MapHash = s: seq<byte> | |s| == 4 witness [0, 0, 0, 0]

  datatype Advertisement = Advertisement(
    resourceId: Address,
    requestId: Option<Address>,
    totalLen: u32,
    partSize: u32,
    totalParts: u32,
    isResponse: bool,
    isRequest: bool)

  datatype Part = Part(resourceId: Address, index: u32, data: seq<byte>)

  function ComputeMapHash(sha: seq<byte> -> Digest, data: seq<byte>): MapHash {
    sha(data)[..4]
  }

  function ResourceId(sha: seq<byte> -> Digest, data: seq<byte>): Address {
    sha(data)[..16]
  }

  /** `data.chunks(size)`. */
  function Chunks(data: seq<byte>, size: nat): (c: seq<seq<byte>>)
    requires size > 0
    decreases |data|
  {
    if data == [] then []
    else if |data| <= size then [data]
    else [data[..size]] + Chunks(data[size..], size)
  }

  /** The chunks are the data, none is empty or too long, and the first is the longest. */
  lemma {:induction false} ChunksFacts(data: seq<byte>, size: nat)
    requires size > 0
    ensures var c := Chunks(data, size);
            && Flatten(c) == data
            && (forall i :: 0 <= i < |c| ==> 0 < |c[i]| <= size && |c[i]| <= |data|)
            && (data != [] ==> |c| > 0 && |c[0]| == if |data| <= size then |data| else size)
    decreases |data|
  {
    var c := Chunks(data, size);
    if data == [] {
    } else if |data| <= size {
      assert c[1..] == [];
      assert Flatten(c) == data + Flatten(c[1..]);
    } else {
      ChunksFacts(data[size..], size);
      assert c[1..] == Chunks(data[size..], size);
    }
  }

  function CeilDiv(n: nat, size: nat): nat
    requires size > 0
  {
    (n + size - 1) / size
  }

  lemma DivShift(n: nat, size: nat)
    requires size > 0
    ensures (n + size) / size == n / size + 1
  {
    var q, r := n / size, n % size;
    assert n + size == size * (q + 1) + r;
    UniqueQuotient(n + size, size, q + 1, r);
  }

  lemma BigMultiple(size: nat, k: int)
    requires size > 0 && k != 0
    ensures size * k >= size || size * k + size <= 0
  {
  }

  lemma UniqueQuotient(n: nat, size: nat, q: nat, r: nat)
    requires size > 0 && n == size * q + r && r < size
    ensures n / size == q
  {
    var q', r' := n / size, n % size;
    assert n == size * q' + r';
    assert size * (q' - q) == size * q' - size * q;
    if q' != q {
      BigMultiple(size, q' - q);
    }
  }

  lemma {:induction false} ChunkCount(data: seq<byte>, size: nat)
    requires size > 0
    ensures |Chunks(data, size)| == CeilDiv(|data|, size)
    decreases |data|
  {
    if |data| == 0 {
      UniqueQuotient(size - 1, size, 0, size - 1);
    } else if |data| <= size {
      UniqueQuotient(|data| + size - 1, size, 1, |data| - 1);
    } else {
      ChunkCount(data[size..], size);
      DivShift(|data| - size + size - 1, size);
      assert |data| - size + size - 1 + size == |data| + size - 1;
    }
  }

  /** The parts a sender keeps; the index is a u32. */
  function PartsOf(sha: seq<byte> -> Digest, data: seq<byte>, size: nat): (parts: seq<Part>)
    requires size > 0
  {
    var chunks := Chunks(data, size);
    seq(|chunks|, i requires 0 <= i < |chunks| => Part(ResourceId(sha, data), AsU32(i), chunks[i]))
  }

  function AdvertOf(sha: seq<byte> -> Digest, data: seq<byte>, size: nat, requestId: Option<Address>, isResponse: bool,
                    isRequest: bool): Advertisement
    requires size > 0
  {
    Advertisement(ResourceId(sha, data), requestId, AsU32(|data|), AsU32(size), AsU32(|Chunks(data, size)|),
                  isResponse, isRequest)
  }

  /** ResourceSender::split; every count and index is truncated to 32 bits as in the source. */
  method Split(sha: seq<byte> -> Digest, data: seq<byte>, partSize: nat, requestId: Option<Address>, isResponse: bool,
               isRequest: bool)
    returns (r: Result<(Advertisement, seq<Part>), RnsError>)
    ensures r == if partSize == 0 then Err(InvalidArgument)
                 else Ok((AdvertOf(sha, data, partSize, requestId, isResponse, isRequest),
                     PartsOf(sha, data, partSize)))
  {
    if partSize == 0 {
      return Err(InvalidArgument);
    }
    var totalParts := AsU32((|data| + partSize - 1) / partSize);
    ChunkCount(data, partSize);
    var id := ResourceId(sha, data);
    var advert := Advertisement(id, requestId, AsU32(|data|), AsU32(partSize), totalParts, isResponse, isRequest);
    var parts := CutParts(id, data, partSize);
    assert parts == PartsOf(sha, data, partSize);
    return Ok((advert, parts));
  }

  lemma ChunkStep(rest: seq<byte>, size: nat, done: seq<seq<byte>>)
    requires size > 0 && rest != []
    ensures var take := if |rest| < size then |rest| else size;
            done + Chunks(rest, size) == (done + [rest[..take]]) + Chunks(rest[take..], size)
  {
    var take := if |rest| < size then |rest| else size;
    assert |rest| <= size ==> rest[..take] == rest && rest[take..] == [];
    assert Chunks(rest, size) == [rest[..take]] + Chunks(rest[take..], size);
  }

  /** The loop of split over the chunks. */
  method CutParts(id: Address, data: seq<byte>, size: nat) returns (parts: seq<Part>)
    requires size > 0
    ensures |parts| == |Chunks(data, size)|
    ensures forall i :: 0 <= i < |parts| ==> parts[i] == Part(id, AsU32(i), Chunks(data, size)[i])
  {
    parts := [];
    var rest := data;
    ghost var done: seq<seq<byte>> := [];
    while rest != []
      invariant |parts| == |done|
      invariant forall i :: 0 <= i < |parts| ==> parts[i] == Part(id, AsU32(i), done[i])
      invariant done + Chunks(rest, size) == Chunks(data, size)
      decreases |rest|
    {
      var take := if |rest| < size then |rest| else size;
      var chunk := rest[..take];
      ChunkStep(rest, size, done);
      parts := parts + [Part(id, AsU32(|parts|), chunk)];
      done := done + [chunk];
      rest := rest[take..];
    }
  }

  datatype Request = Request(
    resourceId: Address,
    hashmapExhausted: bool,
    lastMapHash: Option<MapHash>,
    requestedHashes: seq<MapHash>)

  const NOT_EXHAUSTED: byte := 0x00
  const EXHAUSTED: byte := 0xff

  function EncodeRequest(r: Request): seq<byte> {
    (if r.hashmapExhausted
     then [EXHAUSTED] + (if r.lastMapHash.Some? then r.lastMapHash.value else [0, 0, 0, 0])
     else [NOT_EXHAUSTED])
    + r.resourceId
    + Flatten(r.requestedHashes)
  }

  /** Groups of four bytes; None when some are left over. */
  function SplitHashes(bytes: seq<byte>): Option<seq<MapHash>> {
    if bytes == [] then Some([])
    else if |bytes| < 4 then None
    else
      var rest := SplitHashes(bytes[4..]);
      if rest.None? then None else Some([bytes[..4]] + rest.value)
  }

  function DecodeRequest(buffer: seq<byte>): Result<Request, RnsError> {
    if buffer == [] then Err(OutOfMemory) else
    var exhausted := buffer[0] == EXHAUSTED;
    var start := if exhausted then 5 else 1;
    if |buffer| < start + 16 then Err(OutOfMemory) else
    var hashes := SplitHashes(buffer[start + 16..]);
    if hashes.None? then Err(InvalidArgument)
    else Ok(Request(buffer[start..start + 16], exhausted, if exhausted then Some(buffer[1..5]) else None, hashes.value))
  }

  /** ResourceRequest::decode with its offset loop. */
  method DecodeRequestBytes(buffer: seq<byte>) returns (r: Result<Request, RnsError>)
    ensures r == DecodeRequest(buffer)
  {
    if buffer == [] {
      return Err(OutOfMemory);
    }
    var offset := 1;
    var exhausted := buffer[0] == EXHAUSTED;
    var last: Option<MapHash> := None;
    if exhausted {
      if offset + 4 > |buffer| {
        return Err(OutOfMemory);
      }
      last := Some(buffer[offset..offset + 4]);
      offset := offset + 4;
    }
    if offset + 16 > |buffer| {
      return Err(OutOfMemory);
    }
    var resourceId := buffer[offset..offset + 16];
    offset := offset + 16;
    var hashes := ReadHashes(buffer, offset);
    if hashes.None? {
      return Err(InvalidArgument);
    }
    return Ok(Request(resourceId, exhausted, last, hashes.value));
  }

  lemma SplitStep(buffer: seq<byte>, offset: nat, done: seq<MapHash>)
    requires offset + 4 <= |buffer|
    ensures var all, rest := SplitHashes(buffer[offset..]), SplitHashes(buffer[offset + 4..]);
            && (all.Some? <==> rest.Some?)
            && (all.Some? ==> done + all.value == (done + [buffer[offset..offset + 4]]) + rest.value)
  {
    assert buffer[offset..][..4] == buffer[offset..offset + 4] && buffer[offset..][4..] == buffer[offset + 4..];
  }

  /** The loop over the requested hashes; a remainder of one to three octets is an error. */
  method ReadHashes(buffer: seq<byte>, from: nat) returns (r: Option<seq<MapHash>>)
    requires from <= |buffer|
    ensures r == SplitHashes(buffer[from..])
  {
    ghost var whole := SplitHashes(buffer[from..]);
    var offset := from;
    var hashes: seq<MapHash> := [];
    while offset + 4 <= |buffer|
      invariant offset <= |buffer|
      invariant whole.Some? <==> SplitHashes(buffer[offset..]).Some?
      invariant whole.Some? ==> whole.value == hashes + SplitHashes(buffer[offset..]).value
    {
      SplitStep(buffer, offset, hashes);
      hashes := hashes + [buffer[offset..offset + 4]];
      offset := offset + 4;
    }
    if offset != |buffer| {
      return None;
    }
    assert buffer[offset..] == [] && hashes + [] == hashes;
    return Some(hashes);
  }

  lemma {:induction false} SplitFlatten(hashes: seq<MapHash>)
    ensures SplitHashes(Flatten(hashes)) == Some(hashes)
  {
    if hashes != [] {
      var s := Flatten(hashes);
      assert s[..4] == hashes[0] && s[4..] == Flatten(hashes[1..]);
      SplitFlatten(hashes[1..]);
      assert [hashes[0]] + hashes[1..] == hashes;
    }
  }

  /** A request survives the wire except for its last hash, which travels exactly with the exhausted flag. */
  lemma RequestRoundTrip(r: Request)
    ensures DecodeRequest(EncodeRequest(r))
         == Ok(r.(lastMapHash := if !r.hashmapExhausted then None
                                 else if r.lastMapHash.Some? then r.lastMapHash else Some([0, 0, 0, 0])))
    ensures DecodeRequest(EncodeRequest(r)) == Ok(r) <==> (r.hashmapExhausted <==> r.lastMapHash.Some?)
  {
    var e := EncodeRequest(r);
    var head := if r.hashmapExhausted
                then [EXHAUSTED] + (if r.lastMapHash.Some? then r.lastMapHash.value else [0, 0, 0, 0])
                else [NOT_EXHAUSTED];
    assert e == head + (r.resourceId + Flatten(r.requestedHashes));
    assert e[0] == head[0] && e[..|head|] == head;
    assert e[|head|..|head| + 16] == r.resourceId;
    assert e[|head| + 16..] == Flatten(r.requestedHashes);
    if r.hashmapExhausted {
      assert e[1..5] == head[1..];
    }
    SplitFlatten(r.requestedHashes);
  }

  lemma {:induction false} SplitIff(bytes: seq<byte>)
    ensures SplitHashes(bytes).Some? <==> |bytes| % 4 == 0
    ensures SplitHashes(bytes).Some? ==> Flatten(SplitHashes(bytes).value) == bytes
  {
    if |bytes| >= 4 {
      SplitIff(bytes[4..]);
      assert bytes == bytes[..4] + bytes[4..];
      if SplitHashes(bytes).Some? {
        var rest := SplitHashes(bytes[4..]).value;
        assert SplitHashes(bytes).value[1..] == rest;
      }
    }
  }

  /**
   * Which buffers are read: 0xff announces the last map hash, the resource id follows, then whole hashes. What was
   * read is written back as the same octets iff the first of them is 0x00 or 0xff.
   */
  lemma RequestReadIff(buffer: seq<byte>)
    ensures var head := if buffer != [] && buffer[0] == 0xff then 21 else 17;
            && (DecodeRequest(buffer).Ok? <==> |buffer| >= head && (|buffer| - head) % 4 == 0)
            && (DecodeRequest(buffer) == Err(OutOfMemory) <==> |buffer| < head)
    ensures DecodeRequest(buffer).Ok? ==>
              (EncodeRequest(DecodeRequest(buffer).value) == buffer <==> buffer[0] == 0x00 || buffer[0] == 0xff)
  {
    var start := if buffer != [] && buffer[0] == 0xff then 5 else 1;
    if |buffer| >= start + 16 {
      SplitIff(buffer[start + 16..]);
      if DecodeRequest(buffer).Ok? {
        var r := DecodeRequest(buffer).value;
        assert buffer == buffer[..start] + buffer[start..start + 16] + buffer[start + 16..];
        var head := if r.hashmapExhausted then [EXHAUSTED] + r.lastMapHash.value else [NOT_EXHAUSTED];
        assert EncodeRequest(r) == head + buffer[start..start + 16] + buffer[start + 16..];
        assert EncodeRequest(r)[0] == head[0];
        if buffer[0] == 0x00 || buffer[0] == 0xff {
          assert buffer[..start] == head;
        }
      }
    }
  }
}
