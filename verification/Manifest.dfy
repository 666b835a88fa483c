/** Text decoding as the platform does it. A string is modelled by its UTF-8 bytes; what counts
    as well-formed UTF-8, and how ill-formed input is repaired, are parameters. */
module Text {
  import opened Bytes

  datatype Utf8 = Utf8(wellFormed: Bytes -> bool, repair: Bytes -> Bytes)

  const BOM: Bytes := [0xEF, 0xBB, 0xBF]

  predicate HasBom(b: Bytes) { BOM <= b }

  /** `TextDecoder` drops one leading byte-order mark. */
  function StripBom(b: Bytes): (s: Bytes)
    ensures s == b <==> !HasBom(b)
    ensures |s| <= |b|
  {
    if HasBom(b) then b[3..] else b
  }

  lemma StrippedToNothing(b: Bytes)
    ensures StripBom(b) == [] <==> b == [] || b == BOM
  {
    if HasBom(b) {
      assert b == BOM + b[3..];
    }
  }

  /** `new TextDecoder().decode`: never fails. */
  function DecodeLossy(u: Utf8, b: Bytes): Bytes
  {
    StripBom(if u.wellFormed(b) then b else u.repair(b))
  }

  /** `new TextDecoder("utf-8", { fatal: true }).decode`. */
  function DecodeFatal(u: Utf8, b: Bytes): Option<Bytes>
  {
    if u.wellFormed(b) then Some(StripBom(b)) else None
  }
}

/** File manifests and the canonical chunking of a file (`framing/manifest.ts`). */
module Manifest {
  import opened Bytes
  import opened Text
  import Codec

  const MAX_CHUNK_PLAINTEXT_BYTES: int := Codec.MAX_CHUNK_BYTES - Codec.GCM_TAG_BYTES
  const MAX_INCOMPLETE_TRANSFER_BYTES: int := 67108864
  const MAX_MANIFEST_NAME_BYTES: int := 255
  const MAX_MANIFEST_MIME_BYTES: int := 127
  const SHA256_BYTES: int := 32

  datatype FramingError = Malformed | SizeExceeded

  datatype FileManifest = FileManifest(
    transferId: int,
    name: Bytes,
    mimeType: Bytes,
    size: int,
    chunkCount: int,
    contentHash: Bytes)

  // ----- Chunking -----

  function ChunkCount(size: nat): nat
  {
    if size == 0 then 0 else (size + MAX_CHUNK_PLAINTEXT_BYTES - 1) / MAX_CHUNK_PLAINTEXT_BYTES
  }

  function ChunkBoundaries(size: nat, index: nat): (int, int)
  {
    var start := index * MAX_CHUNK_PLAINTEXT_BYTES;
    var end := if start + MAX_CHUNK_PLAINTEXT_BYTES <= size then start + MAX_CHUNK_PLAINTEXT_BYTES else size;
    (start, end)
  }

  /** The chunks tile the file: each is non-empty, its ciphertext fits the frame cap, the first
      starts at zero, each starts where the previous one ends, and the last ends the file. */
  lemma ChunksTile(size: nat, index: nat)
    requires index < ChunkCount(size)
    ensures 0 <= ChunkBoundaries(size, index).0 < ChunkBoundaries(size, index).1 <= size
    ensures ChunkBoundaries(size, index).1 - ChunkBoundaries(size, index).0 + Codec.GCM_TAG_BYTES <= Codec.MAX_CHUNK_BYTES
    ensures index + 1 < ChunkCount(size) ==> ChunkBoundaries(size, index).1 == ChunkBoundaries(size, index + 1).0
    ensures index + 1 == ChunkCount(size) ==> ChunkBoundaries(size, index).1 == size
  {
    var c := MAX_CHUNK_PLAINTEXT_BYTES;
    var n := ChunkCount(size);
    assert (n - 1) * c < size <= n * c;
    assert index * c <= (n - 1) * c;
    if index + 1 < n {
      assert (index + 1) * c <= (n - 1) * c;
    }
  }

  function ChunkLength(size: nat, index: nat): (n: nat)
    requires index < ChunkCount(size)
    ensures 0 < n <= size
  {
    ChunksTile(size, index);
    ChunkBoundaries(size, index).1 - ChunkBoundaries(size, index).0
  }

  function Slice(data: Bytes, index: nat): (s: Bytes)
    requires index < ChunkCount(|data|)
    ensures |s| == ChunkLength(|data|, index)
  {
    ChunksTile(|data|, index);
    data[ChunkBoundaries(|data|, index).0..ChunkBoundaries(|data|, index).1]
  }

  /** The first `n` chunks of a file, in order, are its first bytes. */
  lemma {:induction false} SlicesJoin(data: Bytes, chunks: seq<Bytes>)
    requires |chunks| <= ChunkCount(|data|)
    requires forall i :: 0 <= i < |chunks| ==> chunks[i] == Slice(data, i)
    ensures Joined(chunks) == if chunks == [] then [] else data[..ChunkBoundaries(|data|, |chunks| - 1).1]
    decreases |chunks|
  {
    if chunks != [] {
      var last := |chunks| - 1;
      SlicesJoin(data, chunks[..last]);
      ChunksTile(|data|, last);
      if last > 0 {
        ChunksTile(|data|, last - 1);
      }
      var (start, end) := ChunkBoundaries(|data|, last);
      assert data[..end] == data[..start] + data[start..end];
    }
  }

  /** Cutting a file into canonical chunks and joining them gives the file back. */
  lemma ChunkingRoundTrip(data: Bytes)
    ensures Joined(seq(ChunkCount(|data|), i requires 0 <= i < ChunkCount(|data|) => Slice(data, i))) == data
  {
    var chunks := seq(ChunkCount(|data|), i requires 0 <= i < ChunkCount(|data|) => Slice(data, i));
    SlicesJoin(data, chunks);
    if chunks != [] {
      ChunksTile(|data|, |chunks| - 1);
      assert data[..|data|] == data;
    }
  }

  // ----- The manifest codec -----

  /** The first check of `encodeManifest` that fails, if any. */
  function ManifestFault(m: FileManifest): Option<FramingError>
  {
    if !Codec.IsUint32(m.transferId) then Some(Malformed)
    else if |m.name| > MAX_MANIFEST_NAME_BYTES then Some(SizeExceeded)
    else if |m.name| == 0 then Some(Malformed)
    else if |m.mimeType| > MAX_MANIFEST_MIME_BYTES then Some(SizeExceeded)
    else if |m.contentHash| != SHA256_BYTES then Some(Malformed)
    else if !(0 <= m.size <= MAX_INCOMPLETE_TRANSFER_BYTES) then Some(SizeExceeded)
    else if m.chunkCount != ChunkCount(m.size) then Some(Malformed)
    else None
  }

  lemma ChunkCountBounded(size: nat)
    requires size <= MAX_INCOMPLETE_TRANSFER_BYTES
    ensures ChunkCount(size) <= size && ChunkCount(size) <= UINT32_MAX
  {
  }

  /** The two texts of a manifest with their lengths. */
  function HeadBytes(m: FileManifest): Bytes
    requires ManifestFault(m).None?
  {
    Uint32Bytes(m.transferId) + [|m.name|] + m.name + [|m.mimeType|] + m.mimeType
  }

  /** Its fixed tail. */
  function TailBytes(m: FileManifest): Bytes
    requires ManifestFault(m).None?
  {
    ChunkCountBounded(m.size);
    Uint32Bytes(m.size) + Uint32Bytes(m.chunkCount) + m.contentHash
  }

  function ManifestBytes(m: FileManifest): Bytes
    requires ManifestFault(m).None?
  {
    HeadBytes(m) + TailBytes(m)
  }

  method EncodeManifest(m: FileManifest) returns (r: Result<Bytes, FramingError>)
    ensures ManifestFault(m).Some? ==> r == Err(ManifestFault(m).value)
    ensures ManifestFault(m).None? ==> r == Ok(ManifestBytes(m))
  {
    if ManifestFault(m).Some? {
      return Err(ManifestFault(m).value);
    }
    ChunkCountBounded(m.size);
    var out := new byte[4 + 1 + |m.name| + 1 + |m.mimeType| + 4 + 4 + SHA256_BYTES](_ => 0);
    var offset := 0;
    WriteUint32Be(out, offset, m.transferId);
    offset := offset + 4;
    WriteText(out, offset, m.name);
    offset := offset + 1 + |m.name|;
    WriteText(out, offset, m.mimeType);
    offset := offset + 1 + |m.mimeType|;
    assert out[..offset] == HeadBytes(m);
    WriteTail(out, offset, m);
    return Ok(out[..]);
  }

  /** A text behind its length. */
  method WriteText(out: array<byte>, start: nat, text: Bytes)
    requires |text| < 256 && start + 1 + |text| <= out.Length
    modifies out
    ensures out[..start + 1 + |text|] == old(out[..start]) + [|text|] + text
  {
    PutByte(out, start, |text|);
    SetBytes(out, start + 1, text);
  }

  method WriteTail(out: array<byte>, start: nat, m: FileManifest)
    requires ManifestFault(m).None? && out.Length == start + 4 + 4 + SHA256_BYTES
    modifies out
    ensures out[..] == old(out[..start]) + TailBytes(m)
  {
    var offset := start;
    ChunkCountBounded(m.size);
    WriteUint32Be(out, offset, m.size);
    offset := offset + 4;
    WriteUint32Be(out, offset, m.chunkCount);
    offset := offset + 4;
    SetBytes(out, offset, m.contentHash);
    assert out[..] == out[..offset + SHA256_BYTES];
  }

  /** The manifest as the receiving host sees it: both texts went through the decoder. */
  function Shown(u: Utf8, m: FileManifest): FileManifest
  {
    m.(name := DecodeLossy(u, m.name), mimeType := DecodeLossy(u, m.mimeType))
  }

  /** What a receiver may rely on after `decodeManifest`: the size is within the budget and the chunk
      count is the one the size determines. */
  predicate Canonical(m: FileManifest)
  {
    0 <= m.size <= MAX_INCOMPLETE_TRANSFER_BYTES && m.chunkCount == ChunkCount(m.size) && |m.contentHash| == SHA256_BYTES
  }

  function DecodeManifest(u: Utf8, b: Bytes, expectedTransferId: int): (r: Result<FileManifest, FramingError>)
    ensures r.Ok? ==> Canonical(r.value) && r.value.transferId == expectedTransferId
  {
    if |b| < 6 then Err(Malformed)
    else if Uint32At(b, 0) != expectedTransferId then Err(Malformed)
    else
      var nameEnd := 5 + b[4] as int;
      if nameEnd > |b| then Err(Malformed)
      else if b[4] == 0 then Err(Malformed)
      else if b[4] > MAX_MANIFEST_NAME_BYTES then Err(SizeExceeded)
      else if nameEnd >= |b| then Err(Malformed)
      else
        var mimeEnd := nameEnd + 1 + b[nameEnd] as int;
        if mimeEnd > |b| then Err(Malformed)
        else if b[nameEnd] > MAX_MANIFEST_MIME_BYTES then Err(SizeExceeded)
        else if mimeEnd + 4 + 4 + SHA256_BYTES > |b| then Err(Malformed)
        else if mimeEnd + 4 + 4 + SHA256_BYTES != |b| then Err(Malformed)
        else
          var size := Uint32At(b, mimeEnd);
          var chunkCount := Uint32At(b, mimeEnd + 4);
          if size > MAX_INCOMPLETE_TRANSFER_BYTES then Err(SizeExceeded)
          else if chunkCount != ChunkCount(size) then Err(Malformed)
          else Ok(FileManifest(expectedTransferId, DecodeLossy(u, b[5..nameEnd]),
                               DecodeLossy(u, b[nameEnd + 1..mimeEnd]), size, chunkCount, b[mimeEnd + 8..]))
  }

  lemma HeadSlices(m: FileManifest, b: Bytes)
    requires ManifestFault(m).None? && HeadBytes(m) <= b
    ensures var n, t := 5 + |m.name|, 6 + |m.name| + |m.mimeType|;
            t == |HeadBytes(m)| && Uint32At(b, 0) == m.transferId && b[4] == |m.name| && b[5..n] == m.name
            && b[n] == |m.mimeType| && b[n + 1..t] == m.mimeType
  {
    var h := HeadBytes(m);
    assert b[0..4] == h[0..4] == Uint32Bytes(m.transferId);
    Codec.Uint32In(b, 0, m.transferId);
    var n, t := 5 + |m.name|, 6 + |m.name| + |m.mimeType|;
    assert b[5..n] == h[5..n] == m.name;
    assert b[n + 1..t] == h[n + 1..t] == m.mimeType;
  }

  lemma TailSlices(m: FileManifest, b: Bytes, t: nat)
    requires ManifestFault(m).None? && t <= |b| && b[t..] == TailBytes(m)
    ensures |b| == t + 40 && Uint32At(b, t) == m.size && Uint32At(b, t + 4) == m.chunkCount && b[t + 8..] == m.contentHash
  {
    ChunkCountBounded(m.size);
    var w := b[t..];
    assert b[t..t + 4] == w[..4] == Uint32Bytes(m.size);
    assert b[t + 4..t + 8] == w[4..8] == Uint32Bytes(m.chunkCount);
    assert b[t + 8..] == w[8..];
    Codec.Uint32In(b, t, m.size);
    Codec.Uint32In(b, t + 4, m.chunkCount);
  }

  /** Every encoding is accepted, and shows what was encoded. */
  lemma DecodesEncoding(u: Utf8, m: FileManifest)
    requires ManifestFault(m).None?
    ensures DecodeManifest(u, ManifestBytes(m), m.transferId) == Ok(Shown(u, m))
  {
    var b := ManifestBytes(m);
    var t := |HeadBytes(m)|;
    assert HeadBytes(m) <= b && b[t..] == TailBytes(m);
    HeadSlices(m, b);
    TailSlices(m, b, t);
    DecodesSlices(u, m, b, t);
  }

  lemma DecodesSlices(u: Utf8, m: FileManifest, b: Bytes, t: nat)
    requires ManifestFault(m).None? && t == 6 + |m.name| + |m.mimeType| && |b| == t + 40
    requires Uint32At(b, 0) == m.transferId && b[4] == |m.name| && b[5..5 + |m.name|] == m.name
    requires b[5 + |m.name|] == |m.mimeType| && b[6 + |m.name|..t] == m.mimeType
    requires Uint32At(b, t) == m.size && Uint32At(b, t + 4) == m.chunkCount && b[t + 8..] == m.contentHash
    ensures DecodeManifest(u, b, m.transferId) == Ok(Shown(u, m))
  {
  }

  lemma HeadCut(m: FileManifest, b: Bytes)
    requires ManifestFault(m).None?
    requires var n := 5 + |m.name|; var t := n + 1 + |m.mimeType|;
             t <= |b| && Uint32At(b, 0) == m.transferId && b[4] == |m.name| && m.name == b[5..n]
             && b[n] == |m.mimeType| && m.mimeType == b[n + 1..t]
    ensures b[..6 + |m.name| + |m.mimeType|] == HeadBytes(m)
  {
    Uint32Exact(b, 0);
    var n := 5 + |m.name|;
    assert b[..5] == Uint32Bytes(m.transferId) + [|m.name|];
    assert b[..n] == b[..5] + m.name;
    assert b[..n + 1] == b[..n] + [|m.mimeType|];
    assert b[..n + 1 + |m.mimeType|] == b[..n + 1] + m.mimeType;
  }

  lemma TailCut(m: FileManifest, b: Bytes, t: nat)
    requires ManifestFault(m).None? && |b| == t + 40
    requires Uint32At(b, t) == m.size && Uint32At(b, t + 4) == m.chunkCount && b[t + 8..] == m.contentHash
    ensures b[t..] == TailBytes(m)
  {
    ChunkCountBounded(m.size);
    Uint32Exact(b, t);
    Uint32Exact(b, t + 4);
    assert b[t..] == b[t..t + 4] + b[t + 4..t + 8] + b[t + 8..];
  }

  /** Nothing but an encoding is accepted: the accepted bytes are the encoding of one manifest. */
  lemma DecodesOnlyEncodings(u: Utf8, b: Bytes, transferId: int) returns (sent: FileManifest)
    requires DecodeManifest(u, b, transferId).Ok?
    ensures ManifestFault(sent).None? && ManifestBytes(sent) == b && sent.transferId == transferId
    ensures DecodeManifest(u, b, transferId) == Ok(Shown(u, sent))
  {
    var n := 5 + b[4] as int;
    var t := n + 1 + b[n] as int;
    sent := FileManifest(transferId, b[5..n], b[n + 1..t], Uint32At(b, t), Uint32At(b, t + 4), b[t + 8..]);
    HeadCut(sent, b);
    TailCut(sent, b, t);
    assert b == b[..t] + b[t..];
  }

  /** A manifest comes back unchanged exactly when neither of its texts starts with a byte-order
      mark: the decoder drops that mark, which the encoder writes. */
  lemma ManifestRoundTrip(u: Utf8, m: FileManifest)
    requires ManifestFault(m).None? && u.wellFormed(m.name) && u.wellFormed(m.mimeType)
    ensures DecodeManifest(u, ManifestBytes(m), m.transferId) == Ok(m)
       <==> !HasBom(m.name) && !HasBom(m.mimeType)
  {
    DecodesEncoding(u, m);
  }

  /** The name check looks at the wire bytes, and the decoder drops a byte-order mark afterwards. So a
      manifest that the encoder accepts arrives with an empty name exactly when the sent name is only that
      mark, or, where the name is not UTF-8, when the decoder repairs it to nothing or to that mark. */
  lemma EmptyNameExactly(u: Utf8, m: FileManifest)
    requires ManifestFault(m).None?
    ensures var r := DecodeManifest(u, ManifestBytes(m), m.transferId);
            m.name != [] && r.Ok?
            && (r.value.name == []
                <==> (if u.wellFormed(m.name) then m.name == BOM else u.repair(m.name) == [] || u.repair(m.name) == BOM))
  {
    DecodesEncoding(u, m);
    StrippedToNothing(m.name);
    StrippedToNothing(u.repair(m.name));
  }

  /** The same of every payload a receiver accepts. */
  lemma EmptyNameReceived(u: Utf8, b: Bytes, transferId: int)
    requires DecodeManifest(u, b, transferId).Ok?
    ensures b[4] > 0
    ensures var name := b[5..5 + b[4] as int];
            (DecodeManifest(u, b, transferId).value.name == []
             <==> (if u.wellFormed(name) then name == BOM else u.repair(name) == [] || u.repair(name) == BOM))
  {
    var sent := DecodesOnlyEncodings(u, b, transferId);
    HeadSlices(sent, b);
    StrippedToNothing(sent.name);
    StrippedToNothing(u.repair(sent.name));
  }

  /** Such a manifest exists: named by the mark alone. */
  lemma EmptyNameAdmitted(u: Utf8) returns (m: FileManifest)
    requires u.wellFormed(BOM)
    ensures ManifestFault(m).None? && m.name != []
    ensures DecodeManifest(u, ManifestBytes(m), m.transferId).Ok?
    ensures DecodeManifest(u, ManifestBytes(m), m.transferId).value.name == []
  {
    m := FileManifest(0, BOM, [], 0, 0, seq(SHA256_BYTES, _ => 0));
    EmptyNameExactly(u, m);
  }
}
