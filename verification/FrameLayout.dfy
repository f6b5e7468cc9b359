/** What one encrypted frame looks like on the wire, by byte offset. */
module FrameLayout {
  import opened Base
  import opened Framing

  lemma {:induction false} SealedChunk(c: Cipher, n: nat, p: Bytes, i: nat)
    requires c.Ideal() && 65519 * i < |p|
    ensures var s := SealAll(c, n, Chunks(p)); var size := Min(65519, |p| - 65519 * i);
            && 65535 * i + size + 16 <= |s|
            && c.open(n + i, s[65535 * i..][..size + 16]) == Some(p[65519 * i..][..size])
    decreases |p|
  {
    var s, size := SealAll(c, n, Chunks(p)), Min(65519, |p| - 65519 * i);
    var head := p[..Min(65519, |p|)];
    var rest := SealAll(c, n + 1, Chunks(p)[1..]);
    assert Chunks(p)[0] == head && s == c.seal(n, head) + rest;
    assert c.Seals(n, head);
    if i == 0 {
      assert s[0..] == s && p[0..] == p;
      assert s[..size + 16] == c.seal(n, head);
    } else {
      var tail := p[65519..];
      assert Chunks(p)[1..] == Chunks(tail);
      SealedChunk(c, n + 1, tail, i - 1);
      hide SealAll, Chunks;
      assert s[65535 * i..] == rest[65535 * (i - 1)..];
      assert p[65519 * i..] == tail[65519 * (i - 1)..];
    }
  }

  lemma SmallBytes(v: nat)
    ensures LeBytes(v, 2) == [v % 256, v / 256 % 256]
    ensures LeBytes(v, 3) == [v % 256, v / 256 % 256, v / 0x1_0000 % 256]
  {
    var w := v / 256;
    assert LeBytes(w / 256, 1) == [w / 256 % 256] + LeBytes(w / 256 / 256, 0);
    assert LeBytes(w, 1) == [w % 256] + LeBytes(w / 256, 0);
    assert LeBytes(w, 2) == [w % 256] + LeBytes(w / 256, 1);
    assert LeBytes(v, 2) == [v % 256] + LeBytes(w, 1);
    assert LeBytes(v, 3) == [v % 256] + LeBytes(w, 2);
  }

  lemma HeaderLayout(f: Frame)
    requires |f.payload| <= 1_048_576
    ensures var size := |f.payload|;
            HeaderOf(f) == [f.extension % 256, f.extension / 256, f.kind, size % 256, size / 256 % 256, size / 0x1_0000]
  {
    SmallBytes(f.extension);
    SmallBytes(|f.payload|);
    hide LeBytes;
  }

  lemma HeaderOpens(c: Cipher, n: nat, f: Frame)
    requires c.Ideal()
    ensures var (w, s) := (EncodeFrame(c, n, f), SealAll(c, n + 1, Chunks(f.payload)));
            |w| == 22 + |s| && w[22..] == s && c.open(n, w[..22]) == Some(HeaderOf(f))
  {
    hide SealAll, Chunks;
    assert c.Seals(n, HeaderOf(f));
  }

  predicate ChunkAt(c: Cipher, n: nat, p: Bytes, w: Bytes, i: nat)
    requires 65519 * i < |p|
  {
    var size := Min(65519, |p| - 65519 * i);
    && 22 + 65535 * i + size + 16 <= |w|
    && c.open(n + 1 + i, w[22 + 65535 * i..][..size + 16]) == Some(p[65519 * i..][..size])
  }

  lemma ChunkOpens(c: Cipher, n: nat, f: Frame, i: nat)
    requires c.Ideal() && 65519 * i < |f.payload|
    ensures ChunkAt(c, n, f.payload, EncodeFrame(c, n, f), i)
  {
    var w, s := EncodeFrame(c, n, f), SealAll(c, n + 1, Chunks(f.payload));
    HeaderOpens(c, n, f);
    SealedChunk(c, n + 1, f.payload, i);
    hide SealAll, Chunks, EncodeFrame;
    assert w[22..][65535 * i..] == w[22 + 65535 * i..];
  }

  /**
    An encoded frame starts with 22 bytes that open, as message n, to extension, type and payload size. Then
    the i-th 65519 bytes of the payload, or what is left of it, stand sealed as message n + 1 + i at byte
    22 + 65535 i, and nothing follows the last of them.
   */
  lemma FrameOnWire(c: Cipher, n: nat, f: Frame)
    requires c.Ideal() && |f.payload| <= 1_048_576
    ensures var (w, size) := (EncodeFrame(c, n, f), |f.payload|);
            && |w| == 22 + size + 16 * ((size + 65518) / 65519)
            && c.open(n, w[..22]) == Some([f.extension % 256, f.extension / 256, f.kind,
                                           size % 256, size / 256 % 256, size / 0x1_0000])
            && forall i: nat :: 65519 * i < size ==> ChunkAt(c, n, f.payload, w, i)
  {
    EncodedSize(c, n, f);
    HeaderLayout(f);
    HeaderOpens(c, n, f);
    hide EncodeFrame, HeaderOf, ChunkAt;
    forall i: nat | 65519 * i < |f.payload| ensures ChunkAt(c, n, f.payload, EncodeFrame(c, n, f), i) {
      ChunkOpens(c, n, f, i);
    }
  }
}
