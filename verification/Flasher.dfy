/** Image flashing: block-wise writing, then block-wise read-back under a running hash. */
module Flasher {
  import opened Bytes

  datatype FlashResult = FlashResult(success: bool, bytesWritten: nat, verified: bool, dryRun: bool)

  /** What opening for writing leaves: a file is emptied, a block device keeps its content and size. */
  function Opened(content: Blob, blockDevice: bool): Blob {
    if blockDevice then content else []
  }

  predicate Fits(image: Blob, content: Blob, blockDevice: bool) {
    blockDevice ==> |image| <= |content|
  }

  /** The content after the first `n` image bytes are written over `base`. */
  function Overwritten(base: Blob, image: Blob, n: nat): Blob
    requires n <= |image|
  {
    if n <= |base| then image[..n] + base[n..] else image[..n]
  }

  lemma OverwrittenNothing(base: Blob, image: Blob)
    ensures Overwritten(base, image, 0) == base
  {
  }

  function Min(a: nat, b: nat): nat {
    if a <= b then a else b
  }

  lemma NextChunk(off: nat, blockSize: nat, size: nat)
    requires off < size
    ensures off + Min(blockSize, size - off) == Min(off + blockSize, size)
  {
  }

  /** `content` with `x` stored at `pos`, growing at the end if needed. */
  function Splice(content: Blob, pos: nat, x: Blob): Blob
    requires pos <= |content|
  {
    content[..pos] + x + (if pos + |x| <= |content| then content[pos + |x|..] else [])
  }

  /** One chunk written behind the first `off` image bytes. */
  lemma WriteStep(base: Blob, image: Blob, off: nat, chunk: Blob)
    requires off + |chunk| <= |image| && chunk == image[off..off + |chunk|]
    ensures var before := Overwritten(base, image, off);
      && off <= |before| && |before| >= |base|
      && Splice(before, off, chunk) == Overwritten(base, image, off + |chunk|)
      && (off <= |base| ==> |before| == |base|)
      && (off <= |base| < off + |chunk| ==> Splice(before, off, chunk[..|base| - off]) == image[..|base|])
  {
    SpliceWhole(base, image, off, chunk);
    if off <= |base| < off + |chunk| {
      SpliceWhole(base, image, off, chunk[..|base| - off]);
    }
  }

  lemma SpliceWhole(base: Blob, image: Blob, off: nat, chunk: Blob)
    requires off + |chunk| <= |image| && chunk == image[off..off + |chunk|]
    ensures var before := Overwritten(base, image, off);
      off <= |before| && Splice(before, off, chunk) == Overwritten(base, image, off + |chunk|)
  {
    var before := Overwritten(base, image, off);
    assert before[..off] == image[..off];
    assert image[..off] + chunk == image[..off + |chunk|];
    if off + |chunk| <= |base| {
      assert before[off + |chunk|..] == base[off + |chunk|..];
    }
  }

  class Device {
    const blockDevice: bool
    /** What reading returns for a given stored content; the identity on a healthy medium. */
    const medium: Blob -> Blob
    var content: Blob

    constructor (blockDevice: bool, medium: Blob -> Blob, content: Blob)
      ensures this.blockDevice == blockDevice && this.medium == medium && this.content == content
    {
      this.blockDevice := blockDevice;
      this.medium := medium;
      this.content := content;
    }

    method OpenForWriting()
      modifies this
      ensures content == Opened(old(content), blockDevice)
    {
      if !blockDevice {
        content := [];
      }
    }

    /** Writes one chunk at `pos`; a block device refuses bytes beyond its end after storing what fits. */
    method Write(pos: nat, chunk: Blob) returns (ok: bool)
      requires pos <= |content|
      modifies this
      ensures ok <==> !blockDevice || pos + |chunk| <= |old(content)|
      ensures content == Splice(old(content), pos, if ok then chunk else chunk[..|old(content)| - pos])
    {
      ok := !blockDevice || pos + |chunk| <= |content|;
      content := Splice(content, pos, if ok then chunk else chunk[..|content| - pos]);
    }

    method WriteImage(image: Blob, blockSize: nat) returns (ok: bool, written: nat)
      requires blockSize > 0
      modifies this
      ensures ok <==> Fits(image, old(content), blockDevice)
      ensures ok ==> written == |image| && content == Overwritten(Opened(old(content), blockDevice), image, |image|)
      ensures !ok ==> content == image[..|old(content)|]
    {
      OpenForWriting();
      ok, written := WriteChunks(image, blockSize);
    }

    /** The write loop: the chunks are consecutive slices of the image. */
    method WriteChunks(image: Blob, blockSize: nat) returns (ok: bool, written: nat)
      requires blockSize > 0
      modifies this
      ensures ok <==> Fits(image, old(content), blockDevice)
      ensures ok ==> written == |image| && content == Overwritten(old(content), image, |image|)
      ensures !ok ==> content == image[..|old(content)|]
    {
      ghost var base := content;
      written := 0;
      var off := 0;
      OverwrittenNothing(base, image);
      while off < |image|
        invariant written == Min(off, |image|)
        invariant content == Overwritten(base, image, written)
        invariant blockDevice ==> written <= |base|
        decreases |image| - off
      {
        var n := Min(blockSize, |image| - off);
        var fits := WriteChunk(image, off, n, base);
        if !fits {
          return false, written;
        }
        NextChunk(off, blockSize, |image|);
        written := written + n;
        off := off + blockSize;
      }
      assert written == |image|;
      return true, written;
    }

    /** Writes the chunk of `n` image bytes at `off`. */
    method WriteChunk(image: Blob, off: nat, n: nat, ghost base: Blob) returns (fits: bool)
      requires off + n <= |image| && (blockDevice ==> off <= |base|)
      requires content == Overwritten(base, image, off)
      modifies this
      ensures fits <==> !blockDevice || off + n <= |base|
      ensures fits ==> content == Overwritten(base, image, off + n)
      ensures !fits ==> content == image[..|base|]
    {
      var chunk := image[off..off + n];
      WriteStep(base, image, off, chunk);
      assert |chunk| == n;
      fits := Write(off, chunk);
    }

    /** The read-back loop: hashes the bytes read until the image length or the end of the medium. */
    method ReadBack(length: nat, blockSize: nat) returns (hashed: Blob)
      requires blockSize > 0
      ensures hashed == medium(content)[..Min(length, |medium(content)|)]
    {
      var data := medium(content);
      hashed := [];
      var remaining := length;
      while remaining > 0
        invariant 0 <= remaining <= length
        invariant |hashed| == length - remaining <= |data|
        invariant hashed == data[..|hashed|]
      {
        var pos := length - remaining;
        var chunk := data[pos..Min(pos + Min(blockSize, remaining), |data|)];
        if chunk == [] {
          break;
        }
        hashed := hashed + chunk;
        remaining := remaining - |chunk|;
      }
    }

    /** Refuses devices outside the allowlist, reports only on a dry run, otherwise writes and verifies. */
    method Flash(image: Blob, allowed: bool, dryRun: bool, verify: bool, blockSize: nat, sha: Blob -> string)
      returns (r: FlashResult)
      requires blockSize > 0
      modifies this
      ensures !allowed ==> !r.success && content == old(content)
      ensures allowed && dryRun ==> r == FlashResult(true, 0, false, true) && content == old(content)
      ensures allowed && !dryRun && !Fits(image, old(content), blockDevice) ==>
        r == FlashResult(false, 0, false, false) && content == image[..|old(content)|]
      ensures allowed && !dryRun && Fits(image, old(content), blockDevice) ==>
        && content == Overwritten(Opened(old(content), blockDevice), image, |image|)
        && image <= content
        && r.bytesWritten == |image| && !r.dryRun
        && (r.verified <==> verify && sha(medium(content)[..Min(|image|, |medium(content)|)]) == sha(image))
        && (r.success <==> !verify || r.verified)
    {
      if !allowed {
        return FlashResult(false, 0, false, false);
      }
      if dryRun {
        return FlashResult(true, 0, false, true);
      }
      var ok, written := WriteImage(image, blockSize);
      if !ok {
        return FlashResult(false, 0, false, false);
      }
      var verified := false;
      if verify {
        var hashed := ReadBack(|image|, blockSize);
        verified := sha(hashed) == sha(image);
        if !verified {
          return FlashResult(false, written, false, false);
        }
      }
      return FlashResult(true, written, verified, false);
    }
  }

  /** With an injective hash, verification succeeds exactly when the medium returns the image. */
  lemma VerifiedMeansReadsBack(image: Blob, read: Blob, sha: Blob -> string)
    requires Injective(sha)
    ensures sha(read[..Min(|image|, |read|)]) == sha(image) <==> image <= read
  {
    if image <= read {
      assert read[..|image|] == image;
    }
  }

  /** A write to a healthy medium always verifies, whatever was on the device before. */
  lemma HealthyMediumVerifies(image: Blob, before: Blob, blockDevice: bool, sha: Blob -> string)
    requires Fits(image, before, blockDevice)
    ensures var after := Overwritten(Opened(before, blockDevice), image, |image|);
      && sha(after[..Min(|image|, |after|)]) == sha(image)
      && (blockDevice ==> |after| == |before| && after[|image|..] == before[|image|..])
      && (!blockDevice ==> after == image)
  {
    var after := Overwritten(Opened(before, blockDevice), image, |image|);
    assert after[..|image|] == image;
  }

  /** Flashing the same image twice leaves the device as after the first time. */
  lemma FlashTwice(image: Blob, before: Blob, blockDevice: bool)
    requires Fits(image, before, blockDevice)
    ensures var once := Overwritten(Opened(before, blockDevice), image, |image|);
      Fits(image, once, blockDevice) && Overwritten(Opened(once, blockDevice), image, |image|) == once
  {
  }
}
