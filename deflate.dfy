/**
  Compression detection and the libdeflate wrappers of src/deflate.hpp.

  libdeflate itself is not part of this model: each of its entry points is a
  function parameter. A decompression entry point takes the compressed bytes
  and the number of bytes available in the output buffer and answers with a
  result code and the bytes it wrote; a compression entry point takes the
  input and the available size and answers with the bytes it wrote (none when
  it failed). The caller's output container, which the source resizes in
  place through a reference, is modelled as an input value and an output value.
*/
module Deflate {
  import opened Wrappers
  import opened Ints

  newtype byte = b: int | 0 <= b < 256

  // ---------------------------------------------------------------------------
  // Stream signatures
  // ---------------------------------------------------------------------------

  /** The two-byte stream heads the detection accepts, listed independently:
      the gzip member head, the four zlib heads, and all five together. */
  const GzipHead: seq<byte> := [0x1F, 0x8B]
  const ZlibHeads: set<seq<byte>> := {[0x78, 0x9C], [0x78, 0x01], [0x78, 0xDA], [0x78, 0x5E]}
  const Signatures: set<seq<byte>> :=
    {[0x1F, 0x8B], [0x78, 0x9C], [0x78, 0x01], [0x78, 0xDA], [0x78, 0x5E]}

  /** A zlib stream (section 2.2 of RFC 1950): CMF 0x78 followed by one of the
      four FLG bytes the source accepts, in an input of more than two bytes. */
  predicate IsZlib(data: seq<byte>): (r: bool)
    ensures r <==> |data| > 2 && data[..2] in ZlibHeads
  {
    |data| > 2 &&
    (assert data[..2] == [data[0], data[1]];
     data[0] == 0x78 && (data[1] == 0x9C || data[1] == 0x01 || data[1] == 0xDA || data[1] == 0x5E))
  }

  /** A gzip member (section 2.3.1 of RFC 1952): ID1 0x1F and ID2 0x8B, in an
      input of more than two bytes. */
  predicate IsGzip(data: seq<byte>): (r: bool)
    ensures r <==> |data| > 2 && data[..2] == GzipHead
  {
    |data| > 2 && (assert data[..2] == [data[0], data[1]]; data[0] == 0x1F && data[1] == 0x8B)
  }

  /** Detection reads exactly the first two bytes of an input longer than two
      bytes and compares them with the five signatures. */
  predicate IsCompressed(data: seq<byte>): (r: bool)
    ensures r <==> |data| > 2 && data[..2] in Signatures
  {
    IsGzip(data) || IsZlib(data)
  }

  /** The gzip and zlib tests never both hold, and no input of two bytes or
      fewer is taken as compressed. */
  lemma FormatsDisjoint(data: seq<byte>)
    ensures !(IsGzip(data) && IsZlib(data))
    ensures |data| <= 2 ==> !IsCompressed(data)
  {
  }

  // ---------------------------------------------------------------------------
  // Buffers and libdeflate results
  // ---------------------------------------------------------------------------

  /** std::vector / std::string resize: keep a prefix, or pad with zero bytes. */
  function Resize(s: seq<byte>, n: nat): (r: seq<byte>)
    ensures |r| == n
    ensures forall i :: 0 <= i < n && i < |s| ==> r[i] == s[i]
  {
    if n <= |s| then s[..n] else s + seq(n - |s|, _ => 0)
  }

  /** What libdeflate leaves in a buffer after writing `written` at its start. */
  function Overwrite(buffer: seq<byte>, written: seq<byte>): seq<byte>
    requires |written| <= |buffer|
  {
    written + buffer[|written|..]
  }

  const SuccessCode: int := 0
  const BadData: int := 1
  const ShortOutput: int := 2
  const InsufficientSpace: int := 3

  /** One call of a libdeflate decompression routine. */
  datatype Inflated = Inflated(code: int, bytes: seq<byte>)

  type InflateFn = (seq<byte>, nat) -> Inflated

  /** libdeflate's own promise: it never reports more bytes than the space it
      was given. */
  ghost predicate WritesWithin(inflate: InflateFn)
  {
    forall data, avail :: |inflate(data, avail).bytes| <= avail
  }

  /** The exception message each final result code raises, or None on success. */
  function ResultError(code: int): (e: Option<string>)
  {
    if code == ShortOutput then Some("short output: did not succeed")
    else if code == BadData then Some("bad data: did not succeed")
    else if code != SuccessCode then Some("did not succeed")
    else None
  }

  lemma ResultErrorOnlyOnFailure(code: int)
    ensures ResultError(code) == None <==> code == SuccessCode
    ensures code == ShortOutput ==> ResultError(code) == Some("short output: did not succeed")
    ensures code == BadData ==> ResultError(code) == Some("bad data: did not succeed")
    ensures code !in {SuccessCode, ShortOutput, BadData} ==> ResultError(code) == Some("did not succeed")
  {
  }

  const ResizeLimitMessage: string := "request to resize output buffer can't exceed maximum limit"

  // ---------------------------------------------------------------------------
  // Growth of the output buffer while libdeflate reports insufficient space
  // ---------------------------------------------------------------------------

  /** The next buffer size exactly as deflate.hpp computes it:
      min((capacity << 1) - size, max). */
  function GrowAsWritten(capacity: nat, size: nat, max: nat): nat
    requires size <= capacity
  {
    Min(2 * capacity - size, max)
  }

  /** Size of the buffer after `retries` passes of the as-written loop, with
      capacity() equal to size(). */
  function SizeAfterRetriesAsWritten(size: nat, max: nat, retries: nat): nat
  {
    if retries == 0 then size
    else GrowAsWritten(SizeAfterRetriesAsWritten(size, max, retries - 1),
                       SizeAfterRetriesAsWritten(size, max, retries - 1), max)
  }

  /** With capacity() equal to size(), a buffer below the limit never grows:
      however many times libdeflate answers "insufficient space", the size
      stays put, never reaches `max`, and the loop neither grows nor throws. */
  lemma {:induction false} AsWrittenRetryNeverGrows(size: nat, max: nat, retries: nat)
    requires size < max
    ensures SizeAfterRetriesAsWritten(size, max, retries) == size
  {
    if retries > 0 {
      AsWrittenRetryNeverGrows(size, max, retries - 1);
    }
  }

  /** The corrected next size: double the buffer, capped at `max`. */
  function Grow(size: nat, max: nat): (r: nat)
    ensures size <= max ==> r <= max
    ensures 0 < size < max ==> size < r
  {
    Min(2 * size, max)
  }

  /** With the corrected growth, where the retry loop ends when it starts
      with a buffer of `size` bytes. */
  datatype Retried = Finished(result: Inflated, size: nat) | Exhausted

  function Retry(inflate: InflateFn, data: seq<byte>, size: nat, max: nat): Retried
    requires size <= max && (0 < size || size == max)
    decreases max - size
  {
    var r := inflate(data, size);
    if r.code != InsufficientSpace then Finished(r, size)
    else if size == max then Exhausted
    else Retry(inflate, data, Grow(size, max), max)
  }

  /** The loop stops at the first size in its sequence for which libdeflate
      does not report insufficient space, never beyond `max`; it gives up only
      after libdeflate found even `max` bytes too few. */
  lemma {:induction false} RetryStaysWithinLimit(inflate: InflateFn, data: seq<byte>, size: nat, max: nat)
    requires size <= max && (0 < size || size == max)
    ensures Retry(inflate, data, size, max).Finished? ==>
      var f := Retry(inflate, data, size, max);
      size <= f.size <= max && f.result == inflate(data, f.size) && f.result.code != InsufficientSpace
    ensures Retry(inflate, data, size, max).Exhausted? ==>
      inflate(data, max).code == InsufficientSpace
    decreases max - size
  {
    var r := inflate(data, size);
    if r.code != InsufficientSpace || size == max {
    } else {
      RetryStaysWithinLimit(inflate, data, Grow(size, max), max);
    }
  }

  // ---------------------------------------------------------------------------
  // Decompressor and Compressor
  // ---------------------------------------------------------------------------

  class Decompressor {
    /** Largest output buffer the decompressor will allocate. */
    const max: nat

    constructor (maxBytes: nat := 2147483648)
      ensures max == maxBytes
    {
      max := maxBytes;
    }

    /** The first size `Apply` tries: four times the input, capped at `max`. */
    function FirstGuess(data: seq<byte>): nat
    {
      Min(|data| * 4, max)
    }

    /** What `Apply` leaves behind, given the point where its loop ends. */
    ghost predicate Applied(inflate: InflateFn, data: seq<byte>, out: seq<byte>, err: Option<string>)
      requires |data| > 0
    {
      |out| <= max &&
      match Retry(inflate, data, FirstGuess(data), max)
      case Exhausted => err == Some(ResizeLimitMessage) && |out| == max
      case Finished(r, n) =>
        err == ResultError(r.code) &&
        (err == None ==> out == r.bytes) &&
        (err != None ==> |out| == n)
    }

    /** Decompress `data` with one libdeflate routine, resizing and retrying
        while the routine reports that the output buffer is too small. */
    method Apply(output: seq<byte>, inflate: InflateFn, data: seq<byte>) returns (out: seq<byte>, err: Option<string>)
      requires WritesWithin(inflate)
      requires |data| > 0
      ensures Applied(inflate, data, out, err)
    {
      var guess := Min(|data| * 4, max);
      out := Resize(output, guess);
      var result := inflate(data, |out|);
      while result.code == InsufficientSpace
        invariant |out| <= max && (0 < |out| || |out| == max)
        invariant result == inflate(data, |out|)
        invariant Retry(inflate, data, guess, max) == Retry(inflate, data, |out|, max)
        decreases max - |out|
      {
        if |out| == max {
          return out, Some(ResizeLimitMessage);
        }
        out := Resize(out, Grow(|out|, max));
        result := inflate(data, |out|);
      }
      err := ResultError(result.code);
      if err == None {
        out := Resize(Overwrite(out, result.bytes), |result.bytes|);
      }
    }

    /** Decompress a gzip or zlib payload; anything else leaves the output as
        it was and raises nothing. */
    method Decompress(output: seq<byte>, data: seq<byte>, gzipInflate: InflateFn, zlibInflate: InflateFn)
      returns (out: seq<byte>, err: Option<string>)
      requires WritesWithin(gzipInflate) && WritesWithin(zlibInflate)
      ensures !IsCompressed(data) ==> out == output && err == None
      ensures IsGzip(data) ==> Applied(gzipInflate, data, out, err)
      ensures IsZlib(data) ==> Applied(zlibInflate, data, out, err)
    {
      FormatsDisjoint(data);
      if IsGzip(data) {
        out, err := Apply(output, gzipInflate, data);
      } else if IsZlib(data) {
        out, err := Apply(output, zlibInflate, data);
      } else {
        out, err := output, None;
      }
    }
  }

  const SizeLimitMessage: string := "size may use more memory than intended when decompressing"
  const EmptyCompressionMessage: string := "actual_compressed_size 0"

  class Compressor {
    /** Largest input the compressor accepts. */
    const max: nat
    /** Compression level handed to libdeflate. */
    const level: int

    constructor (level: int := 6, maxBytes: nat := 2000000000)
      ensures this.level == level && max == maxBytes
    {
      this.level := level;
      max := maxBytes;
    }

    /** gzip-compress `data` into the output buffer. `bound` is libdeflate's
        worst-case compressed size and `deflate` its compression routine, which
        writes nothing when the output does not fit. */
    method Compress(output: seq<byte>, data: seq<byte>, bound: nat -> nat, deflate: (seq<byte>, nat) -> seq<byte>)
      returns (out: seq<byte>, err: Option<string>)
      requires forall d, n :: |deflate(d, n)| <= n
      ensures |data| > max ==> out == output && err == Some(SizeLimitMessage)
      ensures |data| <= max && deflate(data, bound(|data|)) == [] ==>
        err == Some(EmptyCompressionMessage) && |out| == Max(|output|, bound(|data|))
      ensures |data| <= max && deflate(data, bound(|data|)) != [] ==>
        err == None && out == deflate(data, bound(|data|))
    {
      if |data| > max {
        return output, Some(SizeLimitMessage);
      }
      var maxCompressedSize := bound(|data|);
      out := output;
      if maxCompressedSize > |out| {
        out := Resize(out, maxCompressedSize);
      }
      var written := deflate(data, maxCompressedSize);
      if |written| == 0 {
        return out, Some(EmptyCompressionMessage);
      }
      out := Resize(Overwrite(out, written), |written|);
      err := None;
    }
  }
}
