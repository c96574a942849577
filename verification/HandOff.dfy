/**
 The hidden state on the wire: the serialised form of an activation tensor
 (src/candle_backend.rs, `get_state` and `set_state`) and the envelope it travels in (src/crypto.rs).
 */
module HandOff {
  import opened Wrappers

  /** A three-dimensional activation tensor, flattened row-major. */
  datatype Tensor = Tensor(d1: nat, d2: nat, d3: nat, data: seq<Word>)

  predicate TensorValid(t: Tensor) {
    && |t.data| == t.d1 * t.d2 * t.d3
    && t.d1 < U64_LIMIT && t.d2 < U64_LIMIT && t.d3 < U64_LIMIT && |t.data| < U64_LIMIT
  }

  datatype DecodeError = Truncated | NotF32 | ShapeMismatch

  // ---------------------------------------------------------------- little-endian integers

  function Pow256(n: nat): (p: nat)
    ensures p > 0
  {
    if n == 0 then 1 else 256 * Pow256(n - 1)
  }

  function LeBytes(x: nat, n: nat): (bs: seq<byte>)
    ensures |bs| == n
  {
    if n == 0 then [] else [x % 256] + LeBytes(x / 256, n - 1)
  }

  function FromLe(bs: seq<byte>): (x: nat)
    ensures x < Pow256(|bs|)
  {
    if bs == [] then 0 else bs[0] + 256 * FromLe(bs[1..])
  }

  lemma {:induction false} LeRoundTrip(x: nat, n: nat)
    requires x < Pow256(n)
    ensures FromLe(LeBytes(x, n)) == x
  {
    if n > 0 {
      LeRoundTrip(x / 256, n - 1);
      assert LeBytes(x, n)[1..] == LeBytes(x / 256, n - 1);
    }
  }

  lemma Pow256Values()
    ensures Pow256(4) == 0x1_0000_0000 && Pow256(8) == U64_LIMIT
  {
    assert Pow256(2) == 0x1_0000;
    assert Pow256(6) == 0x1_0000_0000_0000;
  }

  // ---------------------------------------------------------------- float payloads

  function WordBytes(ws: seq<Word>): (bs: seq<byte>)
    ensures |bs| == 4 * |ws|
  {
    if ws == [] then [] else LeBytes(ws[0] as int, 4) + WordBytes(ws[1..])
  }

  function WordsFrom(bs: seq<byte>, count: nat): (ws: seq<Word>)
    requires 4 * count <= |bs|
    ensures |ws| == count
  {
    if count == 0 then [] else
      Pow256Values();
      [FromLe(bs[..4]) as Word] + WordsFrom(bs[4..], count - 1)
  }

  lemma {:induction false} WordsRoundTrip(ws: seq<Word>)
    ensures WordsFrom(WordBytes(ws), |ws|) == ws
  {
    if ws != [] {
      Pow256Values();
      LeRoundTrip(ws[0] as int, 4);
      WordsRoundTrip(ws[1..]);
      assert WordBytes(ws)[..4] == LeBytes(ws[0] as int, 4);
      assert WordBytes(ws)[4..] == WordBytes(ws[1..]);
    }
  }

  // ---------------------------------------------------------------- the tensor format

  /** Bytes before the payload: variant tag, three dimensions, element count. */
  const HEADER: nat := 36

  function Encode(t: Tensor): (bs: seq<byte>)
    ensures |bs| == HEADER + 4 * |t.data|
  {
    LeBytes(0, 4) + LeBytes(t.d1, 8) + LeBytes(t.d2, 8) + LeBytes(t.d3, 8) + LeBytes(|t.data|, 8) + WordBytes(t.data)
  }

  /** Decoding of the variant that `Encode` writes. Bytes after the payload are ignored. */
  function Decode(bs: seq<byte>): Result<Tensor, DecodeError> {
    if |bs| < HEADER then Err(Truncated) else
    if FromLe(bs[..4]) != 0 then Err(NotF32) else
      var count := FromLe(bs[28..36]);
      if |bs| < HEADER + 4 * count then Err(Truncated) else
        var t := Tensor(FromLe(bs[4..12]), FromLe(bs[12..20]), FromLe(bs[20..28]), WordsFrom(bs[HEADER..], count));
        if count != t.d1 * t.d2 * t.d3 then Err(ShapeMismatch) else Ok(t)
  }

  lemma FieldAt(before: seq<byte>, field: seq<byte>, after: seq<byte>)
    ensures (before + field + after)[|before|..|before| + |field|] == field
    ensures (before + field + after)[..|before|] == before
    ensures (before + field + after)[|before| + |field|..] == after
  {
  }

  lemma EncodedFields(t: Tensor)
    ensures var bs := Encode(t);
            && bs[..4] == LeBytes(0, 4)
            && bs[4..12] == LeBytes(t.d1, 8)
            && bs[12..20] == LeBytes(t.d2, 8)
            && bs[20..28] == LeBytes(t.d3, 8)
            && bs[28..36] == LeBytes(|t.data|, 8)
            && bs[HEADER..] == WordBytes(t.data)
  {
    var (a, b, c, d, e, f) :=
      (LeBytes(0, 4), LeBytes(t.d1, 8), LeBytes(t.d2, 8), LeBytes(t.d3, 8), LeBytes(|t.data|, 8), WordBytes(t.data));
    assert Encode(t) == a + b + (c + d + e + f) == a + b + c + (d + e + f) == a + b + c + d + (e + f);
    FieldAt(a, b, c + d + e + f);
    FieldAt(a + b, c, d + e + f);
    FieldAt(a + b + c, d, e + f);
    FieldAt(a + b + c + d, e, f);
  }

  // ---------------------------------------------------------------- the format, byte by byte

  /** Byte `j` of a number, the least significant first. */
  function ByteOf(x: nat, j: nat): byte { x / Pow256(j) % 256 }

  /** The `n` bytes at position `at` are those of `x`. */
  predicate FieldIs(bs: seq<byte>, at: nat, n: nat, x: nat) {
    at + n <= |bs| && forall j :: 0 <= j < n ==> bs[at + j] == ByteOf(x, j)
  }

  lemma DivideTwice(x: nat, d: nat)
    requires d > 0
    ensures x / 256 / d == x / (256 * d)
  {
    var (q, r) := (x / 256 / d, x / 256 % d);
    assert x / 256 == d * q + r;
    assert x == 256 * (d * q + r) + x % 256;
    QuotientIs(x, 256 * d, q, 256 * r + x % 256);
  }

  lemma QuotientIs(x: nat, d: nat, q: nat, rest: nat)
    requires d > 0 && rest < d && x == d * q + rest
    ensures x / d == q
  {
    SameQuotient(d, q, rest, x / d, x % d);
  }

  lemma SameQuotient(d: nat, q: nat, r: nat, q': nat, r': nat)
    requires r < d && r' < d && d * q + r == d * q' + r'
    ensures q == q'
  {
    if q < q' {
      NextMultiple(d, q, q');
    } else if q' < q {
      NextMultiple(d, q', q);
    }
  }

  lemma NextMultiple(d: nat, q: nat, q': nat)
    requires q < q'
    ensures d * q + d <= d * q'
  {
    assert d * q' == d * (q + 1) + d * (q' - q - 1);
  }

  lemma {:induction false} LeByteAt(x: nat, n: nat, j: nat)
    requires j < n
    ensures LeBytes(x, n)[j] == ByteOf(x, j)
  {
    if j > 0 {
      LeByteAt(x / 256, n - 1, j - 1);
      DivideTwice(x, Pow256(j - 1));
    }
  }

  lemma FieldWritten(bs: seq<byte>, at: nat, n: nat, x: nat)
    requires at + n <= |bs| && bs[at..at + n] == LeBytes(x, n)
    ensures FieldIs(bs, at, n, x)
  {
    forall j | 0 <= j < n
      ensures bs[at + j] == ByteOf(x, j)
    {
      LeByteAt(x, n, j);
      assert bs[at..at + n][j] == bs[at + j];
    }
  }

  lemma {:induction false} WordAt(ws: seq<Word>, i: nat)
    requires i < |ws|
    ensures WordBytes(ws)[4 * i..4 * i + 4] == LeBytes(ws[i] as int, 4)
  {
    if i > 0 {
      WordAt(ws[1..], i - 1);
      assert WordBytes(ws)[4..] == WordBytes(ws[1..]);
      assert WordBytes(ws)[4 * i..4 * i + 4] == WordBytes(ws)[4..][4 * (i - 1)..4 * (i - 1) + 4];
    }
  }

  lemma SliceOfRest(bs: seq<byte>, start: nat, offset: nat, n: nat)
    requires start + offset + n <= |bs|
    ensures bs[start..][offset..offset + n] == bs[start + offset..start + offset + n]
  {
    var (inner, outer) := (bs[start..][offset..offset + n], bs[start + offset..start + offset + n]);
    assert forall k :: 0 <= k < n ==> inner[k] == outer[k];
  }

  lemma WordWritten(bs: seq<byte>, ws: seq<Word>, i: nat)
    requires i < |ws| && |bs| == 36 + 4 * |ws| && bs[36..] == WordBytes(ws)
    ensures FieldIs(bs, 36 + 4 * i, 4, ws[i] as int)
  {
    WordAt(ws, i);
    SliceOfRest(bs, 36, 4 * i, 4);
    FieldWritten(bs, 36 + 4 * i, 4, ws[i] as int);
  }

  /**
   The encoding is the tag zero in four bytes, the three dimensions and the number of elements in eight bytes each,
   and the elements in four bytes each, all with the least significant byte first.
   */
  lemma WireFormat(t: Tensor)
    ensures var bs := Encode(t);
            && |bs| == 36 + 4 * |t.data|
            && FieldIs(bs, 0, 4, 0)
            && FieldIs(bs, 4, 8, t.d1) && FieldIs(bs, 12, 8, t.d2) && FieldIs(bs, 20, 8, t.d3)
            && FieldIs(bs, 28, 8, |t.data|)
            && forall i :: 0 <= i < |t.data| ==> FieldIs(bs, 36 + 4 * i, 4, t.data[i] as int)
  {
    var bs := Encode(t);
    EncodedFields(t);
    FieldWritten(bs, 0, 4, 0);
    FieldWritten(bs, 4, 8, t.d1);
    FieldWritten(bs, 12, 8, t.d2);
    FieldWritten(bs, 20, 8, t.d3);
    FieldWritten(bs, 28, 8, |t.data|);
    forall i | 0 <= i < |t.data|
      ensures FieldIs(bs, 36 + 4 * i, 4, t.data[i] as int)
    {
      WordWritten(bs, t.data, i);
    }
  }

  /** Serialising is lossless: any tensor, of any shape, comes back bit for bit. */
  lemma CodecRoundTrip(t: Tensor)
    requires TensorValid(t)
    ensures Decode(Encode(t)) == Ok(t)
  {
    EncodedFields(t);
    Pow256Values();
    LeRoundTrip(0, 4);
    LeRoundTrip(t.d1, 8);
    LeRoundTrip(t.d2, 8);
    LeRoundTrip(t.d3, 8);
    LeRoundTrip(|t.data|, 8);
    WordsRoundTrip(t.data);
  }

  // ---------------------------------------------------------------- the envelope

  type Key(==) = seq<byte>

  /**
   The cipher and the compressor, as functions. `seal(nonce, key, aad, data)` is encryption under
   additional authenticated data; `open(key, aad, sealed)` is its checked inverse.
   */
  datatype Envelope = Envelope(
    compress: seq<byte> -> seq<byte>,
    decompress: seq<byte> -> Option<seq<byte>>,
    seal: (nat, Key, string, seq<byte>) -> seq<byte>,
    open: (Key, string, seq<byte>) -> Option<seq<byte>>)

  /** Decompression refuses to produce more than 256 MiB. */
  const DECOMPRESS_CAP: nat := 256 * 1024 * 1024

  /** The premise about the libraries: exact inverses, up to the decompression cap. */
  ghost predicate Ideal(env: Envelope) {
    && (forall d :: env.decompress(env.compress(d)) == if |d| <= DECOMPRESS_CAP then Some(d) else None)
    && (forall n, k, a, d :: env.seal(n, k, a, d) != [] && env.open(k, a, env.seal(n, k, a, d)) == Some(d))
  }

  function Wrap(env: Envelope, nonce: nat, key: Key, taskId: string, raw: seq<byte>): seq<byte> {
    env.seal(nonce, key, taskId, env.compress(raw))
  }

  datatype UnwrapError = DecryptionFailed | DecompressionFailed

  function Unwrap(env: Envelope, key: Key, taskId: string, sealed: seq<byte>): Result<seq<byte>, UnwrapError> {
    match env.open(key, taskId, sealed)
    case None => Err(DecryptionFailed)
    case Some(compressed) =>
      match env.decompress(compressed)
      case None => Err(DecompressionFailed)
      case Some(raw) => Ok(raw)
  }

  /**
   The hidden state of one node, encoded, compressed and sealed, and then opened and decoded by another
   node with the same key and task, is the same tensor exactly when its encoding fits the decompression
   cap; beyond the cap the receiving node reports a decompression failure.
   */
  lemma HandOffRoundTrip(env: Envelope, nonce: nat, key: Key, taskId: string, t: Tensor)
    requires Ideal(env) && TensorValid(t)
    ensures var sealed := Wrap(env, nonce, key, taskId, Encode(t));
            var received := Unwrap(env, key, taskId, sealed);
            && sealed != []
            && (received.Ok? && Decode(received.value) == Ok(t)
                <==> 36 + 4 * (t.d1 * t.d2 * t.d3) <= 268435456)
            && (36 + 4 * (t.d1 * t.d2 * t.d3) > 268435456 ==> received == Err(DecompressionFailed))
  {
    var raw := Encode(t);
    assert env.open(key, taskId, env.seal(nonce, key, taskId, env.compress(raw))) == Some(env.compress(raw));
    assert env.decompress(env.compress(raw)) == if |raw| <= DECOMPRESS_CAP then Some(raw) else None;
    CodecRoundTrip(t);
  }

  /**
   A state is bound to the cluster key and the task it was sealed for: as far as the cipher refuses other keys and
   other authenticated data, so does the receiver.
   */
  lemma OthersCannotOpen(
    env: Envelope, nonce: nat, key: Key, taskId: string, raw: seq<byte>, key': Key, taskId': string)
    requires forall d :: env.open(key', taskId', env.seal(nonce, key, taskId, d)) == None
    ensures Unwrap(env, key', taskId', Wrap(env, nonce, key, taskId, raw)) == Err(DecryptionFailed)
  {
  }

  /** The cipher never seals to the same message under the two nonces. */
  ghost predicate TellsApart(env: Envelope, nonce: nat, nonce': nat, key: Key, taskId: string) {
    forall d :: env.seal(nonce, key, taskId, d) != env.seal(nonce', key, taskId, d)
  }

  /** As far as the cipher tells nonces apart, sealing the same state twice gives two messages. */
  lemma NoncesTellApart(env: Envelope, nonce: nat, nonce': nat, key: Key, taskId: string, raw: seq<byte>)
    requires TellsApart(env, nonce, nonce', key, taskId)
    ensures Wrap(env, nonce, key, taskId, raw) != Wrap(env, nonce', key, taskId, raw)
  {
  }
}
