/**
 * The vector codec of the persistent cache: every 64-bit word becomes eight bytes, little end first.
 * Words are the bit patterns of the vector's numbers, taken as opaque bits.
 */
module VectorCodec {

  datatype Bytes8 = Bytes8(b0: bv8, b1: bv8, b2: bv8, b3: bv8, b4: bv8, b5: bv8, b6: bv8, b7: bv8)

  function Split(w: bv64): Bytes8
  {
    Bytes8(
      (w & 0xff) as bv8, ((w >> 8) & 0xff) as bv8, ((w >> 16) & 0xff) as bv8, ((w >> 24) & 0xff) as bv8,
      ((w >> 32) & 0xff) as bv8, ((w >> 40) & 0xff) as bv8, ((w >> 48) & 0xff) as bv8, ((w >> 56) & 0xff) as bv8)
  }

  function Join(b: Bytes8): bv64
  {
    (b.b0 as bv64) | ((b.b1 as bv64) << 8) | ((b.b2 as bv64) << 16) | ((b.b3 as bv64) << 24)
    | ((b.b4 as bv64) << 32) | ((b.b5 as bv64) << 40) | ((b.b6 as bv64) << 48) | ((b.b7 as bv64) << 56)
  }

  lemma JoinSplit(w: bv64)
    ensures Join(Split(w)) == w
  {
  }

  lemma SplitJoin(b: Bytes8)
    ensures Split(Join(b)) == b
  {
  }

  // ----- Words in a byte string -----

  function Word(data: seq<bv8>, i: nat): (b: Bytes8)
    requires i * 8 + 8 <= |data|
  {
    Bytes8(data[i * 8], data[i * 8 + 1], data[i * 8 + 2], data[i * 8 + 3],
           data[i * 8 + 4], data[i * 8 + 5], data[i * 8 + 6], data[i * 8 + 7])
  }

  /** `data` is the encoding of `v`: eight bytes a word, each word at its place. */
  ghost predicate Encodes(data: seq<bv8>, v: seq<bv64>)
  {
    |data| == 8 * |v| && forall i {:trigger v[i]} :: 0 <= i < |v| ==> Word(data, i) == Split(v[i])
  }

  /** `v` is the decoding of `data`: as many words as fit, each joined from its place. */
  ghost predicate Decodes(v: seq<bv64>, data: seq<bv8>)
  {
    |v| == |data| / 8 && forall i {:trigger v[i]} :: 0 <= i < |v| ==> v[i] == Join(Word(data, i))
  }

  method PutWord(buf: array<bv8>, i: nat, w: bv64)
    requires i * 8 + 8 <= buf.Length
    modifies buf
    ensures Word(buf[..], i) == Split(w)
    ensures forall j :: 0 <= j < buf.Length && !(i * 8 <= j < i * 8 + 8) ==> buf[j] == old(buf[j])
  {
    var b := Split(w);
    buf[i * 8], buf[i * 8 + 1], buf[i * 8 + 2], buf[i * 8 + 3] := b.b0, b.b1, b.b2, b.b3;
    buf[i * 8 + 4], buf[i * 8 + 5], buf[i * 8 + 6], buf[i * 8 + 7] := b.b4, b.b5, b.b6, b.b7;
  }

  method EncodeVector(v: seq<bv64>) returns (buf: array<bv8>)
    ensures Encodes(buf[..], v)
  {
    buf := new bv8[|v| * 8](_ => 0);
    for i := 0 to |v|
      invariant forall j :: 0 <= j < i ==> Word(buf[..], j) == Split(v[j])
    {
      PutWord(buf, i, v[i]);
    }
  }

  method DecodeVector(data: seq<bv8>) returns (v: array<bv64>)
    ensures Decodes(v[..], data)
  {
    v := new bv64[|data| / 8](_ => 0);
    for i := 0 to v.Length
      invariant forall j :: 0 <= j < i ==> v[j] == Join(Word(data, j))
    {
      v[i] := Join(Word(data, i));
    }
  }

  /** Decoding an encoding returns the same words, for every vector. */
  lemma DecodeInvertsEncode(v: seq<bv64>, data: seq<bv8>, w: seq<bv64>)
    requires Encodes(data, v) && Decodes(w, data)
    ensures w == v
  {
    forall i | 0 <= i < |v|
      ensures w[i] == v[i]
    {
      JoinSplit(v[i]);
    }
  }

  /**
   * Encoding a decoding returns the bytes of the whole words: all of them exactly when the length is a multiple
   * of 8.
   */
  lemma EncodeInvertsDecode(data: seq<bv8>, v: seq<bv64>, again: seq<bv8>)
    requires Decodes(v, data) && Encodes(again, v)
    ensures again == data[..|data| / 8 * 8]
    ensures again == data <==> |data| % 8 == 0
  {
    forall j | 0 <= j < |again|
      ensures again[j] == data[j]
    {
      var i := j / 8;
      SplitJoin(Word(data, i));
      assert v[i] == Join(Word(data, i));
      assert Word(again, i) == Word(data, i);
      SameWordSameByte(again, data, j);
    }
  }

  lemma SameWordSameByte(a: seq<bv8>, b: seq<bv8>, j: nat)
    requires j / 8 * 8 + 8 <= |a| && j / 8 * 8 + 8 <= |b| && Word(a, j / 8) == Word(b, j / 8)
    ensures a[j] == b[j]
  {
    var r := j - j / 8 * 8;
    assert r == 0 || r == 1 || r == 2 || r == 3 || r == 4 || r == 5 || r == 6 || r == 7;
  }

  /** Encoding is a function of the vector, and no two vectors share an encoding. */
  lemma EncodingIsInjective(v: seq<bv64>, w: seq<bv64>, data: seq<bv8>)
    requires Encodes(data, v) && Encodes(data, w)
    ensures v == w
  {
    forall i | 0 <= i < |v|
      ensures v[i] == w[i]
    {
      JoinSplit(v[i]);
      JoinSplit(w[i]);
    }
  }

  // ----- Little end first -----

  /** A small word has its value in the first byte, and moving a word up by a byte moves its bytes to the right. */
  lemma LittleEndFirst(w: bv64, x: bv8)
    ensures Split(x as bv64) == Bytes8(x, 0, 0, 0, 0, 0, 0, 0)
    ensures var b := Split(w); Split(w << 8) == Bytes8(0, b.b0, b.b1, b.b2, b.b3, b.b4, b.b5, b.b6)
    ensures Split(0x0102030405060708) == Bytes8(8, 7, 6, 5, 4, 3, 2, 1)
  {
  }

  /** Words are laid out one after the other. */
  lemma BytesInOrder(data: seq<bv8>, v: seq<bv64>, i: nat)
    requires Encodes(data, v) && i < |v|
    ensures data[8 * i..8 * i + 8] == var b := Split(v[i]); [b.b0, b.b1, b.b2, b.b3, b.b4, b.b5, b.b6, b.b7]
  {
    assert v[i] == v[i];
  }
}
