/** The 16-bit little-endian word codec of the toy VM: a word is stored in
    memory as two consecutive bytes, the low byte first. */
module WordCodec {

  /** One cell of the memory image. */
  type Byte = b: int | 0 <= b < 256

  /** Number of distinct byte values; the weight of the high byte of a word. */
  const BYTE_BASE := 256

  /** One more than the largest value two bytes can hold. */
  const WORD_LIMIT := 65536

  /** The two bytes that store `n`, low byte first. Values of 65536 and more
      have no encoding: their high byte does not fit in a byte. */
  function EncodeWord(n: nat): (w: seq<Byte>)
    requires n < WORD_LIMIT
    ensures |w| == 2
    ensures w[0] + BYTE_BASE * w[1] == n
  {
    [n % BYTE_BASE, n / BYTE_BASE]
  }

  /** The value stored in two bytes, the first one being the low byte. */
  function DecodeWord(w: seq<Byte>): (n: nat)
    requires |w| == 2
    ensures n < WORD_LIMIT
    ensures n % BYTE_BASE == w[0] && n / BYTE_BASE == w[1]
  {
    w[0] + w[1] * BYTE_BASE
  }

  /** Decoding undoes encoding for every 16-bit value. */
  lemma DecodeEncode(n: nat)
    requires n < WORD_LIMIT
    ensures DecodeWord(EncodeWord(n)) == n
  {
  }

  /** Encoding undoes decoding for every pair of bytes. */
  lemma EncodeDecode(w: seq<Byte>)
    requires |w| == 2
    ensures EncodeWord(DecodeWord(w)) == w
  {
  }

  /** The two bytes of a word are the remainder and the quotient of the value
      by 256: no other pair of bytes stores the same value. */
  lemma EncodeWordIsDivMod(n: nat, w: seq<Byte>)
    requires n < WORD_LIMIT
    requires |w| == 2 && w[0] + BYTE_BASE * w[1] == n
    ensures w == EncodeWord(n)
    ensures w == [n % BYTE_BASE, n / BYTE_BASE]
  {
  }
}
