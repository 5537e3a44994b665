/** The byte layout of C integers as the simulator's host stores them:
    little-endian 32-bit words. */
module Bytes {

  const WORD_LIMIT := 0x1_0000_0000
  const INT_LIMIT := 0x8000_0000

  /** C's char buffers, seen as raw bytes */
  type byte = x: int | 0 <= x < 256

  /** C's unsigned int */
  type word = x: int | 0 <= x < WORD_LIMIT

  /** C's int */
  type int32 = x: int | -INT_LIMIT <= x < INT_LIMIT

  function ToWord(x: int32): word {
    if x < 0 then x + WORD_LIMIT else x
  }

  function FromWord(w: word): int32 {
    if w < INT_LIMIT then w else w - WORD_LIMIT
  }

  /** (int) of a plain char: the value is sign-extended. */
  function SignedChar(b: byte): int {
    if b < 128 then b else b - 256
  }

  function ByteOf(w: word, i: nat): byte
    requires i < 4
  {
    if i == 0 then w % 256
    else if i == 1 then (w / 256) % 256
    else if i == 2 then (w / 65536) % 256
    else w / 16777216
  }

  function WordOf(b0: byte, b1: byte, b2: byte, b3: byte): word {
    b0 + 256 * b1 + 65536 * b2 + 16777216 * b3
  }

  function EncodeWords(ws: seq<word>): seq<byte> {
    seq(4 * |ws|, i requires 0 <= i < 4 * |ws| => ByteOf(ws[i / 4], i % 4))
  }

  function DecodeWords(bs: seq<byte>): seq<word> {
    seq(|bs| / 4, i requires 0 <= i < |bs| / 4 =>
      WordOf(bs[4 * i], bs[4 * i + 1], bs[4 * i + 2], bs[4 * i + 3]))
  }

  function EncodeInts(xs: seq<int32>): seq<byte> {
    EncodeWords(seq(|xs|, i requires 0 <= i < |xs| => ToWord(xs[i])))
  }

  function DecodeInts(bs: seq<byte>): seq<int32> {
    var ws := DecodeWords(bs);
    seq(|ws|, i requires 0 <= i < |ws| => FromWord(ws[i]))
  }

  lemma WordOfBytes(w: word)
    ensures WordOf(ByteOf(w, 0), ByteOf(w, 1), ByteOf(w, 2), ByteOf(w, 3)) == w
  {
    assert w / 65536 == w / 256 / 256;
    assert w / 16777216 == w / 65536 / 256;
  }

  lemma EncodedByte(ws: seq<word>, i: nat, r: nat)
    requires i < |ws| && r < 4
    ensures EncodeWords(ws)[4 * i + r] == ByteOf(ws[i], r)
  {
    hide ByteOf;
    assert (4 * i + r) / 4 == i && (4 * i + r) % 4 == r;
  }

  /** Storing words as bytes and loading them back is the identity. */
  lemma WordsRoundTrip(ws: seq<word>)
    ensures DecodeWords(EncodeWords(ws)) == ws
  {
    hide ByteOf, WordOf;
    var bs := EncodeWords(ws);
    assert |bs| == 4 * |ws|;
    hide EncodeWords;
    forall i | 0 <= i < |ws| ensures DecodeWords(bs)[i] == ws[i] {
      EncodedByte(ws, i, 0);
      EncodedByte(ws, i, 1);
      EncodedByte(ws, i, 2);
      EncodedByte(ws, i, 3);
      WordOfBytes(ws[i]);
    }
  }

  lemma IntsRoundTrip(xs: seq<int32>)
    ensures DecodeInts(EncodeInts(xs)) == xs
  {
    WordsRoundTrip(seq(|xs|, i requires 0 <= i < |xs| => ToWord(xs[i])));
  }
}
