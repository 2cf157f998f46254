/** The written form of integers and containers: the shortest head there is, and encodings that appendix A of RFC 8949 gives. */
module CborExamples {
  import opened Utf8
  import opened Cbor
  import opened CborGrammar
  import CborRoundTrip

  /** An integer is written in major type 0 or 1 with its magnitude as argument. */
  lemma IntegersHaveTheirHead(f: FloatBytes, n: nat)
    requires n <= MAX_SAFE_INTEGER
    ensures EncodeValue(f, Num(n as real)) == Head(0, n)
    ensures n < MAX_SAFE_INTEGER ==> EncodeValue(f, Num((-1 - n) as real)) == Head(1, n)
  {
    assert (n as real).Floor == n && ((-1 - n) as real).Floor == -1 - n;
  }

  /** The head that is written is one of those the format allows for its argument, and no other is shorter. */
  lemma HeadIsShortest(major: nat, n: nat, other: Argument)
    requires major < 8 && n <= MAX_SAFE_INTEGER && IsArgument(other) && ArgumentOf(other) == n
    ensures |Head(major, n)| <= |HeadOf(major, other)|
    ensures var written := if n < 24 then Immediate(n) else Following(Bytes(n, Width(n)));
            IsArgument(written) && ArgumentOf(written) == n && HeadOf(major, written) == Head(major, n)
  {
    CborRoundTrip.Pow256Widths();
    if n >= 24 { CborRoundTrip.BigEndianBytes(n, Width(n)); }
    if other.Following? { BigEndianBelow(other.bytes); }
  }

  lemma {:induction false} BigEndianBelow(b: seq<Byte>)
    ensures BigEndian(b) < CborRoundTrip.Pow256(|b|)
  {
    if b != [] { BigEndianBelow(b[..|b| - 1]); }
  }

  lemma HeadsAsGiven()
    ensures Head(0, 0) == [0x00] && Head(0, 10) == [0x0A] && Head(0, 23) == [0x17] && Head(0, 24) == [0x18, 0x18] && Head(0, 100) == [0x18, 0x64]
    ensures Head(0, 1000) == [0x19, 0x03, 0xE8] && Head(0, 1000000) == [0x1A, 0x00, 0x0F, 0x42, 0x40]
    ensures Head(0, 1000000000000) == [0x1B, 0x00, 0x00, 0x00, 0xE8, 0xD4, 0xA5, 0x10, 0x00]
    ensures Head(1, 0) == [0x20] && Head(1, 9) == [0x29] && Head(1, 99) == [0x38, 0x63] && Head(1, 999) == [0x39, 0x03, 0xE7]
  {
  }

  lemma SimpleAsGiven(f: FloatBytes)
    ensures EncodeValue(f, Bool(false)) == [0xF4] && EncodeValue(f, Bool(true)) == [0xF5] && EncodeValue(f, Null) == [0xF6]
    ensures EncodeValue(f, Str([])) == [0x60] && EncodeValue(f, Arr([])) == [0x80] && EncodeValue(f, Obj([])) == [0xA0]
  {
  }

  lemma NestedAsGiven(f: FloatBytes)
    ensures EncodeValue(f, Arr([Num(1.0), Num(2.0), Num(3.0)])) == [0x83, 0x01, 0x02, 0x03]
    ensures EncodeValue(f, Obj([Entry([0x61], Num(1.0)), Entry([0x62], Arr([Num(2.0), Num(3.0)]))]))
            == [0xA2, 0x61, 0x61, 0x01, 0x61, 0x62, 0x82, 0x02, 0x03]
  {
  }
}
