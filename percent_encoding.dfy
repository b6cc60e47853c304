/** PHP's `rawurlencode` and `rawurldecode`: the percent-encoding of section 2.1 of
    RFC 3986, which leaves only the unreserved characters of section 2.3 (ALPHA,
    DIGIT, "-", ".", "_", "~") as they are and writes every other byte as "%" and
    two upper-case hexadecimal digits. */
module PercentEncoding {
  import opened PhpValues

  predicate IsAlpha(c: char)
  {
    ('A' <= c <= 'Z') || ('a' <= c <= 'z')
  }

  predicate IsDigit(c: char)
  {
    '0' <= c <= '9'
  }

  /** The unreserved set of section 2.3 of RFC 3986. */
  predicate IsUnreserved(c: char)
  {
    IsAlpha(c) || IsDigit(c) || c == '-' || c == '.' || c == '_' || c == '~'
  }

  /** A hexadecimal digit as the decoder accepts it (either case). */
  predicate IsHexDigit(c: char)
  {
    IsDigit(c) || ('A' <= c <= 'F') || ('a' <= c <= 'f')
  }

  /** A hexadecimal digit as the encoder writes it (upper case). */
  predicate IsUpperHexDigit(c: char)
  {
    IsDigit(c) || ('A' <= c <= 'F')
  }

  function HexValue(c: char): (v: nat)
    requires IsHexDigit(c)
    ensures v < 16
  {
    if IsDigit(c) then c as int - '0' as int
    else if 'A' <= c <= 'F' then c as int - 'A' as int + 10
    else c as int - 'a' as int + 10
  }

  function HexDigit(d: nat): (c: char)
    requires d < 16
    ensures IsUpperHexDigit(c) && IsHexDigit(c) && HexValue(c) == d
  {
    if d < 10 then ('0' as int + d) as char else ('A' as int + d - 10) as char
  }

  /** The encoding of one byte. */
  function EncodeByte(c: char): (t: ByteString)
    requires c as int < 256
  {
    if IsUnreserved(c) then [c]
    else ['%', HexDigit(c as int / 16), HexDigit(c as int % 16)]
  }

  /** `rawurlencode`. */
  function Encode(s: ByteString): (t: ByteString)
    ensures WellEncoded(t)
    ensures |t| >= |s|
  {
    if s == [] then []
    else
      var head, rest := EncodeByte(s[0]), Encode(s[1..]);
      assert (head + rest)[|head|..] == rest;
      head + rest
  }

  /** What the encoder can produce: unreserved characters and "%XX" triples with
      upper-case hexadecimal digits, and nothing else. */
  predicate WellEncoded(t: string)
    decreases |t|
  {
    if t == [] then true
    else if IsUnreserved(t[0]) then WellEncoded(t[1..])
    else |t| >= 3 && t[0] == '%' && IsUpperHexDigit(t[1]) && IsUpperHexDigit(t[2]) && WellEncoded(t[3..])
  }

  /** `rawurldecode`: "%" followed by two hexadecimal digits becomes the byte they
      denote; any other character, a lone "%" included, is kept as it is. */
  function Decode(t: string): (s: string)
    ensures |s| <= |t|
    ensures IsBytes(t) ==> IsBytes(s)
    decreases |t|
  {
    if t == [] then []
    else if |t| >= 3 && t[0] == '%' && IsHexDigit(t[1]) && IsHexDigit(t[2]) then
      [(HexValue(t[1]) * 16 + HexValue(t[2])) as char] + Decode(t[3..])
    else
      [t[0]] + Decode(t[1..])
  }

  /** Decoding undoes the encoding of one byte, whatever follows it. */
  lemma DecodeEncodeByte(c: char, rest: string)
    requires c as int < 256
    ensures Decode(EncodeByte(c) + rest) == [c] + Decode(rest)
  {
  }

  /** Decoding exactly once gives back the original string. */
  lemma {:induction false} DecodeEncode(s: ByteString)
    ensures Decode(Encode(s)) == s
  {
    if s != [] {
      DecodeEncode(s[1..]);
      DecodeEncodeByte(s[0], Encode(s[1..]));
      assert [s[0]] + s[1..] == s;
    }
  }

  /** Different strings have different encodings. */
  lemma EncodeInjective(a: ByteString, b: ByteString)
    requires Encode(a) == Encode(b)
    ensures a == b
  {
    DecodeEncode(a);
    DecodeEncode(b);
  }

  /** Every character of an encoding is unreserved or "%": the encoded part cannot
      contain "&", "=", "?", "#", "/" or a space. */
  lemma {:induction false} WellEncodedAlphabet(t: string)
    requires WellEncoded(t)
    ensures forall i | 0 <= i < |t| :: IsUnreserved(t[i]) || t[i] == '%'
    decreases |t|
  {
    if t != [] {
      if IsUnreserved(t[0]) {
        WellEncodedAlphabet(t[1..]);
        assert forall i | 1 <= i < |t| :: t[i] == t[1..][i - 1];
      } else {
        WellEncodedAlphabet(t[3..]);
        assert forall i | 3 <= i < |t| :: t[i] == t[3..][i - 3];
      }
    }
  }

  /** The encoding leaves a string unchanged exactly when all its characters are unreserved. */
  lemma {:induction false} EncodeIdentityIff(s: ByteString)
    ensures Encode(s) == s <==> forall i | 0 <= i < |s| :: IsUnreserved(s[i])
  {
    if s != [] {
      EncodeIdentityIff(s[1..]);
      assert forall i | 1 <= i < |s| :: s[i] == s[1..][i - 1];
      if IsUnreserved(s[0]) {
        assert Encode(s) == [s[0]] + Encode(s[1..]);
        assert Encode(s)[1..] == Encode(s[1..]);
        assert [s[0]] + s[1..] == s;
      } else {
        var head := EncodeByte(s[0]);
        assert |head| == 3;
        assert |Encode(s)| == 3 + |Encode(s[1..])| > |s|;
      }
    }
  }

  /** A string with a byte outside the unreserved set has a "%" in its encoding. */
  lemma {:induction false} EncodeShowsPercent(s: ByteString, i: nat)
    requires i < |s| && !IsUnreserved(s[i])
    ensures '%' in Encode(s)
  {
    if i == 0 {
      assert Encode(s)[0] == '%';
    } else {
      EncodeShowsPercent(s[1..], i - 1);
      var head := EncodeByte(s[0]);
      assert Encode(s) == head + Encode(s[1..]);
      var j :| 0 <= j < |Encode(s[1..])| && Encode(s[1..])[j] == '%';
      assert Encode(s)[|head| + j] == '%';
    }
  }

  /** Exactly one layer of encoding: for a string with a reserved character, encoding
      twice differs from encoding once, and decoding the doubly encoded string once does
      not give back the original. */
  lemma DoubleEncodingIsVisible(s: ByteString, i: nat)
    requires i < |s| && !IsUnreserved(s[i])
    ensures Encode(Encode(s)) != Encode(s)
    ensures Decode(Encode(Encode(s))) != s
  {
    EncodeShowsPercent(s, i);
    EncodeIdentityIff(Encode(s));
    EncodeIdentityIff(s);
    DecodeEncode(Encode(s));
  }
}
