/**
  Unpadded standard base64: the encoding of RFC 4648 section 4 with the padding
  omitted as section 3.2 allows. A Secret entry is named by the encoding of the
  whole key.
 */
module Base64 {
  import opened Text

  const PLUS: byte := 43

  predicate IsAlphanumeric(c: byte) {
    65 <= c <= 90 || 97 <= c <= 122 || 48 <= c <= 57
  }

  /** Table 1 of RFC 4648: the letter for a six-bit value. */
  function Letter(v: int): byte
    requires 0 <= v < 64
  {
    if v < 26 then 65 + v
    else if v < 52 then 97 + (v - 26)
    else if v < 62 then 48 + (v - 52)
    else if v == 62 then PLUS
    else SLASH
  }

  // The whole of that table.
  lemma LetterTable(v: int)
    requires 0 <= v < 64
    ensures var table := "ABCDEFGHIJKLMNOPQRSTUVWXYZ" + "abcdefghijklmnopqrstuvwxyz" + "0123456789" + "+/";
            |table| == 64 && Letter(v) as char == table[v]
  {
    var upper, lower, digits := "ABCDEFGHIJKLMNOPQRSTUVWXYZ", "abcdefghijklmnopqrstuvwxyz", "0123456789";
    assert v < 26 ==> upper[v] == 'A' + v as char;
    assert 26 <= v < 52 ==> lower[v - 26] == 'a' + (v - 26) as char;
    assert 52 <= v < 62 ==> digits[v - 52] == '0' + (v - 52) as char;
  }

  /** The six-bit value of a letter; 0 for a byte outside the alphabet. */
  function Value(c: byte): (v: int)
    ensures 0 <= v < 64
  {
    if 65 <= c <= 90 then c - 65
    else if 97 <= c <= 122 then c - 97 + 26
    else if 48 <= c <= 57 then c - 48 + 52
    else if c == PLUS then 62
    else if c == SLASH then 63
    else 0
  }

  function Encode(s: Str): Str {
    if |s| == 0 then []
    else if |s| == 1 then
      [Letter(s[0] / 4), Letter(s[0] % 4 * 16)]
    else if |s| == 2 then
      [Letter(s[0] / 4), Letter(s[0] % 4 * 16 + s[1] / 16), Letter(s[1] % 16 * 4)]
    else
      [Letter(s[0] / 4), Letter(s[0] % 4 * 16 + s[1] / 16),
       Letter(s[1] % 16 * 4 + s[2] / 64), Letter(s[2] % 64)] + Encode(s[3..])
  }

  // The test vectors of RFC 4648 section 10, without their padding.
  lemma TestVectors()
    ensures Encode([102]) == [90, 103]
    ensures Encode([102, 111]) == [90, 109, 56]
    ensures Encode([102, 111, 111]) == [90, 109, 57, 118]
    ensures Encode([102, 111, 111, 98]) == [90, 109, 57, 118, 89, 103]
    ensures Encode([102, 111, 111, 98, 97]) == [90, 109, 57, 118, 89, 109, 69]
    ensures Encode([102, 111, 111, 98, 97, 114]) == [90, 109, 57, 118, 89, 109, 70, 121]
  {
    assert [102, 111, 111][3..] == [];
    assert [102, 111, 111, 98][3..] == [98];
    assert [102, 111, 111, 98, 97][3..] == [98, 97];
    assert [102, 111, 111, 98, 97, 114][3..] == [98, 97, 114];
    assert [98, 97, 114][3..] == [];
  }

  /** Decodes what Encode produces; text outside the alphabet decodes to
      unspecified bytes. */
  function Decode(t: Str): Str {
    if |t| < 2 then []
    else
      var a, b := Value(t[0]), Value(t[1]);
      if |t| == 2 then [a * 4 + b / 16]
      else
        var c := Value(t[2]);
        if |t| == 3 then [a * 4 + b / 16, b % 16 * 16 + c / 4]
        else
          var d := Value(t[3]);
          [a * 4 + b / 16, b % 16 * 16 + c / 4, c % 4 * 64 + d] + Decode(t[4..])
  }

  lemma ValueOfLetter(v: int)
    requires 0 <= v < 64
    ensures Value(Letter(v)) == v
  {}

  // The four letters of a byte triple, and the values they carry.
  lemma LettersOfTriple(a: byte, b: byte, c: byte)
    ensures Value(Letter(a / 4)) == a / 4
    ensures Value(Letter(a % 4 * 16 + b / 16)) / 16 == a % 4
    ensures Value(Letter(a % 4 * 16 + b / 16)) % 16 == b / 16
    ensures Value(Letter(b % 16 * 4 + c / 64)) / 4 == b % 16
    ensures Value(Letter(b % 16 * 4 + c / 64)) % 4 == c / 64
    ensures Value(Letter(c % 64)) == c % 64
  {
    ValueOfLetter(a / 4);
    ValueOfLetter(a % 4 * 16 + b / 16);
    ValueOfLetter(b % 16 * 4 + c / 64);
    ValueOfLetter(c % 64);
  }

  // Decoding undoes encoding, for every byte string of every length.
  lemma {:induction false} RoundTrip(s: Str)
    ensures Decode(Encode(s)) == s
  {
    hide Letter, Value;
    if |s| == 1 {
      LettersOfTriple(s[0], 0, 0);
    } else if |s| == 2 {
      LettersOfTriple(s[0], s[1], 0);
    } else if |s| >= 3 {
      RoundTrip(s[3..]);
      LettersOfTriple(s[0], s[1], s[2]);
      assert Encode(s)[4..] == Encode(s[3..]);
      assert s == [s[0], s[1], s[2]] + s[3..];
    }
  }

  // Distinct keys have distinct entry names.
  lemma Injective(s: Str, t: Str)
    requires Encode(s) == Encode(t)
    ensures s == t
  {
    RoundTrip(s);
    RoundTrip(t);
  }

  // n bytes take ceil(4n/3) letters.
  lemma {:induction false} EncodedLength(s: Str)
    ensures |Encode(s)| == (4 * |s| + 2) / 3
  {
    if |s| >= 3 {
      EncodedLength(s[3..]);
    }
  }

  /** The bytes whose low six bits are 62 or 63: `>`, `?`, `~` and DEL. */
  predicate Offending(b: byte) {
    b == 62 || b == 63 || b == 126 || b == 127
  }

  // The letters of an ASCII triple are alphanumeric except possibly the last.
  lemma AsciiTriple(a: byte, b: byte, c: byte)
    requires a < 128 && b < 128 && c < 128
    ensures IsAlphanumeric(Letter(a / 4))
    ensures IsAlphanumeric(Letter(a % 4 * 16 + b / 16))
    ensures IsAlphanumeric(Letter(b % 16 * 4 + c / 64))
    ensures IsAlphanumeric(Letter(c % 64)) <==> !Offending(c)
  {
    assert a / 4 < 62;
    assert a % 4 * 16 + b / 16 < 62;
    assert b % 16 * 4 + c / 64 < 62;
  }

  predicate AllAlphanumeric(t: Str) {
    forall i :: 0 <= i < |t| ==> IsAlphanumeric(t[i])
  }

  /** No position congruent to 2 modulo 3 holds one of the four bytes. */
  predicate NoOffendingThird(s: Str) {
    forall i :: 0 <= i < |s| && i % 3 == 2 ==> !Offending(s[i])
  }

  // For ASCII text the encoding leaves the alphanumeric range exactly when some
  // position congruent to 2 modulo 3 holds one of four bytes.
  lemma {:induction false} AsciiEntryNames(s: Str)
    requires forall i :: 0 <= i < |s| ==> s[i] < 128
    ensures AllAlphanumeric(Encode(s)) <==> NoOffendingThird(s)
  {
    if |s| == 1 {
      AsciiTriple(s[0], 0, 0);
    } else if |s| == 2 {
      AsciiTriple(s[0], s[1], 0);
    } else if |s| >= 3 {
      AsciiEntryNames(s[3..]);
      AsciiTriple(s[0], s[1], s[2]);
      ThirdsSplit(s);
      var head := Encode(s)[..4];
      AlphanumericSplit(head, Encode(s[3..]));
      assert AllAlphanumeric(head) <==> IsAlphanumeric(head[0]) && IsAlphanumeric(head[1])
                                        && IsAlphanumeric(head[2]) && IsAlphanumeric(head[3]);
      assert Encode(s) == head + Encode(s[3..]);
    }
  }

  lemma ThirdsSplit(s: Str)
    requires |s| >= 3
    ensures NoOffendingThird(s) <==> !Offending(s[2]) && NoOffendingThird(s[3..])
  {
    var rest := s[3..];
    if NoOffendingThird(s) {
      forall i | 0 <= i < |rest| && i % 3 == 2 ensures !Offending(rest[i]) {
        assert rest[i] == s[i + 3] && (i + 3) % 3 == 2;
      }
    }
    if !Offending(s[2]) && NoOffendingThird(rest) {
      forall i | 0 <= i < |s| && i % 3 == 2 ensures !Offending(s[i]) {
        if i >= 3 {
          assert s[i] == rest[i - 3] && (i - 3) % 3 == 2;
        }
      }
    }
  }

  lemma AlphanumericSplit(t: Str, u: Str)
    ensures AllAlphanumeric(t + u) <==> AllAlphanumeric(t) && AllAlphanumeric(u)
  {
    if AllAlphanumeric(t + u) {
      assert forall i :: 0 <= i < |t| ==> t[i] == (t + u)[i];
      assert forall i :: 0 <= i < |u| ==> u[i] == (t + u)[|t| + i];
    }
  }
}
