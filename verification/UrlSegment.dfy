// Percent-encoding of ids into URL path segments, byte by byte, and the decoder it is inverse to
// (sections 2.1 and 2.3 of RFC 3986).
module UrlSegment {
  type Byte = b: nat | b < 256

  /** ALPHA, DIGIT, "-", ".", "_" and "~". */
  predicate Unreserved(b: nat) {
    || 'A' as nat <= b <= 'Z' as nat || 'a' as nat <= b <= 'z' as nat || '0' as nat <= b <= '9' as nat
    || b == '-' as nat || b == '.' as nat || b == '_' as nat || b == '~' as nat
  }

  const HEX: string := "0123456789ABCDEF"

  function Encode(b: Byte): string {
    if Unreserved(b) then [b as char] else ['%', HEX[b / 16], HEX[b % 16]]
  }

  /** The encoding of all bytes, one after the other. */
  function Encoded(id: seq<Byte>): string {
    if id == [] then "" else Encode(id[0]) + Encoded(id[1..])
  }

  /** One byte: letters, digits and four marks stand for themselves, all others become three characters. */
  lemma BytesAreEncodedAlone(b: Byte, rest: seq<Byte>)
    ensures
      var plain := 'A' as nat <= b <= 'Z' as nat || 'a' as nat <= b <= 'z' as nat || '0' as nat <= b <= '9' as nat ||
                   b == '-' as nat || b == '.' as nat || b == '_' as nat || b == '~' as nat;
      Encoded([b] + rest) ==
        (if plain then [b as char] else ['%', "0123456789ABCDEF"[b / 16], "0123456789ABCDEF"[b % 16]]) + Encoded(rest)
    ensures Encoded([]) == ""
  {
    assert ([b] + rest)[1..] == rest;
  }

  lemma {:induction false} EncodedSnoc(id: seq<Byte>, b: Byte)
    ensures Encoded(id + [b]) == Encoded(id) + Encode(b)
  {
    hide Encode;
    if id == [] {
      assert id + [b] == [b] && [b][1..] == [];
    } else {
      assert (id + [b])[1..] == id[1..] + [b];
      EncodedSnoc(id[1..], b);
    }
  }

  lemma NothingEncoded()
    ensures Encoded([]) == ""
  {
  }

  method Segment(id: seq<Byte>) returns (out: string)
    ensures out == Encoded(id)
  {
    hide Encoded;
    out := "";
    NothingEncoded();
    for i := 0 to |id|
      invariant out == Encoded(id[..i])
    {
      EncodedSnoc(id[..i], id[i]);
      assert id[..i + 1] == id[..i] + [id[i]];
      var b := id[i];
      if 'A' as nat <= b <= 'Z' as nat || 'a' as nat <= b <= 'z' as nat || '0' as nat <= b <= '9' as nat ||
         b == '-' as nat || b == '_' as nat || b == '.' as nat || b == '~' as nat {
        out := out + [b as char];
      } else {
        out := out + ['%', HEX[b / 16], HEX[b % 16]];
      }
    }
    assert id[..|id|] == id;
  }

  // ------------------------------------------------------------- decoding

  /** The value of a hexadecimal digit of either case, or 16. */
  function HexValue(c: char): nat {
    if '0' <= c <= '9' then c as nat - '0' as nat
    else if 'A' <= c <= 'F' then c as nat - 'A' as nat + 10
    else if 'a' <= c <= 'f' then c as nat - 'a' as nat + 10
    else 16
  }

  predicate Triplet(s: string) {
    |s| >= 3 && s[0] == '%' && HexValue(s[1]) < 16 && HexValue(s[2]) < 16
  }

  datatype Decoded = Malformed | Bytes(bytes: seq<Byte>)

  /** Unreserved characters stand for themselves and triplets for their byte; nothing else may occur. */
  function Decode(s: string): Decoded
    decreases |s|
  {
    if s == "" then Bytes([])
    else if Triplet(s) then Before(16 * HexValue(s[1]) + HexValue(s[2]), Decode(s[3..]))
    else if Unreserved(s[0] as nat) then Before(s[0] as nat, Decode(s[1..]))
    else Malformed
  }

  function Before(b: Byte, rest: Decoded): Decoded {
    match rest
    case Malformed => Malformed
    case Bytes(bytes) => Bytes([b] + bytes)
  }

  lemma HexDigits(n: nat)
    requires n < 16
    ensures HexValue(HEX[n]) == n && ('0' <= HEX[n] <= '9' || 'A' <= HEX[n] <= 'F')
  {
    var digits := ['0', '1', '2', '3', '4', '5', '6', '7', '8', '9', 'A', 'B', 'C', 'D', 'E', 'F'];
    assert HEX == digits;
    if n < 10 {
      assert digits[n] == ('0' as nat + n) as char;
    } else {
      assert digits[n] == ('A' as nat + n - 10) as char;
    }
  }

  lemma DecodeOne(b: Byte, rest: string)
    ensures Decode(Encode(b) + rest) == Before(b, Decode(rest))
  {
    var s := Encode(b) + rest;
    if Unreserved(b) {
      assert s[1..] == rest;
    } else {
      HexDigits(b / 16);
      HexDigits(b % 16);
      assert s[3..] == rest;
      assert Triplet(s);
    }
  }

  /** Decoding an encoded id gives its bytes back. */
  lemma {:induction false} DecodeInvertsEncode(id: seq<Byte>)
    ensures Decode(Encoded(id)) == Bytes(id)
  {
    if id != [] {
      DecodeInvertsEncode(id[1..]);
      DecodeOne(id[0], Encoded(id[1..]));
    }
  }

  /** Distinct ids address distinct resources. */
  lemma EncodedIsInjective(a: seq<Byte>, b: seq<Byte>)
    ensures Encoded(a) == Encoded(b) <==> a == b
  {
    DecodeInvertsEncode(a);
    DecodeInvertsEncode(b);
  }

  // ------------------------------------------------------- the output alphabet

  predicate UpperHex(c: char) {
    '0' <= c <= '9' || 'A' <= c <= 'F'
  }

  /** Unreserved characters and upper-case triplets of bytes that need one. */
  predicate Normal(s: string)
    decreases |s|
  {
    s == "" ||
    (if s[0] == '%' then
       Triplet(s) && UpperHex(s[1]) && UpperHex(s[2]) && !Unreserved(16 * HexValue(s[1]) + HexValue(s[2])) && Normal(s[3..])
     else Unreserved(s[0] as nat) && Normal(s[1..]))
  }

  lemma NormalOne(b: Byte, rest: string)
    requires Normal(rest)
    ensures Normal(Encode(b) + rest)
  {
    var s := Encode(b) + rest;
    if Unreserved(b) {
      assert s[1..] == rest;
    } else {
      HexDigits(b / 16);
      HexDigits(b % 16);
      assert s[3..] == rest;
    }
  }

  lemma {:induction false} EncodedIsNormal(id: seq<Byte>)
    ensures Normal(Encoded(id))
  {
    if id != [] {
      EncodedIsNormal(id[1..]);
      NormalOne(id[0], Encoded(id[1..]));
    }
  }

  lemma UpperHexUnique(c: char)
    requires UpperHex(c)
    ensures HexValue(c) < 16 && HEX[HexValue(c)] == c
  {
    HexDigits(HexValue(c));
  }

  /** The byte at the front of a normal string, and how much of the string it takes. */
  lemma NormalHead(s: string) returns (b: Byte, width: nat)
    requires Normal(s) && s != ""
    ensures 1 <= width <= |s| && s == Encode(b) + s[width..] && Normal(s[width..])
  {
    if s[0] == '%' {
      UpperHexUnique(s[1]);
      UpperHexUnique(s[2]);
      b, width := 16 * HexValue(s[1]) + HexValue(s[2]), 3;
      assert b / 16 == HexValue(s[1]) && b % 16 == HexValue(s[2]);
    } else {
      b, width := s[0] as nat, 1;
    }
  }

  /** And back: a string is the encoding of some id exactly when it is in this normal form. */
  lemma {:induction false} NormalIsEncoded(s: string) returns (id: seq<Byte>)
    requires Normal(s)
    ensures Encoded(id) == s && Decode(s) == Bytes(id)
    decreases |s|
  {
    hide Normal, Encode, Decode;
    id := [];
    if s != "" {
      var b, width := NormalHead(s);
      var rest := NormalIsEncoded(s[width..]);
      id := [b] + rest;
      assert id[1..] == rest;
    }
    DecodeInvertsEncode(id);
  }

  /** No encoded id can step out of its path segment. */
  lemma {:induction false} NothingStructuralSurvives(s: string, i: nat)
    requires Normal(s) && i < |s|
    ensures s[i] != '/' && s[i] != '?' && s[i] != '#' && (s[i] == '%' || Unreserved(s[i] as nat))
    decreases |s|
  {
    if s[0] == '%' {
      if i >= 3 {
        NothingStructuralSurvives(s[3..], i - 3);
      }
    } else if i >= 1 {
      NothingStructuralSurvives(s[1..], i - 1);
    }
  }
}
