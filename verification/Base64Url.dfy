/**
 * Unpadded base64url (section 5 of RFC 4648), as the runtime's buffers write and
 * read it, and the hand-made form that goes through padded base64.
 */
module Base64Url {
  import opened Common

  type Sextet = d: int | 0 <= d < 64

  // ------------------------------------------------------------ the alphabet

  function Letter(d: Sextet): (c: char)
    ensures ValueOf(c) == Some(d) && c != '.' && c != '=' && c != '+' && c != '/'
  {
    if d < 26 then ('A' as int + d) as char
    else if d < 52 then ('a' as int + d - 26) as char
    else if d < 62 then ('0' as int + d - 52) as char
    else if d == 62 then '-' else '_'
  }

  /** What a letter of either alphabet stands for. */
  function ValueOf(c: char): Option<Sextet> {
    if 'A' <= c <= 'Z' then Some(c as int - 'A' as int)
    else if 'a' <= c <= 'z' then Some(c as int - 'a' as int + 26)
    else if '0' <= c <= '9' then Some(c as int - '0' as int + 52)
    else if c == '-' || c == '+' then Some(62)
    else if c == '_' || c == '/' then Some(63)
    else None
  }

  function Letters(q: seq<Sextet>): string {
    seq(|q|, i requires 0 <= i < |q| => Letter(q[i]))
  }

  /** The values of the letters; whatever is no letter is passed over. */
  function Values(s: string): seq<Sextet> {
    if s == "" then []
    else (if ValueOf(s[0]).Some? then [ValueOf(s[0]).value] else []) + Values(s[1..])
  }

  lemma {:induction false} ValuesOfLetters(q: seq<Sextet>)
    ensures Values(Letters(q)) == q && |Letters(q)| == |q|
    ensures forall c :: c in Letters(q) ==> ValueOf(c).Some? && c != '+' && c != '/'
  {
    if q != [] {
      ValuesOfLetters(q[1..]);
      assert Letters(q)[1..] == Letters(q[1..]);
      assert q == [q[0]] + q[1..];
    }
  }

  // ------------------------------------------------------- three bytes in four

  /** The high six bits of a byte, and so on down to the low six of the third. */
  function First(a: Byte): Sextet { a / 4 }

  function Second(a: Byte, b: Byte): (x: Sextet)
    ensures x / 16 == a % 4 && x % 16 == b / 16
  {
    (a % 4) * 16 + b / 16
  }

  function Third(b: Byte, c: Byte): (y: Sextet)
    ensures y / 4 == b % 16 && y % 4 == c / 64
  {
    (b % 16) * 4 + c / 64
  }

  function Fourth(c: Byte): Sextet { c % 64 }

  function Sextets(b: Bytes): seq<Sextet> {
    if |b| == 0 then []
    else if |b| == 1 then [First(b[0]), Second(b[0], 0)]
    else if |b| == 2 then [First(b[0]), Second(b[0], b[1]), Third(b[1], 0)]
    else [First(b[0]), Second(b[0], b[1]), Third(b[1], b[2]), Fourth(b[2])] + Sextets(b[3..])
  }

  function High(w: Sextet, x: Sextet): Byte { w * 4 + x / 16 }

  function Middle(x: Sextet, y: Sextet): Byte { (x % 16) * 16 + y / 4 }

  function Low(y: Sextet, z: Sextet): Byte { (y % 4) * 64 + z }

  function BytesOf(q: seq<Sextet>): Bytes {
    if |q| <= 1 then []
    else if |q| == 2 then [High(q[0], q[1])]
    else if |q| == 3 then [High(q[0], q[1]), Middle(q[1], q[2])]
    else [High(q[0], q[1]), Middle(q[1], q[2]), Low(q[2], q[3])] + BytesOf(q[4..])
  }

  lemma GroupRestored(a: Byte, b: Byte, c: Byte)
    ensures High(First(a), Second(a, b)) == a
    ensures Middle(Second(a, b), Third(b, c)) == b
    ensures Low(Third(b, c), Fourth(c)) == c
  {
  }

  lemma {:induction false} BytesOfSextets(b: Bytes)
    ensures BytesOf(Sextets(b)) == b && |Sextets(b)| == (4 * |b| + 2) / 3
  {
    hide First, Second, Third, Fourth, High, Middle, Low;
    if |b| == 1 {
      GroupRestored(b[0], 0, 0);
    } else if |b| == 2 {
      GroupRestored(b[0], b[1], 0);
    } else if |b| >= 3 {
      BytesOfSextets(b[3..]);
      GroupRestored(b[0], b[1], b[2]);
      assert Sextets(b)[4..] == Sextets(b[3..]);
      assert b == [b[0], b[1], b[2]] + b[3..];
    }
  }

  // --------------------------------------------------------- the two encodings

  /** `Buffer.from(bytes).toString("base64url")`. */
  function Encode(b: Bytes): string {
    Letters(Sextets(b))
  }

  /** `Buffer.from(text, "base64url")`. */
  function Decode(s: string): Bytes {
    BytesOf(Values(s))
  }

  /** Decoding gives back what was encoded; the text has no dot and no padding, and is empty only for no bytes. */
  /** The letters of one group are the base-64 digits of its bytes read as one number, padded with zero bits at the end. */
  lemma {:induction false} EncodeDigits(b: Bytes, i: nat) returns (w: Sextet, x: Sextet, y: Sextet, z: Sextet)
    requires 3 * i < |b|
    ensures 4 * i <= |Encode(b)|
    ensures 3 * i + 3 <= |b| ==>
              Encode(b)[4 * i..] == [Letter(w), Letter(x), Letter(y), Letter(z)] + Encode(b[3 * i + 3..]) &&
              w as int * 262144 + x as int * 4096 + y as int * 64 + z as int ==
              b[3 * i] as int * 65536 + b[3 * i + 1] as int * 256 + b[3 * i + 2] as int
    ensures 3 * i + 2 == |b| ==>
              Encode(b)[4 * i..] == [Letter(w), Letter(x), Letter(y)] &&
              w as int * 4096 + x as int * 64 + y as int == (b[3 * i] as int * 256 + b[3 * i + 1] as int) * 4
    ensures 3 * i + 1 == |b| ==>
              Encode(b)[4 * i..] == [Letter(w), Letter(x)] && w as int * 64 + x as int == b[3 * i] as int * 16
    decreases i
  {
    hide Letter, Encode, First, Second, Third, Fourth;
    if i > 0 {
      w, x, y, z := EncodeDigits(b[3..], i - 1);
      NextGroup(b);
      assert Encode(b)[4 * i..] == Encode(b[3..])[4 * (i - 1)..];
      assert 3 * i + 3 <= |b| ==> b[3..][3 * (i - 1) + 3..] == b[3 * i + 3..];
    } else {
      w := First(b[0]);
      x := Second(b[0], if |b| > 1 then b[1] else 0);
      y := Third(if |b| > 1 then b[1] else 0, if |b| > 2 then b[2] else 0);
      z := Fourth(if |b| > 2 then b[2] else 0);
      GroupDigits(b[0], if |b| > 1 then b[1] else 0, if |b| > 2 then b[2] else 0);
      if |b| >= 3 {
        NextGroup(b);
      } else {
        LastGroup(b);
      }
      assert Encode(b)[0..] == Encode(b);
    }
  }

  lemma GroupDigits(a: Byte, b: Byte, c: Byte)
    ensures First(a) as int * 262144 + Second(a, b) as int * 4096 + Third(b, c) as int * 64 + Fourth(c) as int ==
            a as int * 65536 + b as int * 256 + c as int
    ensures First(a) as int * 4096 + Second(a, b) as int * 64 + Third(b, 0) as int == (a as int * 256 + b as int) * 4
    ensures First(a) as int * 64 + Second(a, 0) as int == a as int * 16
  {
  }

  lemma LastGroup(b: Bytes)
    requires 0 < |b| < 3
    ensures Encode(b) ==
            if |b| == 1 then [Letter(First(b[0])), Letter(Second(b[0], 0))]
            else [Letter(First(b[0])), Letter(Second(b[0], b[1])), Letter(Third(b[1], 0))]
  {
    hide Letter;
  }

  lemma NextGroup(b: Bytes)
    requires |b| >= 3
    ensures Encode(b) == [Letter(First(b[0])), Letter(Second(b[0], b[1])), Letter(Third(b[1], b[2])), Letter(Fourth(b[2]))] + Encode(b[3..])
  {
    hide Letter;
    var q := Sextets(b);
    assert q == [First(b[0]), Second(b[0], b[1]), Third(b[1], b[2]), Fourth(b[2])] + Sextets(b[3..]);
  }

  lemma {:induction false} DecodeEncode(b: Bytes)
    ensures Decode(Encode(b)) == b
  {
    hide Sextets, BytesOf, Letters, Values;
    BytesOfSextets(b);
    ValuesOfLetters(Sextets(b));
  }

  /** Four letters for three bytes, and none that would be taken for a separator or padding. */
  lemma EncodedForm(b: Bytes)
    ensures '.' !in Encode(b) && '=' !in Encode(b)
    ensures |Encode(b)| == (4 * |b| + 2) / 3
  {
    hide Sextets, Letters, Letter;
    BytesOfSextets(b);
    ValuesOfLetters(Sextets(b));
  }

  lemma EncodeInjective(a: Bytes, b: Bytes)
    ensures Encode(a) == Encode(b) <==> a == b
  {
    DecodeEncode(a);
    DecodeEncode(b);
  }

  /** What decoding keeps of the last letter: the bits that the last byte needs. */
  function KeptOfLast(q: seq<Sextet>): nat
    requires q != []
  {
    match |q| % 4
    case 0 => Last(q)
    case 1 => 0
    case 2 => Last(q) / 16
    case _ => Last(q) / 4
  }

  lemma HighTells(x: Sextet, y: Sextet)
    ensures High(x, y) / 4 == x && High(x, y) % 4 == y / 16
  {
  }

  lemma MiddleTells(y: Sextet, z: Sextet)
    ensures Middle(y, z) / 16 == y % 16 && Middle(y, z) % 16 == z / 4
  {
  }

  lemma LowTells(z: Sextet, w: Sextet)
    ensures Low(z, w) / 64 == z % 4 && Low(z, w) % 64 == w
  {
  }

  lemma SextetParts(y: Sextet, y': Sextet)
    ensures y == y' <==> y / 16 == y' / 16 && y % 16 == y' % 16
    ensures y == y' <==> y / 4 == y' / 4 && y % 4 == y' % 4
  {
  }

  lemma {:induction false} SameBytesIff(p: seq<Sextet>, q: seq<Sextet>)
    requires |p| == |q| > 0
    ensures BytesOf(p) == BytesOf(q) <==> Front(p) == Front(q) && KeptOfLast(p) == KeptOfLast(q)
  {
    hide High, Middle, Low;
    if |q| >= 2 {
      HighTells(p[0], p[1]);
      HighTells(q[0], q[1]);
      SextetParts(p[1], q[1]);
    }
    if |q| >= 3 {
      MiddleTells(p[1], p[2]);
      MiddleTells(q[1], q[2]);
      SextetParts(p[2], q[2]);
    }
    if |q| >= 4 {
      LowTells(p[2], p[3]);
      LowTells(q[2], q[3]);
      GroupsDiffer(p, q);
      if |q| > 4 {
        SameBytesIff(p[4..], q[4..]);
        FrontBehind(p, q);
      }
    }
  }

  lemma GroupsDiffer(p: seq<Sextet>, q: seq<Sextet>)
    requires |p| == |q| >= 4
    ensures BytesOf(p) == BytesOf(q) <==>
            High(p[0], p[1]) == High(q[0], q[1]) && Middle(p[1], p[2]) == Middle(q[1], q[2]) &&
            Low(p[2], p[3]) == Low(q[2], q[3]) && BytesOf(p[4..]) == BytesOf(q[4..])
  {
    hide High, Middle, Low;
    assert BytesOf(p)[0] == High(p[0], p[1]) && BytesOf(p)[1] == Middle(p[1], p[2]) && BytesOf(p)[2] == Low(p[2], p[3]);
    assert BytesOf(q)[0] == High(q[0], q[1]) && BytesOf(q)[1] == Middle(q[1], q[2]) && BytesOf(q)[2] == Low(q[2], q[3]);
    assert BytesOf(p)[3..] == BytesOf(p[4..]) && BytesOf(q)[3..] == BytesOf(q[4..]);
  }

  lemma FrontBehind(p: seq<Sextet>, q: seq<Sextet>)
    requires |p| == |q| > 4
    ensures Front(p) == Front(q) <==> p[..4] == q[..4] && Front(p[4..]) == Front(q[4..])
    ensures KeptOfLast(p) == KeptOfLast(p[4..]) && KeptOfLast(q) == KeptOfLast(q[4..])
  {
    assert Front(p) == p[..4] + Front(p[4..]) && Front(q) == q[..4] + Front(q[4..]);
  }

  /**
   * Decoding forgives exactly this: two texts of one length give the same bytes
   * when they differ in no letter but the last, and there only in bits that no
   * byte needs.
   */
  lemma TrailingBitsAreForgiven(p: seq<Sextet>, q: seq<Sextet>)
    requires |p| == |q| > 0
    ensures Decode(Letters(p)) == Decode(Letters(q)) <==> Front(p) == Front(q) && KeptOfLast(p) == KeptOfLast(q)
  {
    hide Values, Letters, BytesOf;
    ValuesOfLetters(p);
    ValuesOfLetters(q);
    SameBytesIff(p, q);
  }

  /** The letters of standard base64. */
  function StandardLetter(d: Sextet): char {
    if d == 62 then '+' else if d == 63 then '/' else Letter(d)
  }

  function StandardLetters(q: seq<Sextet>): string {
    seq(|q|, i requires 0 <= i < |q| => StandardLetter(q[i]))
  }

  function Padding(b: Bytes): string {
    if |b| % 3 == 1 then "==" else if |b| % 3 == 2 then "=" else ""
  }

  /** `bytes.toString("base64")`. */
  function EncodeStandard(b: Bytes): string {
    StandardLetters(Sextets(b)) + Padding(b)
  }

  function Replace(s: string, from: char, to: char): string {
    seq(|s|, i requires 0 <= i < |s| => if s[i] == from then to else s[i])
  }

  /** `text.replace(/=+$/, "")`. */
  function StripPadding(s: string): string {
    if s != "" && Last(s) == '=' then StripPadding(Front(s)) else s
  }

  function EncodeByHand(b: Bytes): string {
    StripPadding(Replace(Replace(EncodeStandard(b), '+', '-'), '/', '_'))
  }

  function DecodeByHand(s: string): Bytes {
    BytesOf(Values(Replace(Replace(s, '-', '+'), '_', '/')))
  }

  /** The letters of either alphabet stand for the same values. */
  lemma {:induction false} StandardValues(q: seq<Sextet>)
    ensures Values(StandardLetters(q)) == q
  {
    if q != [] {
      StandardValues(q[1..]);
      assert StandardLetters(q)[1..] == StandardLetters(q[1..]);
      assert q == [q[0]] + q[1..];
    }
  }

  lemma StripsWhatWasPadded(s: string, b: Bytes)
    requires '=' !in s
    ensures StripPadding(s + Padding(b)) == s
  {
    assert StripPadding(s) == s;
    assert Front(s + "=") == s && Last(s + "=") == '=';
    assert Front(s + "==") == s + "=" && Last(s + "==") == '=';
    assert s + "" == s;
  }

  /** Both ways of writing base64url write the same text, and both ways of reading it read the same bytes back. */
  lemma ByHandIsTheSame(b: Bytes)
    ensures EncodeByHand(b) == Encode(b) && DecodeByHand(EncodeByHand(b)) == b
  {
    hide Values, BytesOf, Sextets, StripPadding;
    var q := Sextets(b);
    assert Replace(Replace(EncodeStandard(b), '+', '-'), '/', '_') == Letters(q) + Padding(b);
    ValuesOfLetters(q);
    StripsWhatWasPadded(Letters(q), b);
    assert Replace(Replace(Letters(q), '-', '+'), '_', '/') == StandardLetters(q);
    StandardValues(q);
    BytesOfSextets(b);
  }
}
