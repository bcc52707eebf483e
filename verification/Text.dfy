/** What the program takes from Unicode: the length of a string in bytes and white space.

    A Rust string is UTF-8 (section 3 of RFC 3629).  Byte limits are on the encoded text; the
    encoding is as long as `Utf8Length` says and loses nothing. */
module Text {
  import opened Common

  /** The White_Space characters of Unicode. */
  const WHITE_SPACE: set<nat> := {
    0x9, 0xA, 0xB, 0xC, 0xD, 0x20, 0x85, 0xA0, 0x1680, 0x2000, 0x2001, 0x2002, 0x2003, 0x2004, 0x2005, 0x2006,
    0x2007, 0x2008, 0x2009, 0x200A, 0x2028, 0x2029, 0x202F, 0x205F, 0x3000 }

  predicate IsVisible(c: char) {
    c as int !in WHITE_SPACE
  }

  lemma VisibleIsNotWhitespace(c: char)
    ensures IsVisible(c) <==> !IsWhitespace(c)
  {
  }

  /** `trim` leaves something exactly of a text with a visible character. */
  lemma BlankExactly(text: string)
    ensures !Blank(text) <==> exists i :: 0 <= i < |text| && IsVisible(text[i])
  {
    forall i | 0 <= i < |text| ensures IsVisible(text[i]) <==> !IsWhitespace(text[i]) {
      VisibleIsNotWhitespace(text[i]);
    }
  }

  type Octet = n: nat | n < 0x100

  /** The octets of one character. */
  function Encode(c: char): seq<Octet> {
    var code := c as int;
    if code < 0x80 then [code]
    else if code < 0x800 then [0xC0 + code / 0x40, Tail(code)]
    else if code < 0x1_0000 then [0xE0 + code / 0x1000, Tail(code / 0x40), Tail(code)]
    else [0xF0 + code / 0x4_0000, Tail(code / 0x1000), Tail(code / 0x40), Tail(code)]
  }

  /** A continuation octet holds six bits. */
  function Tail(code: nat): Octet {
    0x80 + code % 0x40
  }

  function EncodeAll(s: string): seq<Octet> {
    if s == [] then [] else Encode(s[0]) + EncodeAll(s[1..])
  }

  /** How many octets a character with this first octet has; 0 if none begins so. */
  function Size(first: Octet): nat {
    if first < 0x80 then 1
    else if first < 0xC0 then 0
    else if first < 0xE0 then 2
    else if first < 0xF0 then 3
    else if first < 0xF8 then 4
    else 0
  }

  function Bits(octet: Octet): nat {
    octet % 0x40
  }

  /** The scalar value of the first character. */
  function CodeOf(octets: seq<Octet>): nat
    requires octets != [] && 0 < Size(octets[0]) <= |octets|
  {
    match Size(octets[0])
    case 1 => octets[0]
    case 2 => octets[0] % 0x20 * 0x40 + Bits(octets[1])
    case 3 => octets[0] % 0x10 * 0x1000 + Bits(octets[1]) * 0x40 + Bits(octets[2])
    case _ => octets[0] % 0x8 * 0x4_0000 + Bits(octets[1]) * 0x1000 + Bits(octets[2]) * 0x40 + Bits(octets[3])
  }

  predicate IsScalar(code: nat) {
    code < 0xD800 || 0xE000 <= code < 0x11_0000
  }

  function Decode(octets: seq<Octet>): Option<string>
    decreases |octets|
  {
    if octets == [] then Some("")
    else if !(0 < Size(octets[0]) <= |octets|) || !IsScalar(CodeOf(octets)) then None
    else match Decode(octets[Size(octets[0])..])
      case None => None
      case Some(rest) => Some([CodeOf(octets) as char] + rest)
  }

  lemma TailBits(n: nat)
    ensures Bits(Tail(n)) == n % 0x40
  {
  }

  lemma OfTwo(code: nat)
    requires 0x80 <= code < 0x800
    ensures Size(0xC0 + code / 0x40) == 2
    ensures (0xC0 + code / 0x40) % 0x20 * 0x40 + Bits(Tail(code)) == code
  {
    assert (0xC0 + code / 0x40) % 0x20 == code / 0x40;
  }

  lemma Quotients(n: nat)
    ensures n / 0x40 / 0x40 == n / 0x1000 && n / 0x1000 / 0x40 == n / 0x4_0000
  {
  }

  /** The six-bit digits of a number, put together again. */
  lemma Digits(n: nat)
    ensures n / 0x1000 * 0x1000 + n / 0x40 % 0x40 * 0x40 + n % 0x40 == n
    ensures n / 0x4_0000 * 0x4_0000 + n / 0x1000 % 0x40 * 0x1000 + n / 0x40 % 0x40 * 0x40 + n % 0x40 == n
  {
    Quotients(n);
    var a, b, c := n / 0x40, n / 0x1000, n / 0x4_0000;
    assert n == a * 0x40 + n % 0x40;
    assert a == b * 0x40 + a % 0x40;
    assert b == c * 0x40 + b % 0x40;
  }

  lemma Leads(k: nat)
    ensures k < 0x10 ==> Size(0xE0 + k) == 3 && (0xE0 + k) % 0x10 == k
    ensures k < 8 ==> Size(0xF0 + k) == 4 && (0xF0 + k) % 0x8 == k
  {
  }

  lemma OfThree(code: nat)
    requires 0x800 <= code < 0x1_0000
    ensures code / 0x1000 < 0x10 && Size(0xE0 + code / 0x1000) == 3
    ensures (0xE0 + code / 0x1000) % 0x10 * 0x1000 + Bits(Tail(code / 0x40)) * 0x40 + Bits(Tail(code)) == code
  {
    Leads(code / 0x1000);
    TailBits(code);
    TailBits(code / 0x40);
    Digits(code);
  }

  lemma OfFour(code: nat)
    requires 0x1_0000 <= code < 0x11_0000
    ensures code / 0x4_0000 < 8 && Size(0xF0 + code / 0x4_0000) == 4
    ensures (0xF0 + code / 0x4_0000) % 0x8 * 0x4_0000 + Bits(Tail(code / 0x1000)) * 0x1000
            + Bits(Tail(code / 0x40)) * 0x40 + Bits(Tail(code)) == code
  {
    Leads(code / 0x4_0000);
    TailBits(code);
    TailBits(code / 0x40);
    TailBits(code / 0x1000);
    Digits(code);
  }

  lemma EncodedOne(c: char, rest: seq<Octet>)
    ensures var octets := Encode(c) + rest;
            && Size(octets[0]) == |Encode(c)| && CodeOf(octets) == c as int && IsScalar(c as int)
            && octets[Size(octets[0])..] == rest
  {
    var code := c as int;
    if code < 0x80 {
    } else if code < 0x800 {
      OfTwo(code);
    } else if code < 0x1_0000 {
      OfThree(code);
    } else {
      OfFour(code);
    }
  }

  /** A string takes as many bytes as `Utf8Length` says, and decodes to itself. */
  lemma {:induction false} LengthIsOfTheEncoding(s: string)
    ensures |EncodeAll(s)| == Utf8Length(s) && Decode(EncodeAll(s)) == Some(s)
  {
    if s != [] {
      EncodedOne(s[0], EncodeAll(s[1..]));
      LengthIsOfTheEncoding(s[1..]);
      assert [s[0]] + s[1..] == s;
    }
  }
}
