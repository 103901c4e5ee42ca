/** The Base64 encoding with the standard alphabet and `=` padding, as
    defined in section 4 of RFC 4648. Library.read embeds a library file as
    `base64.b64encode(content)`; Library.write recovers the bytes with
    `base64.b64decode`. */
module Base64 {
  import opened Common

  type byte = x: int | 0 <= x < 256

  /** A value of six bits: the index of one character of the alphabet. */
  type sextet = x: int | 0 <= x < 64

  /** The character with index `v` in the alphabet "A-Z a-z 0-9 + /". */
  function CharOf(v: sextet): char {
    if v < 26 then ('A' as int + v) as char
    else if v < 52 then ('a' as int + (v - 26)) as char
    else if v < 62 then ('0' as int + (v - 52)) as char
    else if v == 62 then '+'
    else '/'
  }

  /** The index of `c` in the alphabet, or None for any other character
      (the pad character `=` included). */
  function IndexOf(c: char): Option<sextet> {
    if 'A' <= c <= 'Z' then Some(c as int - 'A' as int)
    else if 'a' <= c <= 'z' then Some(c as int - 'a' as int + 26)
    else if '0' <= c <= '9' then Some(c as int - '0' as int + 52)
    else if c == '+' then Some(62)
    else if c == '/' then Some(63)
    else None
  }

  /** A character that has an index is the alphabet's character at that index. */
  lemma CharOfIndexOf(c: char)
    requires IndexOf(c).Some?
    ensures CharOf(IndexOf(c).value) == c
  {
  }

  /** Every character of the alphabet decodes to its index. */
  lemma IndexOfCharOf(v: sextet)
    ensures IndexOf(CharOf(v)) == Some(v)
  {
  }

  /** Three bytes become four characters (RFC 4648, section 4). */
  function EncodeGroup(a: byte, b: byte, c: byte): string {
    [CharOf(a / 4), CharOf((a % 4) * 16 + b / 16), CharOf((b % 16) * 4 + c / 64), CharOf(c % 64)]
  }

  /** `base64.b64encode`: full groups, then a final group of one or two
      bytes padded with `=`. */
  function Encode(s: seq<byte>): (r: string)
    ensures |r| == 4 * ((|s| + 2) / 3)
    decreases |s|
  {
    if |s| == 0 then ""
    else if |s| == 1 then
      var a: int := s[0];
      [CharOf(a / 4), CharOf((a % 4) * 16), '=', '=']
    else if |s| == 2 then
      var a: int, b: int := s[0], s[1];
      [CharOf(a / 4), CharOf((a % 4) * 16 + b / 16), CharOf((b % 16) * 4), '=']
    else
      var rest := Encode(s[3..]);
      assert |rest| == 4 * ((|s| - 1) / 3);
      EncodeGroup(s[0], s[1], s[2]) + rest
  }

  /** The three bytes whose 24 bits are the four sextets, most significant first. */
  function Bytes3(x0: sextet, x1: sextet, x2: sextet, x3: sextet): (r: seq<byte>)
    ensures |r| == 3
  {
    var y0, y1, y2, y3 := x0 as int, x1 as int, x2 as int, x3 as int;
    [y0 * 4 + y1 / 16, (y1 % 16) * 16 + y2 / 4, (y2 % 4) * 64 + y3]
  }

  /** Four alphabet characters back to three bytes. */
  function DecodeGroup(q: string): Option<seq<byte>>
    requires |q| == 4
  {
    match (IndexOf(q[0]), IndexOf(q[1]), IndexOf(q[2]), IndexOf(q[3]))
    case (Some(x0), Some(x1), Some(x2), Some(x3)) =>
      Some(Bytes3(x0, x1, x2, x3))
    case _ => None
  }

  /** The last group of four characters: `xx==` carries one byte, `xxx=`
      two, `xxxx` three. Bits that the encoder always sets to zero must be
      zero. */
  function DecodeLast(q: string): Option<seq<byte>>
    requires |q| == 4
  {
    if q[2] == '=' && q[3] == '=' then
      match (IndexOf(q[0]), IndexOf(q[1]))
      case (Some(x0), Some(x1)) =>
        if x1 % 16 == 0 then Some(Bytes3(x0, x1, 0, 0)[..1]) else None
      case _ => None
    else if q[3] == '=' then
      match (IndexOf(q[0]), IndexOf(q[1]), IndexOf(q[2]))
      case (Some(x0), Some(x1), Some(x2)) =>
        if x2 % 4 == 0 then Some(Bytes3(x0, x1, x2, 0)[..2]) else None
      case _ => None
    else DecodeGroup(q)
  }

  /** `base64.b64decode` on canonical input: the text is a sequence of
      groups of four characters, only the last of which may be padded. */
  function Decode(s: string): Option<seq<byte>>
    decreases |s|
  {
    if |s| == 0 then Some([])
    else if |s| < 4 then None
    else if |s| == 4 then DecodeLast(s)
    else
      match (DecodeGroup(s[..4]), Decode(s[4..]))
      case (Some(g), Some(rest)) => Some(g + rest)
      case _ => None
  }

  lemma DecodeEncodeGroup(a: byte, b: byte, c: byte)
    ensures DecodeGroup(EncodeGroup(a, b, c)) == Some([a, b, c])
  {
    var q := EncodeGroup(a, b, c);
    IndexOfCharOf(a / 4);
    IndexOfCharOf((a % 4) * 16 + b / 16);
    IndexOfCharOf((b % 16) * 4 + c / 64);
    IndexOfCharOf(c % 64);
    assert ((a % 4) * 16 + b / 16) / 16 == a % 4;
    assert ((a % 4) * 16 + b / 16) % 16 == b / 16;
    assert ((b % 16) * 4 + c / 64) / 4 == b % 16;
    assert ((b % 16) * 4 + c / 64) % 4 == c / 64;
  }

  /** The sextets of one byte carry that byte. */
  lemma SextetsOfOne(a: byte)
    ensures ((a % 4) * 16) % 16 == 0
    ensures Bytes3(a / 4, (a % 4) * 16, 0, 0)[..1] == [a]
  {
    var x1 := (a % 4) * 16;
    assert x1 / 16 == a % 4;
    assert (a / 4) * 4 + a % 4 == a;
  }

  /** A last group `xx==` decodes to its one byte when the bits the
      encoder zeroes are zero. */
  lemma DecodeLastTwoPads(x0: sextet, x1: sextet)
    ensures DecodeLast([CharOf(x0), CharOf(x1), '=', '='])
            == if x1 % 16 == 0 then Some(Bytes3(x0, x1, 0, 0)[..1]) else None
  {
    IndexOfCharOf(x0);
    IndexOfCharOf(x1);
  }

  lemma DecodeEncodeOne(s: seq<byte>)
    requires |s| == 1
    ensures Decode(Encode(s)) == Some(s)
  {
    var a := s[0];
    var x0, x1: sextet := a / 4, (a % 4) * 16;
    assert Encode(s) == [CharOf(x0), CharOf(x1), '=', '='];
    DecodeLastTwoPads(x0, x1);
    SextetsOfOne(a);
    assert s == [a];
  }

  /** The sextets of two bytes carry those two bytes. */
  lemma SextetsOfTwo(a: byte, b: byte)
    ensures ((b % 16) * 4) % 4 == 0
    ensures Bytes3(a / 4, (a % 4) * 16 + b / 16, (b % 16) * 4, 0)[..2] == [a, b]
  {
    var x1 := (a % 4) * 16 + b / 16;
    var x2 := (b % 16) * 4;
    assert x1 / 16 == a % 4 && x1 % 16 == b / 16;
    assert x2 / 4 == b % 16;
    assert (a / 4) * 4 + a % 4 == a;
    assert (b / 16) * 16 + b % 16 == b;
  }

  /** A last group `xxx=` decodes to its two bytes when the bits the
      encoder zeroes are zero. */
  lemma DecodeLastOnePad(x0: sextet, x1: sextet, x2: sextet)
    ensures DecodeLast([CharOf(x0), CharOf(x1), CharOf(x2), '='])
            == if x2 % 4 == 0 then Some(Bytes3(x0, x1, x2, 0)[..2]) else None
  {
    IndexOfCharOf(x0);
    IndexOfCharOf(x1);
    IndexOfCharOf(x2);
  }

  lemma DecodeEncodeTwo(s: seq<byte>)
    requires |s| == 2
    ensures Decode(Encode(s)) == Some(s)
  {
    var a, b := s[0], s[1];
    var x0, x1, x2: sextet := a / 4, (a % 4) * 16 + b / 16, (b % 16) * 4;
    assert Encode(s) == [CharOf(x0), CharOf(x1), CharOf(x2), '='];
    DecodeLastOnePad(x0, x1, x2);
    SextetsOfTwo(a, b);
    assert s == [a, b];
  }

  /** Decoding what the encoder produced gives back the bytes: the round
      trip `write(read(p))` that reconstitutes an embedded library file. */
  lemma {:induction false} DecodeEncode(s: seq<byte>)
    ensures Decode(Encode(s)) == Some(s)
    decreases |s|
  {
    if |s| == 1 {
      DecodeEncodeOne(s);
    } else if |s| == 2 {
      DecodeEncodeTwo(s);
    } else if |s| == 3 {
      DecodeEncodeThree(s);
    } else if |s| > 3 {
      DecodeEncode(s[3..]);
      DecodeEncodeMore(s);
    }
  }

  lemma DecodeEncodeThree(s: seq<byte>)
    requires |s| == 3
    ensures Decode(Encode(s)) == Some(s)
  {
    var a, b, c := s[0], s[1], s[2];
    assert Encode(s[3..]) == [];
    assert Encode(s) == EncodeGroup(a, b, c);
    DecodeEncodeGroup(a, b, c);
    GroupUnpadded(a, b, c);
    assert s == [a, b, c];
  }

  /** One full group in front of a text that round-trips. */
  lemma DecodeEncodeMore(s: seq<byte>)
    requires |s| > 3 && Decode(Encode(s[3..])) == Some(s[3..])
    ensures Decode(Encode(s)) == Some(s)
  {
    var a, b, c := s[0], s[1], s[2];
    var t := s[3..];
    assert (|s| - 1) / 3 >= 1;
    assert Encode(s) == EncodeGroup(a, b, c) + Encode(t);
    DecodeGroupCons(a, b, c, t, Encode(t));
    SplitThree(s);
  }

  lemma SplitThree(s: seq<byte>)
    requires |s| >= 3
    ensures s == [s[0], s[1], s[2]] + s[3..]
  {
    assert s[..3] == [s[0], s[1], s[2]];
    assert s == s[..3] + s[3..];
  }

  /** A full group in front of a decodable text of at least one group. */
  lemma DecodeGroupCons(a: byte, b: byte, c: byte, t: seq<byte>, rest: string)
    requires |rest| >= 4 && Decode(rest) == Some(t)
    ensures Decode(EncodeGroup(a, b, c) + rest) == Some([a, b, c] + t)
  {
    DecodeEncodeGroup(a, b, c);
    DecodeCons(EncodeGroup(a, b, c), rest);
  }

  /** A full group carries no padding. */
  lemma GroupUnpadded(a: byte, b: byte, c: byte)
    ensures EncodeGroup(a, b, c)[2] != '=' && EncodeGroup(a, b, c)[3] != '='
  {
  }

  /** A text of more than one group decodes group by group. */
  lemma DecodeCons(g: string, rest: string)
    requires |g| == 4 && |rest| >= 4
    ensures Decode(g + rest) ==
      if DecodeGroup(g).Some? && Decode(rest).Some? then Some(DecodeGroup(g).value + Decode(rest).value) else None
  {
    assert (g + rest)[..4] == g;
    assert (g + rest)[4..] == rest;
  }

  lemma EncodeDecodeGroup(q: string)
    requires |q| == 4 && DecodeGroup(q).Some?
    ensures |DecodeGroup(q).value| == 3
    ensures EncodeGroup(DecodeGroup(q).value[0], DecodeGroup(q).value[1], DecodeGroup(q).value[2]) == q
  {
    CharOfIndexOf(q[0]);
    CharOfIndexOf(q[1]);
    CharOfIndexOf(q[2]);
    CharOfIndexOf(q[3]);
    var x0: int, x1: int, x2: int, x3: int := IndexOf(q[0]).value, IndexOf(q[1]).value, IndexOf(q[2]).value, IndexOf(q[3]).value;
    var a, b, c := x0 * 4 + x1 / 16, (x1 % 16) * 16 + x2 / 4, (x2 % 4) * 64 + x3;
    assert a / 4 == x0 && a % 4 == x1 / 16;
    assert b / 16 == x1 % 16 && b % 16 == x2 / 4;
    assert c / 64 == x2 % 4 && c % 64 == x3;
    assert (a % 4) * 16 + b / 16 == x1;
    assert (b % 16) * 4 + c / 64 == x2;
    assert DecodeGroup(q).value == [a, b, c];
  }

  lemma EncodeDecodeOne(q: string)
    requires |q| == 4 && q[2] == '=' && q[3] == '=' && DecodeLast(q).Some?
    ensures Encode(DecodeLast(q).value) == q
  {
    CharOfIndexOf(q[0]);
    CharOfIndexOf(q[1]);
    var x0: int, x1: int := IndexOf(q[0]).value, IndexOf(q[1]).value;
    var a := x0 * 4 + x1 / 16;
    assert a / 4 == x0 && (a % 4) * 16 == x1;
    assert DecodeLast(q).value == [a];
  }

  lemma EncodeDecodeTwo(q: string)
    requires |q| == 4 && q[2] != '=' && q[3] == '=' && DecodeLast(q).Some?
    ensures Encode(DecodeLast(q).value) == q
  {
    CharOfIndexOf(q[0]);
    CharOfIndexOf(q[1]);
    CharOfIndexOf(q[2]);
    var x0: int, x1: int, x2: int := IndexOf(q[0]).value, IndexOf(q[1]).value, IndexOf(q[2]).value;
    var a, b := x0 * 4 + x1 / 16, (x1 % 16) * 16 + x2 / 4;
    assert a / 4 == x0 && (a % 4) * 16 + b / 16 == x1 && (b % 16) * 4 == x2;
    assert DecodeLast(q).value == [a, b];
  }

  /** The decoder accepts only what the encoder produces: a text that
      decodes is the encoding of its own decoding. */
  lemma {:induction false} EncodeDecode(s: string)
    requires Decode(s).Some?
    ensures Encode(Decode(s).value) == s
    decreases |s|
  {
    if |s| == 4 {
      if s[2] == '=' && s[3] == '=' {
        EncodeDecodeOne(s);
      } else if s[3] == '=' {
        EncodeDecodeTwo(s);
      } else {
        EncodeDecodeGroup(s);
        var g := DecodeGroup(s).value;
        assert g[3..] == [];
        assert Encode(g) == EncodeGroup(g[0], g[1], g[2]) + Encode(g[3..]);
      }
    } else if |s| > 4 {
      var g := DecodeGroup(s[..4]).value;
      var rest := Decode(s[4..]).value;
      EncodeDecodeGroup(s[..4]);
      EncodeDecode(s[4..]);
      var b := g + rest;
      assert b[..3] == g && b[3..] == rest;
      assert Encode(b) == EncodeGroup(b[0], b[1], b[2]) + Encode(b[3..]);
      assert s == s[..4] + s[4..];
    }
  }

  /** Together: decoding is exactly the inverse of encoding. */
  lemma DecodeIffEncode(s: string, b: seq<byte>)
    ensures Decode(s) == Some(b) <==> Encode(b) == s
  {
    if Decode(s) == Some(b) {
      EncodeDecode(s);
    }
    if Encode(b) == s {
      DecodeEncode(b);
    }
  }
}
