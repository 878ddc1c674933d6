/**
 Report ids (apps/video-call/report_library.py): base64url of section 5 of RFC 4648
 without the padding of section 3.2, over the UTF-8 bytes of a relative path.
 */
module ReportIds {
  import opened Common
  import opened Text

  type Byte = b: int | 0 <= b < 256
  type Sextet = n: int | 0 <= n < 64

  const MAX_ID := 1024

  function Letter(n: Sextet): char {
    if n < 26 then ('A' as int + n) as char
    else if n < 52 then ('a' as int + n - 26) as char
    else if n < 62 then ('0' as int + n - 52) as char
    else if n == 62 then '-' else '_'
  }

  predicate InAlphabet(c: char) {
    'A' <= c <= 'Z' || 'a' <= c <= 'z' || '0' <= c <= '9' || c == '-' || c == '_'
  }

  function Value(c: char): Sextet
    requires InAlphabet(c)
  {
    if 'A' <= c <= 'Z' then c as int - 'A' as int
    else if 'a' <= c <= 'z' then c as int - 'a' as int + 26
    else if '0' <= c <= '9' then c as int - '0' as int + 52
    else if c == '-' then 62 else 63
  }

  lemma LetterValue(n: Sextet)
    ensures InAlphabet(Letter(n)) && Value(Letter(n)) == n && Letter(n) != '='
  {}

  /** Three bytes as four letters. */
  function Quad(a: Byte, b: Byte, c: Byte): string {
    [Letter(a / 4), Letter(a % 4 * 16 + b / 16), Letter(b % 16 * 4 + c / 64), Letter(c % 64)]
  }

  /** `base64.urlsafe_b64encode`, padding included. */
  function Encode64(data: seq<Byte>): string
    decreases |data|
  {
    if data == [] then ""
    else if |data| == 1 then Quad(data[0], 0, 0)[..2] + "=="
    else if |data| == 2 then Quad(data[0], data[1], 0)[..3] + "="
    else Quad(data[0], data[1], data[2]) + Encode64(data[3..])
  }

  /** `payload.rstrip("=")` */
  function StripPadding(s: string): string {
    if s != "" && s[|s| - 1] == '=' then StripPadding(s[..|s| - 1]) else s
  }

  function EncodeId(path: seq<Byte>): string {
    StripPadding(Encode64(path))
  }

  /** Four letters as three bytes. */
  function Triple(s: string): seq<Byte>
    requires |s| >= 4 && InAlphabet(s[0]) && InAlphabet(s[1]) && InAlphabet(s[2]) && InAlphabet(s[3])
  {
    [Value(s[0]) * 4 + Value(s[1]) / 16, Value(s[1]) % 16 * 16 + Value(s[2]) / 4, Value(s[2]) % 4 * 64 + Value(s[3])]
  }

  /** `base64.urlsafe_b64decode` of padded text over the alphabet: None is the error for bad padding. */
  function Decode64(s: string): Option<seq<Byte>>
    decreases |s|
  {
    if s == "" then Some([])
    else if |s| < 4 || !InAlphabet(s[0]) || !InAlphabet(s[1]) then None
    else if s[2] == '=' then
      if s[3] == '=' && |s| == 4 then Some([Value(s[0]) * 4 + Value(s[1]) / 16]) else None
    else if !InAlphabet(s[2]) then None
    else if s[3] == '=' then
      if |s| == 4 then Some([Value(s[0]) * 4 + Value(s[1]) / 16, Value(s[1]) % 16 * 16 + Value(s[2]) / 4]) else None
    else if !InAlphabet(s[3]) then None
    else
      var rest := Decode64(s[4..]);
      if rest.None? then None else Some(Triple(s) + rest.value)
  }

  predicate AllInAlphabet(s: string) {
    forall i | 0 <= i < |s| :: InAlphabet(s[i])
  }

  /** `"=" * (-len(value) % 4)`; Dafny's `%` agrees with Python's here. */
  function Padding(length: nat): string {
    seq((0 - length) % 4, _ => '=')
  }

  /** `decode_id` up to the UTF-8 decoding: None is ValueError. */
  function DecodeId(id: string): Option<seq<Byte>> {
    var value := Strip(id);
    if value == "" || |value| > MAX_ID || !AllInAlphabet(value) then None
    else Decode64(value + Padding(|value|))
  }

  // ----- round trip

  /** How many characters an id has. */
  function IdLength(n: nat): nat {
    (4 * n + 2) / 3
  }

  /** Cutting three bytes into sextets and putting them together again. */
  lemma SextetsOf(a: Byte, b: Byte, c: Byte)
    ensures a / 4 * 4 + (a % 4 * 16 + b / 16) / 16 == a
    ensures (a % 4 * 16 + b / 16) % 16 * 16 + (b % 16 * 4 + c / 64) / 4 == b
    ensures (b % 16 * 4 + c / 64) % 4 * 64 + c % 64 == c
  {}

  lemma QuadInAlphabet(a: Byte, b: Byte, c: Byte)
    ensures forall i | 0 <= i < 4 :: InAlphabet(Quad(a, b, c)[i]) && Quad(a, b, c)[i] != '='
    ensures Triple(Quad(a, b, c)) == [a, b, c]
  {
    hide Letter, Value, InAlphabet;
    LetterValue(a / 4);
    LetterValue(a % 4 * 16 + b / 16);
    LetterValue(b % 16 * 4 + c / 64);
    LetterValue(c % 64);
    SextetsOf(a, b, c);
  }

  /** The stripped encoding, its length, and the padding that was stripped. */
  ghost predicate Shape(data: seq<Byte>) {
    var s := EncodeId(data);
    AllInAlphabet(s) && |s| == IdLength(|data|) && s + Padding(|s|) == Encode64(data)
  }

  lemma {:induction false} EncodedShape(data: seq<Byte>)
    ensures Shape(data)
    decreases |data|
  {
    if |data| == 0 {
      assert Padding(0) == "";
    } else if |data| == 1 {
      var s := Quad(data[0], 0, 0)[..2];
      QuadInAlphabet(data[0], 0, 0);
      hide Quad, InAlphabet, Padding;
      StripTail(s, "==");
      PaddingIs(s, "==");
    } else if |data| == 2 {
      var s := Quad(data[0], data[1], 0)[..3];
      QuadInAlphabet(data[0], data[1], 0);
      hide Quad, InAlphabet, Padding;
      StripTail(s, "=");
      PaddingIs(s, "=");
    } else {
      EncodedShape(data[3..]);
      ShapeCons(data);
    }
  }

  lemma PaddingIs(s: string, pad: string)
    requires (|s| == 2 && pad == "==") || (|s| == 3 && pad == "=")
    ensures Padding(|s|) == pad
  {}

  lemma StripTail(s: string, pad: string)
    requires s != "" && s[|s| - 1] != '=' && (pad == "==" || pad == "=")
    ensures StripPadding(s + pad) == s
  {
    StripKeepsFront(s, pad);
    assert "=="[..1] == "=" && "="[..0] == "";
    assert StripPadding("=") == "";
    assert s + "" == s;
  }

  lemma ShapeCons(data: seq<Byte>)
    requires |data| >= 3 && Shape(data[3..])
    ensures Shape(data)
  {
    var quad, rest := Quad(data[0], data[1], data[2]), Encode64(data[3..]);
    assert |quad| == 4;
    QuadInAlphabet(data[0], data[1], data[2]);
    assert Encode64(data) == quad + rest;
    hide Quad, Encode64, InAlphabet;
    StripKeepsFront(quad, rest);
    var t := StripPadding(rest);
    assert EncodeId(data) == quad + t;
    SamePadding(quad, t);
    assert quad + t + Padding(|t|) == quad + (t + Padding(|t|));
  }

  lemma SamePadding(quad: string, t: string)
    requires |quad| == 4
    ensures Padding(|quad + t|) == Padding(|t|)
  {}

  lemma {:induction false} StripKeepsFront(front: string, s: string)
    requires front != "" && front[|front| - 1] != '='
    ensures StripPadding(front + s) == front + StripPadding(s)
    decreases |s|
  {
    if s == "" {
      assert front + s == front;
    } else if s[|s| - 1] == '=' {
      assert (front + s)[..|front + s| - 1] == front + s[..|s| - 1];
      StripKeepsFront(front, s[..|s| - 1]);
    }
  }

  lemma {:induction false} Decode64Encode64(data: seq<Byte>)
    ensures Decode64(Encode64(data)) == Some(data)
    decreases |data|
  {
    if |data| == 1 {
      QuadInAlphabet(data[0], 0, 0);
      assert data == [data[0], 0, 0][..1];
      hide Quad;
      DecodeTail(Quad(data[0], 0, 0));
    } else if |data| == 2 {
      QuadInAlphabet(data[0], data[1], 0);
      assert data == [data[0], data[1], 0][..2];
      hide Quad;
      DecodeTail(Quad(data[0], data[1], 0));
    } else if |data| >= 3 {
      var quad, rest := Quad(data[0], data[1], data[2]), Encode64(data[3..]);
      QuadInAlphabet(data[0], data[1], data[2]);
      Decode64Encode64(data[3..]);
      assert |quad| == 4;
      hide Quad, Encode64, InAlphabet;
      DecodeCons(quad, rest);
      assert [data[0], data[1], data[2]] + data[3..] == data;
    }
  }

  lemma DecodeTail(quad: string)
    requires |quad| >= 4 && forall i | 0 <= i < 4 :: InAlphabet(quad[i]) && quad[i] != '='
    ensures Decode64(quad[..2] + "==") == Some(Triple(quad)[..1])
    ensures Decode64(quad[..3] + "=") == Some(Triple(quad)[..2])
  {
    hide InAlphabet, Value;
    var p, q := quad[..2] + "==", quad[..3] + "=";
    assert |p| == 4 && p[0] == quad[0] && p[1] == quad[1] && p[2] == '=' && p[3] == '=';
    assert |q| == 4 && q[0] == quad[0] && q[1] == quad[1] && q[2] == quad[2] && q[3] == '=';
    assert Triple(quad)[..1] == [Triple(quad)[0]] && Triple(quad)[..2] == [Triple(quad)[0], Triple(quad)[1]];
  }

  lemma DecodeCons(quad: string, rest: string)
    requires |quad| == 4 && forall i | 0 <= i < 4 :: InAlphabet(quad[i]) && quad[i] != '='
    ensures Decode64(quad + rest) == if Decode64(rest).None? then None else Some(Triple(quad) + Decode64(rest).value)
  {
    assert (quad + rest)[4..] == rest;
    hide InAlphabet, Value;
  }

  lemma AlphabetTrim(s: string)
    requires AllInAlphabet(s)
    ensures Strip(s) == s
  {
    StripTrims(s);
  }

  /** A path decodes from its id exactly when it is not empty and has at most 768 bytes. */
  lemma DecodeEncode(path: seq<Byte>)
    ensures DecodeId(EncodeId(path)) == if 1 <= |path| <= 768 then Some(path) else None
  {
    EncodedShape(path);
    Decode64Encode64(path);
    AlphabetTrim(EncodeId(path));
    hide Encode64, Decode64, EncodeId, Strip;
    assert |EncodeId(path)| <= MAX_ID <==> |path| <= 768;
  }

  /** Hence different paths have different ids. */
  lemma EncodeInjective(p: seq<Byte>, q: seq<Byte>)
    requires EncodeId(p) == EncodeId(q)
    ensures p == q
  {
    EncodedShape(p);
    EncodedShape(q);
    Decode64Encode64(p);
    Decode64Encode64(q);
    hide Encode64, Decode64, EncodeId;
  }

  /** Any non-empty text of the alphabet within the limit decodes, except for a length of 1 modulo 4. */
  lemma DecodesIff(id: string)
    requires AllInAlphabet(id) && 1 <= |id| <= MAX_ID
    ensures DecodeId(id).Some? <==> |id| % 4 != 1
  {
    hide Strip, Decode64, AllInAlphabet, Padding;
    AlphabetTrim(id);
    PaddedDecodes(id);
  }

  /** White space around an id is ignored, and nothing outside the alphabet or above the limit decodes. */
  lemma DecodeTrims(id: string, t: string)
    requires Stripped(id, t)
    ensures DecodeId(id) == DecodeId(t)
    ensures DecodeId(id).Some? ==> 1 <= |t| <= 1024 && AllInAlphabet(t)
  {
    hide Strip, Stripped, Decode64, AllInAlphabet, Padding;
    StripIff(id, t);
    StripTrims(id);
    StripTrims(t);
  }

  lemma {:induction false} PaddedDecodes(s: string)
    requires AllInAlphabet(s)
    ensures Decode64(s + Padding(|s|)).Some? <==> |s| % 4 != 1
    decreases |s|
  {
    hide Decode64, Padding, InAlphabet;
    if |s| >= 4 {
      PaddedDecodes(s[4..]);
      LongDecodes(s);
    } else {
      ShortDecodes(s);
    }
  }

  lemma LongDecodes(s: string)
    requires AllInAlphabet(s) && |s| >= 4
    ensures Decode64(s + Padding(|s|)).Some? == Decode64(s[4..] + Padding(|s[4..]|)).Some?
  {
    var quad, rest := s[..4], s[4..];
    NotPadding(s);
    hide InAlphabet, Decode64, Padding;
    assert s == quad + rest;
    SamePadding(quad, rest);
    assert quad + rest + Padding(|rest|) == quad + (rest + Padding(|rest|));
    DecodeCons(quad, rest + Padding(|rest|));
  }

  lemma NotPadding(s: string)
    requires AllInAlphabet(s)
    ensures forall i | 0 <= i < |s| :: s[i] != '='
  {}

  lemma ShortDecodes(s: string)
    requires AllInAlphabet(s) && |s| < 4
    ensures Decode64(s + Padding(|s|)).Some? <==> |s| != 1
  {
    NotPadding(s);
    hide Value;
    assert !InAlphabet('=');
    if |s| == 0 {
      assert s + Padding(0) == "";
    } else if |s| == 1 {
      var p := s + Padding(1);
      assert p[1] == '=';
    } else if |s| == 2 {
      PaddingIs(s, "==");
      var p := s + "==";
      assert |p| == 4 && p[0] == s[0] && p[1] == s[1] && p[2] == '=' && p[3] == '=';
    } else {
      PaddingIs(s, "=");
      var p := s + "=";
      assert |p| == 4 && p[0] == s[0] && p[1] == s[1] && p[2] == s[2] && p[3] == '=';
    }
  }

  // ----- the alphabet and the bit order of RFC 4648

  /** The order of table 2 of section 5 of RFC 4648. */
  lemma AlphabetOrder(n: Sextet)
    ensures Letter(0) == 'A' && Letter(25) == 'Z' && Letter(26) == 'a' && Letter(51) == 'z' && Letter(52) == '0' && Letter(61) == '9'
    ensures Letter(62) == '-' && Letter(63) == '_'
    ensures n < 61 && n != 25 && n != 51 ==> Letter(n + 1) as int == Letter(n) as int + 1
  {}

  lemma Digits64(a: Byte, b: Byte, c: Byte, n: int)
    requires n == a as int * 65536 + b as int * 256 + c as int
    ensures n / 262144 == a / 4 && n / 4096 % 64 == a % 4 * 16 + b / 16
    ensures n / 64 % 64 == b % 16 * 4 + c / 64 && n % 64 == c % 64
  {
    var p, q, r, s, t, u := a / 4, a % 4, b / 16, b % 16, c / 64, c % 64;
    assert n == 262144 * p + (65536 * q + 4096 * r + 256 * s + 64 * t + u);
    assert n == 4096 * (64 * p + 16 * q + r) + (256 * s + 64 * t + u);
    assert n == 64 * (4096 * p + 1024 * q + 64 * r + 4 * s + t) + u;
    assert n / 4096 == 64 * p + (16 * q + r);
    assert n / 64 == 64 * (64 * p + 16 * q + r) + (4 * s + t);
  }

  /** The letters of three bytes are the digits of their number in base 64, most significant first. */
  lemma QuadIsNumber(a: Byte, b: Byte, c: Byte)
    ensures var n := a as int * 65536 + b as int * 256 + c as int;
            && 0 <= n / 262144 < 64
            && Quad(a, b, c) == [Letter(n / 262144), Letter(n / 4096 % 64), Letter(n / 64 % 64), Letter(n % 64)]
  {
    hide Letter;
    Digits64(a, b, c, a as int * 65536 + b as int * 256 + c as int);
  }

  /** Section 10 of RFC 4648, without the padding, and the two letters that differ from plain base64. */
  lemma TestVectors()
    ensures EncodeId([102]) == "Zg" && EncodeId([102, 111]) == "Zm8" && EncodeId([102, 111, 111]) == "Zm9v"
    ensures EncodeId([251, 240]) == "-_A"
  {
    assert Encode64([102]) == "Zg==";
    assert Encode64([102, 111]) == "Zm8=";
    assert Encode64([102, 111, 111]) == "Zm9v" by {
      assert Encode64([]) == "";
    }
    assert Encode64([251, 240]) == "-_A=";
    StripTail("Zg", "==");
    StripTail("Zm8", "=");
    StripTail("-_A", "=");
    assert "Zg" + "==" == "Zg==" && "Zm8" + "=" == "Zm8=" && "-_A" + "=" == "-_A=";
  }
}
