/** UTF-8, and the fatal `TextDecoder` that reads it. */
module Utf8 {
  import opened Wrappers

  type byte = x: int | 0 <= x < 256

  function EncodeChar(c: char): (r: seq<byte>)
    ensures 1 <= |r| <= 4
  {
    var n := c as int;
    if n < 0x80 then [n]
    else if n < 0x800 then [0xC0 + n / 0x40, 0x80 + n % 0x40]
    else if n < 0x10000 then [0xE0 + n / 0x1000, 0x80 + n / 0x40 % 0x40, 0x80 + n % 0x40]
    else [0xF0 + n / 0x40000, 0x80 + n / 0x1000 % 0x40, 0x80 + n / 0x40 % 0x40, 0x80 + n % 0x40]
  }

  function Encode(s: string): seq<byte> {
    if s == "" then [] else EncodeChar(s[0]) + Encode(s[1..])
  }

  /** Length announced by a lead byte; 0 for a byte that cannot lead. */
  function LeadLength(b: byte): nat {
    if b < 0x80 then 1
    else if 0xC0 <= b < 0xE0 then 2
    else if 0xE0 <= b < 0xF0 then 3
    else if 0xF0 <= b < 0xF8 then 4
    else 0
  }

  function CodePoint(bs: seq<byte>): int
    requires 1 <= |bs| <= 4
  {
    var b := seq(|bs|, i requires 0 <= i < |bs| => bs[i] as int);
    if |b| == 1 then b[0]
    else if |b| == 2 then (b[0] - 0xC0) * 0x40 + b[1] - 0x80
    else if |b| == 3 then (b[0] - 0xE0) * 0x1000 + (b[1] - 0x80) * 0x40 + b[2] - 0x80
    else (b[0] - 0xF0) * 0x40000 + (b[1] - 0x80) * 0x1000 + (b[2] - 0x80) * 0x40 + b[3] - 0x80
  }

  predicate IsScalar(n: int) {
    0 <= n < 0xD800 || 0xE000 <= n < 0x110000
  }

  /** One character; overlong forms, surrogates and values past U+10FFFF are errors. */
  function DecodeChar(bs: seq<byte>): Option<char>
    requires 1 <= |bs| <= 4
  {
    var n := CodePoint(bs);
    if IsScalar(n) && EncodeChar(n as char) == bs then Some(n as char) else None
  }

  function Decode(bs: seq<byte>): Option<string> {
    if bs == [] then Some("")
    else
      var n := LeadLength(bs[0]);
      if n == 0 || n > |bs| then None
      else
        var c := DecodeChar(bs[..n]);
        var rest := Decode(bs[n..]);
        if c.Some? && rest.Some? then Some([c.value] + rest.value) else None
  }

  const BOM: char := '\U{FEFF}'

  /** `new TextDecoder("utf-8", { fatal: true })` drops one leading byte order mark. */
  function DecodeText(bs: seq<byte>): Option<string> {
    if |bs| >= 3 && bs[..3] == [0xEF, 0xBB, 0xBF] then Decode(bs[3..]) else Decode(bs)
  }

  lemma EncodedChar(c: char)
    ensures var bs := EncodeChar(c);
            LeadLength(bs[0]) == |bs| && CodePoint(bs) == c as int
  {
    var n := c as int;
    if 0x80 <= n < 0x800 {
      assert n == n / 0x40 * 0x40 + n % 0x40;
    } else if 0x800 <= n < 0x10000 {
      assert n / 0x1000 == n / 0x40 / 0x40;
      assert n / 0x40 == n / 0x40 / 0x40 * 0x40 + n / 0x40 % 0x40;
    } else if n >= 0x10000 {
      assert n / 0x1000 == n / 0x40 / 0x40 && n / 0x40000 == n / 0x1000 / 0x40;
      assert n / 0x40 == n / 0x40 / 0x40 * 0x40 + n / 0x40 % 0x40;
      assert n / 0x1000 == n / 0x1000 / 0x40 * 0x40 + n / 0x1000 % 0x40;
    }
  }

  /** Decoding inverts encoding. */
  lemma {:induction false} DecodeEncode(s: string)
    ensures Decode(Encode(s)) == Some(s)
  {
    if s != "" {
      var head := EncodeChar(s[0]);
      EncodedChar(s[0]);
      DecodeEncode(s[1..]);
      var bs := Encode(s);
      assert bs[..|head|] == head && bs[|head|..] == Encode(s[1..]);
      assert [s[0]] + s[1..] == s;
    }
  }

  /** Only the encoding of a string decodes to it. */
  lemma {:induction false} EncodeDecode(bs: seq<byte>)
    ensures Decode(bs).Some? ==> Encode(Decode(bs).value) == bs
  {
    hide CodePoint, EncodeChar, IsScalar;
    if bs != [] {
      var n := LeadLength(bs[0]);
      if 0 < n <= |bs| {
        EncodeDecode(bs[n..]);
        var c := DecodeChar(bs[..n]);
        var rest := Decode(bs[n..]);
        if c.Some? && rest.Some? {
          assert ([c.value] + rest.value)[1..] == rest.value;
          assert bs[..n] + bs[n..] == bs;
        }
      }
    }
  }

  lemma {:induction false} EncodeAppend(s: string, t: string)
    ensures Encode(s + t) == Encode(s) + Encode(t)
  {
    hide EncodeChar;
    if s == "" {
      assert s + t == t;
    } else {
      EncodeAppend(s[1..], t);
      assert (s + t)[1..] == s[1..] + t;
      var first, mine, theirs := EncodeChar(s[0]), Encode(s[1..]), Encode(t);
      assert first + (mine + theirs) == (first + mine) + theirs;
    }
  }

  predicate IsAscii(s: string) {
    forall i :: 0 <= i < |s| ==> s[i] as int < 0x80
  }

  function Bytes(s: string): seq<byte>
    requires IsAscii(s)
  {
    seq(|s|, i requires 0 <= i < |s| => s[i] as int)
  }

  lemma {:induction false} EncodeAscii(s: string)
    requires IsAscii(s)
    ensures Encode(s) == Bytes(s)
  {
    if s != "" {
      EncodeAscii(s[1..]);
      assert Bytes(s) == [s[0] as int] + Bytes(s[1..]);
    }
  }

  lemma EncodeOfBom()
    ensures EncodeChar(BOM) == [0xEF, 0xBB, 0xBF]
  {
  }

  lemma OnlyBomLooksLikeBom(s: string)
    requires s != ""
    ensures |Encode(s)| >= 3 && Encode(s)[..3] == [0xEF, 0xBB, 0xBF] ==> s[0] == BOM
  {
    var head := EncodeChar(s[0]);
    EncodedChar(s[0]);
    var bs := Encode(s);
    assert head == bs[..|head|];
    if |bs| >= 3 && bs[..3] == [0xEF, 0xBB, 0xBF] {
      assert head[0] == bs[0] == bs[..3][0];
      assert head == bs[..3];
    }
  }

  /** The decoder gives back every string except that it drops a leading byte order mark. */
  lemma DecodeTextEncode(s: string)
    ensures DecodeText(Encode(s)) == Some(if s != "" && s[0] == BOM then s[1..] else s)
  {
    EncodeOfBom();
    DecodeEncode(s);
    var bs := Encode(s);
    if s != "" && s[0] == BOM {
      DecodeEncode(s[1..]);
      assert bs[..3] == [0xEF, 0xBB, 0xBF] && bs[3..] == Encode(s[1..]);
    } else if s != "" {
      OnlyBomLooksLikeBom(s);
    }
  }
}
