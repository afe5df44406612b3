/** Unpadded base64url: Python's decoder as it stands, and what it undoes. */
module Base64Url {
  import opened Wrappers

  type byte = b: int | 0 <= b < 256

  datatype DecodeError = NotAscii | OneDataCharTooMany | IncorrectPadding

  function Symbol(v: nat): char
    requires v < 64
  {
    if v < 26 then 'A' + v as char
    else if v < 52 then 'a' + (v - 26) as char
    else if v < 62 then '0' + (v - 52) as char
    else if v == 62 then '-' else '_'
  }

  /** The decoder's table: the two URL-safe symbols are translated, and the standard ones still accepted. */
  function Sextet(c: char): (v: Option<nat>)
    ensures v.Some? ==> v.value < 64
  {
    if 'A' <= c <= 'Z' then Some((c - 'A') as nat)
    else if 'a' <= c <= 'z' then Some((c - 'a') as nat + 26)
    else if '0' <= c <= '9' then Some((c - '0') as nat + 52)
    else if c == '-' || c == '+' then Some(62)
    else if c == '_' || c == '/' then Some(63)
    else None
  }

  predicate AllSymbols(s: string) {
    forall k | 0 <= k < |s| :: Sextet(s[k]).Some?
  }

  predicate AllPads(s: string) {
    forall k | 0 <= k < |s| :: s[k] == '='
  }

  function Padding(n: nat): (s: string)
    ensures |s| == n && AllPads(s)
  {
    seq(n, _ => '=')
  }

  function Group(b0: byte, b1: byte, b2: byte): (s: string)
    ensures |s| == 4 && AllSymbols(s)
  {
    [Symbol(b0 / 4), Symbol(b0 % 4 * 16 + b1 / 16), Symbol(b1 % 16 * 4 + b2 / 64), Symbol(b2 % 64)]
  }

  function Encode(b: seq<byte>): string {
    if |b| == 0 then ""
    else if |b| == 1 then Group(b[0], 0, 0)[..2] + Padding(2)
    else if |b| == 2 then Group(b[0], b[1], 0)[..3] + Padding(1)
    else Group(b[0], b[1], b[2]) + Encode(b[3..])
  }

  function StripPadding(s: string): string {
    if s != "" && s[|s| - 1] == '=' then StripPadding(s[..|s| - 1]) else s
  }

  /**
   binascii's lenient scan: characters outside the alphabet are skipped, a completed padding ends the data.
   `quad` counts the symbols of the current group, `left` holds its bits not yet written.
   */
  function Scan(s: string, quad: nat, left: nat, pads: nat, out: seq<byte>): Result<seq<byte>, DecodeError> {
    if s == "" then
      if quad == 0 then Ok(out) else if quad == 1 then Err(OneDataCharTooMany) else Err(IncorrectPadding)
    else if s[0] == '=' then
      if quad >= 2 && quad + pads + 1 >= 4 then Ok(out)
      else Scan(s[1..], quad, left, if quad >= 2 then pads + 1 else pads, out)
    else
      match Sextet(s[0])
      case None => Scan(s[1..], quad, left, pads, out)
      case Some(v) =>
        if quad == 0 then Scan(s[1..], 1, v, 0, out)
        else if quad == 1 then Scan(s[1..], 2, v % 16, 0, out + [(left * 4 + v / 16) % 256])
        else if quad == 2 then Scan(s[1..], 3, v % 4, 0, out + [(left * 16 + v / 4) % 256])
        else Scan(s[1..], 0, 0, 0, out + [(left * 64 + v) % 256])
  }

  function RestorePadding(s: string): string {
    if |s| % 4 == 0 then s else s + Padding(4 - |s| % 4)
  }

  predicate IsAscii(s: string) {
    forall k | 0 <= k < |s| :: s[k] < '\U{0080}'
  }

  /** b64url_decode. */
  function Decode(s: string): Result<seq<byte>, DecodeError> {
    if !IsAscii(s) then Err(NotAscii) else Scan(RestorePadding(s), 0, 0, 0, [])
  }

  lemma SymbolSextet(v: nat)
    requires v < 64
    ensures Sextet(Symbol(v)) == Some(v) && Symbol(v) != '=' && Symbol(v) < '\U{0080}'
  {
  }

  /** One full group of four symbols writes its three bytes and leaves the scanner where it was. */
  lemma ScanGroup(v0: nat, v1: nat, v2: nat, v3: nat, rest: string, left: nat, pads: nat, out: seq<byte>)
    requires v0 < 64 && v1 < 64 && v2 < 64 && v3 < 64
    ensures Scan([Symbol(v0), Symbol(v1), Symbol(v2), Symbol(v3)] + rest, 0, left, pads, out)
         == Scan(rest, 0, 0, 0, out + [(v0 * 4 + v1 / 16) % 256, (v1 % 16 * 16 + v2 / 4) % 256,
             (v2 % 4 * 64 + v3) % 256])
  {
    SymbolSextet(v0); SymbolSextet(v1); SymbolSextet(v2); SymbolSextet(v3);
    var s := [Symbol(v0), Symbol(v1), Symbol(v2), Symbol(v3)] + rest;
    assert s[1..][0] == Symbol(v1) && s[1..][1..][0] == Symbol(v2) && s[1..][1..][1..][0] == Symbol(v3);
    assert s[1..][1..][1..][1..] == rest;
    assert Scan(s, 0, left, pads, out) == Scan(s[1..], 1, v0, 0, out);
    var out1 := out + [(v0 * 4 + v1 / 16) % 256];
    assert Scan(s[1..], 1, v0, 0, out) == Scan(s[1..][1..], 2, v1 % 16, 0, out1);
    var out2 := out1 + [(v1 % 16 * 16 + v2 / 4) % 256];
    assert Scan(s[1..][1..], 2, v1 % 16, 0, out1) == Scan(s[1..][1..][1..], 3, v2 % 4, 0, out2);
    var out3 := out2 + [(v2 % 4 * 64 + v3) % 256];
    assert Scan(s[1..][1..][1..], 3, v2 % 4, 0, out2) == Scan(rest, 0, 0, 0, out3);
    assert out3 == out + [(v0 * 4 + v1 / 16) % 256, (v1 % 16 * 16 + v2 / 4) % 256, (v2 % 4 * 64 + v3) % 256];
  }

  lemma GroupBytes(b0: byte, b1: byte, b2: byte)
    ensures var v0, v1, v2, v3 := b0 / 4, b0 % 4 * 16 + b1 / 16, b1 % 16 * 4 + b2 / 64, b2 % 64;
            && v0 < 64 && v1 < 64 && v2 < 64 && v3 < 64
            && (v0 * 4 + v1 / 16) % 256 == b0 && (v1 % 16 * 16 + v2 / 4) % 256 == b1 && (v2 % 4 * 64 + v3) % 256 == b2
  {
  }

  lemma ScanBytes(b0: byte, b1: byte, b2: byte, rest: string, left: nat, pads: nat, out: seq<byte>)
    ensures Scan(Group(b0, b1, b2) + rest, 0, left, pads, out) == Scan(rest, 0, 0, 0, out + [b0, b1, b2])
  {
    GroupBytes(b0, b1, b2);
    ScanGroup(b0 / 4, b0 % 4 * 16 + b1 / 16, b1 % 16 * 4 + b2 / 64, b2 % 64, rest, left, pads, out);
  }

  lemma {:induction false} ScanEncode(b: seq<byte>, left: nat, pads: nat, out: seq<byte>)
    ensures Scan(Encode(b), 0, left, pads, out) == Ok(out + b)
  {
    if |b| >= 3 {
      ScanBytes(b[0], b[1], b[2], Encode(b[3..]), left, pads, out);
      ScanEncode(b[3..], 0, 0, out + [b[0], b[1], b[2]]);
      assert out + [b[0], b[1], b[2]] + b[3..] == out + b;
    } else if |b| > 0 {
      ScanTail(b, left, pads, out);
    } else {
      assert out + b == out;
    }
  }

  lemma ScanTail(b: seq<byte>, left: nat, pads: nat, out: seq<byte>)
    requires |b| == 1 || |b| == 2
    ensures Scan(Encode(b), 0, left, pads, out) == Ok(out + b)
  {
    if |b| == 1 {
      ScanTailOfOne(b[0], left, pads, out);
      assert out + [b[0]] == out + b;
    } else {
      ScanTailOfTwo(b[0], b[1], left, pads, out);
      assert out + [b[0]] + [b[1]] == out + b;
    }
  }

  lemma ScanTailOfOne(b0: byte, left: nat, pads: nat, out: seq<byte>)
    ensures Scan(Group(b0, 0, 0)[..2] + Padding(2), 0, left, pads, out) == Ok(out + [b0])
  {
    GroupBytes(b0, 0, 0);
    var v0, v1 := b0 / 4, b0 % 4 * 16;
    assert Group(b0, 0, 0)[..2] + Padding(2) == [Symbol(v0)] + ([Symbol(v1)] + Padding(2));
    ScanTwo(v0, v1, Padding(2), left, pads, out);
    ScanPads(Padding(2), 2, v1 % 16, out + [b0]);
  }

  lemma ScanTailOfTwo(b0: byte, b1: byte, left: nat, pads: nat, out: seq<byte>)
    ensures Scan(Group(b0, b1, 0)[..3] + Padding(1), 0, left, pads, out) == Ok(out + [b0] + [b1])
  {
    GroupBytes(b0, b1, 0);
    var v0, v1, v2 := b0 / 4, b0 % 4 * 16 + b1 / 16, b1 % 16 * 4;
    assert Group(b0, b1, 0)[..3] + Padding(1) == [Symbol(v0)] + ([Symbol(v1)] + ([Symbol(v2)] + Padding(1)));
    ScanThree(v0, v1, v2, left, pads, out);
  }

  lemma ScanThree(v0: nat, v1: nat, v2: nat, left: nat, pads: nat, out: seq<byte>)
    requires v0 < 64 && v1 < 64 && v2 < 64
    ensures Scan([Symbol(v0)] + ([Symbol(v1)] + ([Symbol(v2)] + Padding(1))), 0, left, pads, out)
         == Ok(out + [(v0 * 4 + v1 / 16) % 256] + [(v1 % 16 * 16 + v2 / 4) % 256])
  {
    ScanTwo(v0, v1, [Symbol(v2)] + Padding(1), left, pads, out);
    var out' := out + [(v0 * 4 + v1 / 16) % 256];
    SymbolSextet(v2);
    ScanSymbol(Symbol(v2), Padding(1), 2, v1 % 16, 0, out');
    ScanPads(Padding(1), 3, v2 % 4, out' + [(v1 % 16 * 16 + v2 / 4) % 256]);
  }

  lemma ScanTwo(v0: nat, v1: nat, rest: string, left: nat, pads: nat, out: seq<byte>)
    requires v0 < 64 && v1 < 64
    ensures Scan([Symbol(v0)] + ([Symbol(v1)] + rest), 0, left, pads, out)
         == Scan(rest, 2, v1 % 16, 0, out + [(v0 * 4 + v1 / 16) % 256])
  {
    SymbolSextet(v0);
    SymbolSextet(v1);
    ScanSymbol(Symbol(v0), [Symbol(v1)] + rest, 0, left, pads, out);
    ScanSymbol(Symbol(v1), rest, 1, v0, 0, out);
  }

  /** How the scan ends on the padding that completes a group begun by `quad` symbols. */
  lemma ScanPads(tail: string, quad: nat, left: nat, out: seq<byte>)
    requires quad < 4 && |tail| == (4 - quad) % 4 && AllPads(tail)
    ensures Scan(tail, quad, left, 0, out) == if quad == 1 then Err(OneDataCharTooMany) else Ok(out)
  {
    if quad == 2 {
      assert tail[1..][0] == '=';
    } else if quad == 1 {
      assert tail[1..][0] == '=' && tail[1..][1..][0] == '=' && tail[1..][1..][1..] == "";
      assert Scan(tail[1..][1..], 1, left, 0, out) == Err(OneDataCharTooMany);
    }
  }

  /** The symbols of an encoding, without its padding. */
  function Body(b: seq<byte>): (s: string)
    ensures AllSymbols(s)
  {
    if |b| == 0 then ""
    else if |b| == 1 then Group(b[0], 0, 0)[..2]
    else if |b| == 2 then Group(b[0], b[1], 0)[..3]
    else Group(b[0], b[1], b[2]) + Body(b[3..])
  }

  function PadCount(n: nat): (p: nat)
    ensures p < 3
  {
    if n == 0 then 0 else if n == 1 then 2 else if n == 2 then 1 else PadCount(n - 3)
  }

  function Groups(n: nat): nat {
    if n == 0 then 0 else if n < 3 then 1 else 1 + Groups(n - 3)
  }

  lemma {:induction false} BodyLength(b: seq<byte>)
    ensures |Body(b)| + PadCount(|b|) == 4 * Groups(|b|)
  {
    if |b| >= 3 {
      BodyLength(b[3..]);
    }
  }

  lemma {:induction false} BodyPadding(b: seq<byte>)
    ensures Encode(b) == Body(b) + Padding(PadCount(|b|))
  {
    if |b| >= 3 {
      BodyPadding(b[3..]);
      Prepend(Group(b[0], b[1], b[2]), Body(b[3..]), Padding(PadCount(|b|)));
    }
  }

  lemma Prepend(a: string, b: string, c: string)
    ensures a + (b + c) == a + b + c
  {
  }

  lemma {:induction false} StripPads(s: string, n: nat)
    requires AllSymbols(s)
    ensures StripPadding(s + Padding(n)) == s
  {
    if n == 0 {
      assert s + Padding(0) == s;
    } else {
      var t := s + Padding(n);
      assert t[|t| - 1] == '=' && t[..|t| - 1] == s + Padding(n - 1);
      StripPads(s, n - 1);
    }
  }

  lemma Multiple(n: nat)
    ensures 4 * n % 4 == 0
  {
  }

  lemma RestoreIsComplement(s: string, p: nat)
    requires p < 3 && (|s| + p) % 4 == 0
    ensures RestorePadding(s) == s + Padding(p) && |s| % 4 != 1
  {
    if |s| % 4 == 0 {
      assert p == 0 && s + Padding(0) == s;
    } else {
      assert p == 4 - |s| % 4;
    }
  }

  lemma UnpaddedEncoding(b: seq<byte>)
    ensures StripPadding(Encode(b)) == Body(b) && RestorePadding(Body(b)) == Encode(b)
    ensures |Body(b)| % 4 != 1
  {
    Multiple(Groups(|b|));
    BodyPadding(b);
    BodyLength(b);
    StripPads(Body(b), PadCount(|b|));
    RestoreIsComplement(Body(b), PadCount(|b|));
  }

  lemma SymbolsAreAscii(s: string, n: nat)
    requires AllSymbols(s)
    ensures IsAscii(s) && IsAscii(s + Padding(n))
  {
  }

  lemma EncodingIsWhole(b: seq<byte>)
    ensures IsAscii(Body(b)) && IsAscii(Encode(b)) && RestorePadding(Encode(b)) == Encode(b)
  {
    BodyPadding(b);
    BodyLength(b);
    Multiple(Groups(|b|));
    SymbolsAreAscii(Body(b), PadCount(|b|));
  }

  /** Encoding without padding loses nothing, padding put back or not, and never has length 1 modulo 4. */
  lemma RoundTrip(b: seq<byte>)
    ensures Decode(StripPadding(Encode(b))) == Ok(b)
    ensures Decode(Encode(b)) == Ok(b)
    ensures |StripPadding(Encode(b))| % 4 != 1
  {
    UnpaddedEncoding(b);
    EncodingIsWhole(b);
    ScanEncode(b, 0, 0, []);
    assert [] + b == b;
  }

  lemma EncodeInjective(b: seq<byte>, c: seq<byte>)
    requires StripPadding(Encode(b)) == StripPadding(Encode(c))
    ensures b == c
  {
    RoundTrip(b);
    RoundTrip(c);
  }

  function NextLeft(quad: nat, v: nat): nat {
    if quad == 0 then v else if quad == 1 then v % 16 else if quad == 2 then v % 4 else 0
  }

  function NextOut(quad: nat, left: nat, v: nat, out: seq<byte>): seq<byte> {
    if quad == 0 then out
    else if quad == 1 then out + [(left * 4 + v / 16) % 256]
    else if quad == 2 then out + [(left * 16 + v / 4) % 256]
    else out + [(left * 64 + v) % 256]
  }

  lemma ScanSymbol(c: char, rest: string, quad: nat, left: nat, pads: nat, out: seq<byte>)
    requires quad < 4 && Sextet(c).Some?
    ensures var v := Sextet(c).value;
            Scan([c] + rest, quad, left, pads, out)
            == Scan(rest, (quad + 1) % 4, NextLeft(quad, v), 0, NextOut(quad, left, v, out))
  {
    assert ([c] + rest)[1..] == rest;
  }

  lemma {:induction false} ScanSymbols(s: string, tail: string, quad: nat, left: nat, out: seq<byte>)
    returns (left': nat, out': seq<byte>)
    requires quad < 4 && AllSymbols(s)
    ensures Scan(s + tail, quad, left, 0, out) == Scan(tail, (quad + |s|) % 4, left', 0, out')
    decreases |s|
  {
    if s == "" {
      assert s + tail == tail;
      left', out' := left, out;
    } else {
      var v := Sextet(s[0]).value;
      assert s + tail == [s[0]] + (s[1..] + tail);
      ScanSymbol(s[0], s[1..] + tail, quad, left, 0, out);
      NextQuad(quad, |s[1..]|);
      left', out' := ScanSymbols(s[1..], tail, (quad + 1) % 4, NextLeft(quad, v), NextOut(quad, left, v, out));
    }
  }

  lemma NextQuad(quad: nat, n: nat)
    requires quad < 4
    ensures ((quad + 1) % 4 + n) % 4 == (quad + n + 1) % 4
  {
    if quad == 3 {
      assert (n + 4) % 4 == n % 4;
    }
  }

  /** On text over the alphabet, decoding fails exactly for the lengths no encoding has. */
  lemma DecodeAccepts(s: string)
    requires AllSymbols(s)
    ensures Decode(s).Ok? <==> |s| % 4 != 1
    ensures |s| % 4 == 1 ==> Decode(s) == Err(OneDataCharTooMany)
  {
    var tail := Padding((4 - |s| % 4) % 4);
    assert RestorePadding(s) == s + tail;
    var left, out := ScanSymbols(s, tail, 0, 0, []);
    ScanPads(tail, |s| % 4, left, out);
    SymbolsAreAscii(s, 0);
  }

  // ----- what is written

  /** The alphabet of section 5 of RFC 4648: its ends, and the runs between them. */
  lemma SymbolTable(v: nat)
    ensures Symbol(0) == 'A' && Symbol(25) == 'Z' && Symbol(26) == 'a' && Symbol(51) == 'z'
    ensures Symbol(52) == '0' && Symbol(61) == '9' && Symbol(62) == '-' && Symbol(63) == '_'
    ensures v < 61 && v != 25 && v != 51 ==> Symbol(v + 1) as int == Symbol(v) as int + 1
  {
  }

  lemma SymbolIsSafe(v: nat)
    requires v < 64
    ensures UrlSafe(Symbol(v))
  {
  }

  predicate UrlSafe(c: char) {
    'A' <= c <= 'Z' || 'a' <= c <= 'z' || '0' <= c <= '9' || c == '-' || c == '_'
  }

  lemma {:induction false} BodyIsSafe(b: seq<byte>)
    ensures forall k | 0 <= k < |Body(b)| :: UrlSafe(Body(b)[k])
  {
    if |b| >= 3 {
      BodyIsSafe(b[3..]);
    }
  }

  /** Only letters, digits, `-` and `_` are written, and as many of them as the bytes need. */
  lemma WritesUrlSafe(b: seq<byte>)
    ensures forall k | 0 <= k < |StripPadding(Encode(b))| :: UrlSafe(StripPadding(Encode(b))[k])
    ensures |StripPadding(Encode(b))| == 4 * (|b| / 3) + (if |b| % 3 == 0 then 0 else |b| % 3 + 1)
  {
    UnpaddedEncoding(b);
    BodyIsSafe(b);
    BodySize(b);
  }

  lemma {:induction false} BodySize(b: seq<byte>)
    ensures |Body(b)| == 4 * (|b| / 3) + (if |b| % 3 == 0 then 0 else |b| % 3 + 1)
  {
    if |b| >= 3 {
      BodySize(b[3..]);
    }
  }

  /** Three bytes are written as the four symbols of their 24 bits, the most significant first. */
  lemma WritesBits(b: seq<byte>) returns (v0: nat, v1: nat, v2: nat, v3: nat)
    requires |b| >= 3
    ensures v0 < 64 && v1 < 64 && v2 < 64 && v3 < 64
    ensures v0 * 0x4_0000 + v1 * 0x1000 + v2 * 0x40 + v3
         == b[0] as int * 0x1_0000 + b[1] as int * 0x100 + b[2] as int
    ensures Encode(b) == [Symbol(v0), Symbol(v1), Symbol(v2), Symbol(v3)] + Encode(b[3..])
  {
    v0, v1, v2, v3 := b[0] / 4, b[0] % 4 * 16 + b[1] / 16, b[1] % 16 * 4 + b[2] / 64, b[2] % 64;
  }

  /** The text without what is neither a symbol nor padding. */
  function Known(s: string): string {
    if s == "" then ""
    else if s[0] == '=' || Sextet(s[0]).Some? then [s[0]] + Known(s[1..])
    else Known(s[1..])
  }

  /** The decoder skips the rest. */
  lemma {:induction false} ScanSkips(s: string, quad: nat, left: nat, pads: nat, out: seq<byte>)
    ensures Scan(s, quad, left, pads, out) == Scan(Known(s), quad, left, pads, out)
    decreases |s|
  {
    if s != "" {
      var t := Known(s[1..]);
      assert ([s[0]] + t)[1..] == t;
      if s[0] == '=' {
        ScanSkips(s[1..], quad, left, if quad >= 2 then pads + 1 else pads, out);
      } else if Sextet(s[0]).Some? {
        var v := Sextet(s[0]).value;
        ScanSkips(s[1..], if quad < 3 then quad + 1 else 0, NextLeft(quad, v), 0, NextOut(quad, left, v, out));
      } else {
        ScanSkips(s[1..], quad, left, pads, out);
      }
    }
  }

  /** Text outside ASCII is refused as such, and only that. */
  lemma {:induction false} ScanNeverNotAscii(s: string, quad: nat, left: nat, pads: nat, out: seq<byte>)
    ensures Scan(s, quad, left, pads, out) != Err(NotAscii)
    decreases |s|
  {
    if s != "" {
      if s[0] == '=' {
        ScanNeverNotAscii(s[1..], quad, left, if quad >= 2 then pads + 1 else pads, out);
      } else if Sextet(s[0]).Some? {
        var v := Sextet(s[0]).value;
        ScanNeverNotAscii(s[1..], if quad < 3 then quad + 1 else 0, NextLeft(quad, v), 0, NextOut(quad, left, v, out));
      } else {
        ScanNeverNotAscii(s[1..], quad, left, pads, out);
      }
    }
  }

  lemma RefusesNonAscii(s: string)
    ensures Decode(s) == Err(NotAscii) <==> exists k :: 0 <= k < |s| && s[k] >= '\U{0080}'
  {
    ScanNeverNotAscii(RestorePadding(s), 0, 0, 0, []);
  }
}
