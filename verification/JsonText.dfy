/**
 JSON string literals as Python's json module writes them (ASCII only, section 7 of RFC 8259) and reads them.

 A Python string is a sequence of code points and may contain surrogates, so code points are plain integers here.
 */
module JsonText {
  import opened Numerals
  import opened Wrappers

  type CodePoint = c: int | 0 <= c < 0x11_0000
  type Text = seq<CodePoint>

  predicate High(c: CodePoint) { 0xD800 <= c < 0xDC00 }

  predicate Low(c: CodePoint) { 0xDC00 <= c < 0xE000 }

  // ----- writing

  function Unicode(u: nat): (s: string)
    requires u < 0x1_0000
    ensures |s| == 6
  {
    ['\\', 'u', DigitChar(u / 0x1000), DigitChar(u / 0x100 % 16), DigitChar(u / 16 % 16), DigitChar(u % 16)]
  }

  function Escape(c: CodePoint): string {
    if c == 0x22 then "\\\""
    else if c == 0x5C then "\\\\"
    else if c == 0x0A then "\\n"
    else if c == 0x0D then "\\r"
    else if c == 0x09 then "\\t"
    else if c == 0x0C then "\\f"
    else if c == 0x08 then "\\b"
    else if 0x20 <= c <= 0x7E then [c as char]
    else if c < 0x1_0000 then Unicode(c)
    else Unicode(0xD800 + (c - 0x1_0000) / 0x400) + Unicode(0xDC00 + (c - 0x1_0000) % 0x400)
  }

  function EscapeAll(t: Text): string {
    if t == [] then "" else Escape(t[0]) + EscapeAll(t[1..])
  }

  function Quote(t: Text): string {
    "\"" + EscapeAll(t) + "\""
  }

  // ----- reading

  function HexValue(c: char): (v: Option<nat>)
    ensures v.Some? ==> v.value < 16
  {
    if '0' <= c <= '9' then Some((c - '0') as nat)
    else if 'a' <= c <= 'f' then Some((c - 'a') as nat + 10)
    else if 'A' <= c <= 'F' then Some((c - 'A') as nat + 10)
    else None
  }

  /** The four hexadecimal digits that follow `\u`. */
  function HexQuad(s: string): (u: Option<nat>)
    ensures u.Some? ==> |s| >= 4 && u.value < 0x1_0000
  {
    if |s| < 4 || HexValue(s[0]).None? || HexValue(s[1]).None? || HexValue(s[2]).None? || HexValue(s[3]).None? then None
    else Some(HexValue(s[0]).value * 0x1000 + HexValue(s[1]).value * 0x100
              + HexValue(s[2]).value * 16 + HexValue(s[3]).value)
  }

  function Merge(h: CodePoint, l: CodePoint): CodePoint
    requires High(h) && Low(l)
  {
    0x1_0000 + (h - 0xD800) * 0x400 + (l - 0xDC00)
  }

  function ShortEscape(c: char): Option<CodePoint> {
    if c == '"' then Some(0x22) else if c == '\\' then Some(0x5C) else if c == '/' then Some(0x2F)
    else if c == 'b' then Some(0x08) else if c == 'f' then Some(0x0C) else if c == 'n' then Some(0x0A)
    else if c == 'r' then Some(0x0D) else if c == 't' then Some(0x09) else None
  }

  /** One code point of a literal and the number of characters it takes. */
  function ReadOne(s: string): (r: Option<(CodePoint, nat)>)
    requires s != ""
    ensures r.Some? ==> 0 < r.value.1 <= |s|
  {
    if s[0] != '\\' then
      if s[0] < ' ' then None else Some((s[0] as int, 1))
    else if |s| < 2 then None
    else if s[1] != 'u' then
      match ShortEscape(s[1]) case None => None case Some(c) => Some((c, 2))
    else
      match HexQuad(s[2..])
      case None => None
      case Some(u) =>
        if High(u) && |s| >= 8 && s[6] == '\\' && s[7] == 'u' then
          match HexQuad(s[8..])
          case None => None
          case Some(l) => if Low(l) then Some((Merge(u, l), 12)) else Some((u, 6))
        else Some((u, 6))
  }

  /** The code points up to the closing quote, and what follows it. */
  function ReadText(s: string): (r: Option<(Text, string)>)
    ensures r.Some? ==> |r.value.1| < |s|
  {
    if s == "" then None
    else if s[0] == '"' then Some(([], s[1..]))
    else match ReadOne(s)
      case None => None
      case Some((c, n)) =>
        match ReadText(s[n..])
        case None => None
        case Some((t, rest)) => Some(([c] + t, rest))
  }

  // ----- reading back what was written

  /** What a text becomes when it is written and read: an adjacent surrogate pair is read as one code point. */
  function Joined(t: Text): Text {
    if t == [] then []
    else if |t| >= 2 && High(t[0]) && Low(t[1]) then [Merge(t[0], t[1])] + Joined(t[2..])
    else [t[0]] + Joined(t[1..])
  }

  /** No high surrogate is directly followed by a low one. */
  predicate Unsplit(t: Text) {
    forall k | 0 <= k < |t| - 1 :: !(High(t[k]) && Low(t[k + 1]))
  }

  lemma {:induction false} JoinedShrinks(t: Text)
    ensures |Joined(t)| <= |t|
    ensures |Joined(t)| == |t| <==> Unsplit(t)
    ensures Unsplit(t) ==> Joined(t) == t
  {
    if t != [] {
      if |t| >= 2 && High(t[0]) && Low(t[1]) {
        JoinedShrinks(t[2..]);
      } else {
        JoinedShrinks(t[1..]);
        if Unsplit(t[1..]) {
          forall k | 0 <= k < |t| - 1 ensures !(High(t[k]) && Low(t[k + 1])) {
            assert k > 0 ==> !(High(t[1..][k - 1]) && Low(t[1..][k]));
          }
        }
        if Unsplit(t) {
          forall k | 0 <= k < |t[1..]| - 1 ensures !(High(t[1..][k]) && Low(t[1..][k + 1])) {
            assert !(High(t[k + 1]) && Low(t[k + 2]));
          }
        }
      }
    }
  }

  lemma MergedEscape(h: CodePoint, l: CodePoint)
    requires High(h) && Low(l)
    ensures Escape(Merge(h, l)) == Escape(h) + Escape(l)
  {
    var c := Merge(h, l);
    assert (c - 0x1_0000) / 0x400 == h - 0xD800 && (c - 0x1_0000) % 0x400 == l - 0xDC00;
  }

  /** The surrogate pair in which a code point beyond the first plane is written. */
  lemma Halves(c: CodePoint) returns (h: CodePoint, l: CodePoint)
    requires c >= 0x1_0000
    ensures High(h) && Low(l) && Merge(h, l) == c && Escape(c) == Unicode(h) + Unicode(l)
  {
    h, l := 0xD800 + (c - 0x1_0000) / 0x400, 0xDC00 + (c - 0x1_0000) % 0x400;
  }

  lemma Associates(a: string, b: string, rest: string)
    ensures a + (b + rest) == a + b + rest
  {
  }

  /** Joining changes nothing in what is written. */
  lemma {:induction false} JoinedEscapes(t: Text)
    ensures EscapeAll(Joined(t)) == EscapeAll(t)
  {
    if |t| >= 2 && High(t[0]) && Low(t[1]) {
      JoinedEscapes(t[2..]);
      MergedEscape(t[0], t[1]);
      assert Joined(t)[1..] == Joined(t[2..]) && t[1..][1..] == t[2..];
      Associates(Escape(t[0]), Escape(t[1]), EscapeAll(t[2..]));
    } else if t != [] {
      JoinedEscapes(t[1..]);
      assert Joined(t)[1..] == Joined(t[1..]);
    }
  }

  lemma DigitReads(k: nat)
    requires k < 16
    ensures HexValue(DigitChar(k)) == Some(k)
  {
  }

  lemma QuadReads(a: nat, b: nat, c: nat, d: nat, rest: string)
    requires a < 16 && b < 16 && c < 16 && d < 16
    ensures HexQuad([DigitChar(a), DigitChar(b), DigitChar(c), DigitChar(d)] + rest)
            == Some(a * 0x1000 + b * 0x100 + c * 16 + d)
  {
    DigitReads(a);
    DigitReads(b);
    DigitReads(c);
    DigitReads(d);
  }

  lemma UnicodeReads(u: nat, rest: string)
    requires u < 0x1_0000
    ensures var s := Unicode(u) + rest; s[0] == '\\' && s[1] == 'u' && HexQuad(s[2..]) == Some(u) && s[6..] == rest
  {
    var a, b, c, d := u / 0x1000, u / 0x100 % 16, u / 16 % 16, u % 16;
    assert (Unicode(u) + rest)[2..] == [DigitChar(a), DigitChar(b), DigitChar(c), DigitChar(d)] + rest;
    QuadReads(a, b, c, d, rest);
    QuadValue(u);
  }

  lemma QuadValue(u: nat)
    requires u < 0x1_0000
    ensures u / 0x1000 * 0x1000 + u / 0x100 % 16 * 0x100 + u / 16 % 16 * 16 + u % 16 == u
  {
    assert u / 16 == u / 0x100 * 16 + u / 16 % 16 && u / 0x100 == u / 0x1000 * 16 + u / 0x100 % 16;
  }

  /** The text after a lone high surrogate does not start with the escape of a low one. */
  predicate LowNext(s: string) {
    |s| >= 2 && s[0] == '\\' && s[1] == 'u' && (HexQuad(s[2..]).None? || Low(HexQuad(s[2..]).value))
  }

  lemma EscapeNotLow(c: CodePoint, rest: string)
    requires !Low(c)
    ensures !LowNext(Escape(c) + rest)
  {
    if c < 0x1_0000 {
      if Escape(c) == Unicode(c) {
        UnicodeReads(c, rest);
      }
    } else {
      var h, l := Halves(c);
      Associates(Unicode(h), Unicode(l), rest);
      UnicodeReads(h, Unicode(l) + rest);
    }
  }

  lemma LoneReads(c: CodePoint, rest: string)
    requires c < 0x1_0000 && (High(c) ==> !LowNext(rest))
    ensures ReadOne(Unicode(c) + rest) == Some((c, 6))
  {
    UnicodeReads(c, rest);
    var s := Unicode(c) + rest;
    if High(c) && |s| >= 8 && s[6] == '\\' && s[7] == 'u' {
      assert s[8..] == rest[2..];
      assert rest[0] == s[6] && rest[1] == s[7];
    }
  }

  lemma PairReads(h: CodePoint, l: CodePoint, rest: string)
    requires High(h) && Low(l)
    ensures ReadOne(Unicode(h) + Unicode(l) + rest) == Some((Merge(h, l), 12))
  {
    var s := Unicode(h) + Unicode(l) + rest;
    assert s == Unicode(h) + (Unicode(l) + rest);
    UnicodeReads(h, Unicode(l) + rest);
    UnicodeReads(l, rest);
    assert s[8..] == (Unicode(l) + rest)[2..];
  }

  lemma AstralReads(c: CodePoint, rest: string)
    requires c >= 0x1_0000
    ensures |Escape(c)| == 12 && Escape(c)[0] == '\\' && ReadOne(Escape(c) + rest) == Some((c, 12))
  {
    var h, l := Halves(c);
    PairReads(h, l, rest);
  }

  /** A code point that is not a split pair's half reads back as itself. */
  lemma EscapeReads(c: CodePoint, rest: string)
    requires High(c) ==> !LowNext(rest)
    ensures Escape(c) != "" && Escape(c)[0] != '"'
    ensures ReadOne(Escape(c) + rest) == Some((c, |Escape(c)|))
  {
    if c >= 0x1_0000 {
      AstralReads(c, rest);
    } else if Escape(c) == Unicode(c) {
      LoneReads(c, rest);
    }
  }

  /** What the reader meets after the text: the rest of the literal, its closing quote, and whatever follows. */
  function Tail(t: Text, rest: string): string {
    EscapeAll(t) + "\"" + rest
  }

  lemma ReadStep(head: string, tail: string, c: CodePoint, t: Text, rest: string)
    requires head != "" && head[0] != '"'
    requires ReadOne(head + tail) == Some((c, |head|)) && ReadText(tail) == Some((t, rest))
    ensures ReadText(head + tail) == Some(([c] + t, rest))
  {
    assert (head + tail)[|head|..] == tail;
  }

  lemma TailSplits(t: Text, rest: string)
    requires t != []
    ensures Tail(t, rest) == Escape(t[0]) + Tail(t[1..], rest)
  {
  }

  lemma HighThenTail(t: Text, rest: string)
    requires t == [] || !Low(t[0])
    ensures !LowNext(Tail(t, rest))
  {
    if t != [] {
      TailSplits(t, rest);
      EscapeNotLow(t[0], Tail(t[1..], rest));
    }
  }

  lemma PairHead(h: CodePoint, l: CodePoint, tail: string)
    requires High(h) && Low(l)
    ensures var head := Escape(h) + Escape(l);
            head != "" && head[0] != '"' && ReadOne(head + tail) == Some((Merge(h, l), |head|))
  {
    PairReads(h, l, tail);
  }

  lemma TailOfPair(t: Text, rest: string)
    requires |t| >= 2
    ensures Tail(t, rest) == Escape(t[0]) + Escape(t[1]) + Tail(t[2..], rest)
  {
    TailSplits(t, rest);
    TailSplits(t[1..], rest);
    assert t[1..][1..] == t[2..];
  }

  lemma ReadsPair(t: Text, rest: string)
    requires |t| >= 2 && High(t[0]) && Low(t[1]) && ReadText(Tail(t[2..], rest)) == Some((Joined(t[2..]), rest))
    ensures ReadText(Tail(t, rest)) == Some((Joined(t), rest))
  {
    TailOfPair(t, rest);
    PairHead(t[0], t[1], Tail(t[2..], rest));
    ReadStep(Escape(t[0]) + Escape(t[1]), Tail(t[2..], rest), Merge(t[0], t[1]), Joined(t[2..]), rest);
  }

  lemma ReadsLone(t: Text, rest: string)
    requires t != [] && !(|t| >= 2 && High(t[0]) && Low(t[1]))
    requires ReadText(Tail(t[1..], rest)) == Some((Joined(t[1..]), rest))
    ensures ReadText(Tail(t, rest)) == Some((Joined(t), rest))
  {
    TailSplits(t, rest);
    if High(t[0]) {
      HighThenTail(t[1..], rest);
    }
    EscapeReads(t[0], Tail(t[1..], rest));
    ReadStep(Escape(t[0]), Tail(t[1..], rest), t[0], Joined(t[1..]), rest);
  }

  /** Reading a written literal gives the text with its split pairs joined. */
  lemma {:induction false} ReadsQuoted(t: Text, rest: string)
    ensures ReadText(Tail(t, rest)) == Some((Joined(t), rest))
    decreases |t|
  {
    if t == [] {
      assert Tail(t, rest)[1..] == rest;
    } else if |t| >= 2 && High(t[0]) && Low(t[1]) {
      ReadsQuoted(t[2..], rest);
      ReadsPair(t, rest);
    } else {
      ReadsQuoted(t[1..], rest);
      ReadsLone(t, rest);
    }
  }

  lemma {:induction false} JoinedUnsplit(t: Text)
    ensures Unsplit(Joined(t))
    ensures t != [] && Low(Joined(t)[0]) ==> Low(t[0])
    ensures Joined(t) == [] <==> t == []
  {
    if t != [] {
      if |t| >= 2 && High(t[0]) && Low(t[1]) {
        JoinedUnsplit(t[2..]);
      } else {
        JoinedUnsplit(t[1..]);
      }
    }
  }

  // ----- what is written

  /** Printable ASCII other than the quote and the backslash is written as it is. */
  lemma {:induction false} PlainText(t: Text)
    requires forall k | 0 <= k < |t| :: 0x20 <= t[k] <= 0x7E && t[k] != 0x22 && t[k] != 0x5C
    ensures |EscapeAll(t)| == |t| && forall k | 0 <= k < |t| :: EscapeAll(t)[k] as int == t[k]
  {
    if t != [] {
      PlainText(t[1..]);
    }
  }

  lemma ShortEscapes()
    ensures Escape(0x22) == "\\\"" && Escape(0x5C) == "\\\\" && Escape(0x0A) == "\\n" && Escape(0x0D) == "\\r"
    ensures Escape(0x09) == "\\t" && Escape(0x0C) == "\\f" && Escape(0x08) == "\\b"
  {
  }

  /** Other control characters, and everything from 0x7F to 0xFFFF, is written as four lower-case hexadecimal digits. */
  lemma LongEscape(c: CodePoint) returns (i: nat, j: nat, k: nat, l: nat)
    requires (c < 0x20 && c !in {0x08, 0x09, 0x0A, 0x0C, 0x0D}) || 0x7F <= c < 0x1_0000
    ensures i < 16 && j < 16 && k < 16 && l < 16 && c == i * 0x1000 + j * 0x100 + k * 0x10 + l
    ensures var hex := "0123456789abcdef"; Escape(c) == ['\\', 'u', hex[i], hex[j], hex[k], hex[l]]
  {
    i, j, k, l := c / 0x1000, c / 0x100 % 16, c / 16 % 16, c % 16;
    QuadValue(c);
    DigitCharIs(i);
    DigitCharIs(j);
    DigitCharIs(k);
    DigitCharIs(l);
  }

  /** And everything beyond as the two halves of a surrogate pair. */
  lemma PairEscape(c: CodePoint) returns (h: CodePoint, l: CodePoint)
    requires c >= 0x1_0000
    ensures 0xD800 <= h < 0xDC00 && 0xDC00 <= l < 0xE000
    ensures c == 0x1_0000 + (h - 0xD800) * 0x400 + (l - 0xDC00) && Escape(c) == Escape(h) + Escape(l)
  {
    h, l := Halves(c);
  }
}
