/** The control-code rewriting against UTF-8 as an encoding of code points. */
module Utf8 {
  import opened Bytes
  import opened ControlCodes

  /** The code points that one to four bytes can carry; zero ends a string. */
  type CodePoint = c: int | 0 < c < 0x20_0000 witness 1

  /** UTF-8 by arithmetic on the code point. */
  function Encode(c: CodePoint): seq<Byte> {
    if c < 0x80 then [c]
    else if c < 0x800 then [0xC0 + c / 0x40, 0x80 + c % 0x40]
    else if c < 0x1_0000 then [0xE0 + c / 0x1000, 0x80 + c / 0x40 % 0x40, 0x80 + c % 0x40]
    else [0xF0 + c / 0x4_0000, 0x80 + c / 0x1000 % 0x40, 0x80 + c / 0x40 % 0x40, 0x80 + c % 0x40]
  }

  /** A piece of a converted string: a character, or a control byte left alone. */
  datatype Symbol = Point(c: CodePoint) | Lone(b: Byte)

  predicate WellFormed(text: seq<Symbol>) {
    forall i :: 0 <= i < |text| && text[i].Lone? ==> 0x80 <= text[i].b <= 0x9F
  }

  /** The string as it comes in, and as it should go out: each lone byte led by 0xC2. */
  function Raw(text: seq<Symbol>): seq<Byte> {
    if text == [] then []
    else RawSymbol(text[0]) + Raw(text[1..])
  }

  function RawSymbol(x: Symbol): seq<Byte> {
    match x
    case Point(c) => Encode(c)
    case Lone(b) => [b]
  }

  function Repaired(text: seq<Symbol>): seq<Byte> {
    if text == [] then []
    else (match text[0] case Point(c) => Encode(c) case Lone(b) => [0xC2, b]) + Repaired(text[1..])
  }

  function Lones(text: seq<Symbol>): nat {
    if text == [] then 0 else (if text[0].Lone? then 1 else 0) + Lones(text[1..])
  }

  lemma {:induction false} EncodedIsChar(c: CodePoint)
    ensures IsChar(Encode(c))
  {
  }

  lemma {:induction false} PointStep(c: CodePoint, rest: seq<Byte>, signedChar: bool)
    ensures var s := Encode(c) + rest;
            && s != [] && PieceLength(s, signedChar) == |Encode(c)|
            && s[..|Encode(c)|] == Encode(c) && s[|Encode(c)|..] == rest
            && Fixed(Encode(c)) == Encode(c) && IsChar(Encode(c))
  {
    EncodedIsChar(c);
    StepIsPiece(Encode(c), rest, signedChar);
  }

  lemma {:induction false} LoneStep(b: Byte, rest: seq<Byte>)
    requires 0x80 <= b <= 0x9F
    ensures var s := [b] + rest;
            && PieceLength(s, false) == 1 && s[..1] == [b] && s[1..] == rest
            && Fixed([b]) == [0xC2, b] && !IsChar([b])
  {
    StepIsPiece([b], rest, false);
  }

  /** For every text: characters of any code points with lone control bytes anywhere
      between them. The string is accepted, the lone bytes are counted, and exactly
      those are led by 0xC2. */
  lemma {:induction false} RepairsText(text: seq<Symbol>)
    requires WellFormed(text)
    ensures Rewrite(Raw(text), false) == Some(Repaired(text)) && Controls(Raw(text), false) == Lones(text)
  {
    if text != [] {
      var rest := text[1..];
      assert WellFormed(rest) by {
        assert forall i :: 0 <= i < |rest| ==> rest[i] == text[i + 1];
      }
      RepairsText(rest);
      RewriteStep(Raw(text), false);
      match text[0]
      case Point(c) => PointStep(c, Raw(rest), false);
      case Lone(b) => LoneStep(b, Raw(rest));
    }
  }

  lemma {:induction false} PointsUnchanged(text: seq<Symbol>)
    requires forall i :: 0 <= i < |text| ==> text[i].Point?
    ensures Repaired(text) == Raw(text) && Lones(text) == 0 && WellFormed(text)
  {
    if text != [] {
      assert forall i :: 0 <= i < |text[1..]| ==> text[1..][i] == text[i + 1];
      PointsUnchanged(text[1..]);
    }
  }

  /** The encoding of every sequence of code points is accepted, has no lone control
      bytes and comes back unchanged, whatever the signedness of char. */
  lemma {:induction false} EncodedTextUnchanged(text: seq<Symbol>)
    requires forall i :: 0 <= i < |text| ==> text[i].Point?
    ensures Rewrite(Raw(text), false) == Some(Raw(text)) && Controls(Raw(text), false) == 0
    ensures Rewrite(Raw(text), true) == Some(Raw(text))
  {
    PointsUnchanged(text);
    RepairsText(text);
    SignedCharNeverRewrites(Raw(text));
  }

  /** What the code takes for a character, bit by bit: a lead byte with its payload
      and one to three continuation bytes with six bits each. */
  lemma {:induction false} CharIff(c: seq<Byte>)
    ensures IsChar(c) <==>
            || (|c| == 1 && c[0] < 0x80)
            || (|c| == 2 && c[0] / 0x20 == 6 && c[1] / 0x40 == 2)
            || (|c| == 3 && c[0] / 0x10 == 14 && c[1] / 0x40 == 2 && c[2] / 0x40 == 2)
            || (|c| == 4 && c[0] / 8 == 30 && c[1] / 0x40 == 2 && c[2] / 0x40 == 2 && c[3] / 0x40 == 2)
  {
    assert forall b: Byte :: Continuation(b) <==> b / 0x40 == 2;
  }

  /** A place where the code gives up: a byte that leads nothing and is no control
      byte, or a lead byte without the continuation bytes it needs. */
  predicate Broken(s: seq<Byte>)
    requires s != []
  {
    || 0xA0 <= s[0] < 0xC0 || s[0] >= 0xF8
    || (0xC0 <= s[0] < 0xE0 && !(|s| >= 2 && s[1] / 0x40 == 2))
    || (0xE0 <= s[0] < 0xF0 && !(|s| >= 3 && s[1] / 0x40 == 2 && s[2] / 0x40 == 2))
    || (0xF0 <= s[0] < 0xF8 && !(|s| >= 4 && s[1] / 0x40 == 2 && s[2] / 0x40 == 2 && s[3] / 0x40 == 2))
  }

  lemma {:induction false} BrokenRefused(s: seq<Byte>)
    requires s != [] && Broken(s)
    ensures PieceLength(s, false) == 0
  {
    var n := Announced(s[0]);
    if 0 < n <= |s| {
      CharIff(s[..n]);
    }
  }

  lemma {:induction false} Regroups(a: seq<Byte>, b: seq<Byte>, c: seq<Byte>)
    ensures (a + b) + c == a + (b + c)
  {
  }

  lemma {:induction false} SymbolStep(x: Symbol, rest: seq<Byte>)
    requires x.Lone? ==> 0x80 <= x.b <= 0x9F
    ensures RawSymbol(x) != [] && PieceLength(RawSymbol(x) + rest, false) == |RawSymbol(x)|
  {
    match x
    case Point(c) => PointStep(c, rest, false);
    case Lone(b) => LoneStep(b, rest);
  }

  lemma {:induction false} RefusedCons(first: seq<Byte>, rest: seq<Byte>)
    requires first != [] && PieceLength(first + rest, false) == |first| && Rewrite(rest, false).None?
    ensures Rewrite(first + rest, false).None?
  {
    assert (first + rest)[|first|..] == rest;
    RewriteStep(first + rest, false);
  }

  /** A text that is broken off anywhere is refused as a whole. */
  lemma {:induction false} BrokenTextRefused(text: seq<Symbol>, s: seq<Byte>)
    requires WellFormed(text) && s != [] && Broken(s)
    ensures Rewrite(Raw(text) + s, false).None?
  {
    if text == [] {
      assert [] + s == s;
      BrokenRefused(s);
    } else {
      var rest := text[1..];
      assert forall i :: 0 <= i < |rest| ==> rest[i] == text[i + 1];
      BrokenTextRefused(rest, s);
      var first := RawSymbol(text[0]);
      SymbolStep(text[0], Raw(rest) + s);
      Regroups(first, Raw(rest), s);
      RefusedCons(first, Raw(rest) + s);
    }
  }
}
