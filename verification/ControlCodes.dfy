/** The two-pass rewriting of lone C1 control bytes in a UTF-8 string
    (ETSI EN 300 468, Annex A, after conversion). */
module ControlCodes {
  import opened Bytes

  predicate Continuation(b: Byte) { 0x80 <= b < 0xC0 }

  /** How many bytes a lead byte announces; 0 for a byte that leads nothing. */
  function Announced(b: Byte): nat {
    if b < 0x80 then 1
    else if 0xC0 <= b < 0xE0 then 2
    else if 0xE0 <= b < 0xF0 then 3
    else if 0xF0 <= b < 0xF8 then 4
    else 0
  }

  /** One structurally valid character. */
  predicate IsChar(c: seq<Byte>) {
    |c| > 0 && |c| == Announced(c[0]) && forall i :: 1 <= i < |c| ==> Continuation(c[i])
  }

  /** A lone control byte; where plain char is signed no byte passes the test. */
  predicate IsLoneControl(b: Byte, signedChar: bool) { !signedChar && 0x80 <= b <= 0x9F }

  /** A piece the first pass steps over. */
  predicate IsPiece(c: seq<Byte>, signedChar: bool) {
    IsChar(c) || (|c| == 1 && IsLoneControl(c[0], signedChar))
  }

  /** What becomes of a piece. */
  function Fixed(c: seq<Byte>): seq<Byte> {
    if c == [] || IsChar(c) then c else [0xC2, c[0]]
  }

  // ------------------------------------------------------------------
  // One-pass specification
  // ------------------------------------------------------------------

  /** The length of the first piece of a string, if there is one. */
  function PieceLength(s: seq<Byte>, signedChar: bool): (n: nat)
    requires s != []
    ensures n <= |s|
  {
    var n := Announced(s[0]);
    if 0 < n <= |s| && IsChar(s[..n]) then n
    else if IsLoneControl(s[0], signedChar) then 1
    else 0
  }

  /** The rewritten string, or nothing when it is malformed. */
  function Rewrite(s: seq<Byte>, signedChar: bool): Option<seq<Byte>> {
    if s == [] then Some([])
    else
      var n := PieceLength(s, signedChar);
      if n == 0 then None
      else match Rewrite(s[n..], signedChar)
        case None => None
        case Some(t) => Some(Fixed(s[..n]) + t)
  }

  /** The lone control bytes met before the end or the first malformed place. */
  function Controls(s: seq<Byte>, signedChar: bool): nat {
    if s == [] then 0
    else
      var n := PieceLength(s, signedChar);
      if n == 0 then 0
      else (if IsChar(s[..n]) then 0 else 1) + Controls(s[n..], signedChar)
  }

  lemma {:induction false} RewrittenLength(s: seq<Byte>, signedChar: bool)
    ensures Rewrite(s, signedChar).Some? ==> |Rewrite(s, signedChar).value| == |s| + Controls(s, signedChar)
    ensures Controls(s, signedChar) <= |s|
  {
    if s != [] {
      var n := PieceLength(s, signedChar);
      if n > 0 {
        RewrittenLength(s[n..], signedChar);
      }
    }
  }

  // ------------------------------------------------------------------
  // What the specification means
  // ------------------------------------------------------------------

  function FixedAll(pieces: seq<seq<Byte>>): seq<Byte> {
    if pieces == [] then [] else Fixed(pieces[0]) + FixedAll(pieces[1..])
  }

  ghost predicate Pieces(pieces: seq<seq<Byte>>, signedChar: bool) {
    forall i :: 0 <= i < |pieces| ==> IsPiece(pieces[i], signedChar)
  }

  lemma {:induction false} StepCases(s: seq<Byte>, signedChar: bool)
    requires s != [] && PieceLength(s, signedChar) > 0
    ensures var n := PieceLength(s, signedChar);
            if Announced(s[0]) > 0 then n == Announced(s[0]) && IsChar(s[..n]) && Fixed(s[..n]) == s[..n]
            else n == 1 && IsLoneControl(s[0], signedChar) && !IsChar(s[..1]) && Fixed(s[..1]) == [0xC2, s[0]]
  {
  }

  lemma {:induction false} RewriteStep(s: seq<Byte>, signedChar: bool)
    requires s != []
    ensures var n := PieceLength(s, signedChar);
            if n == 0 then Rewrite(s, signedChar).None?
            else
              && (Rewrite(s, signedChar).Some? <==> Rewrite(s[n..], signedChar).Some?)
              && (Rewrite(s, signedChar).Some? ==>
                   Rewrite(s, signedChar).value == Fixed(s[..n]) + Rewrite(s[n..], signedChar).value)
              && Controls(s, signedChar) == (if IsChar(s[..n]) then 0 else 1) + Controls(s[n..], signedChar)
  {
  }

  lemma {:induction false} StepIsPiece(p: seq<Byte>, rest: seq<Byte>, signedChar: bool)
    requires IsPiece(p, signedChar)
    ensures PieceLength(p + rest, signedChar) == |p|
  {
    var s := p + rest;
    assert s[..|p|] == p;
    assert !IsChar(p) ==> Announced(s[0]) == 0;
  }

  /** Strings made of pieces are accepted, piece by piece. */
  lemma {:induction false} PiecesAccepted(pieces: seq<seq<Byte>>, signedChar: bool)
    requires Pieces(pieces, signedChar)
    ensures Rewrite(Flatten(pieces), signedChar) == Some(FixedAll(pieces))
  {
    if pieces != [] {
      var p, rest := pieces[0], Flatten(pieces[1..]);
      StepIsPiece(p, rest, signedChar);
      assert (p + rest)[..|p|] == p && (p + rest)[|p|..] == rest;
      PiecesAccepted(pieces[1..], signedChar);
    }
  }

  lemma {:induction false} PiecesCons(p: seq<Byte>, more: seq<seq<Byte>>, signedChar: bool)
    requires IsPiece(p, signedChar) && Pieces(more, signedChar)
    ensures Pieces([p] + more, signedChar) && Flatten([p] + more) == p + Flatten(more)
    ensures FixedAll([p] + more) == Fixed(p) + FixedAll(more)
  {
    assert ([p] + more)[1..] == more;
  }

  lemma {:induction false} FirstPiece(s: seq<Byte>, signedChar: bool)
    requires s != [] && PieceLength(s, signedChar) > 0
    ensures var n := PieceLength(s, signedChar); IsPiece(s[..n], signedChar) && s[..n] + s[n..] == s
  {
    StepCases(s, signedChar);
  }

  /** Pieces of the rest and the first piece make up the whole. */
  lemma {:induction false} AcceptedCons(s: seq<Byte>, more: seq<seq<Byte>>, signedChar: bool)
    requires s != [] && PieceLength(s, signedChar) > 0 && Pieces(more, signedChar)
             && Flatten(more) == s[PieceLength(s, signedChar)..]
    requires Rewrite(s[PieceLength(s, signedChar)..], signedChar) == Some(FixedAll(more))
    ensures var pieces := [s[..PieceLength(s, signedChar)]] + more;
            Pieces(pieces, signedChar) && Flatten(pieces) == s && Rewrite(s, signedChar) == Some(FixedAll(pieces))
  {
    var n := PieceLength(s, signedChar);
    FirstPiece(s, signedChar);
    PiecesCons(s[..n], more, signedChar);
    RewriteStep(s, signedChar);
  }

  lemma {:induction false} AcceptedPieces(s: seq<Byte>, signedChar: bool) returns (pieces: seq<seq<Byte>>)
    requires Rewrite(s, signedChar).Some?
    ensures Pieces(pieces, signedChar) && Flatten(pieces) == s && Rewrite(s, signedChar) == Some(FixedAll(pieces))
  {
    if s == [] {
      pieces := [];
    } else {
      var n := PieceLength(s, signedChar);
      RewriteStep(s, signedChar);
      var more := AcceptedPieces(s[n..], signedChar);
      AcceptedCons(s, more, signedChar);
      pieces := [s[..n]] + more;
    }
  }

  /** A string is accepted exactly when it is made of characters and lone control
      bytes, and the result is the same pieces with each lone byte led by 0xC2. */
  lemma {:induction false} AcceptedIff(s: seq<Byte>, t: seq<Byte>, signedChar: bool)
    ensures Rewrite(s, signedChar) == Some(t) <==>
            exists pieces: seq<seq<Byte>> :: Pieces(pieces, signedChar) && Flatten(pieces) == s && FixedAll(pieces) == t
  {
    if Rewrite(s, signedChar) == Some(t) {
      var pieces := AcceptedPieces(s, signedChar);
    }
    if pieces: seq<seq<Byte>> :| Pieces(pieces, signedChar) && Flatten(pieces) == s && FixedAll(pieces) == t {
      PiecesAccepted(pieces, signedChar);
    }
  }

  lemma {:induction false} CharsUnchanged(chars: seq<seq<Byte>>)
    requires forall i :: 0 <= i < |chars| ==> IsChar(chars[i])
    ensures FixedAll(chars) == Flatten(chars)
  {
    if chars != [] {
      CharsUnchanged(chars[1..]);
    }
  }

  /** The result is structurally valid UTF-8, and rewriting it changes nothing. */
  lemma {:induction false} ResultValid(s: seq<Byte>, signedChar: bool) returns (chars: seq<seq<Byte>>)
    requires Rewrite(s, signedChar).Some?
    ensures (forall i :: 0 <= i < |chars| ==> IsChar(chars[i])) && Flatten(chars) == Rewrite(s, signedChar).value
  {
    if s == [] {
      chars := [];
    } else {
      var n := PieceLength(s, signedChar);
      var more := ResultValid(s[n..], signedChar);
      chars := [Fixed(s[..n])] + more;
      assert chars[1..] == more;
    }
  }

  lemma {:induction false} SecondCallChangesNothing(s: seq<Byte>, signedChar: bool)
    requires Rewrite(s, signedChar).Some?
    ensures Rewrite(Rewrite(s, signedChar).value, signedChar) == Rewrite(s, signedChar)
  {
    var chars := ResultValid(s, signedChar);
    PiecesAccepted(chars, signedChar);
    CharsUnchanged(chars);
  }

  /** Where plain char is signed a string is accepted exactly when it needs no
      rewriting, and never rewritten; one with a lone control byte is refused. */
  lemma {:induction false} SignedCharNeverRewrites(s: seq<Byte>)
    ensures Rewrite(s, true).Some? <==> Rewrite(s, false) == Some(s)
    ensures Rewrite(s, true).Some? ==> Rewrite(s, true) == Some(s)
  {
    if s != [] {
      var n, m := PieceLength(s, true), PieceLength(s, false);
      RewriteStep(s, true);
      RewriteStep(s, false);
      StepSigned(s);
      if n > 0 {
        SignedCharNeverRewrites(s[n..]);
        PrefixCancels(s[..n], s[n..], s);
        if Rewrite(s, false).Some? {
          PrefixCancels(s[..n], Rewrite(s[n..], false).value, s);
        }
      }
    }
  }

  lemma {:induction false} StepSigned(s: seq<Byte>)
    requires s != []
    ensures var n, m := PieceLength(s, true), PieceLength(s, false);
            && (n > 0 ==> m == n && Fixed(s[..n]) == s[..n])
            && (n == 0 && m > 0 ==> Fixed(s[..m])[0] != s[0])
  {
    if PieceLength(s, false) > 0 {
      StepCases(s, false);
    }
    if PieceLength(s, true) > 0 {
      StepCases(s, true);
    }
  }

  lemma {:induction false} PrefixCancels(p: seq<Byte>, t: seq<Byte>, s: seq<Byte>)
    requires |p| <= |s| && p == s[..|p|]
    ensures p + t == s <==> t == s[|p|..]
  {
    assert (p + t)[|p|..] == t;
  }

  /** Without lone control bytes an accepted string is its own result. */
  lemma {:induction false} NothingToRewrite(s: seq<Byte>, signedChar: bool)
    requires Rewrite(s, signedChar).Some? && Controls(s, signedChar) == 0
    ensures Rewrite(s, signedChar) == Some(s)
  {
    if s != [] {
      var n := PieceLength(s, signedChar);
      RewriteStep(s, signedChar);
      NothingToRewrite(s[n..], signedChar);
      PrefixCancels(s[..n], s[n..], s);
    }
  }

  // ------------------------------------------------------------------
  // The two passes
  // ------------------------------------------------------------------

  /** A zero-terminated string of length len at the start of a buffer. */
  ghost predicate CString(b: seq<Byte>, len: nat) {
    len < |b| && b[len] == 0 && forall i :: 0 <= i < len ==> b[i] != 0
  }

  /** The length of the piece at p in the first pass, 0 when malformed, and
      whether it is a lone control byte. No byte behind the terminator is read. */
  method StepAt(buf: array<Byte>, p: nat, ghost len: nat, signedChar: bool) returns (n: nat, control: bool)
    requires CString(buf[..], len) && p < len
    ensures n == PieceLength(buf[p..len], signedChar)
    ensures n > 0 ==> (control <==> !IsChar(buf[p..len][..n]))
  {
    ghost var s := buf[p..len];
    var b := buf[p];
    assert b == s[0];
    control := false;
    if b < 0x80 {
      assert IsChar(s[..1]);
      return 1, false;
    } else if 0xC0 <= b < 0xE0 {
      if !Continuation(buf[p + 1]) {
        assert 2 <= |s| ==> !Continuation(s[..2][1]);
        return 0, false;
      }
      assert buf[p + 1] == s[1] && IsChar(s[..2]);
      return 2, false;
    } else if 0xE0 <= b < 0xF0 {
      if !Continuation(buf[p + 1]) || !Continuation(buf[p + 2]) {
        assert 3 <= |s| ==> s[..3][1] == buf[p + 1] && s[..3][2] == buf[p + 2];
        return 0, false;
      }
      assert buf[p + 1] == s[1] && buf[p + 2] == s[2] && IsChar(s[..3]);
      return 3, false;
    } else if 0xF0 <= b < 0xF8 {
      if !Continuation(buf[p + 1]) || !Continuation(buf[p + 2]) || !Continuation(buf[p + 3]) {
        assert 4 <= |s| ==> s[..4][1] == buf[p + 1] && s[..4][2] == buf[p + 2] && s[..4][3] == buf[p + 3];
        return 0, false;
      }
      assert buf[p + 1] == s[1] && buf[p + 2] == s[2] && buf[p + 3] == s[3] && IsChar(s[..4]);
      return 4, false;
    } else if IsLoneControl(b, signedChar) {
      return 1, true;
    }
    return 0, false;
  }

  /** First pass: checks the string and counts lone control bytes. */
  method Count(buf: array<Byte>, ghost len: nat, signedChar: bool) returns (ok: bool, count: nat, length: nat)
    requires CString(buf[..], len)
    ensures ok <==> Rewrite(buf[..len], signedChar).Some?
    ensures ok ==> count == Controls(buf[..len], signedChar) && length == len
  {
    var p := 0;
    count := 0;
    ghost var s, rest := buf[..len], buf[..len];
    while buf[p] != 0
      invariant p <= len && rest == buf[p..len]
      invariant Rewrite(rest, signedChar).Some? <==> Rewrite(s, signedChar).Some?
      invariant count + Controls(rest, signedChar) == Controls(s, signedChar)
      decreases len - p
    {
      var n, control := StepAt(buf, p, len, signedChar);
      RewriteStep(rest, signedChar);
      if n == 0 {
        return false, count, p;
      }
      rest := rest[n..];
      if control {
        count := count + 1;
      }
      p := p + n;
    }
    return true, count, p;
  }

  /** Copies n bytes, one after the other. */
  method CopyBytes(buf: array<Byte>, p: nat, buffer: array<Byte>, q: nat, n: nat)
    requires p + n <= buf.Length && q + n <= buffer.Length && buf != buffer
    modifies buffer
    ensures buffer[..] == old(buffer[..q]) + buf[p..p + n] + old(buffer[q + n..])
  {
    var k := 0;
    while k < n
      invariant 0 <= k <= n
      invariant buffer[..] == old(buffer[..q]) + buf[p..p + k] + old(buffer[q + k..])
    {
      ghost var before := buffer[..];
      buffer[q + k] := buf[p + k];
      assert buffer[..] == before[q + k := buf[p + k]];
      assert buf[p..p + k + 1] == buf[p..p + k] + [buf[p + k]];
      k := k + 1;
    }
  }

  /** Second pass: copies one piece; it decides by the lead byte alone. */
  method CopyAt(buf: array<Byte>, p: nat, buffer: array<Byte>, q: nat, ghost s: seq<Byte>, signedChar: bool)
      returns (n: nat, m: nat)
    requires s != [] && p + |s| <= buf.Length && s == buf[p..p + |s|] && buf != buffer && PieceLength(s, signedChar) > 0
    requires q + |Fixed(s[..PieceLength(s, signedChar)])| <= buffer.Length
    modifies buffer
    ensures n == PieceLength(s, signedChar) && m == |Fixed(s[..n])|
    ensures buffer[..] == old(buffer[..q]) + Fixed(s[..n]) + old(buffer[q + m..])
  {
    StepCases(s, signedChar);
    var lead := buf[p];
    assert lead == s[0];
    n := if lead < 0x80 then 1 else if 0xC0 <= lead < 0xE0 then 2 else if 0xE0 <= lead < 0xF0 then 3
         else if 0xF0 <= lead < 0xF8 then 4 else 1;
    if Announced(lead) > 0 {
      m := n;
      assert buf[p..p + n] == buf[p..p + |s|][..n];
      CopyBytes(buf, p, buffer, q, n);
    } else {
      m := 2;
      ghost var before := buffer[..];
      buffer[q], buffer[q + 1] := 0xC2, buf[p];
      assert buffer[..] == before[..q] + [0xC2, lead] + before[q + 2..];
    }
  }

  /** The buffer is filled up to q and the rest of the input gives the rest of t. */
  ghost predicate Filling(b: seq<Byte>, q: int, rest: seq<Byte>, t: seq<Byte>, signedChar: bool) {
    && 0 <= q <= |t| < |b|
    && Rewrite(rest, signedChar).Some? && b[..q] + Rewrite(rest, signedChar).value == t
  }

  lemma {:induction false} FillingFits(b: seq<Byte>, q: int, rest: seq<Byte>, t: seq<Byte>, signedChar: bool)
    requires Filling(b, q, rest, t, signedChar) && rest != []
    ensures PieceLength(rest, signedChar) > 0 && q + |Fixed(rest[..PieceLength(rest, signedChar)])| <= |t|
  {
    RewriteStep(rest, signedChar);
    assert |b[..q] + Rewrite(rest, signedChar).value| == |t|;
  }

  lemma {:induction false} FillingFurther(b: seq<Byte>, after: seq<Byte>, q: int, rest: seq<Byte>, t: seq<Byte>,
      signedChar: bool)
    requires Filling(b, q, rest, t, signedChar) && rest != [] && PieceLength(rest, signedChar) > 0
    requires var fixed := Fixed(rest[..PieceLength(rest, signedChar)]);
             q + |fixed| <= |t| && after == b[..q] + fixed + b[q + |fixed|..]
    ensures var n := PieceLength(rest, signedChar);
            Filling(after, q + |Fixed(rest[..n])|, rest[n..], t, signedChar) && |after| == |b| && after[|t|] == b[|t|]
  {
    RewriteStep(rest, signedChar);
    var n := PieceLength(rest, signedChar);
    var fixed, more := Fixed(rest[..n]), Rewrite(rest[n..], signedChar).value;
    assert after[..q + |fixed|] == b[..q] + fixed;
    assert (b[..q] + fixed) + more == b[..q] + (fixed + more);
  }

  /** Fills the buffer piece by piece until the terminator of the input. */
  method SecondPass(buf: array<Byte>, buffer: array<Byte>, ghost len: nat, ghost t: seq<Byte>, signedChar: bool)
    requires CString(buf[..], len) && len > 0 && buf != buffer
    requires Rewrite(buf[..len], signedChar) == Some(t) && buffer.Length == |t| + 1
    modifies buffer
    ensures buffer[..|t|] == t && buffer[|t|] == old(buffer[|t|])
  {
    var p, q := 0, 0;
    ghost var rest := buf[..len];
    assert buffer[..][..0] + t == t;
    while true
      invariant 0 <= p < len && rest == buf[p..len]
      invariant Filling(buffer[..], q, rest, t, signedChar)
      invariant buffer[..][|t|] == old(buffer[..])[|t|]
      decreases len - p
    {
      ghost var before := buffer[..];
      FillingFits(before, q, rest, t, signedChar);
      var n, m := CopyAt(buf, p, buffer, q, rest, signedChar);
      FillingFurther(before, buffer[..], q, rest, t, signedChar);
      rest := rest[n..];
      p, q := p + n, q + m;
      if buf[p] == 0 {
        break;
      }
    }
    assert rest == [];
    assert buffer[..q] == buffer[..][..q] + [];
  }

  /** Rewrites the string at the head of buf. With something to rewrite the
      result is a new buffer, filled exactly up to its last byte: the loop ends
      before the terminator is copied, so that byte keeps what the allocated
      memory held. */
  method ConvertControlCodes(buf: array?<Byte>, ghost len: nat, signedChar: bool, memory: nat -> Byte)
      returns (ok: bool, result: array?<Byte>)
    requires buf != null ==> CString(buf[..], len)
    ensures buf == null ==> ok && result == null
    ensures buf != null ==> (ok <==> Rewrite(buf[..len], signedChar).Some?)
    ensures buf != null && (!ok || Controls(buf[..len], signedChar) == 0) ==> result == buf
    ensures buf != null && ok && Controls(buf[..len], signedChar) > 0 ==>
              var t := Rewrite(buf[..len], signedChar).value;
              && result != null && fresh(result) && result.Length == |t| + 1
              && |t| == len + Controls(buf[..len], signedChar)
              && result[..|t|] == t && result[|t|] == memory(|t|)
  {
    ok, result := true, buf;
    if buf == null {
      return;
    }
    var count, length;
    ok, count, length := Count(buf, len, signedChar);
    if !ok || count == 0 {
      return;
    }
    ghost var t := Rewrite(buf[..len], signedChar).value;
    RewrittenLength(buf[..len], signedChar);
    var buffer := new Byte[length + 1 + count](i => if i < 0 then 0 else memory(i));
    SecondPass(buf, buffer, len, t, signedChar);
    result := buffer;
  }
}
