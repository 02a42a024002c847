/**
 * Pascal string quoting (delphi/quote.go). Printable bytes are copied into a
 * single-quoted literal; every other byte, and the quote itself, leaves the
 * literal as a `#$hh` character code and re-enters it.
 *
 * The escape's low hex digit is taken from `b & 7` (three bits) rather than
 * `b & 15`, so bit 3 of an escaped byte is lost. `Quote` models the code as
 * written; `QuoteIntended` is the four-bit version, the one that reads back.
 * Both are `Quoted(s, low)` with `low` the modulus of the low digit: on a
 * byte, `b >> 4` is `b / 16`, `b & 7` is `b % 8` and `b & 15` is `b % 16`.
 */
module Quoting {
  import opened Text

  /** The digit table "0123456789ABCDEF". */
  function HexDigit(d: nat): (c: char)
    requires d < 16
    ensures '0' <= c <= '9' || 'A' <= c <= 'F'
  {
    if d < 10 then ('0' as int + d) as char else ('A' as int + d - 10) as char
  }

  /** The value of a digit of the table; anything else reads as zero. */
  function HexValue(c: char): (d: nat)
    ensures d < 16
  {
    if '0' <= c <= '9' then c as int - '0' as int
    else if 'A' <= c <= 'F' then c as int - 'A' as int + 10
    else 0
  }

  lemma HexRoundTrip(d: nat)
    requires d < 16
    ensures HexValue(HexDigit(d)) == d
  {
  }

  /** The bytes that stay inside the literal as they are. */
  predicate Plain(b: Byte) {
    0x20 <= b as int <= 0x7f && b != '\''
  }

  predicate ValidLow(low: nat) {
    low == 8 || low == 16
  }

  /** What one source byte becomes. */
  function Piece(b: Byte, low: nat): (r: string)
    requires ValidLow(low)
  {
    if Plain(b) then [b]
    else ['\'', '#', '$', HexDigit(b as int / 16), HexDigit(b as int % low), '\'']
  }

  predicate Printable(c: char) {
    0x20 <= c as int <= 0x7f
  }

  /** The body of the literal: the pieces of all bytes in order. */
  function Pieces(s: seq<Byte>, low: nat): (r: string)
    requires ValidLow(low)
    ensures forall i :: 0 <= i < |r| ==> Printable(r[i])
  {
    if |s| == 0 then [] else Piece(s[0], low) + Pieces(s[1..], low)
  }

  function Quoted(s: seq<Byte>, low: nat): (q: string)
    requires ValidLow(low)
    ensures |q| >= 2 && q[0] == '\'' && q[|q| - 1] == '\''
    ensures forall i :: 0 <= i < |q| ==> Printable(q[i])
  {
    ['\''] + Pieces(s, low) + ['\'']
  }

  lemma {:induction false} PiecesSnoc(s: seq<Byte>, b: Byte, low: nat)
    requires ValidLow(low)
    ensures Pieces(s + [b], low) == Pieces(s, low) + Piece(b, low)
  {
    if |s| > 0 {
      assert (s + [b])[1..] == s[1..] + [b];
      PiecesSnoc(s[1..], b, low);
    }
  }

  /** Quote, as written: the low digit keeps three bits. */
  method Quote(s: seq<Byte>) returns (q: string)
    ensures q == Quoted(s, 8)
  {
    q := ['\''];
    var i := 0;
    while i < |s|
      invariant 0 <= i <= |s|
      invariant q == ['\''] + Pieces(s[..i], 8)
    {
      var b := s[i];
      if b as int < 0x20 || b as int > 0x7f || b == '\'' {
        q := q + ['\'', '#', '$', HexDigit(b as int / 16), HexDigit(b as int % 8), '\''];
      } else {
        q := q + [b];
      }
      PiecesSnoc(s[..i], b, 8);
      assert s[..i + 1] == s[..i] + [b];
      i := i + 1;
    }
    assert s[..i] == s;
    q := q + ['\''];
  }

  /** Quote with the four-bit low digit the escape evidently intends. */
  function QuoteIntended(s: seq<Byte>): (q: string)
    ensures |q| >= 2 && q[0] == '\'' && q[|q| - 1] == '\''
  {
    Quoted(s, 16)
  }

  function PlainCount(s: seq<Byte>): (n: nat)
    ensures n <= |s|
  {
    if |s| == 0 then 0 else (if Plain(s[0]) then 1 else 0) + PlainCount(s[1..])
  }

  /** Two bytes of frame, one per kept byte, six per escaped byte. */
  lemma {:induction false} QuotedLength(s: seq<Byte>, low: nat)
    requires ValidLow(low)
    ensures |Quoted(s, low)| == 2 + PlainCount(s) + 6 * (|s| - PlainCount(s))
  {
    PiecesLength(s, low);
  }

  lemma {:induction false} PiecesLength(s: seq<Byte>, low: nat)
    requires ValidLow(low)
    ensures |Pieces(s, low)| == PlainCount(s) + 6 * (|s| - PlainCount(s))
  {
    if |s| > 0 {
      PiecesLength(s[1..], low);
    }
  }

  /**
   * Reads a literal body back: a quote opens a six-byte escape whose two hex
   * digits give the byte; any other character stands for itself.
   */
  function Decode(t: string): string
    decreases |t|
  {
    if |t| == 0 then []
    else if t[0] == '\'' && |t| >= 6 then [(16 * HexValue(t[3]) + HexValue(t[4])) as char] + Decode(t[6..])
    else [t[0]] + Decode(t[1..])
  }

  /** The literal with its two framing quotes removed, read back. */
  function Unquote(q: string): string {
    if |q| >= 2 then Decode(q[1..|q| - 1]) else []
  }

  /** The byte a reader gets back for `b`. */
  function Read(b: Byte, low: nat): char
    requires ValidLow(low)
  {
    if Plain(b) then b else (16 * (b as int / 16) + b as int % low) as char
  }

  function ReadAll(s: seq<Byte>, low: nat): (r: string)
    requires ValidLow(low)
    ensures |r| == |s|
  {
    if |s| == 0 then [] else [Read(s[0], low)] + ReadAll(s[1..], low)
  }

  lemma DecodePiece(b: Byte, low: nat, rest: string)
    requires ValidLow(low)
    ensures Decode(Piece(b, low) + rest) == [Read(b, low)] + Decode(rest)
  {
    var t := Piece(b, low) + rest;
    if Plain(b) {
      assert t[1..] == rest;
    } else {
      HexRoundTrip(b as int / 16);
      HexRoundTrip(b as int % low);
      assert t[6..] == rest;
    }
  }

  /**
   * Kept bytes come back unchanged and in order; an escaped byte comes back
   * with its low digit taken modulo `low`.
   */
  lemma {:induction false} UnquoteQuoted(s: seq<Byte>, low: nat)
    requires ValidLow(low)
    ensures Unquote(Quoted(s, low)) == ReadAll(s, low)
  {
    var q := Quoted(s, low);
    assert q[1..|q| - 1] == Pieces(s, low);
    DecodePieces(s, low);
  }

  lemma {:induction false} DecodePieces(s: seq<Byte>, low: nat)
    requires ValidLow(low)
    ensures Decode(Pieces(s, low)) == ReadAll(s, low)
  {
    if |s| > 0 {
      DecodePiece(s[0], low, Pieces(s[1..], low));
      DecodePieces(s[1..], low);
    }
  }

  /** With four bits in the low digit every byte reads back as itself. */
  lemma {:induction false} UnquoteQuoteIntended(s: seq<Byte>)
    ensures Unquote(QuoteIntended(s)) == s
  {
    UnquoteQuoted(s, 16);
    ReadAllIntended(s);
  }

  lemma {:induction false} ReadAllIntended(s: seq<Byte>)
    ensures ReadAll(s, 16) == s
  {
    if |s| > 0 {
      ReadAllIntended(s[1..]);
      assert s == [s[0]] + s[1..];
    }
  }

  /**
   * As written, a line feed (0x0A) is quoted exactly like byte 0x02, so the
   * literal reads back as 0x02.
   */
  lemma QuoteLosesBitThree()
    ensures Quoted(['\n'], 8) == Quoted([2 as char], 8) == "''#$02''"
    ensures Unquote(Quoted(['\n'], 8)) == [2 as char]
  {
    var lf, stx: seq<Byte> := ['\n'], [2 as char];
    assert lf[1..] == [] && stx[1..] == [];
    assert Pieces(lf, 8) == Piece('\n', 8) == "'#$02'";
    assert Pieces(stx, 8) == Piece(2 as char, 8) == "'#$02'";
    UnquoteQuoted(lf, 8);
    assert ReadAll(lf, 8) == [Read('\n', 8)];
  }
}
