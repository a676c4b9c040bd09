/**
 Text whose brackets and quotes match, given by its structure, and how the scanner reads it: nothing inside a bracket or
 a string is at top level, so a written list of such items is split into exactly these items.
 */
module Nesting {
  import opened Prelude
  import opened Scanner
  import opened PropertyText

  datatype Piece =
    | Plain(c: char)
    | Quoted(quote: char, body: string)
    | Group(open: char, inner: seq<Piece>, close: char)

  predicate IsPlain(c: char) {
    c !in {'{', '}', '[', ']', '(', ')', '<', '>', '"', '\''}
  }

  predicate IsPair(open: char, close: char) {
    || (open == '{' && close == '}') || (open == '[' && close == ']')
    || (open == '(' && close == ')') || (open == '<' && close == '>')
  }

  predicate WellNested(pieces: seq<Piece>)
    decreases pieces
  {
    forall i | 0 <= i < |pieces| ::
      match pieces[i]
      case Plain(c) => IsPlain(c)
      case Quoted(quote, body) => IsQuote(quote) && IsLiteralBody(body, quote)
      case Group(open, inner, close) => IsPair(open, close) && WellNested(inner)
  }

  function PieceText(p: Piece): string
    decreases p
  {
    match p
    case Plain(c) => [c]
    case Quoted(quote, body) => [quote] + body + [quote]
    case Group(open, inner, close) => [open] + TextOf(inner) + [close]
  }

  function TextOf(pieces: seq<Piece>): string
    decreases pieces
  {
    if pieces == [] then "" else PieceText(pieces[0]) + TextOf(pieces[1..])
  }

  /** No delimiter outside the brackets and strings. */
  predicate NoneOutside(pieces: seq<Piece>, delims: set<char>) {
    forall i | 0 <= i < |pieces| :: pieces[i].Plain? ==> pieces[i].c !in delims
  }

  ghost predicate IsItemOf(text: string, pieces: seq<Piece>, delims: set<char>) {
    text == TextOf(pieces) && WellNested(pieces) && NoneOutside(pieces, delims)
  }

  /** An item of a list: it does not begin or end with space, and its brackets and quotes match. */
  ghost predicate IsItem(text: string, delims: set<char>) {
    Trimmed(text) && exists pieces :: IsItemOf(text, pieces, delims)
  }

  // The scanner inside brackets and strings.

  /** From this state on, the scanner is never at top level within the text. */
  predicate Covered(s: Scan, text: string)
    decreases text
  {
    !AtTop(s) && (text == "" || Covered(Observed(s, text[0]), text[1..]))
  }

  lemma {:induction false} CoveredThen(s: Scan, a: string, b: string)
    requires Covered(s, a) && Covered(Run(s, a), b)
    ensures Covered(s, a + b)
    decreases a
  {
    if a == "" {
      assert a + b == b;
    } else {
      assert (a + b)[1..] == a[1..] + b;
      CoveredThen(Observed(s, a[0]), a[1..], b);
    }
  }

  lemma CoveredOne(s: Scan, c: char)
    requires !AtTop(s) && !AtTop(Observed(s, c))
    ensures Covered(s, [c]) && Run(s, [c]) == Observed(s, c)
  {
    assert [c][1..] == "";
  }

  lemma {:induction false} CoveredAt(s: Scan, text: string, k: nat)
    requires Covered(s, text) && k <= |text|
    ensures !AtTop(Run(s, text[..k]))
    decreases text
  {
    if k == 0 {
      assert text[..0] == "";
    } else {
      assert text[..k][1..] == text[1..][..k - 1];
      CoveredAt(Observed(s, text[0]), text[1..], k - 1);
    }
  }

  lemma {:induction false} CoveredIsUnsplit(s: Scan, text: string, delims: set<char>)
    requires Covered(s, text)
    ensures Unsplit(s, text, delims)
    decreases text
  {
    if text == "" {
    } else {
      CoveredIsUnsplit(Observed(s, text[0]), text[1..], delims);
    }
  }

  lemma {:induction false} LiteralScanned(s: Scan, body: string, quote: char)
    requires s.quote == Some(quote) && !s.escape && quote != '\\' && IsLiteralBody(body, quote)
    ensures Run(s, body) == s && Covered(s, body)
    decreases |body|
  {
    if body == "" {
    } else if body[0] == '\\' {
      var t := Observed(s, body[0]);
      assert body[1..][1..] == body[2..];
      assert Observed(t, body[1]) == s;
      LiteralScanned(s, body[2..], quote);
      assert Covered(t, body[1..]) && Run(t, body[1..]) == s;
    } else {
      LiteralScanned(s, body[1..], quote);
    }
  }

  /** Outside strings, with the depths as they are. */
  predicate Outside(s: Scan) {
    s.quote.None? && !s.escape
  }

  lemma QuotedScanned(s: Scan, quote: char, body: string)
    requires Outside(s) && IsQuote(quote) && IsLiteralBody(body, quote)
    ensures var t := Observed(s, quote);
      Run(t, body + [quote]) == s && (!AtTop(s) ==> Covered(t, body + [quote])) && Covered(t, body) && Run(t, body) == t
  {
    var t := Observed(s, quote);
    LiteralScanned(t, body, quote);
    RunSnoc(t, body, quote);
    if !AtTop(s) {
      CoveredOne(t, quote);
      CoveredThen(t, body, [quote]);
    }
  }

  /** Behind its first character, and before its last, a piece is covered; at its end the scanner is where it was. */
  lemma {:induction false} PieceScanned(s: Scan, p: Piece)
    requires Outside(s) && WellNested([p])
    ensures Run(s, PieceText(p)) == s && (!AtTop(s) ==> Covered(s, PieceText(p)))
    decreases p, 0
  {
    assert [p][0] == p;
    match p
    case Plain(c) =>
      assert [c][1..] == "";
    case Quoted(quote, body) =>
      QuotedScanned(s, quote, body);
      assert PieceText(p)[1..] == body + [quote];
    case Group(open, inner, close) =>
      GroupScanned(s, open, inner, close);
  }

  lemma {:induction false} GroupScanned(s: Scan, open: char, inner: seq<Piece>, close: char)
    requires Outside(s) && IsPair(open, close) && WellNested(inner)
    ensures Covered(Observed(s, open), TextOf(inner)) && Run(Observed(s, open), TextOf(inner)) == Observed(s, open)
    ensures Run(s, [open] + TextOf(inner) + [close]) == s
    ensures !AtTop(s) ==> Covered(s, [open] + TextOf(inner) + [close])
    decreases inner, 2
  {
    var t := Observed(s, open);
    PiecesScanned(t, inner);
    RunSnoc(t, TextOf(inner), close);
    var whole := [open] + TextOf(inner) + [close];
    assert whole[1..] == TextOf(inner) + [close];
    assert Observed(t, close) == s;
    if !AtTop(s) {
      CoveredOne(t, close);
      CoveredThen(t, TextOf(inner), [close]);
    }
  }

  lemma {:induction false} PiecesScanned(s: Scan, pieces: seq<Piece>)
    requires Outside(s) && WellNested(pieces)
    ensures Run(s, TextOf(pieces)) == s && (!AtTop(s) ==> Covered(s, TextOf(pieces)))
    decreases pieces, 1
  {
    if pieces == [] {
    } else {
      var p, rest := pieces[0], pieces[1..];
      assert [p][0] == p;
      assert WellNested([p]) && WellNested(rest);
      PieceScanned(s, p);
      PiecesScanned(s, rest);
      assert TextOf(pieces) == PieceText(p) + TextOf(rest);
      RunConcat(s, PieceText(p), TextOf(rest));
      if !AtTop(s) { CoveredThen(s, PieceText(p), TextOf(rest)); }
    }
  }

  // Splitting a written list.

  lemma PieceUnsplit(p: Piece, delims: set<char>)
    requires WellNested([p]) && Neutral(delims) && NoneOutside([p], delims)
    ensures Unsplit(INITIAL, PieceText(p), delims) && Run(INITIAL, PieceText(p)) == INITIAL
  {
    assert [p][0] == p;
    PieceScanned(INITIAL, p);
    var text := PieceText(p);
    match p
    case Plain(c) =>
      assert [c][1..] == "";
    case Quoted(quote, body) =>
      QuotedScanned(INITIAL, quote, body);
      ClosedUnsplit(quote, body, quote, delims);
    case Group(open, inner, close) =>
      GroupScanned(INITIAL, open, inner, close);
      ClosedUnsplit(open, TextOf(inner), close, delims);
  }

  /** What stands between an opening and a closing character is not split, nor are these. */
  lemma ClosedUnsplit(open: char, inner: string, close: char, delims: set<char>)
    requires Neutral(delims) && Observed(INITIAL, open) != INITIAL
    requires Covered(Observed(INITIAL, open), inner) && !AtTop(Run(Observed(INITIAL, open), inner))
    ensures Unsplit(INITIAL, [open] + inner + [close], delims)
  {
    var t, whole := Observed(INITIAL, open), [open] + inner + [close];
    CoveredIsUnsplit(t, inner, delims);
    assert Unsplit(Run(t, inner), [close], delims) by { assert [close][1..] == ""; }
    UnsplitConcat(t, inner, [close], delims);
    assert whole[1..] == inner + [close];
  }

  lemma {:induction false} ItemUnsplit(pieces: seq<Piece>, delims: set<char>)
    requires WellNested(pieces) && Neutral(delims) && NoneOutside(pieces, delims)
    ensures IsClosed(TextOf(pieces), delims)
  {
    if pieces == [] {
    } else {
      var p, rest := pieces[0], pieces[1..];
      assert [p][0] == p;
      assert WellNested([p]) && WellNested(rest) && NoneOutside([p], delims) && NoneOutside(rest, delims);
      PieceUnsplit(p, delims);
      ItemUnsplit(rest, delims);
      assert TextOf(pieces) == PieceText(p) + TextOf(rest);
      UnsplitConcat(INITIAL, PieceText(p), TextOf(rest), delims);
      RunConcat(INITIAL, PieceText(p), TextOf(rest));
    }
  }

  /**
   Items whose brackets and quotes match, joined by a delimiter in any amount of space, are exactly the parts of the
   result, whatever delimiters stand inside their brackets and strings.
   */
  lemma ItemsAreParts(items: seq<string>, before: string, d: char, after: string, delims: set<char>)
    requires Neutral(delims) && d in delims && AllSpace(before) && AllSpace(after)
    requires forall i | 0 <= i < |items| :: IsItem(items[i], delims)
    ensures Split(Join(items, before + [d] + after), delims) == items
  {
    forall i | 0 <= i < |items|
      ensures Trimmed(items[i]) && IsClosed(items[i], delims)
    {
      var pieces :| IsItemOf(items[i], pieces, delims);
      ItemUnsplit(pieces, delims);
    }
    SplitJoined(items, before, d, after, "", delims);
  }
}
