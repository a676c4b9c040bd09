/**
 The bracket- and string-aware scanner that splits generated TypeScript at top-level delimiters, and the round trip
 behind the filters built on it: keep any of the parts, join them, split again, and the same parts come back.
 */
module Scanner {
  import opened Prelude

  // The scan state.

  datatype Scan = Scan(brace: nat, bracket: nat, paren: nat, angle: nat, quote: Option<char>, escape: bool)

  const INITIAL := Scan(0, 0, 0, 0, None, false)

  function Down(depth: nat): nat {
    if depth > 0 then depth - 1 else 0
  }

  /** One step of `ScanState::observe`. */
  function Observed(s: Scan, c: char): Scan {
    if s.quote.Some? then
      if s.escape then s.(escape := false)
      else if c == '\\' then s.(escape := true)
      else if c == s.quote.value then s.(quote := None)
      else s
    else if c == '"' || c == '\'' then s.(quote := Some(c))
    else if c == '{' then s.(brace := s.brace + 1)
    else if c == '}' then s.(brace := Down(s.brace))
    else if c == '[' then s.(bracket := s.bracket + 1)
    else if c == ']' then s.(bracket := Down(s.bracket))
    else if c == '(' then s.(paren := s.paren + 1)
    else if c == ')' then s.(paren := Down(s.paren))
    else if c == '<' then s.(angle := s.angle + 1)
    else if c == '>' then s.(angle := Down(s.angle))
    else s
  }

  predicate AtTop(s: Scan) {
    s.quote.None? && s.brace == 0 && s.bracket == 0 && s.paren == 0 && s.angle == 0
  }

  /** The state after a text. */
  function Run(s: Scan, text: string): Scan
    decreases text
  {
    if text == "" then s else Run(Observed(s, text[0]), text[1..])
  }

  /** What every state reached from the initial one satisfies. */
  predicate Sane(s: Scan) {
    && (s.escape ==> s.quote.Some?)
    && (s.quote.Some? ==> s.quote.value in {'"', '\''})
  }

  class ScanState {
    var depthBrace: nat
    var depthBracket: nat
    var depthParen: nat
    var depthAngle: nat
    var stringDelim: Option<char>
    var escape: bool

    function State(): Scan
      reads this
    {
      Scan(depthBrace, depthBracket, depthParen, depthAngle, stringDelim, escape)
    }

    constructor ()
      ensures State() == INITIAL
    {
      depthBrace, depthBracket, depthParen, depthAngle := 0, 0, 0, 0;
      stringDelim, escape := None, false;
    }

    /** Outside strings and at depth zero. */
    method IsTopLevel() returns (r: bool)
      ensures r == AtTop(State())
    {
      r := stringDelim.None? && depthBrace == 0 && depthBracket == 0 && depthParen == 0 && depthAngle == 0;
    }

    /** `ScanState::observe`, updating the fields in place. */
    method Observe(c: char)
      modifies this
      ensures State() == Observed(old(State()), c)
    {
      if stringDelim.Some? {
        if escape {
          escape := false;
          return;
        }
        if c == '\\' {
          escape := true;
          return;
        }
        if c == stringDelim.value {
          stringDelim := None;
        }
        return;
      }
      match c
      case '"' => stringDelim := Some(c);
      case '\'' => stringDelim := Some(c);
      case '{' => depthBrace := depthBrace + 1;
      case '}' => depthBrace := if depthBrace > 0 then depthBrace - 1 else 0;
      case '[' => depthBracket := depthBracket + 1;
      case ']' => depthBracket := if depthBracket > 0 then depthBracket - 1 else 0;
      case '(' => depthParen := depthParen + 1;
      case ')' => depthParen := if depthParen > 0 then depthParen - 1 else 0;
      case '<' => depthAngle := depthAngle + 1;
      case '>' => if depthAngle > 0 { depthAngle := depthAngle - 1; }
      case _ =>
    }
  }

  lemma {:induction false} RunSane(s: Scan, text: string)
    requires Sane(s)
    ensures Sane(Run(s, text))
    decreases text
  {
    if text == "" {
    } else {
      RunSane(Observed(s, text[0]), text[1..]);
    }
  }

  lemma {:induction false} RunConcat(s: Scan, a: string, b: string)
    ensures Run(s, a + b) == Run(Run(s, a), b)
    decreases a
  {
    if a == "" {
      assert a + b == b;
    } else {
      assert (a + b)[1..] == a[1..] + b;
      RunConcat(Observed(s, a[0]), a[1..], b);
    }
  }

  lemma RunSnoc(s: Scan, a: string, c: char)
    ensures Run(s, a + [c]) == Observed(Run(s, a), c)
  {
    RunConcat(s, a, [c]);
    assert [c][1..] == "";
  }

  /** At a split point the scanner is back in its initial state, whatever the text before it. */
  lemma SplitPointIsInitial(text: string)
    ensures AtTop(Run(INITIAL, text)) <==> Run(INITIAL, text) == INITIAL
  {
    RunSane(INITIAL, text);
  }

  // Trimming.

  /** The Unicode `White_Space` characters, which `str::trim` removes. */
  predicate IsSpace(c: char) {
    || '\U{9}' <= c <= '\U{D}' || c in {' ', '\U{85}', '\U{A0}', '\U{1680}'}
    || '\U{2000}' <= c <= '\U{200A}' || c in {'\U{2028}', '\U{2029}', '\U{202F}', '\U{205F}', '\U{3000}'}
  }

  predicate AllSpace(s: string) {
    forall c | c in s :: IsSpace(c)
  }

  function TrimStart(s: string): string {
    if s != "" && IsSpace(s[0]) then TrimStart(s[1..]) else s
  }

  function TrimEnd(s: string): string {
    if s != "" && IsSpace(s[|s| - 1]) then TrimEnd(s[..|s| - 1]) else s
  }

  function Trim(s: string): string {
    TrimEnd(TrimStart(s))
  }

  predicate Trimmed(s: string) {
    s != "" && !IsSpace(s[0]) && !IsSpace(s[|s| - 1])
  }

  lemma {:induction false} TrimStartEnds(s: string)
    ensures TrimStart(s) == "" || !IsSpace(TrimStart(s)[0])
  {
    if s == "" || !IsSpace(s[0]) {
    } else {
      TrimStartEnds(s[1..]);
    }
  }

  lemma {:induction false} TrimEndEnds(s: string)
    ensures TrimEnd(s) == "" || !IsSpace(TrimEnd(s)[|TrimEnd(s)| - 1])
    ensures TrimEnd(s) <= s
  {
    if s == "" || !IsSpace(s[|s| - 1]) {
    } else {
      TrimEndEnds(s[..|s| - 1]);
    }
  }

  lemma TrimIsTrimmed(s: string)
    ensures Trim(s) == "" || Trimmed(Trim(s))
  {
    TrimStartEnds(s);
    TrimEndEnds(TrimStart(s));
  }

  lemma {:induction false} TrimStartPadded(pad: string, s: string)
    requires AllSpace(pad)
    ensures TrimStart(pad + s) == TrimStart(s)
  {
    if pad == "" {
      assert pad + s == s;
    } else {
      assert (pad + s)[1..] == pad[1..] + s;
      TrimStartPadded(pad[1..], s);
    }
  }

  lemma {:induction false} TrimEndPadded(s: string, pad: string)
    requires AllSpace(pad)
    ensures TrimEnd(s + pad) == TrimEnd(s)
  {
    if pad == "" {
      assert s + pad == s;
    } else {
      assert (s + pad)[..|s + pad| - 1] == s + pad[..|pad| - 1];
      TrimEndPadded(s, pad[..|pad| - 1]);
    }
  }

  lemma TrimPadded(left: string, s: string, right: string)
    requires AllSpace(left) && AllSpace(right) && Trimmed(s)
    ensures Trim(left + s + right) == s
  {
    assert left + s + right == left + (s + right);
    TrimStartPadded(left, s + right);
    assert TrimStart(s + right) == s + right;
    TrimEndPadded(s, right);
  }

  lemma TrimSpace(s: string)
    requires AllSpace(s)
    ensures Trim(s) == ""
  {
    assert s + "" == s;
    TrimStartPadded(s, "");
  }

  // Splitting.

  /** The stretches between top-level delimiters; `current` is the stretch under way. */
  function Pieces(s: Scan, text: string, current: string, delims: set<char>): seq<string>
    decreases text
  {
    if text == "" then [current]
    else if AtTop(s) && text[0] in delims then [current] + Pieces(Observed(s, text[0]), text[1..], "", delims)
    else Pieces(Observed(s, text[0]), text[1..], current + [text[0]], delims)
  }

  /** Trimmed, without the blank ones. */
  function NonBlank(pieces: seq<string>): seq<string> {
    if pieces == [] then []
    else (if Trim(pieces[0]) == "" then [] else [Trim(pieces[0])]) + NonBlank(pieces[1..])
  }

  function Split(text: string, delims: set<char>): seq<string> {
    NonBlank(Pieces(INITIAL, text, "", delims))
  }

  function PartOf(piece: string): seq<string> {
    if Trim(piece) == "" then [] else [Trim(piece)]
  }

  lemma NonBlankOne(piece: string)
    ensures NonBlank([piece]) == PartOf(piece)
  {
    assert [piece][1..] == [];
  }

  lemma NonBlankMore(piece: string, rest: seq<string>)
    ensures NonBlank([piece] + rest) == PartOf(piece) + NonBlank(rest)
  {
    assert ([piece] + rest)[1..] == rest;
  }

  /** One character more of the text. */
  lemma PiecesStep(s: Scan, text: string, current: string, delims: set<char>)
    requires text != ""
    ensures AtTop(s) && text[0] in delims ==>
      NonBlank(Pieces(s, text, current, delims))
      == PartOf(current) + NonBlank(Pieces(Observed(s, text[0]), text[1..], "", delims))
    ensures !(AtTop(s) && text[0] in delims) ==>
      Pieces(s, text, current, delims) == Pieces(Observed(s, text[0]), text[1..], current + [text[0]], delims)
  {
    NonBlankMore(current, Pieces(Observed(s, text[0]), text[1..], "", delims));
  }

  /** The parts from `index` on, when the stretch under way began at `start`. */
  function PartsAt(s: Scan, input: string, start: nat, index: nat, delims: set<char>): seq<string>
    requires start <= index <= |input|
  {
    NonBlank(Pieces(s, input[index..], input[start..index], delims))
  }

  lemma PartsAtEnd(s: Scan, input: string, start: nat, delims: set<char>)
    requires start <= |input|
    ensures PartsAt(s, input, start, |input|, delims) == PartOf(input[start..])
  {
    assert input[start..|input|] == input[start..];
    NonBlankOne(input[start..]);
  }

  lemma PartsAtStep(s: Scan, input: string, start: nat, index: nat, delims: set<char>)
    requires start <= index < |input|
    ensures PartsAt(s, input, start, index, delims) ==
      if AtTop(s) && input[index] in delims then
        PartOf(input[start..index]) + PartsAt(Observed(s, input[index]), input, index + 1, index + 1, delims)
      else PartsAt(Observed(s, input[index]), input, start, index + 1, delims)
  {
    assert input[index..][0] == input[index] && input[index..][1..] == input[index + 1..];
    assert input[index + 1..index + 1] == "";
    assert input[start..index + 1] == input[start..index] + [input[index]];
    PiecesStep(s, input[index..], input[start..index], delims);
  }

  /** `whole` is the parts found so far and those still to come. */
  ghost predicate Found(whole: seq<string>, parts: seq<string>, s: Scan, input: string, start: nat, index: nat,
          delims: set<char>) {
    start <= index <= |input| && whole == parts + PartsAt(s, input, start, index, delims)
  }

  lemma FoundCut(whole: seq<string>, parts: seq<string>, s: Scan, input: string, start: nat, index: nat,
          delims: set<char>)
    requires index < |input| && Found(whole, parts, s, input, start, index, delims)
    requires AtTop(s) && input[index] in delims
    ensures Found(whole, parts + PartOf(input[start..index]), Observed(s, input[index]), input, index + 1, index + 1,
                  delims)
  {
    PartsAtStep(s, input, start, index, delims);
    var rest := PartsAt(Observed(s, input[index]), input, index + 1, index + 1, delims);
    assert parts + (PartOf(input[start..index]) + rest) == parts + PartOf(input[start..index]) + rest;
  }

  lemma FoundNoCut(whole: seq<string>, parts: seq<string>, s: Scan, input: string, start: nat, index: nat,
          delims: set<char>)
    requires index < |input| && Found(whole, parts, s, input, start, index, delims)
    requires !(AtTop(s) && input[index] in delims)
    ensures Found(whole, parts, Observed(s, input[index]), input, start, index + 1, delims)
  {
    PartsAtStep(s, input, start, index, delims);
  }

  /** `split_top_level_multi`: one pass with a scanner, a start index and the parts found so far. */
  method SplitTopLevelMulti(input: string, delims: set<char>) returns (parts: seq<string>)
    ensures parts == Split(input, delims)
  {
    var state := new ScanState();
    var start: nat := 0;
    parts := [];
    ghost var whole := Split(input, delims);
    SplitFound(input, delims);
    for index := 0 to |input|
      invariant Found(whole, parts, state.State(), input, start, index, delims)
    {
      var atTop := state.IsTopLevel();
      if atTop && input[index] in delims {
        FoundCut(whole, parts, state.State(), input, start, index, delims);
        parts := PushNonBlank(parts, input[start..index]);
        start := index + 1;
      } else {
        FoundNoCut(whole, parts, state.State(), input, start, index, delims);
      }
      state.Observe(input[index]);
    }
    PartsAtEnd(state.State(), input, start, delims);
    parts := PushNonBlank(parts, input[start..]);
  }

  lemma SplitFound(input: string, delims: set<char>)
    ensures Found(Split(input, delims), [], INITIAL, input, 0, 0, delims)
  {
    assert input[0..] == input && input[0..0] == "";
  }

  method PushNonBlank(parts: seq<string>, piece: string) returns (r: seq<string>)
    ensures r == parts + PartOf(piece)
  {
    var part := Trim(piece);
    r := parts;
    if part != "" {
      r := r + [part];
    }
  }

  /** A text that scanning from `s` never splits. */
  predicate Unsplit(s: Scan, text: string, delims: set<char>)
    decreases text
  {
    text == "" || (!(AtTop(s) && text[0] in delims) && Unsplit(Observed(s, text[0]), text[1..], delims))
  }

  /** What can stand before a delimiter: unsplit, and leaving the scanner as it found it. */
  predicate IsClosed(text: string, delims: set<char>) {
    Unsplit(INITIAL, text, delims) && Run(INITIAL, text) == INITIAL
  }

  /** A delimiter that is no space and no bracket or quote of the scanner. */
  predicate Neutral(delims: set<char>) {
    forall d | d in delims :: !IsSpace(d) && Observed(INITIAL, d) == INITIAL
  }

  lemma {:induction false} UnsplitConcat(s: Scan, a: string, b: string, delims: set<char>)
    ensures Unsplit(s, a + b, delims) <==> Unsplit(s, a, delims) && Unsplit(Run(s, a), b, delims)
    decreases a
  {
    if a == "" {
      assert a + b == b;
    } else {
      assert (a + b)[1..] == a[1..] + b;
      UnsplitConcat(Observed(s, a[0]), a[1..], b, delims);
    }
  }

  lemma SpaceObserved(s: Scan, c: char)
    requires Sane(s) && IsSpace(c)
    ensures s.quote.None? ==> Observed(s, c) == s
    ensures Observed(s, c) == INITIAL ==> s == INITIAL
  {
  }

  lemma {:induction false} TrimStartKeeps(text: string, delims: set<char>)
    requires Unsplit(INITIAL, text, delims)
    ensures Unsplit(INITIAL, TrimStart(text), delims) && Run(INITIAL, TrimStart(text)) == Run(INITIAL, text)
  {
    if text == "" || !IsSpace(text[0]) {
    } else {
      SpaceObserved(INITIAL, text[0]);
      TrimStartKeeps(text[1..], delims);
    }
  }

  lemma {:induction false} TrimEndKeeps(text: string, delims: set<char>)
    requires Unsplit(INITIAL, text, delims)
    ensures Unsplit(INITIAL, TrimEnd(text), delims)
    ensures Run(INITIAL, text) == INITIAL ==> Run(INITIAL, TrimEnd(text)) == INITIAL
  {
    if text == "" || !IsSpace(text[|text| - 1]) {
    } else {
      var shorter, c := text[..|text| - 1], text[|text| - 1];
      assert text == shorter + [c];
      UnsplitConcat(INITIAL, shorter, [c], delims);
      RunSnoc(INITIAL, shorter, c);
      RunSane(INITIAL, shorter);
      SpaceObserved(Run(INITIAL, shorter), c);
      TrimEndKeeps(shorter, delims);
    }
  }

  /** The parts of a split: trimmed, unsplit, and closed unless last. */
  predicate AreParts(parts: seq<string>, delims: set<char>) {
    && (forall i | 0 <= i < |parts| :: Trimmed(parts[i]) && Unsplit(INITIAL, parts[i], delims))
    && (forall i | 0 <= i < |parts| - 1 :: IsClosed(parts[i], delims))
  }

  lemma PartOfPiece(piece: string, delims: set<char>)
    requires Unsplit(INITIAL, piece, delims)
    ensures Unsplit(INITIAL, Trim(piece), delims) && (IsClosed(piece, delims) ==> IsClosed(Trim(piece), delims))
  {
    TrimStartKeeps(piece, delims);
    TrimEndKeeps(TrimStart(piece), delims);
  }

  lemma {:induction false} PiecesAreParts(s: Scan, text: string, current: string, delims: set<char>)
    requires Neutral(delims) && s == Run(INITIAL, current) && Unsplit(INITIAL, current, delims)
    ensures AreParts(NonBlank(Pieces(s, text, current, delims)), delims)
    decreases text
  {
    PartOfPiece(current, delims);
    TrimIsTrimmed(current);
    if text == "" {
      assert [current][1..] == [];
    } else if AtTop(s) && text[0] in delims {
      SplitPointIsInitial(current);
      PiecesAreParts(INITIAL, text[1..], "", delims);
      var rest := Pieces(INITIAL, text[1..], "", delims);
      assert ([current] + rest)[1..] == rest;
    } else {
      RunSnoc(INITIAL, current, text[0]);
      UnsplitConcat(INITIAL, current, [text[0]], delims);
      assert Unsplit(s, [text[0]], delims) by { assert [text[0]][1..] == ""; }
      PiecesAreParts(Observed(s, text[0]), text[1..], current + [text[0]], delims);
    }
  }

  // Joining.

  function Join(parts: seq<string>, separator: string): string {
    if parts == [] then ""
    else if |parts| == 1 then parts[0]
    else parts[0] + separator + Join(parts[1..], separator)
  }

  lemma {:induction false} PiecesSkip(s: Scan, text: string, more: string, current: string, delims: set<char>)
    requires Unsplit(s, text, delims)
    ensures Pieces(s, text + more, current, delims) == Pieces(Run(s, text), more, current + text, delims)
    decreases text
  {
    if text == "" {
      assert text + more == more && current + text == current;
    } else {
      assert (text + more)[1..] == text[1..] + more;
      assert current + [text[0]] + text[1..] == current + text;
      PiecesSkip(Observed(s, text[0]), text[1..], more, current + [text[0]], delims);
    }
  }

  lemma {:induction false} SpaceIsClosed(text: string, delims: set<char>)
    requires AllSpace(text) && Neutral(delims)
    ensures IsClosed(text, delims)
  {
    if text == "" {
    } else {
      SpaceObserved(INITIAL, text[0]);
      SpaceIsClosed(text[1..], delims);
    }
  }

  /** The stretch before a join's first delimiter, and what is left to scan after it. */
  lemma FirstStretch(first: string, before: string, d: char, after: string, joined: string, blank: string,
          delims: set<char>)
    requires Neutral(delims) && d in delims && AllSpace(before) && AllSpace(after) && IsClosed(first, delims)
    ensures Pieces(INITIAL, first + (before + [d] + after) + joined, blank, delims) ==
      [blank + first + before] + Pieces(INITIAL, joined, after, delims)
  {
    var stretch, rest := first + before, [d] + after + joined;
    SpaceIsClosed(before, delims);
    UnsplitConcat(INITIAL, first, before, delims);
    RunConcat(INITIAL, first, before);
    assert first + (before + [d] + after) + joined == stretch + rest;
    PiecesSkip(INITIAL, stretch, rest, blank, delims);
    assert blank + stretch == blank + first + before;
    AfterDelimiter(d, after, joined, blank + stretch, delims);
  }

  lemma AfterDelimiter(d: char, after: string, joined: string, current: string, delims: set<char>)
    requires Neutral(delims) && d in delims && AllSpace(after)
    ensures Pieces(INITIAL, [d] + after + joined, current, delims) == [current] + Pieces(INITIAL, joined, after, delims)
  {
    var rest := [d] + after + joined;
    assert rest[0] == d && rest[1..] == after + joined;
    SpaceIsClosed(after, delims);
    PiecesSkip(INITIAL, after, joined, "", delims);
    assert "" + after == after;
  }

  lemma LastStretch(last: string, blank: string, delims: set<char>)
    requires Unsplit(INITIAL, last, delims) && AllSpace(blank) && Trimmed(last)
    ensures NonBlank(Pieces(INITIAL, last, blank, delims)) == [last]
  {
    PiecesSkip(INITIAL, last, "", blank, delims);
    assert last + "" == last && blank + last + "" == blank + last;
    TrimPadded(blank, last, "");
    NonBlankOne(blank + last);
  }

  /** Splitting a join, when `blank` is what precedes it in the stretch under way. */
  lemma {:induction false} SplitJoined(parts: seq<string>, before: string, d: char, after: string, blank: string,
          delims: set<char>)
    requires Neutral(delims) && d in delims && AllSpace(before) && AllSpace(after) && AllSpace(blank)
    requires AreParts(parts, delims)
    ensures NonBlank(Pieces(INITIAL, Join(parts, before + [d] + after), blank, delims)) == parts
  {
    if parts == [] {
      TrimSpace(blank);
      NonBlankOne(blank);
    } else if |parts| == 1 {
      LastStretch(parts[0], blank, delims);
    } else {
      var joined := Join(parts[1..], before + [d] + after);
      FirstStretch(parts[0], before, d, after, joined, blank, delims);
      TrimPadded(blank, parts[0], before);
      SplitJoined(parts[1..], before, d, after, after, delims);
      NonBlankMore(blank + parts[0] + before, Pieces(INITIAL, joined, after, delims));
      assert parts == [parts[0]] + parts[1..];
    }
  }

  lemma {:induction false} SubsequenceOfParts(sub: seq<string>, parts: seq<string>, delims: set<char>)
    requires AreParts(parts, delims) && Subsequence(sub, parts)
    ensures AreParts(sub, delims)
    ensures forall p | p in sub :: p in parts
    decreases parts
  {
    if sub == [] {
    } else {
      if sub[0] == parts[0] && Subsequence(sub[1..], parts[1..]) {
        SubsequenceOfParts(sub[1..], parts[1..], delims);
        assert sub == [sub[0]] + sub[1..];
        if |sub| > 1 { assert |parts| > 1; }
      } else {
        SubsequenceOfParts(sub, parts[1..], delims);
      }
    }
  }

  /**
   The round trip: for any text, keep any of the parts of its split in order, join them with a delimiter set in any
   amount of space, split again, and exactly the kept parts come back.
   */
  lemma SplitJoinRoundTrip(text: string, sub: seq<string>, before: string, d: char, after: string, delims: set<char>)
    requires Neutral(delims) && d in delims && AllSpace(before) && AllSpace(after)
    requires Subsequence(sub, Split(text, delims))
    ensures Split(Join(sub, before + [d] + after), delims) == sub
  {
    PiecesAreParts(INITIAL, text, "", delims);
    SubsequenceOfParts(sub, Split(text, delims), delims);
    SplitJoined(sub, before, d, after, "", delims);
  }
}
