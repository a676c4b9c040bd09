/**
 Reading one property of a generated TypeScript object type: its name, bare or quoted, the string literal it may hold,
 and the block comments in front of it. Each parser is proved to read exactly the texts of one shape.
 */
module PropertyText {
  import opened Prelude
  import opened Scanner

  // Parsers.

  /** The index of the quote that ends a literal. */
  function LiteralEnd(text: string, quote: char, escape: bool, index: nat): (r: Option<nat>)
    requires index <= |text|
    ensures r.Some? ==> index <= r.value < |text|
    decreases |text| - index
  {
    if index == |text| then None
    else if escape then LiteralEnd(text, quote, false, index + 1)
    else if text[index] == '\\' then LiteralEnd(text, quote, true, index + 1)
    else if text[index] == quote then Some(index)
    else LiteralEnd(text, quote, false, index + 1)
  }

  /** `parse_string_literal`: the text between the quotes and the length of the literal. */
  function ParseStringLiteral(input: string): (r: Option<(string, nat)>)
    ensures r.Some? ==> r.value.1 <= |input|
  {
    if input == "" || (input[0] != '"' && input[0] != '\'') then None
    else
      match LiteralEnd(input, input[0], false, 1)
      case Some(end) => Some((input[1..end], end + 1))
      case None => None
  }

  predicate IsIdentChar(c: char) {
    'a' <= c <= 'z' || 'A' <= c <= 'Z' || '0' <= c <= '9' || c == '_'
  }

  function IdentLength(text: string): (n: nat)
    ensures n <= |text|
  {
    if text != "" && IsIdentChar(text[0]) then 1 + IdentLength(text[1..]) else 0
  }

  /** What follows a bare name: the mark of an optional property, if it is there, is passed over. */
  function PastMark(rest: string): string {
    if StartsWith(rest, "?") then TrimStart(rest[1..]) else rest
  }

  /** `parse_property_name`. */
  function ParsePropertyName(input: string): Option<string> {
    var trimmed := TrimStart(input);
    match ParseStringLiteral(trimmed)
    case Some((literal, consumed)) => if StartsWith(TrimStart(trimmed[consumed..]), ":") then Some(literal) else None
    case None =>
      var end := IdentLength(trimmed);
      if end == 0 then None
      else if StartsWith(PastMark(TrimStart(trimmed[end..])), ":") then Some(trimmed[..end])
      else None
  }

  /** The text behind the first colon. */
  function AfterColon(text: string): Option<string> {
    if text == "" then None else if text[0] == ':' then Some(text[1..]) else AfterColon(text[1..])
  }

  function CloseComment(text: string): (r: Option<string>)
    ensures r.Some? ==> |r.value| < |text|
  {
    if |text| < 2 then None else if StartsWith(text, "*/") then Some(text[2..]) else CloseComment(text[1..])
  }

  lemma {:induction false} TrimStartShorter(text: string)
    ensures |TrimStart(text)| <= |text|
  {
    if text == "" || !IsSpace(text[0]) {
    } else {
      TrimStartShorter(text[1..]);
    }
  }

  /** `strip_leading_block_comments`. */
  function StripLeadingBlockComments(input: string): string
    decreases |input|
  {
    TrimStartShorter(input);
    var rest := TrimStart(input);
    if !StartsWith(rest, "/*") then rest
    else
      match CloseComment(rest[2..])
      case None => rest
      case Some(after) => StripLeadingBlockComments(after)
  }

  // The texts they read.

  /** What can stand between two quotes: a backslash takes the next character with it, and no quote stands alone. */
  predicate IsLiteralBody(body: string, quote: char)
    decreases |body|
  {
    || body == ""
    || (body[0] == '\\' && |body| >= 2 && IsLiteralBody(body[2..], quote))
    || (body[0] != '\\' && body[0] != quote && IsLiteralBody(body[1..], quote))
  }

  predicate IsQuote(c: char) {
    c == '"' || c == '\''
  }

  /** Space, a string literal of `value`, and whatever follows. */
  ghost predicate IsLiteralText(text: string, lead: string, quote: char, value: string, tail: string) {
    && text == lead + ([quote] + value + [quote] + tail)
    && AllSpace(lead) && IsQuote(quote) && IsLiteralBody(value, quote)
  }

  ghost predicate HoldsLiteral(text: string, value: string) {
    exists lead, quote, tail :: IsLiteralText(text, lead, quote, value, tail)
  }

  /** A `?` with space behind it, or nothing. */
  predicate IsMark(mark: string) {
    mark == "" || (mark[0] == '?' && AllSpace(mark[1..]))
  }

  /** ASCII letters, digits and underscores. */
  predicate IsIdent(name: string) {
    name != "" && forall c | c in name :: 'a' <= c <= 'z' || 'A' <= c <= 'Z' || '0' <= c <= '9' || c == '_'
  }

  /** `name: value` or `name?: value`, with space anywhere around the name and the mark. */
  ghost predicate IsBareField(field: string, lead: string, name: string, gap: string, mark: string, value: string) {
    && field == lead + name + (gap + (mark + ([':'] + value)))
    && AllSpace(lead) && AllSpace(gap) && IsMark(mark) && IsIdent(name)
  }

  /** `"name": value` or `'name': value`. */
  ghost predicate IsQuotedField(field: string, lead: string, quote: char, name: string, gap: string, value: string) {
    IsLiteralText(field, lead, quote, name, gap + ([':'] + value)) && AllSpace(gap)
  }

  /** The field declares a property of this name, with this text as its value. */
  ghost predicate Declares(field: string, name: string, value: string) {
    || (exists lead, gap, mark :: IsBareField(field, lead, name, gap, mark, value))
    || (exists lead, quote, gap :: IsQuotedField(field, lead, quote, name, gap, value))
  }

  ghost predicate DeclaresName(field: string, name: string) {
    exists value :: Declares(field, name, value)
  }

  predicate Closes(text: string, i: nat) {
    i + 1 < |text| && text[i] == '*' && text[i + 1] == '/'
  }

  /** A block comment, up to the first end of one. */
  predicate IsComment(text: string) {
    && |text| >= 4 && text[0] == '/' && text[1] == '*' && Closes(text, |text| - 2)
    && forall i | 2 <= i < |text| - 2 :: !Closes(text, i)
  }

  predicate IsGapFirst(text: string, n: nat) {
    0 < n <= |text| && (IsComment(text[..n]) || (n == 1 && IsSpace(text[0])))
  }

  /** Nothing but space and block comments. */
  ghost predicate IsCommentary(text: string)
    decreases |text|
  {
    text == "" || exists n: nat :: IsGapFirst(text, n) && IsCommentary(text[n..])
  }

  /** Behind its comments, the field declares a property of this name. */
  ghost predicate CommentedField(field: string, comments: string, rest: string, name: string) {
    field == comments + rest && IsCommentary(comments) && DeclaresName(rest, name)
  }

  ghost predicate NamesProperty(field: string, name: string) {
    exists comments, rest :: CommentedField(field, comments, rest, name)
  }

  // Space in front.

  lemma {:induction false} LeadOf(s: string) returns (lead: string)
    ensures s == lead + TrimStart(s) && AllSpace(lead)
  {
    if s == "" || !IsSpace(s[0]) {
      lead := "";
      assert "" + s == s;
    } else {
      var rest := LeadOf(s[1..]);
      lead := [s[0]] + rest;
      assert s == [s[0]] + s[1..] && lead + TrimStart(s) == [s[0]] + (rest + TrimStart(s[1..]));
    }
  }

  lemma TrimLead(lead: string, s: string)
    requires AllSpace(lead) && (s == "" || !IsSpace(s[0]))
    ensures TrimStart(lead + s) == s
  {
    TrimStartPadded(lead, s);
  }

  // Literals.

  lemma {:induction false} LiteralEndFound(text: string, quote: char, index: nat, end: nat)
    requires index <= end < |text| && text[end] == quote && quote != '\\' && IsLiteralBody(text[index..end], quote)
    ensures LiteralEnd(text, quote, false, index) == Some(end)
    decreases end - index
  {
    if index == end {
    } else if text[index] == '\\' {
      assert text[index..end][2..] == text[index + 2..end];
      LiteralEndFound(text, quote, index + 2, end);
    } else {
      assert text[index..end][1..] == text[index + 1..end];
      LiteralEndFound(text, quote, index + 1, end);
    }
  }

  lemma {:induction false} LiteralEndBody(text: string, quote: char, index: nat)
    requires index <= |text| && LiteralEnd(text, quote, false, index).Some?
    ensures var end := LiteralEnd(text, quote, false, index).value;
      text[end] == quote && IsLiteralBody(text[index..end], quote)
    decreases |text| - index
  {
    var end := LiteralEnd(text, quote, false, index).value;
    if text[index] == '\\' {
      assert LiteralEnd(text, quote, true, index + 1) == Some(end);
      LiteralEndBody(text, quote, index + 2);
      assert text[index..end][2..] == text[index + 2..end];
    } else if text[index] == quote {
    } else {
      LiteralEndBody(text, quote, index + 1);
      assert text[index..end][1..] == text[index + 1..end];
    }
  }

  lemma LiteralParsed(quote: char, value: string, tail: string)
    requires IsQuote(quote) && IsLiteralBody(value, quote)
    ensures ParseStringLiteral([quote] + value + [quote] + tail) == Some((value, |value| + 2))
    ensures ([quote] + value + [quote] + tail)[|value| + 2..] == tail
  {
    var text := [quote] + value + [quote] + tail;
    assert text[1..|value| + 1] == value;
    LiteralEndFound(text, quote, 1, |value| + 1);
  }

  lemma ParsedLiteral(text: string)
    requires ParseStringLiteral(text).Some?
    ensures var (value, consumed) := ParseStringLiteral(text).value;
      && IsQuote(text[0]) && IsLiteralBody(value, text[0])
      && text == [text[0]] + value + [text[0]] + text[consumed..]
  {
    LiteralEndBody(text, text[0], 1);
  }

  lemma HeldLiteral(text: string, lead: string, quote: char, value: string, tail: string)
    requires IsLiteralText(text, lead, quote, value, tail)
    ensures ParseStringLiteral(TrimStart(text)) == Some((value, |value| + 2))
  {
    var literal := [quote] + value + [quote] + tail;
    TrimLead(lead, literal);
    LiteralParsed(quote, value, tail);
  }

  lemma LiteralHeld(text: string)
    requires ParseStringLiteral(TrimStart(text)).Some?
    ensures HoldsLiteral(text, ParseStringLiteral(TrimStart(text)).value.0)
  {
    var trimmed := TrimStart(text);
    var (value, consumed) := ParseStringLiteral(trimmed).value;
    var lead := LeadOf(text);
    var tail := trimmed[consumed..];
    ParsedLiteral(trimmed);
    assert trimmed == [trimmed[0]] + value + [trimmed[0]] + tail;
    assert IsLiteralText(text, lead, trimmed[0], value, tail);
  }

  /** What `parse_string_literal` reads behind space is exactly the literal that stands there. */
  lemma LiteralRead(text: string, value: string)
    ensures (ParseStringLiteral(TrimStart(text)).Some? && ParseStringLiteral(TrimStart(text)).value.0 == value)
       <==> HoldsLiteral(text, value)
  {
    if lead, quote, tail :| IsLiteralText(text, lead, quote, value, tail) {
      HeldLiteral(text, lead, quote, value, tail);
    }
    if ParseStringLiteral(TrimStart(text)).Some? { LiteralHeld(text); }
  }

  // Names.

  lemma {:induction false} IdentMeasured(name: string, rest: string)
    requires (forall c | c in name :: IsIdentChar(c)) && (rest == "" || !IsIdentChar(rest[0]))
    ensures IdentLength(name + rest) == |name|
  {
    if name == "" {
      assert name + rest == rest;
    } else {
      assert (name + rest)[1..] == name[1..] + rest;
      IdentMeasured(name[1..], rest);
    }
  }

  lemma {:induction false} MeasuredIdent(text: string)
    ensures forall c | c in text[..IdentLength(text)] :: IsIdentChar(c)
  {
    if text == "" || !IsIdentChar(text[0]) {
    } else {
      MeasuredIdent(text[1..]);
      assert text[..IdentLength(text)] == [text[0]] + text[1..][..IdentLength(text[1..])];
    }
  }

  lemma MarkPassed(gap: string, mark: string, value: string)
    requires AllSpace(gap) && IsMark(mark)
    ensures PastMark(TrimStart(gap + (mark + ([':'] + value)))) == [':'] + value
  {
    var colon := [':'] + value;
    TrimLead(gap, mark + colon);
    if mark == "" {
      assert mark + colon == colon;
    } else {
      assert (mark + colon)[1..] == mark[1..] + colon;
      TrimLead(mark[1..], colon);
    }
  }

  lemma SplitMark(text: string) returns (mark: string)
    requires StartsWith(PastMark(text), ":")
    ensures text == mark + PastMark(text) && IsMark(mark)
  {
    if StartsWith(text, "?") {
      var lead := LeadOf(text[1..]);
      mark := ['?'] + lead;
      assert mark[1..] == lead && text == ['?'] + text[1..];
    } else {
      mark := "";
    }
  }

  lemma PassedMark(rest: string) returns (gap: string, mark: string, value: string)
    requires StartsWith(PastMark(TrimStart(rest)), ":")
    ensures rest == gap + (mark + ([':'] + value)) && AllSpace(gap) && IsMark(mark)
  {
    gap := LeadOf(rest);
    mark := SplitMark(TrimStart(rest));
    var colon := PastMark(TrimStart(rest));
    value := colon[1..];
    assert colon == [':'] + value;
  }

  lemma BareNameParsed(field: string, lead: string, name: string, gap: string, mark: string, value: string)
    requires IsBareField(field, lead, name, gap, mark, value)
    ensures ParsePropertyName(field) == Some(name)
  {
    var rest := gap + (mark + ([':'] + value));
    var trimmed := name + rest;
    assert field == lead + trimmed && trimmed[0] == name[0] && name[0] in name;
    TrimLead(lead, trimmed);
    assert rest[0] == if gap != "" then gap[0] else if mark != "" then mark[0] else ':';
    assert gap != "" ==> gap[0] in gap;
    IdentMeasured(name, rest);
    assert trimmed[..|name|] == name && trimmed[|name|..] == rest;
    MarkPassed(gap, mark, value);
  }

  lemma QuotedNameParsed(field: string, lead: string, quote: char, name: string, gap: string, value: string)
    requires IsQuotedField(field, lead, quote, name, gap, value)
    ensures ParsePropertyName(field) == Some(name)
  {
    var colon := [':'] + value;
    var trimmed := [quote] + name + [quote] + (gap + colon);
    assert field == lead + trimmed;
    TrimLead(lead, trimmed);
    LiteralParsed(quote, name, gap + colon);
    TrimLead(gap, colon);
  }

  lemma QuotedParsed(field: string, lead: string, trimmed: string)
    requires field == lead + trimmed && AllSpace(lead) && ParseStringLiteral(trimmed).Some?
    requires StartsWith(TrimStart(trimmed[ParseStringLiteral(trimmed).value.1..]), ":")
    ensures DeclaresName(field, ParseStringLiteral(trimmed).value.0)
  {
    var (name, consumed) := ParseStringLiteral(trimmed).value;
    ParsedLiteral(trimmed);
    var rest := trimmed[consumed..];
    var gap := LeadOf(rest);
    var value := TrimStart(rest)[1..];
    assert rest == gap + ([':'] + value);
    assert trimmed == [trimmed[0]] + name + [trimmed[0]] + rest;
    assert IsQuotedField(field, lead, trimmed[0], name, gap, value);
    assert Declares(field, name, value);
  }

  lemma BareParsed(field: string, lead: string, trimmed: string)
    requires field == lead + trimmed && AllSpace(lead)
    requires IdentLength(trimmed) > 0 && StartsWith(PastMark(TrimStart(trimmed[IdentLength(trimmed)..])), ":")
    ensures DeclaresName(field, trimmed[..IdentLength(trimmed)])
  {
    var end := IdentLength(trimmed);
    var name := trimmed[..end];
    MeasuredIdent(trimmed);
    var gap, mark, value := PassedMark(trimmed[end..]);
    assert trimmed == name + trimmed[end..];
    assert field == lead + name + (gap + (mark + ([':'] + value)));
    assert IsBareField(field, lead, name, gap, mark, value);
    assert Declares(field, name, value);
  }

  lemma ParsedName(field: string)
    requires ParsePropertyName(field).Some?
    ensures DeclaresName(field, ParsePropertyName(field).value)
  {
    var lead := LeadOf(field);
    match ParseStringLiteral(TrimStart(field))
    case Some(_) => QuotedParsed(field, lead, TrimStart(field));
    case None => BareParsed(field, lead, TrimStart(field));
  }

  /** `parse_property_name` reads exactly the name that the field declares. */
  lemma NameRead(field: string, name: string)
    ensures ParsePropertyName(field) == Some(name) <==> DeclaresName(field, name)
  {
    if value :| Declares(field, name, value) {
      if lead, gap, mark :| IsBareField(field, lead, name, gap, mark, value) {
        BareNameParsed(field, lead, name, gap, mark, value);
      } else {
        var lead, quote, gap :| IsQuotedField(field, lead, quote, name, gap, value);
        QuotedNameParsed(field, lead, quote, name, gap, value);
      }
    }
    if ParsePropertyName(field) == Some(name) { ParsedName(field); }
  }

  lemma {:induction false} ColonFound(before: string, value: string)
    requires ':' !in before
    ensures AfterColon(before + ([':'] + value)) == Some(value)
  {
    if before == "" {
      assert before + ([':'] + value) == [':'] + value;
    } else {
      assert (before + ([':'] + value))[1..] == before[1..] + ([':'] + value);
      ColonFound(before[1..], value);
    }
  }

  lemma SpaceHasNoColon(s: string)
    requires AllSpace(s)
    ensures ':' !in s
  {
  }

  /** With no colon in its name, a field's value is what follows the first colon. */
  lemma ValueRead(field: string, name: string, value: string)
    requires Declares(field, name, value) && ':' !in name
    ensures AfterColon(field) == Some(value)
  {
    if lead, gap, mark :| IsBareField(field, lead, name, gap, mark, value) {
      SpaceHasNoColon(lead);
      SpaceHasNoColon(gap);
      if mark != "" {
        SpaceHasNoColon(mark[1..]);
        assert mark == [mark[0]] + mark[1..];
      }
      assert field == (lead + name + gap + mark) + ([':'] + value);
      ColonFound(lead + name + gap + mark, value);
    } else {
      var lead, quote, gap :| IsQuotedField(field, lead, quote, name, gap, value);
      SpaceHasNoColon(lead);
      SpaceHasNoColon(gap);
      assert field == (lead + [quote] + name + [quote] + gap) + ([':'] + value);
      ColonFound(lead + [quote] + name + [quote] + gap, value);
    }
  }

  // Comments.

  lemma StartsTwo(text: string, a: char, b: char)
    ensures StartsWith(text, [a, b]) <==> |text| >= 2 && text[0] == a && text[1] == b
  {
    if |text| >= 2 { assert text[..2] == [text[0], text[1]]; }
  }

  lemma ClosesLater(text: string, i: nat)
    requires text != ""
    ensures Closes(text[1..], i) <==> Closes(text, i + 1)
  {
  }

  lemma {:induction false} CommentClosed(text: string, n: nat)
    requires Closes(text, n) && forall i: nat | i < n :: !Closes(text, i)
    ensures CloseComment(text) == Some(text[n + 2..])
  {
    StartsTwo(text, '*', '/');
    if n > 0 {
      assert !Closes(text, 0);
      forall i: nat | i < n
        ensures Closes(text[1..], i) <==> Closes(text, i + 1)
      {
        ClosesLater(text, i);
      }
      ClosesLater(text, n - 1);
      CommentClosed(text[1..], n - 1);
      assert text[1..][n + 1..] == text[n + 2..];
    }
  }

  lemma {:induction false} ClosedComment(text: string) returns (n: nat)
    requires CloseComment(text).Some?
    ensures Closes(text, n) && forall i: nat | i < n :: !Closes(text, i)
    ensures CloseComment(text).value == text[n + 2..]
  {
    StartsTwo(text, '*', '/');
    if Closes(text, 0) {
      n := 0;
    } else {
      var m := ClosedComment(text[1..]);
      n := m + 1;
      ClosesLater(text, m);
      forall i: nat | i < n
        ensures !Closes(text, i)
      {
        if i > 0 { ClosesLater(text, i - 1); }
      }
      assert text[1..][m + 2..] == text[n + 2..];
    }
  }

  lemma CommentOpens(comment: string, after: string)
    requires IsComment(comment)
    ensures StripLeadingBlockComments(comment + after) == StripLeadingBlockComments(after)
  {
    var text, n := comment + after, |comment|;
    var inner := text[2..];
    StartsTwo(text, '/', '*');
    forall i: nat | i < n - 4
      ensures !Closes(inner, i)
    {
      assert !Closes(comment, i + 2);
    }
    assert Closes(comment, n - 2);
    CommentClosed(inner, n - 4);
    assert inner[n - 2..] == after;
  }

  /** What is stripped from an opened and closed comment is one comment. */
  lemma ClosedIsComment(text: string) returns (comment: string, after: string)
    requires StartsWith(text, "/*") && CloseComment(text[2..]).Some?
    ensures text == comment + after && IsComment(comment) && CloseComment(text[2..]).value == after
  {
    StartsTwo(text, '/', '*');
    var inner := text[2..];
    var n := ClosedComment(inner);
    comment, after := text[..n + 4], inner[n + 2..];
    assert Closes(inner, n) && Closes(comment, n + 2);
    forall i | 2 <= i < |comment| - 2
      ensures !Closes(comment, i)
    {
      assert !Closes(inner, i - 2);
    }
  }

  lemma CommentIsCommentary(comment: string, more: string)
    requires IsComment(comment) && IsCommentary(more)
    ensures IsCommentary(comment + more)
  {
    var all, n := comment + more, |comment|;
    assert all[..n] == comment && all[n..] == more;
    assert IsGapFirst(all, n);
  }

  lemma GapStripped(text: string, n: nat)
    requires IsGapFirst(text, n)
    ensures StripLeadingBlockComments(text) == StripLeadingBlockComments(text[n..])
  {
    assert text == text[..n] + text[n..];
    if IsComment(text[..n]) { CommentOpens(text[..n], text[n..]); }
  }

  lemma GapThen(comments: string, n: nat, rest: string)
    requires IsGapFirst(comments, n)
    ensures IsGapFirst(comments + rest, n) && (comments + rest)[n..] == comments[n..] + rest
  {
    assert (comments + rest)[..n] == comments[..n];
  }

  lemma {:induction false} CommentaryStripped(comments: string, rest: string)
    requires IsCommentary(comments) && !StartsWith(TrimStart(rest), "/*")
    ensures StripLeadingBlockComments(comments + rest) == TrimStart(rest)
    decreases |comments|
  {
    if comments == "" {
      assert comments + rest == rest;
    } else {
      var n: nat :| IsGapFirst(comments, n) && IsCommentary(comments[n..]);
      GapThen(comments, n, rest);
      GapStripped(comments + rest, n);
      CommentaryStripped(comments[n..], rest);
    }
  }

  lemma {:induction false} SpaceIsCommentary(space: string, comments: string)
    requires AllSpace(space) && IsCommentary(comments)
    ensures IsCommentary(space + comments)
  {
    if space == "" {
      assert space + comments == comments;
    } else {
      assert (space + comments)[1..] == space[1..] + comments;
      SpaceIsCommentary(space[1..], comments);
      assert IsGapFirst(space + comments, 1);
    }
  }

  lemma FirstComment(text: string) returns (lead: string, comment: string, after: string)
    requires StartsWith(TrimStart(text), "/*") && CloseComment(TrimStart(text)[2..]).Some?
    ensures text == lead + (comment + after) && AllSpace(lead) && IsComment(comment)
    ensures StripLeadingBlockComments(text) == StripLeadingBlockComments(after)
  {
    lead := LeadOf(text);
    comment, after := ClosedIsComment(TrimStart(text));
  }

  lemma {:induction false} StrippedCommentary(text: string) returns (comments: string)
    ensures text == comments + StripLeadingBlockComments(text) && IsCommentary(comments)
    decreases |text|
  {
    if StartsWith(TrimStart(text), "/*") && CloseComment(TrimStart(text)[2..]).Some? {
      var lead, comment, after := FirstComment(text);
      var more := StrippedCommentary(after);
      CommentIsCommentary(comment, more);
      SpaceIsCommentary(lead, comment + more);
      comments := lead + (comment + more);
      var stripped := StripLeadingBlockComments(after);
      assert lead + (comment + (more + stripped)) == comments + stripped;
    } else {
      comments := LeadOf(text);
      SpaceIsCommentary(comments, "");
      assert comments + "" == comments;
    }
  }

  /** What declares a property does not begin with a comment. */
  lemma DeclaredStart(field: string, name: string)
    requires DeclaresName(field, name)
    ensures !StartsWith(TrimStart(field), "/*")
  {
    NameRead(field, name);
    StartsTwo(TrimStart(field), '/', '*');
  }

  lemma {:induction false} TrimTwice(s: string)
    ensures TrimStart(TrimStart(s)) == TrimStart(s)
  {
    TrimStartEnds(s);
  }

  /** Without its leading comments, `parse_property_name` reads exactly the name of the property behind them. */
  lemma CommentedNameRead(field: string, name: string)
    ensures ParsePropertyName(StripLeadingBlockComments(field)) == Some(name) <==> NamesProperty(field, name)
  {
    var stripped := StripLeadingBlockComments(field);
    if comments, rest :| CommentedField(field, comments, rest, name) {
      DeclaredStart(rest, name);
      CommentaryStripped(comments, rest);
      NameRead(rest, name);
      TrimTwice(rest);
    }
    if ParsePropertyName(stripped) == Some(name) {
      NameRead(stripped, name);
      var comments := StrippedCommentary(field);
      assert CommentedField(field, comments, stripped, name);
    }
  }
}
