/**
 Filtering generated TypeScript: dropping the experimental arms of a request union and the experimental fields of a
 type body. Both keep the other parts, in order, and both are idempotent on the text they rewrite.
 */
module TypeScriptFilter {
  import opened Prelude
  import opened Scanner
  import opened PropertyText
  import opened Nesting

  // The top-level brace span.

  predicate IsOpen(text: string, i: nat)
    requires i < |text|
  {
    text[i] == '{' && AtTop(Run(INITIAL, text[..i]))
  }

  predicate IsClose(text: string, i: nat)
    requires i < |text|
  {
    text[i] == '}' && AtTop(Run(INITIAL, text[..i + 1]))
  }

  function SpanFrom(s: Scan, text: string, index: nat, open: Option<nat>): Option<(nat, nat)>
    requires index <= |text|
    decreases |text| - index
  {
    if index == |text| then None
    else
      var c := text[index];
      var latest := if c == '{' && AtTop(s) then Some(index) else open;
      if c == '}' && AtTop(Observed(s, c)) && latest.Some? then Some((latest.value, index))
      else SpanFrom(Observed(s, c), text, index + 1, latest)
  }

  function BraceSpan(text: string): Option<(nat, nat)> {
    SpanFrom(INITIAL, text, 0, None)
  }

  /** `find_top_level_brace_span`. */
  method FindTopLevelBraceSpan(input: string) returns (r: Option<(nat, nat)>)
    ensures r == BraceSpan(input)
  {
    var state := new ScanState();
    var open: Option<nat> := None;
    for index := 0 to |input|
      invariant BraceSpan(input) == SpanFrom(state.State(), input, index, open)
    {
      var c := input[index];
      var atTop := state.IsTopLevel();
      if c == '{' && atTop {
        open := Some(index);
      }
      state.Observe(c);
      atTop := state.IsTopLevel();
      if c == '}' && atTop && open.Some? {
        return Some((open.value, index));
      }
    }
    r := None;
  }

  /** The open brace in force at `index`: the last one at top level before it, if any. */
  ghost predicate IsLastOpen(text: string, index: nat, open: Option<nat>)
    requires index <= |text|
  {
    && (open.Some? ==>
         open.value < index && IsOpen(text, open.value) && forall k | open.value < k < index :: !IsOpen(text, k))
    && (open.None? ==> forall k | 0 <= k < index :: !IsOpen(text, k))
  }

  /** No closing brace from `index` up to `end` has an opening brace before it. */
  ghost predicate NoneCloses(text: string, index: nat, end: nat)
    requires end <= |text|
  {
    forall k, j | index <= k < end && 0 <= j < k :: !(IsClose(text, k) && IsOpen(text, j))
  }

  /** The span is the first from `index` on, with the last opening brace before its end. */
  ghost predicate IsFirstSpan(text: string, index: nat, span: Option<(nat, nat)>) {
    match span
    case Some((o, c)) =>
      && o < c && index <= c < |text| && IsOpen(text, o) && IsClose(text, c)
      && (forall k | o < k < c :: !IsOpen(text, k))
      && NoneCloses(text, index, c)
    case None => NoneCloses(text, index, |text|)
  }

  function LatestOpen(text: string, index: nat, open: Option<nat>): Option<nat>
    requires index < |text|
  {
    if IsOpen(text, index) then Some(index) else open
  }

  lemma LatestOpenIsLast(text: string, index: nat, open: Option<nat>)
    requires index < |text| && IsLastOpen(text, index, open)
    ensures IsLastOpen(text, index + 1, LatestOpen(text, index, open))
  {
  }

  /** Where a span closes, it is the first one; where none does, the search goes on. */
  lemma SpanStep(text: string, index: nat, open: Option<nat>, rest: Option<(nat, nat)>)
    requires index < |text| && IsLastOpen(text, index, open)
    ensures IsClose(text, index) && open.Some? ==> IsFirstSpan(text, index, Some((open.value, index)))
    ensures !(IsClose(text, index) && open.Some?) && IsFirstSpan(text, index + 1, rest) ==>
      IsFirstSpan(text, index, rest)
  {
  }

  lemma {:induction false} SpanFromMeaning(text: string, index: nat, open: Option<nat>)
    requires index <= |text| && IsLastOpen(text, index, open)
    ensures IsFirstSpan(text, index, SpanFrom(Run(INITIAL, text[..index]), text, index, open))
    decreases |text| - index
  {
    if index == |text| {
    } else {
      var s, c := Run(INITIAL, text[..index]), text[index];
      assert text[..index + 1] == text[..index] + [c];
      RunSnoc(INITIAL, text[..index], c);
      var latest := LatestOpen(text, index, open);
      LatestOpenIsLast(text, index, open);
      SpanStep(text, index, open, SpanFrom(Observed(s, c), text, index + 1, latest));
      if !(IsClose(text, index) && open.Some?) { SpanFromMeaning(text, index + 1, latest); }
    }
  }

  /**
   The span found is the first top-level closing brace that a top-level opening brace precedes, together with the last
   such opening brace; there is none exactly when no closing brace qualifies.
   */
  lemma BraceSpanMeaning(text: string)
    ensures match BraceSpan(text)
      case Some((o, c)) =>
        && o < c < |text| && IsOpen(text, o) && IsClose(text, c)
        && (forall k | o < k < c :: !IsOpen(text, k))
        && (forall k, j | 0 <= k < c && 0 <= j < k :: !(IsClose(text, k) && IsOpen(text, j)))
      case None => forall k, j | 0 <= k < |text| && 0 <= j < k :: !(IsClose(text, k) && IsOpen(text, j))
  {
    assert text[..0] == "";
    SpanFromMeaning(text, 0, None);
  }

  // The method of an arm.

  /** The loop of `extract_method_from_arm` over an arm's fields. */
  function MethodOf(fields: seq<string>): Option<string> {
    if fields == [] then None
    else if ParsePropertyName(fields[0]) != Some("method") || AfterColon(fields[0]).None? then MethodOf(fields[1..])
    else
      match ParseStringLiteral(TrimStart(AfterColon(fields[0]).value))
      case Some((literal, _)) => Some(literal)
      case None => None
  }

  /** `extract_method_from_arm`. */
  function ExtractMethod(arm: string): Option<string> {
    BraceSpanMeaning(arm);
    match BraceSpan(arm)
    case None => None
    case Some((open, close)) => MethodOf(Split(arm[open + 1..close], {','}))
  }

  /** The span of the arm: the first closing brace that a top-level opening one precedes, with the last such. */
  ghost predicate IsSpan(arm: string, open: nat, close: nat) {
    open < close < |arm| && IsFirstSpan(arm, 0, Some((open, close)))
  }

  /** The field is a property `method`, bare or quoted, whose value is the string literal `m`. */
  ghost predicate GivesMethod(field: string, m: string) {
    exists value :: Declares(field, "method", value) && HoldsLiteral(value, m)
  }

  /** Of these fields, the first that is named `method` gives `m`. */
  ghost predicate FirstMethod(fields: seq<string>, k: nat, m: string) {
    k < |fields| && GivesMethod(fields[k], m) && forall j | 0 <= j < k :: !DeclaresName(fields[j], "method")
  }

  ghost predicate MethodAmong(fields: seq<string>, m: string) {
    exists k: nat :: FirstMethod(fields, k, m)
  }

  ghost predicate CallsWithin(arm: string, open: nat, close: nat, m: string) {
    IsSpan(arm, open, close) && MethodAmong(Split(arm[open + 1..close], {','}), m)
  }

  /**
   The arm calls method `m`: among the comma-separated fields of its top-level brace span, the first one named `method`
   has the string literal `m` as its value.
   */
  ghost predicate CallsMethod(arm: string, m: string) {
    exists open, close :: CallsWithin(arm, open, close, m)
  }

  lemma MethodFieldRead(field: string, m: string)
    ensures DeclaresName(field, "method") <==>
      !(ParsePropertyName(field) != Some("method") || AfterColon(field).None?)
    ensures DeclaresName(field, "method") ==>
      (GivesMethod(field, m) <==>
         var literal := ParseStringLiteral(TrimStart(AfterColon(field).value));
         literal.Some? && literal.value.0 == m)
  {
    NameRead(field, "method");
    forall value | Declares(field, "method", value)
      ensures AfterColon(field) == Some(value)
    {
      ValueRead(field, "method", value);
    }
    if value :| Declares(field, "method", value) { LiteralRead(value, m); }
  }

  lemma MethodAmongStep(fields: seq<string>, m: string)
    requires fields != []
    ensures MethodAmong(fields, m) <==>
      if DeclaresName(fields[0], "method") then GivesMethod(fields[0], m) else MethodAmong(fields[1..], m)
  {
    if k: nat :| FirstMethod(fields, k, m) {
      if k > 0 { assert FirstMethod(fields[1..], k - 1, m); }
    }
    if GivesMethod(fields[0], m) { assert FirstMethod(fields, 0, m); }
    if !DeclaresName(fields[0], "method") && MethodAmong(fields[1..], m) {
      var k: nat :| FirstMethod(fields[1..], k, m);
      assert FirstMethod(fields, k + 1, m);
    }
  }

  lemma {:induction false} MethodOfIs(fields: seq<string>, m: string)
    ensures MethodOf(fields) == Some(m) <==> MethodAmong(fields, m)
  {
    if fields == [] {
    } else {
      MethodFieldRead(fields[0], m);
      MethodAmongStep(fields, m);
      MethodOfIs(fields[1..], m);
    }
  }

  lemma SpanUnique(arm: string, open: nat, close: nat)
    ensures IsSpan(arm, open, close) <==> BraceSpan(arm) == Some((open, close))
  {
    BraceSpanMeaning(arm);
    if IsSpan(arm, open, close) {
      assert IsClose(arm, close) && IsOpen(arm, open);
      var (o, c) := BraceSpan(arm).value;
      assert IsClose(arm, c) && IsOpen(arm, o);
    }
  }

  /** What is extracted from an arm is exactly the method that its text calls. */
  lemma MethodRead(arm: string, m: string)
    ensures ExtractMethod(arm) == Some(m) <==> CallsMethod(arm, m)
  {
    BraceSpanMeaning(arm);
    forall open: nat, close: nat
      ensures IsSpan(arm, open, close) <==> BraceSpan(arm) == Some((open, close))
    {
      SpanUnique(arm, open, close);
    }
    match BraceSpan(arm)
    case None =>
    case Some((open, close)) =>
      MethodOfIs(Split(arm[open + 1..close], {','}), m);
      assert CallsMethod(arm, m) <==> CallsWithin(arm, open, close, m);
  }

  /** The span of a written object type is its outermost pair of braces. */
  lemma BracedSpan(arm: string, pieces: seq<Piece>)
    requires WellNested(pieces) && arm == ['{'] + TextOf(pieces) + ['}']
    ensures IsSpan(arm, 0, |arm| - 1)
  {
    var s, inner := Observed(INITIAL, '{'), TextOf(pieces);
    GroupScanned(INITIAL, '{', pieces, '}');
    assert arm[..|arm|] == arm && arm[..0] == "";
    forall k | 0 < k < |arm|
      ensures !AtTop(Run(INITIAL, arm[..k]))
    {
      assert arm[..k][1..] == inner[..k - 1];
      CoveredAt(s, inner, k - 1);
    }
    assert !IsClose(arm, 0);
    assert forall k | 0 < k < |arm| - 1 :: !IsClose(arm, k) && !IsOpen(arm, k);
  }

  /** A written object type calls the method that the first field named `method` of its list of fields gives. */
  lemma WrittenArm(pieces: seq<Piece>, m: string)
    requires WellNested(pieces)
    ensures CallsMethod(['{'] + TextOf(pieces) + ['}'], m) <==> MethodAmong(Split(TextOf(pieces), {','}), m)
  {
    var arm := ['{'] + TextOf(pieces) + ['}'];
    BracedSpan(arm, pieces);
    assert arm[1..|arm| - 1] == TextOf(pieces);
    SpanUnique(arm, 0, |arm| - 1);
    if open, close :| CallsWithin(arm, open, close, m) { SpanUnique(arm, open, close); }
    if MethodAmong(Split(TextOf(pieces), {','}), m) { assert CallsWithin(arm, 0, |arm| - 1, m); }
  }

  // The filters.

  /** Split, keep some parts, join. */
  function Filtered(text: string, delims: set<char>, separator: string, keep: string -> bool): string {
    Join(Retain(Split(text, delims), keep), separator)
  }

  lemma {:induction false} RetainedSubsequence(parts: seq<string>, keep: string -> bool)
    ensures Subsequence(Retain(parts, keep), parts)
    decreases parts
  {
    if parts == [] {
    } else {
      RetainedSubsequence(parts[1..], keep);
      if keep(parts[0]) { assert Retain(parts, keep)[1..] == Retain(parts[1..], keep); }
    }
  }

  /** Filtering leaves exactly the kept parts, in order, and filtering again changes nothing. */
  lemma FilterRoundTrip(text: string, before: string, d: char, after: string, delims: set<char>, keep: string -> bool)
    requires Neutral(delims) && d in delims && AllSpace(before) && AllSpace(after)
    ensures var filtered := Filtered(text, delims, before + [d] + after, keep);
      && Split(filtered, delims) == Retain(Split(text, delims), keep)
      && Filtered(filtered, delims, before + [d] + after, keep) == filtered
  {
    var kept := Retain(Split(text, delims), keep);
    RetainedSubsequence(Split(text, delims), keep);
    SplitJoinRoundTrip(text, kept, before, d, after, delims);
    RetainAll(kept, keep);
  }

  predicate KeepsArm(arm: string, experimental: set<string>) {
    ExtractMethod(arm).None? || ExtractMethod(arm).value !in experimental
  }

  predicate KeepsField(field: string, experimental: set<string>) {
    var name := ParsePropertyName(StripLeadingBlockComments(field));
    name.None? || name.value !in experimental
  }

  /** The arm calls a listed method. */
  ghost predicate CallsListed(arm: string, experimental: set<string>) {
    exists m :: m in experimental && CallsMethod(arm, m)
  }

  ghost predicate NamesListed(field: string, experimental: set<string>) {
    exists name :: name in experimental && NamesProperty(field, name)
  }

  lemma ArmKeptIff(arm: string, experimental: set<string>)
    ensures KeepsArm(arm, experimental) <==> !CallsListed(arm, experimental)
  {
    forall m {
      MethodRead(arm, m);
    }
  }

  lemma FieldKeptIff(field: string, experimental: set<string>)
    ensures KeepsField(field, experimental) <==> !NamesListed(field, experimental)
  {
    forall name {
      CommentedNameRead(field, name);
    }
  }

  lemma {:induction false} RetainSame(parts: seq<string>, keep: string -> bool, same: string -> bool)
    requires forall part | part in parts :: keep(part) == same(part)
    ensures Retain(parts, keep) == Retain(parts, same)
  {
    if parts == [] {
    } else {
      RetainSame(parts[1..], keep, same);
    }
  }

  /** What was kept can be read by any predicate that agrees with the one that was used. */
  lemma FilteredAs(text: string, d: char, separator: string, delims: set<char>, keep: string -> bool,
                   same: string -> bool)
    requires Neutral(delims) && d in delims && separator in {[d, ' '], [' ', d, ' ']}
    requires forall part :: keep(part) == same(part)
    ensures var filtered := Filtered(text, delims, separator, keep);
      && Split(filtered, delims) == Retain(Split(text, delims), same)
      && Filtered(filtered, delims, separator, keep) == filtered
  {
    var before := if separator == [d, ' '] then "" else " ";
    assert separator == before + [d] + " ";
    RetainSame(Split(text, delims), keep, same);
    FilterRoundTrip(text, before, d, " ", delims, keep);
  }

  function FilteredUnion(body: string, experimental: set<string>): string {
    Filtered(body, {'|'}, " | ", arm => KeepsArm(arm, experimental))
  }

  function FilteredFields(inner: string, experimental: set<string>): string {
    Filtered(inner, {',', ';'}, ", ", field => KeepsField(field, experimental))
  }

  lemma UnionFiltered(body: string, experimental: set<string>)
    ensures var r := FilteredUnion(body, experimental);
      && Split(r, {'|'}) == Retain(Split(body, {'|'}), arm => !CallsListed(arm, experimental))
      && FilteredUnion(r, experimental) == r
  {
    forall arm {
      ArmKeptIff(arm, experimental);
    }
    FilteredAs(body, '|', " | ", {'|'}, arm => KeepsArm(arm, experimental), arm => !CallsListed(arm, experimental));
  }

  lemma FieldsFiltered(inner: string, experimental: set<string>)
    ensures var r := FilteredFields(inner, experimental);
      && Split(r, {',', ';'}) == Retain(Split(inner, {',', ';'}), field => !NamesListed(field, experimental))
      && FilteredFields(r, experimental) == r
  {
    forall field {
      FieldKeptIff(field, experimental);
    }
    FilteredAs(inner, ',', ", ", {',', ';'}, field => KeepsField(field, experimental),
               field => !NamesListed(field, experimental));
  }

  /**
   The union body step of `filter_client_request_ts_contents`, with the listed methods as that function leaves them
   after dropping empty names: the arms of listed methods go, the rest stay in order.
   */
  method FilterUnionBody(body: string, experimental: set<string>) returns (r: string)
    ensures r == FilteredUnion(body, experimental)
    ensures Split(r, {'|'}) == Retain(Split(body, {'|'}), arm => !CallsListed(arm, experimental))
    ensures FilteredUnion(r, experimental) == r
  {
    UnionFiltered(body, experimental);
    var arms := SplitTopLevelMulti(body, {'|'});
    var kept := Retain(arms, arm => KeepsArm(arm, experimental));
    r := Join(kept, " | ");
  }

  /** The type body step of `filter_experimental_type_fields_ts_contents`: the listed fields go, the rest stay. */
  method FilterTypeFields(inner: string, experimental: set<string>) returns (r: string)
    ensures r == FilteredFields(inner, experimental)
    ensures Split(r, {',', ';'}) == Retain(Split(inner, {',', ';'}), field => !NamesListed(field, experimental))
    ensures FilteredFields(r, experimental) == r
  {
    FieldsFiltered(inner, experimental);
    var fields := SplitTopLevelMulti(inner, {',', ';'});
    var kept := Retain(fields, field => KeepsField(field, experimental));
    r := Join(kept, ", ");
  }

  /**
   An arm that calls a method is in the filtered union exactly when it was in the original and the method is not listed;
   an arm that calls none stays whenever it was there.
   */
  lemma UnionArms(body: string, experimental: set<string>, arm: string, m: string)
    ensures CallsMethod(arm, m) ==>
      (arm in Split(FilteredUnion(body, experimental), {'|'}) <==> arm in Split(body, {'|'}) && m !in experimental)
    ensures (forall called :: !CallsMethod(arm, called)) ==>
      (arm in Split(FilteredUnion(body, experimental), {'|'}) <==> arm in Split(body, {'|'}))
  {
    UnionFiltered(body, experimental);
    forall called {
      MethodRead(arm, called);
    }
  }

  /** A field is in the filtered body exactly when it was in the original and names no listed property. */
  lemma BodyFields(inner: string, experimental: set<string>, field: string)
    ensures field in Split(FilteredFields(inner, experimental), {',', ';'}) <==>
      field in Split(inner, {',', ';'}) && forall name | name in experimental :: !NamesProperty(field, name)
  {
    FieldsFiltered(inner, experimental);
  }
}
