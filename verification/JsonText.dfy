/**
 The compact text `serde_json::to_string` prints, and the proof that it determines the value: two well-formed
 values that print alike are equal. Canonical ordering of fixture arrays breaks ties on this text.
 Every printer takes the text `k` that follows, so `PrintOnto(v, k)` is the text of `v` and then `k`.
 */
module JsonText {
  import opened Json

  const HEX := "0123456789abcdef"

  function EscapeChar(c: char): string {
    if c == '"' then "\\\""
    else if c == '\\' then "\\\\"
    else if c == '\U{8}' then "\\b"
    else if c == '\U{9}' then "\\t"
    else if c == '\U{A}' then "\\n"
    else if c == '\U{C}' then "\\f"
    else if c == '\U{D}' then "\\r"
    else if c < ' ' then "\\u00" + [HEX[(c as int) / 16], HEX[(c as int) % 16]]
    else [c]
  }

  /** The rest of a string literal whose opening quote is already printed. */
  function StringOnto(s: string, k: string): string {
    if s == "" then ['"'] + k else EscapeChar(s[0]) + StringOnto(s[1..], k)
  }

  function PrintOnto(v: Value, k: string): string
    decreases v, 0
  {
    match v
    case Null => "null" + k
    case Bool(b) => if b then "true" + k else "false" + k
    case Number(text) => text + k
    case String(s) => ['"'] + StringOnto(s, k)
    case Array(items) => ['['] + (if items == [] then [']'] + k else PrintOnto(items[0], ItemsOnto(items[1..], k)))
    case Object(entries) =>
      ['{'] + (if entries == [] then ['}'] + k else EntryOnto(entries[0], EntriesOnto(entries[1..], k)))
  }

  function ItemsOnto(items: seq<Value>, k: string): string
    decreases items, 0
  {
    if items == [] then [']'] + k else [','] + PrintOnto(items[0], ItemsOnto(items[1..], k))
  }

  function EntryOnto(e: Entry, k: string): string
    decreases e, 0
  {
    ['"'] + StringOnto(e.key, [':'] + PrintOnto(e.value, k))
  }

  function EntriesOnto(entries: seq<Entry>, k: string): string
    decreases entries, 0
  {
    if entries == [] then ['}'] + k else [','] + EntryOnto(entries[0], EntriesOnto(entries[1..], k))
  }

  /** `serde_json::to_string`. */
  function Print(v: Value): string {
    PrintOnto(v, "")
  }

  lemma Cancel(p: string, x: string, y: string)
    requires p + x == p + y
    ensures x == y
  {
    assert x == (p + x)[|p|..];
    assert y == (p + y)[|p|..];
  }

  lemma HexInjective(i: nat, j: nat)
    requires i < 16 && j < 16 && HEX[i] == HEX[j]
    ensures i == j
  {
  }

  /** Two six-character escapes with the same last two digits are of the same character. */
  lemma LongEscapes(c: char, d: char)
    requires |EscapeChar(c)| == 6 && |EscapeChar(d)| == 6
    requires EscapeChar(c)[4] == EscapeChar(d)[4] && EscapeChar(c)[5] == EscapeChar(d)[5]
    ensures c == d
  {
    HexInjective((c as int) / 16, (d as int) / 16);
    HexInjective((c as int) % 16, (d as int) % 16);
  }

  /** The first two characters tell an escape from any other, but for the long escapes among themselves. */
  lemma ShortEscapes(c: char, d: char)
    requires EscapeChar(c)[0] == EscapeChar(d)[0]
    requires |EscapeChar(c)| > 1 && |EscapeChar(d)| > 1 ==> EscapeChar(c)[1] == EscapeChar(d)[1]
    ensures c == d || (|EscapeChar(c)| == 6 && |EscapeChar(d)| == 6)
  {
  }

  lemma SameAt(p: string, q: string, x: string, y: string, i: nat)
    requires p + x == q + y && i < |p| && i < |q|
    ensures p[i] == q[i]
  {
    assert (p + x)[i] == (q + y)[i];
  }

  lemma EscapeCharPrefixFree(c: char, d: char, x: string, y: string)
    requires EscapeChar(c) + x == EscapeChar(d) + y
    ensures c == d
  {
    var p, q := EscapeChar(c), EscapeChar(d);
    SameAt(p, q, x, y, 0);
    if |p| > 1 && |q| > 1 { SameAt(p, q, x, y, 1); }
    ShortEscapes(c, d);
    if c != d {
      SameAt(p, q, x, y, 4);
      SameAt(p, q, x, y, 5);
      LongEscapes(c, d);
    }
  }

  lemma StringOntoFirst(s: string, k: string)
    ensures StringOnto(s, k) != "" && (s == "" <==> StringOnto(s, k)[0] == '"')
  {
    if s != "" {
      assert StringOnto(s, k)[0] == EscapeChar(s[0])[0];
    }
  }

  lemma {:induction false} StringPrefixFree(s: string, t: string, x: string, y: string)
    requires StringOnto(s, x) == StringOnto(t, y)
    ensures s == t && x == y
  {
    StringOntoFirst(s, x);
    StringOntoFirst(t, y);
    if s == "" {
      Cancel(['"'], x, y);
    } else {
      EscapeCharPrefixFree(s[0], t[0], StringOnto(s[1..], x), StringOnto(t[1..], y));
      Cancel(EscapeChar(s[0]), StringOnto(s[1..], x), StringOnto(t[1..], y));
      StringPrefixFree(s[1..], t[1..], x, y);
      assert s == [s[0]] + s[1..] && t == [t[0]] + t[1..];
    }
  }

  /** What can follow a value inside a text: nothing that would continue a number. */
  predicate Ends(x: string) {
    x == "" || !IsNumberChar(x[0])
  }

  lemma ShorterNumberContinues(s: string, t: string, x: string, y: string)
    requires s + x == t + y && |s| < |t|
    ensures x != "" && x[0] == t[|s|]
  {
    assert (s + x)[|s|] == (t + y)[|s|];
  }

  lemma NumberPrefixFree(s: string, t: string, x: string, y: string)
    requires IsNumberText(s) && IsNumberText(t)
    requires Ends(x) && Ends(y) && s + x == t + y
    ensures s == t && x == y
  {
    if |s| < |t| { ShorterNumberContinues(s, t, x, y); }
    if |t| < |s| { ShorterNumberContinues(t, s, y, x); }
    assert s == (s + x)[..|s|] == (t + y)[..|t|] == t;
    Cancel(s, x, y);
  }

  lemma FirstChar(v: Value, k: string)
    requires WellFormed(v)
    ensures PrintOnto(v, k) != ""
    ensures var c := PrintOnto(v, k)[0];
      && (v.Null? <==> c == 'n')
      && (v.Bool? && v.b <==> c == 't')
      && (v.Bool? && !v.b <==> c == 'f')
      && (v.Number? <==> c == '-' || '0' <= c <= '9')
      && (v.String? <==> c == '"')
      && (v.Array? <==> c == '[')
      && (v.Object? <==> c == '{')
  {
    match v
    case Null => assert PrintOnto(v, k)[0] == "null"[0];
    case Bool(b) => assert PrintOnto(v, k)[0] == if b then "true"[0] else "false"[0];
    case Number(text) => assert PrintOnto(v, k)[0] == text[0];
    case _ =>
  }

  /** A value's text followed by anything that cannot continue a number determines the value and what follows. */
  lemma {:induction false} PrintPrefixFree(v: Value, w: Value, x: string, y: string)
    requires WellFormed(v) && WellFormed(w) && Ends(x) && Ends(y)
    requires PrintOnto(v, x) == PrintOnto(w, y)
    ensures v == w && x == y
    decreases v, 0
  {
    FirstChar(v, x);
    FirstChar(w, y);
    match v
    case Null => Cancel("null", x, y);
    case Bool(b) => if b { Cancel("true", x, y); } else { Cancel("false", x, y); }
    case Number(text) => NumberPrefixFree(text, w.text, x, y);
    case String(s) =>
      Cancel(['"'], StringOnto(s, x), StringOnto(w.s, y));
      StringPrefixFree(s, w.s, x, y);
    case Array(items) => ArrayPrefixFree(items, w.items, x, y);
    case Object(entries) => ObjectPrefixFree(entries, w.entries, x, y);
  }

  lemma {:induction false} ArrayPrefixFree(a: seq<Value>, b: seq<Value>, x: string, y: string)
    requires WellFormed(Array(a)) && WellFormed(Array(b)) && Ends(x) && Ends(y)
    requires PrintOnto(Array(a), x) == PrintOnto(Array(b), y)
    ensures a == b && x == y
    decreases a, 2
  {
    var p := if a == [] then [']'] + x else PrintOnto(a[0], ItemsOnto(a[1..], x));
    var q := if b == [] then [']'] + y else PrintOnto(b[0], ItemsOnto(b[1..], y));
    Cancel(['['], p, q);
    if a == [] {
    } else {
      FirstChar(a[0], ItemsOnto(a[1..], x));
    }
    if b == [] {
    } else {
      FirstChar(b[0], ItemsOnto(b[1..], y));
    }
    if a == [] {
      Cancel([']'], x, y);
    } else {
      PrintPrefixFree(a[0], b[0], ItemsOnto(a[1..], x), ItemsOnto(b[1..], y));
      ItemsPrefixFree(a[1..], b[1..], x, y);
      assert a == [a[0]] + a[1..] && b == [b[0]] + b[1..];
    }
  }

  lemma {:induction false} ItemsPrefixFree(a: seq<Value>, b: seq<Value>, x: string, y: string)
    requires forall i | 0 <= i < |a| :: WellFormed(a[i])
    requires forall i | 0 <= i < |b| :: WellFormed(b[i])
    requires Ends(x) && Ends(y) && ItemsOnto(a, x) == ItemsOnto(b, y)
    ensures a == b && x == y
    decreases a, 1
  {
    if a == [] {
      assert ItemsOnto(b, y)[0] == ']';
      Cancel([']'], x, y);
    } else {
      assert ItemsOnto(b, y)[0] == ',';
      var p, q := ItemsOnto(a[1..], x), ItemsOnto(b[1..], y);
      Cancel([','], PrintOnto(a[0], p), PrintOnto(b[0], q));
      PrintPrefixFree(a[0], b[0], p, q);
      ItemsPrefixFree(a[1..], b[1..], x, y);
      assert a == [a[0]] + a[1..] && b == [b[0]] + b[1..];
    }
  }

  lemma {:induction false} EntryPrefixFree(a: Entry, b: Entry, x: string, y: string)
    requires WellFormed(a.value) && WellFormed(b.value) && Ends(x) && Ends(y)
    requires EntryOnto(a, x) == EntryOnto(b, y)
    ensures a == b && x == y
    decreases a, 1
  {
    var p, q := PrintOnto(a.value, x), PrintOnto(b.value, y);
    Cancel(['"'], StringOnto(a.key, [':'] + p), StringOnto(b.key, [':'] + q));
    StringPrefixFree(a.key, b.key, [':'] + p, [':'] + q);
    Cancel([':'], p, q);
    PrintPrefixFree(a.value, b.value, x, y);
  }

  lemma {:induction false} ObjectPrefixFree(a: seq<Entry>, b: seq<Entry>, x: string, y: string)
    requires WellFormed(Object(a)) && WellFormed(Object(b)) && Ends(x) && Ends(y)
    requires PrintOnto(Object(a), x) == PrintOnto(Object(b), y)
    ensures a == b && x == y
    decreases a, 2
  {
    var p := if a == [] then ['}'] + x else EntryOnto(a[0], EntriesOnto(a[1..], x));
    var q := if b == [] then ['}'] + y else EntryOnto(b[0], EntriesOnto(b[1..], y));
    Cancel(['{'], p, q);
    if a == [] {
      assert q[0] == '}';
      Cancel(['}'], x, y);
    } else {
      assert q[0] == '"';
      EntryPrefixFree(a[0], b[0], EntriesOnto(a[1..], x), EntriesOnto(b[1..], y));
      EntriesPrefixFree(a[1..], b[1..], x, y);
      assert a == [a[0]] + a[1..] && b == [b[0]] + b[1..];
    }
  }

  lemma {:induction false} EntriesPrefixFree(a: seq<Entry>, b: seq<Entry>, x: string, y: string)
    requires forall i | 0 <= i < |a| :: WellFormed(a[i].value)
    requires forall i | 0 <= i < |b| :: WellFormed(b[i].value)
    requires Ends(x) && Ends(y) && EntriesOnto(a, x) == EntriesOnto(b, y)
    ensures a == b && x == y
    decreases a, 1
  {
    if a == [] {
      assert EntriesOnto(b, y)[0] == '}';
      Cancel(['}'], x, y);
    } else {
      assert EntriesOnto(b, y)[0] == ',';
      var p, q := EntriesOnto(a[1..], x), EntriesOnto(b[1..], y);
      Cancel([','], EntryOnto(a[0], p), EntryOnto(b[0], q));
      EntryPrefixFree(a[0], b[0], p, q);
      EntriesPrefixFree(a[1..], b[1..], x, y);
      assert a == [a[0]] + a[1..] && b == [b[0]] + b[1..];
    }
  }

  /** The printed text determines the value. */
  lemma PrintInjective(v: Value, w: Value)
    requires WellFormed(v) && WellFormed(w) && Print(v) == Print(w)
    ensures v == w
  {
    PrintPrefixFree(v, w, "", "");
  }
}
