/** Finding the first JSON object inside free text, against two references: a definition of
    "lexically balanced" that takes string literals out first, and the texts of the JSON grammar
    of RFC 8259, with white space wherever it may stand and every escape. */
module JsonExtract {
  import opened Wrappers

  // ---------------------------------------------------------------- the scanner

  /** The three variables of the scan loop. */
  datatype Scanner = Scanner(depth: int, inStr: bool, escape: bool)

  function Feed(s: Scanner, ch: char): Scanner {
    if s.inStr then
      if s.escape then s.(escape := false)
      else if ch == '\\' then s.(escape := true)
      else if ch == '"' then s.(inStr := false)
      else s
    else if ch == '"' then s.(inStr := true)
    else if ch == '{' then s.(depth := s.depth + 1)
    else if ch == '}' then s.(depth := s.depth - 1)
    else s
  }

  /** The first object of a text, or nothing: one left-to-right pass. */
  method ExtractFirstObject(text: string) returns (r: Option<string>)
    ensures IsFirstObject(text, r)
  {
    var start := Find(text, '{');
    if start < 0 {
      return None;
    }
    var depth, inStr, escape := 0, false, false;
    var i: nat := start;
    while i < |text|
      invariant start <= i <= |text|
      invariant Scanner(depth, inStr, escape) == Scan(text[start..i], ZERO)
      invariant i > start ==> depth >= 1
      invariant NoneUpTo(text, start, i)
    {
      var ch := text[i];
      Advance(text, start, i);
      if inStr {
        if escape {
          escape := false;
        } else if ch == '\\' {
          escape := true;
        } else if ch == '"' {
          inStr := false;
        }
      } else if ch == '"' {
        inStr := true;
      } else if ch == '{' {
        depth := depth + 1;
      } else if ch == '}' {
        depth := depth - 1;
        if depth == 0 {
          Found(text, start, i + 1);
          return Some(text[start..i + 1]);
        }
      }
      i := i + 1;
    }
    assert ObjectFrom(text, start, None);
    r := None;
  }

  ghost predicate NoneUpTo(text: string, start: nat, end: nat)
    requires start <= end <= |text|
  {
    forall k | start < k <= end :: !Balanced(text[start..k])
  }

  /** Feeding one more character, and what that says about the span read so far. */
  lemma Advance(text: string, start: nat, i: nat)
    requires start <= i < |text|
    ensures Scan(text[start..i + 1], ZERO) == Feed(Scan(text[start..i], ZERO), text[i])
    ensures Balanced(text[start..i + 1]) <==>
      Feed(Scan(text[start..i], ZERO), text[i]).depth == 0 && !Feed(Scan(text[start..i], ZERO), text[i]).inStr
    ensures NoneUpTo(text, start, i) && !Balanced(text[start..i + 1]) ==> NoneUpTo(text, start, i + 1)
  {
    assert text[start..i + 1] == text[start..i] + [text[i]];
    ScanSnoc(text[start..i], text[i], ZERO);
    BalancedIsZero(text[start..i + 1]);
  }

  lemma Found(text: string, start: nat, end: nat)
    requires start < end <= |text| && text[start] == '{' && '{' !in text[..start]
    requires Balanced(text[start..end]) && NoneUpTo(text, start, end - 1)
    ensures IsFirstObject(text, Some(text[start..end]))
  {
    assert ObjectFrom(text, start, Some(text[start..end]));
  }

  /** The index of the first occurrence of a character, or -1. */
  method Find(text: string, c: char) returns (at: int)
    ensures at == -1 ==> c !in text
    ensures at != -1 ==> 0 <= at < |text| && text[at] == c && c !in text[..at]
  {
    at := 0;
    while at < |text|
      invariant 0 <= at <= |text|
      invariant c !in text[..at]
    {
      if text[at] == c { return; }
      at := at + 1;
    }
    at := -1;
  }

  const ZERO := Scanner(0, false, false)

  function Scan(s: string, from: Scanner): Scanner {
    if s == "" then from else Scan(s[1..], Feed(from, s[0]))
  }

  lemma {:induction false} ScanConcat(a: string, b: string, from: Scanner)
    ensures Scan(a + b, from) == Scan(b, Scan(a, from))
    decreases |a|
  {
    if a == "" {
      assert a + b == b;
    } else {
      assert (a + b)[1..] == a[1..] + b;
      ScanConcat(a[1..], b, Feed(from, a[0]));
    }
  }

  lemma ScanSnoc(a: string, c: char, from: Scanner)
    ensures Scan(a + [c], from) == Feed(Scan(a, from), c)
  {
    ScanConcat(a, [c], from);
    assert Scan([c][1..], Feed(Scan(a, from), c)) == Feed(Scan(a, from), c);
  }

  // ---------------------------------------------------------------- lexical balance

  /** The length of a string literal's rest, closing quote included, or nothing if it never ends. */
  function Literal(rest: string): (n: Option<nat>)
    ensures n.Some? ==> 0 < n.value <= |rest|
  {
    if rest == "" then None
    else if rest[0] == '"' then Some(1)
    else
      var skip := if rest[0] == '\\' then 2 else 1;
      if |rest| < skip then None
      else
        var n := Literal(rest[skip..]);
        if n == None then None else Some(n.value + skip)
  }

  /** Every string literal of the text ends within it. */
  predicate Closed(s: string) {
    s == ""
    || (if s[0] == '"' then Literal(s[1..]).Some? && Closed(s[1 + Literal(s[1..]).value..])
        else Closed(s[1..]))
  }

  /** Opening minus closing braces outside string literals. */
  function Surplus(s: string): int {
    if s == "" then 0
    else if s[0] == '"' then
      if Literal(s[1..]) == None then 0 else Surplus(s[1 + Literal(s[1..]).value..])
    else (if s[0] == '{' then 1 else if s[0] == '}' then -1 else 0) + Surplus(s[1..])
  }

  predicate Balanced(s: string) {
    Closed(s) && Surplus(s) == 0
  }

  /** `r` is the shortest balanced span from the first opening brace; nothing if there is none. */
  ghost predicate IsFirstObject(text: string, r: Option<string>) {
    if '{' !in text then r == None else exists start: nat :: ObjectFrom(text, start, r)
  }

  ghost predicate ObjectFrom(text: string, start: nat, r: Option<string>) {
    && start < |text| && text[start] == '{' && '{' !in text[..start]
    && match r
       case None => forall k | start < k <= |text| :: !Balanced(text[start..k])
       case Some(t) => SpanAt(text, start, t)
  }

  ghost predicate SpanAt(text: string, start: nat, t: string)
    requires start <= |text|
  {
    && 0 < |t| <= |text| - start && t == text[start..start + |t|] && Balanced(t)
    && forall k | start < k < start + |t| :: !Balanced(text[start..k])
  }

  lemma {:induction false} ScanLiteral(rest: string, d: int)
    ensures Literal(rest) == None ==> Scan(rest, Scanner(d, true, false)).inStr
    ensures Literal(rest).Some? ==>
      Scan(rest, Scanner(d, true, false)) == Scan(rest[Literal(rest).value..], Scanner(d, false, false))
    decreases |rest|
  {
    if rest != "" && rest[0] == '\\' {
      if |rest| >= 2 {
        assert rest[1..][1..] == rest[2..];
        ScanLiteral(rest[2..], d);
      } else {
        assert Scan(rest[1..], Scanner(d, true, true)).inStr;
      }
    } else if rest != "" && rest[0] != '"' {
      ScanLiteral(rest[1..], d);
    }
  }

  /** The scanner outside a string literal knows exactly the surplus of what it has read. */
  lemma {:induction false} ScanMeansSurplus(s: string, d: int)
    ensures Closed(s) <==> !Scan(s, Scanner(d, false, false)).inStr
    ensures Closed(s) ==> Scan(s, Scanner(d, false, false)) == Scanner(d + Surplus(s), false, false)
    decreases |s|
  {
    if s != "" {
      if s[0] == '"' {
        ScanLiteral(s[1..], d);
        if Literal(s[1..]).Some? {
          assert s[1..][Literal(s[1..]).value..] == s[1 + Literal(s[1..]).value..];
          ScanMeansSurplus(s[1 + Literal(s[1..]).value..], d);
        }
      } else {
        ScanMeansSurplus(s[1..], Feed(Scanner(d, false, false), s[0]).depth);
      }
    }
  }

  lemma BalancedIsZero(s: string)
    ensures Balanced(s) <==> Scan(s, ZERO).depth == 0 && !Scan(s, ZERO).inStr
  {
    ScanMeansSurplus(s, 0);
  }

  // ---------------------------------------------------------------- JSON texts

  /** White space of section 2 of RFC 8259. */
  predicate Blank(s: string) {
    forall i | 0 <= i < |s| :: s[i] in {' ', '\t', '\n', '\r'}
  }

  type Space = s: string | Blank(s) witness ""

  /** The lexemes of JSON numbers use these characters only. */
  predicate NumberText(s: string) {
    s != "" && forall i | 0 <= i < |s| :: '0' <= s[i] <= '9' || s[i] in {'+', '-', '.', 'e', 'E'}
  }

  type Number = s: string | NumberText(s) witness "0"

  /** What may stand between the quotation marks of a string: characters other than these marks, and
      any character behind a reverse solidus. */
  predicate Body(s: string) {
    s == "" || (if s[0] == '\\' then |s| >= 2 && Body(s[2..]) else s[0] != '"' && Body(s[1..]))
  }

  type StringBody = s: string | Body(s) witness ""

  predicate Hex(c: char) {
    '0' <= c <= '9' || 'a' <= c <= 'f' || 'A' <= c <= 'F'
  }

  /** What section 7 of RFC 8259 lets stand there, the escapes of ordinary characters included. */
  predicate SectionSeven(s: string) {
    || s == ""
    || (s[0] >= ' ' && s[0] != '"' && s[0] != '\\' && SectionSeven(s[1..]))
    || (|s| >= 2 && s[0] == '\\' && s[1] in "\"\\/bfnrt" && SectionSeven(s[2..]))
    || (|s| >= 6 && s[0] == '\\' && s[1] == 'u' && Hex(s[2]) && Hex(s[3]) && Hex(s[4]) && Hex(s[5])
        && SectionSeven(s[6..]))
  }

  lemma FourMore(s: string)
    requires |s| >= 4 && Hex(s[0]) && Hex(s[1]) && Hex(s[2]) && Hex(s[3]) && Body(s[4..])
    ensures Body(s)
  {
    assert s[3..][1..] == s[4..] && s[2..][1..] == s[3..] && s[1..][1..] == s[2..];
    assert Body(s[3..]) && Body(s[2..]) && Body(s[1..]);
  }

  lemma {:induction false} SectionSevenIsBody(s: string)
    requires SectionSeven(s)
    ensures Body(s)
    decreases |s|
  {
    if s != "" {
      if s[0] != '\\' {
        SectionSevenIsBody(s[1..]);
      } else if s[1] == 'u' {
        SectionSevenIsBody(s[6..]);
        assert s[2..][4..] == s[6..];
        FourMore(s[2..]);
      } else {
        SectionSevenIsBody(s[2..]);
      }
    }
  }

  /** A JSON text, taken apart down to its white space. */
  datatype Json =
    | Null
    | Bool(b: bool)
    | Num(lexeme: Number)
    | Str(body: StringBody)
    | Arr(open: Space, items: seq<Item>)
    | Obj(open: Space, members: seq<Member>)

  datatype Item = Item(before: Space, value: Json, after: Space)

  datatype Member = Member(before: Space, key: StringBody, toColon: Space, fromColon: Space, value: Json, after: Space)

  function PrintString(body: StringBody): string {
    "\"" + body + "\""
  }

  function Print(v: Json): string
    decreases v, 0
  {
    match v
    case Null => "null"
    case Bool(b) => if b then "true" else "false"
    case Num(lexeme) => lexeme
    case Str(body) => PrintString(body)
    case Arr(open, items) => "[" + (open + PrintItems(items)) + "]"
    case Obj(open, members) => "{" + (open + PrintMembers(members)) + "}"
  }

  function Comma(more: bool): string {
    if more then "," else ""
  }

  function PrintItems(items: seq<Item>): string
    decreases items
  {
    if items == [] then ""
    else
      items[0].before + Print(items[0].value) + items[0].after + Comma(|items| > 1) + PrintItems(items[1..])
  }

  function PrintKey(m: Member): string {
    m.before + PrintString(m.key) + m.toColon + ":" + m.fromColon
  }

  function PrintMembers(members: seq<Member>): string
    decreases members
  {
    if members == [] then ""
    else
      PrintKey(members[0]) + Print(members[0].value) + members[0].after + Comma(|members| > 1)
      + PrintMembers(members[1..])
  }

  // ---------------------------------------------------------------- printed text is balanced

  /** Scanned from `from`, the text never dips below that depth and leaves the scanner where it was. */
  ghost predicate Neutral(s: string, from: Scanner) {
    && Scan(s, from) == from
    && forall k | 0 <= k <= |s| :: Scan(s[..k], from).depth >= from.depth
  }

  lemma NeutralConcat(a: string, b: string, from: Scanner)
    requires Neutral(a, from) && Neutral(b, from)
    ensures Neutral(a + b, from)
  {
    ScanConcat(a, b, from);
    forall k | 0 <= k <= |a + b| ensures Scan((a + b)[..k], from).depth >= from.depth {
      if k <= |a| {
        assert (a + b)[..k] == a[..k];
      } else {
        assert (a + b)[..k] == a + b[..k - |a|];
        ScanConcat(a, b[..k - |a|], from);
      }
    }
  }

  lemma OneChar(c: char, from: Scanner)
    ensures Scan([c], from) == Feed(from, c)
  {
  }

  /** Two characters around a neutral body, the second undoing the first. Strictly inside, the
      depth stays at the body's. */
  lemma Wrapped(a: char, body: string, b: char, from: Scanner)
    requires Neutral(body, Feed(from, a)) && Feed(Feed(from, a), b) == from
    requires Feed(from, a).depth >= from.depth
    ensures Neutral([a] + body + [b], from)
    ensures forall k | 0 < k < |body| + 2 :: Scan(([a] + body + [b])[..k], from).depth >= Feed(from, a).depth
  {
    var s := [a] + body + [b];
    OneChar(a, from);
    OneChar(b, Feed(from, a));
    ScanConcat([a], body, from);
    ScanConcat([a] + body, [b], from);
    forall k | 0 < k < |s| ensures Scan(s[..k], from).depth >= Feed(from, a).depth {
      assert s[..k] == [a] + body[..k - 1];
      ScanConcat([a], body[..k - 1], from);
    }
    assert s[..0] == "" && s[..|s|] == s;
  }

  lemma CharIsNeutral(c: char, from: Scanner)
    requires Feed(from, c) == from
    ensures Neutral([c], from)
  {
  }

  /** No quotation marks and no braces. */
  predicate Plain(s: string) {
    forall i | 0 <= i < |s| :: s[i] != '"' && s[i] != '{' && s[i] != '}'
  }

  lemma {:induction false} PlainIsNeutral(s: string, from: Scanner)
    requires Plain(s) && !from.inStr
    ensures Neutral(s, from)
    decreases |s|
  {
    if s != "" {
      PlainIsNeutral(s[1..], from);
      CharIsNeutral(s[0], from);
      NeutralConcat([s[0]], s[1..], from);
      assert [s[0]] + s[1..] == s;
    }
  }

  /** A reverse solidus and the character it escapes. */
  lemma EscapedPair(c: char, inside: Scanner)
    requires inside.inStr && !inside.escape
    ensures Neutral(['\\', c], inside)
  {
    var e := ['\\', c];
    OneChar('\\', inside);
    ScanSnoc(['\\'], c, inside);
    assert e == ['\\'] + [c] && e[..0] == "" && e[..1] == ['\\'] && e[..2] == e;
  }

  /** The body of a string keeps the scanner inside the literal. */
  lemma {:induction false} BodyIsNeutral(s: string, inside: Scanner)
    requires Body(s) && inside.inStr && !inside.escape
    ensures Neutral(s, inside)
    decreases |s|
  {
    if s != "" {
      if s[0] == '\\' {
        EscapedPair(s[1], inside);
        BodyIsNeutral(s[2..], inside);
        NeutralConcat(['\\', s[1]], s[2..], inside);
        assert ['\\', s[1]] + s[2..] == s;
      } else {
        CharIsNeutral(s[0], inside);
        BodyIsNeutral(s[1..], inside);
        NeutralConcat([s[0]], s[1..], inside);
        assert [s[0]] + s[1..] == s;
      }
    }
  }

  lemma StringIsNeutral(body: StringBody, from: Scanner)
    requires !from.inStr && !from.escape
    ensures Neutral(PrintString(body), from)
  {
    BodyIsNeutral(body, Feed(from, '"'));
    Wrapped('"', body, '"', from);
  }

  lemma {:induction false} PrintIsNeutral(v: Json, d: int)
    ensures Neutral(Print(v), Scanner(d, false, false))
    decreases v, 0
  {
    var from := Scanner(d, false, false);
    match v
    case Null => PlainIsNeutral("null", from);
    case Bool(b) => PlainIsNeutral("true", from); PlainIsNeutral("false", from);
    case Num(lexeme) => PlainIsNeutral(lexeme, from);
    case Str(body) => StringIsNeutral(body, from);
    case Arr(open, items) =>
      PlainIsNeutral(open, from);
      ItemsAreNeutral(items, d);
      NeutralConcat(open, PrintItems(items), from);
      Wrapped('[', open + PrintItems(items), ']', from);
    case Obj(open, members) =>
      InsideIsNeutral(open, members, d + 1);
      Wrapped('{', open + PrintMembers(members), '}', from);
  }

  lemma InsideIsNeutral(open: Space, members: seq<Member>, d: int)
    ensures Neutral(open + PrintMembers(members), Scanner(d, false, false))
    decreases members, 1
  {
    PlainIsNeutral(open, Scanner(d, false, false));
    MembersAreNeutral(members, d);
    NeutralConcat(open, PrintMembers(members), Scanner(d, false, false));
  }

  lemma {:induction false} ItemsAreNeutral(items: seq<Item>, d: int)
    ensures Neutral(PrintItems(items), Scanner(d, false, false))
    decreases items, 0
  {
    var from := Scanner(d, false, false);
    if items != [] {
      var before, value, after := items[0].before, Print(items[0].value), items[0].after;
      PlainIsNeutral(before, from);
      PrintIsNeutral(items[0].value, d);
      PlainIsNeutral(after, from);
      PlainIsNeutral(Comma(|items| > 1), from);
      ItemsAreNeutral(items[1..], d);
      NeutralConcat(before, value, from);
      NeutralConcat(before + value, after, from);
      NeutralConcat(before + value + after, Comma(|items| > 1), from);
      NeutralConcat(before + value + after + Comma(|items| > 1), PrintItems(items[1..]), from);
    }
  }

  lemma KeyIsNeutral(m: Member, from: Scanner)
    requires !from.inStr && !from.escape
    ensures Neutral(PrintKey(m), from)
  {
    var key := PrintString(m.key);
    PlainIsNeutral(m.before, from);
    StringIsNeutral(m.key, from);
    PlainIsNeutral(m.toColon, from);
    PlainIsNeutral(":", from);
    PlainIsNeutral(m.fromColon, from);
    NeutralConcat(m.before, key, from);
    NeutralConcat(m.before + key, m.toColon, from);
    NeutralConcat(m.before + key + m.toColon, ":", from);
    NeutralConcat(m.before + key + m.toColon + ":", m.fromColon, from);
  }

  lemma {:induction false} MembersAreNeutral(members: seq<Member>, d: int)
    ensures Neutral(PrintMembers(members), Scanner(d, false, false))
    decreases members, 0
  {
    var from := Scanner(d, false, false);
    if members != [] {
      var key, value, after := PrintKey(members[0]), Print(members[0].value), members[0].after;
      KeyIsNeutral(members[0], from);
      PrintIsNeutral(members[0].value, d);
      PlainIsNeutral(after, from);
      PlainIsNeutral(Comma(|members| > 1), from);
      MembersAreNeutral(members[1..], d);
      NeutralConcat(key, value, from);
      NeutralConcat(key + value, after, from);
      NeutralConcat(key + value + after, Comma(|members| > 1), from);
      NeutralConcat(key + value + after + Comma(|members| > 1), PrintMembers(members[1..]), from);
    }
  }

  /** A printed object is balanced, and no shorter part of it from its start is. */
  lemma PrintedObject(obj: Json)
    requires obj.Obj?
    ensures var printed := Print(obj);
            && |printed| >= 2 && printed[0] == '{' && Balanced(printed)
            && forall k | 0 < k < |printed| :: !Balanced(printed[..k])
  {
    var printed := Print(obj);
    InsideIsNeutral(obj.open, obj.members, 1);
    Wrapped('{', obj.open + PrintMembers(obj.members), '}', ZERO);
    BalancedIsZero(printed);
    forall k | 0 < k < |printed| ensures !Balanced(printed[..k]) {
      BalancedIsZero(printed[..k]);
    }
  }

  /** Extraction inverts printing: whatever surrounds a printed object, as long as no brace opens
      before it, the first object of the text is that object, to the character. */
  lemma ExtractionInvertsPrinting(prefix: string, obj: Json, suffix: string,
                                  text: string, r: Option<string>)
    requires '{' !in prefix && obj.Obj? && text == prefix + Print(obj) + suffix
    requires IsFirstObject(text, r)
    ensures r == Some(Print(obj))
  {
    var printed := Print(obj);
    assert text == prefix + (printed + suffix);
    PrintedObject(obj);
    PrintedSpan(prefix, printed, suffix);
    FirstObjectAt(prefix, printed + suffix, printed, r);
  }

  lemma PrintedSpan(prefix: string, printed: string, suffix: string)
    requires printed != "" && Balanced(printed) && forall k | 0 < k < |printed| :: !Balanced(printed[..k])
    ensures SpanAt(prefix + (printed + suffix), |prefix|, printed)
  {
    var text, n := prefix + (printed + suffix), |prefix|;
    assert text[n..n + |printed|] == printed;
    forall k | n < k < n + |printed| ensures !Balanced(text[n..k]) {
      assert text[n..k] == printed[..k - n];
    }
  }

  lemma FirstObjectAt(prefix: string, rest: string, t: string, r: Option<string>)
    requires '{' !in prefix && rest != "" && rest[0] == '{'
    requires SpanAt(prefix + rest, |prefix|, t) && IsFirstObject(prefix + rest, r)
    ensures r == Some(t)
  {
  }
}
