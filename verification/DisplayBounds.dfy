/** The size-bounded display copy of a tool result: a recursive walk that clips long strings, with
    one budget and one flag for the whole tree, against a flat scan over the strings it visits. */
module DisplayBounds {

  /** What a container is; a dictionary keeps its keys here, in order. */
  datatype Kind = Dict(keys: seq<string>) | List | Tuple

  /** `Other` is any leaf that is not a string. */
  datatype Json = Str(text: string) | Other(code: int) | Node(kind: Kind, items: seq<Json>)

  datatype Limits = Limits(stringMax: nat, totalMax: int, tailMax: nat, note: string)

  const MAX_DEPTH := 24
  const LIVE := Limits(50000, 300000, 2000, "模型已拿到全文，完整副本也已存入本条消息的记录")
  const HISTORY := Limits(2000, 20000, 500, "展开这张工具卡即可按需取回完整内容")

  // ---------------------------------------------------------------- clipping

  function Digit(d: nat): char
    requires d < 10
  {
    '0' + d as char
  }

  /** A number with thousands separators. */
  function Grouped(n: nat): string {
    if n < 10 then [Digit(n)]
    else if n < 100 then [Digit(n / 10), Digit(n % 10)]
    else if n < 1000 then [Digit(n / 100), Digit(n / 10 % 10), Digit(n % 10)]
    else Grouped(n / 1000) + "," + [Digit(n / 100 % 10), Digit(n / 10 % 10), Digit(n % 10)]
  }

  /** A number read with its separators passed over. */
  function ReadBack(s: string): int {
    if s == "" then 0
    else
      var rest, c := s[..|s| - 1], s[|s| - 1];
      if '0' <= c <= '9' then ReadBack(rest) * 10 + (c - '0') as int else ReadBack(rest)
  }

  lemma ReadMore(s: string, c: char)
    ensures ReadBack(s + [c]) == if '0' <= c <= '9' then ReadBack(s) * 10 + (c - '0') as int else ReadBack(s)
  {
    assert (s + [c])[..|s|] == s;
  }

  lemma ReadThree(s: string, a: nat, b: nat, c: nat)
    requires a < 10 && b < 10 && c < 10
    ensures ReadBack(s + "," + [Digit(a), Digit(b), Digit(c)]) == ReadBack(s) * 1000 + a * 100 + b * 10 + c
  {
    var s1 := s + [','];
    var s2 := s1 + [Digit(a)];
    var s3 := s2 + [Digit(b)];
    ReadMore(s, ',');
    ReadMore(s1, Digit(a));
    ReadMore(s2, Digit(b));
    ReadMore(s3, Digit(c));
    assert s3 + [Digit(c)] == s + "," + [Digit(a), Digit(b), Digit(c)];
  }

  lemma ReadOne(a: nat)
    requires a < 10
    ensures ReadBack([Digit(a)]) == a
  {
    var empty: string := "";
    ReadMore(empty, Digit(a));
    assert empty + [Digit(a)] == [Digit(a)];
  }

  lemma ReadTwo(a: nat, b: nat)
    requires a < 10 && b < 10
    ensures ReadBack([Digit(a), Digit(b)]) == a * 10 + b
  {
    ReadOne(a);
    ReadMore([Digit(a)], Digit(b));
    assert [Digit(a)] + [Digit(b)] == [Digit(a), Digit(b)];
  }

  lemma ReadHundreds(a: nat, b: nat, c: nat)
    requires a < 10 && b < 10 && c < 10
    ensures ReadBack([Digit(a), Digit(b), Digit(c)]) == a * 100 + b * 10 + c
  {
    ReadTwo(a, b);
    ReadMore([Digit(a), Digit(b)], Digit(c));
    assert [Digit(a), Digit(b)] + [Digit(c)] == [Digit(a), Digit(b), Digit(c)];
  }

  lemma Quotient(n: nat, k: nat, q: nat, r: nat)
    requires k in {100, 1000} && n == q * k + r && r < k
    ensures n / k == q
  {
  }

  lemma Digits(n: nat)
    ensures n == n / 1000 * 1000 + n / 100 % 10 * 100 + n / 10 % 10 * 10 + n % 10
    ensures n < 1000 ==> n / 100 % 10 == n / 100
    ensures n < 100 ==> n / 10 % 10 == n / 10
  {
    var tens := n / 10;
    var hundreds := tens / 10;
    var thousands := hundreds / 10;
    Quotient(n, 100, hundreds, tens % 10 * 10 + n % 10);
    Quotient(n, 1000, thousands, hundreds % 10 * 100 + tens % 10 * 10 + n % 10);
  }

  lemma ReadSmall(n: nat)
    requires n < 1000
    ensures ReadBack(Grouped(n)) == n
  {
    Digits(n);
    if n < 10 { ReadOne(n); }
    else if n < 100 { ReadTwo(n / 10, n % 10); }
    else { ReadHundreds(n / 100, n / 10 % 10, n % 10); }
  }

  /** Every fourth character from the right is a separator, and no other. */
  predicate Separated(s: string) {
    forall i | 0 <= i < |s| :: s[i] == ',' <==> (|s| - 1 - i) % 4 == 3
  }

  lemma SeparatedMore(left: string, a: nat, b: nat, c: nat)
    requires Separated(left) && a < 10 && b < 10 && c < 10
    ensures Separated(left + "," + [Digit(a), Digit(b), Digit(c)])
  {
    var s := left + "," + [Digit(a), Digit(b), Digit(c)];
    forall i | 0 <= i < |s| ensures s[i] == ',' <==> (|s| - 1 - i) % 4 == 3 {
      if i < |left| {
        assert s[i] == left[i] && |s| - 1 - i == |left| - 1 - i + 4;
      }
    }
  }

  /** The number is what is written. */
  lemma {:induction false} GroupedReadsBack(n: nat)
    ensures ReadBack(Grouped(n)) == n && Separated(Grouped(n))
    decreases n
  {
    if n < 1000 {
      ReadSmall(n);
    } else {
      var a, b, c := n / 100 % 10, n / 10 % 10, n % 10;
      GroupedReadsBack(n / 1000);
      ReadThree(Grouped(n / 1000), a, b, c);
      SeparatedMore(Grouped(n / 1000), a, b, c);
      Digits(n);
    }
  }

  function Remark(keep: nat, total: nat, note: string): string {
    "\n\n〔内容过长，此处只显示前 " + Grouped(keep) + " 字；完整内容共 " + Grouped(total) + " 字，" + note + "〕"
  }

  function Clip(text: string, keep: nat, note: string): string
    requires keep <= |text|
  {
    text[..keep] + Remark(keep, |text|, note)
  }

  // ---------------------------------------------------------------- the flat scan

  /** How much of a string may stay, by the budget left when it is met. */
  function Allowance(budget: int, lim: Limits): nat {
    if budget > 0 then lim.stringMax else lim.tailMax
  }

  function Shorten(text: string, budget: int, lim: Limits): string {
    if |text| <= Allowance(budget, lim) then text else Clip(text, Allowance(budget, lim), lim.note)
  }

  function Total(texts: seq<string>): nat {
    if texts == [] then 0 else |texts[0]| + Total(texts[1..])
  }

  /** Strings one after the other, each paying with its full length. */
  function Scan(texts: seq<string>, budget: int, lim: Limits): (r: seq<string>)
    ensures |r| == |texts|
  {
    if texts == [] then [] else [Shorten(texts[0], budget, lim)] + Scan(texts[1..], budget - |texts[0]|, lim)
  }

  predicate Exceeds(texts: seq<string>, budget: int, lim: Limits) {
    texts != [] && (|texts[0]| > Allowance(budget, lim) || Exceeds(texts[1..], budget - |texts[0]|, lim))
  }

  // ---------------------------------------------------------------- trees

  /** The strings the walk visits, in order: none below the depth limit. */
  function Visited(t: Json, depth: nat): seq<string>
    decreases t
  {
    if depth > MAX_DEPTH then []
    else match t
      case Str(text) => [text]
      case Other(_) => []
      case Node(_, items) => VisitedAll(items, depth + 1)
  }

  function VisitedAll(items: seq<Json>, depth: nat): seq<string>
    decreases items
  {
    if items == [] then [] else Visited(items[0], depth) + VisitedAll(items[1..], depth)
  }

  /** The two trees differ at most in the strings the walk visits: same keys, nesting, lengths and
      other leaves, and equal below the depth limit. */
  predicate SameShape(s: Json, t: Json, depth: nat)
    decreases s
  {
    if depth > MAX_DEPTH then s == t
    else match s
      case Str(_) => t.Str?
      case Other(_) => s == t
      case Node(kind, items) => t.Node? && t.kind == kind && SameShapes(items, t.items, depth + 1)
  }

  predicate SameShapes(s: seq<Json>, t: seq<Json>, depth: nat)
    decreases s
  {
    |s| == |t| && (s == [] || (SameShape(s[0], t[0], depth) && SameShapes(s[1..], t[1..], depth)))
  }

  // ---------------------------------------------------------------- the walk

  datatype Out<+T> = Out(value: T, budget: int, clipped: bool)

  function Walked(t: Json, depth: nat, budget: int, lim: Limits): Out<Json>
    decreases t
  {
    if depth > MAX_DEPTH then Out(t, budget, false)
    else match t
      case Str(text) => Out(Str(Shorten(text, budget, lim)), budget - |text|, |text| > Allowance(budget, lim))
      case Other(_) => Out(t, budget, false)
      case Node(kind, items) =>
        var r := WalkedAll(items, depth + 1, budget, lim);
        Out(Node(kind, r.value), r.budget, r.clipped)
  }

  function WalkedAll(items: seq<Json>, depth: nat, budget: int, lim: Limits): (r: Out<seq<Json>>)
    ensures |r.value| == |items|
    decreases items
  {
    if items == [] then Out([], budget, false)
    else
      var first := Walked(items[0], depth, budget, lim);
      var rest := WalkedAll(items[1..], depth, first.budget, lim);
      Out([first.value] + rest.value, rest.budget, first.clipped || rest.clipped)
  }

  class State {
    var budget: int
    var clipped: bool

    constructor (totalMax: int)
      ensures budget == totalMax && !clipped
    {
      budget, clipped := totalMax, false;
    }

    method Walk(node: Json, depth: nat, lim: Limits) returns (r: Json)
      modifies this
      ensures var w := Walked(node, depth, old(budget), lim);
              r == w.value && budget == w.budget && clipped == (old(clipped) || w.clipped)
      decreases node
    {
      if depth > MAX_DEPTH { return node; }
      match node
      case Str(text) =>
        var keep := if budget > 0 then lim.stringMax else lim.tailMax;
        budget := budget - |text|;
        if |text| <= keep { return node; }
        clipped := true;
        return Str(Clip(text, keep, lim.note));
      case Other(_) => return node;
      case Node(kind, items) =>
        var out := WalkItems(items, depth + 1, lim);
        return if out != items then Node(kind, out) else node;
    }

    /** The walk over the items of one container. */
    method WalkItems(items: seq<Json>, depth: nat, lim: Limits) returns (out: seq<Json>)
      modifies this
      ensures var w := WalkedAll(items, depth, old(budget), lim);
              out == w.value && budget == w.budget && clipped == (old(clipped) || w.clipped)
      decreases items
    {
      out := [];
      ghost var all := WalkedAll(items, depth, budget, lim);
      for i := 0 to |items|
        invariant |out| == i
        invariant var rest := WalkedAll(items[i..], depth, budget, lim);
                  all.value == out + rest.value && all.budget == rest.budget
                  && (old(clipped) || all.clipped) == (clipped || rest.clipped)
      {
        assert items[i..][1..] == items[i + 1..];
        var item := Walk(items[i], depth, lim);
        out := out + [item];
      }
    }
  }

  /** The display copy; `keeps` says how many characters of each visited string it retains. */
  method BoundResultForDisplay(value: Json, lim: Limits) returns (copy: Json, clipped: bool, ghost keeps: seq<nat>)
    ensures SameShape(value, copy, 0)
    ensures Visited(copy, 0) == Scan(Visited(value, 0), lim.totalMax, lim)
    ensures clipped <==> Exceeds(Visited(value, 0), lim.totalMax, lim)
    ensures ShowsPrefixes(Visited(value, 0), Visited(copy, 0), keeps, lim.note)
    ensures WithinBound(Sum(keeps), Visited(value, 0), lim.totalMax, lim)
  {
    var state := new State(lim.totalMax);
    copy := state.Walk(value, 0, lim);
    clipped := state.clipped;
    WalkKeepsShape(value, 0, lim.totalMax, lim);
    WalkIsScan(value, 0, lim.totalMax, lim);
    keeps := Keeps(Visited(value, 0), lim.totalMax, lim);
    ScanShowsPrefixes(Visited(value, 0), lim.totalMax, lim);
    RetainedIsBounded(Visited(value, 0), lim.totalMax, lim);
  }

  // ---------------------------------------------------------------- walk and scan agree

  /** The scan with any way to shorten a string. */
  function Mapped(texts: seq<string>, budget: int, f: (string, int) -> string): seq<string> {
    if texts == [] then [] else [f(texts[0], budget)] + Mapped(texts[1..], budget - |texts[0]|, f)
  }

  lemma {:induction false} MappedOfSum(a: seq<string>, b: seq<string>, budget: int, f: (string, int) -> string)
    ensures Mapped(a + b, budget, f) == Mapped(a, budget, f) + Mapped(b, budget - Total(a), f)
    decreases |a|
  {
    if a == [] {
      assert a + b == b;
    } else {
      assert (a + b)[1..] == a[1..] + b;
      MappedOfSum(a[1..], b, budget - |a[0]|, f);
    }
  }

  function Shortener(lim: Limits): (string, int) -> string {
    (text: string, budget: int) => Shorten(text, budget, lim)
  }

  lemma {:induction false} ScanIsMapped(texts: seq<string>, budget: int, lim: Limits)
    ensures Scan(texts, budget, lim) == Mapped(texts, budget, Shortener(lim))
    decreases |texts|
  {
    if texts != [] { ScanIsMapped(texts[1..], budget - |texts[0]|, lim); }
  }

  lemma ScanOfSum(a: seq<string>, b: seq<string>, budget: int, lim: Limits)
    ensures Scan(a + b, budget, lim) == Scan(a, budget, lim) + Scan(b, budget - Total(a), lim)
  {
    ScanIsMapped(a + b, budget, lim);
    ScanIsMapped(a, budget, lim);
    ScanIsMapped(b, budget - Total(a), lim);
    MappedOfSum(a, b, budget, Shortener(lim));
  }

  lemma {:induction false} ExceedsOfSum(a: seq<string>, b: seq<string>, budget: int, lim: Limits)
    ensures Exceeds(a + b, budget, lim) == (Exceeds(a, budget, lim) || Exceeds(b, budget - Total(a), lim))
    decreases |a|
  {
    if a == [] {
      assert a + b == b;
    } else {
      assert (a + b)[1..] == a[1..] + b;
      ExceedsOfSum(a[1..], b, budget - |a[0]|, lim);
    }
  }

  lemma {:induction false} TotalOfSum(a: seq<string>, b: seq<string>)
    ensures Total(a + b) == Total(a) + Total(b)
    decreases |a|
  {
    if a == [] {
      assert a + b == b;
    } else {
      assert (a + b)[1..] == a[1..] + b;
      TotalOfSum(a[1..], b);
    }
  }

  /** The walk changes strings only. */
  lemma {:induction false} WalkKeepsShape(t: Json, depth: nat, budget: int, lim: Limits)
    ensures SameShape(t, Walked(t, depth, budget, lim).value, depth)
    decreases t
  {
    if depth <= MAX_DEPTH && t.Node? { WalkAllKeepsShapes(t.items, depth + 1, budget, lim); }
  }

  lemma {:induction false} WalkAllKeepsShapes(items: seq<Json>, depth: nat, budget: int, lim: Limits)
    ensures SameShapes(items, WalkedAll(items, depth, budget, lim).value, depth)
    decreases items
  {
    if items != [] {
      var first := Walked(items[0], depth, budget, lim);
      WalkKeepsShape(items[0], depth, budget, lim);
      WalkAllKeepsShapes(items[1..], depth, first.budget, lim);
    }
  }

  /** What a walk shows of the strings, what it leaves of the budget and whether it has shortened any
      is what the flat scan says. */
  ghost predicate Scans(texts: seq<string>, shown: seq<string>, left: int, clipped: bool, budget: int, lim: Limits) {
    && shown == Scan(texts, budget, lim) && left == budget - Total(texts)
    && (clipped <==> Exceeds(texts, budget, lim))
  }

  lemma ScansOfSum(a: seq<string>, b: seq<string>, shownA: seq<string>, shownB: seq<string>, leftA: int, leftB: int,
                   clippedA: bool, clippedB: bool, budget: int, lim: Limits)
    requires Scans(a, shownA, leftA, clippedA, budget, lim) && Scans(b, shownB, leftB, clippedB, leftA, lim)
    ensures Scans(a + b, shownA + shownB, leftB, clippedA || clippedB, budget, lim)
  {
    ScanOfSum(a, b, budget, lim);
    ExceedsOfSum(a, b, budget, lim);
    TotalOfSum(a, b);
  }

  lemma {:induction false} WalkIsScan(t: Json, depth: nat, budget: int, lim: Limits)
    ensures var w := Walked(t, depth, budget, lim);
            Scans(Visited(t, depth), Visited(w.value, depth), w.budget, w.clipped, budget, lim)
    decreases t
  {
    if depth <= MAX_DEPTH && t.Node? { WalkAllIsScan(t.items, depth + 1, budget, lim); }
  }

  lemma {:induction false} WalkAllIsScan(items: seq<Json>, depth: nat, budget: int, lim: Limits)
    ensures var w := WalkedAll(items, depth, budget, lim);
            Scans(VisitedAll(items, depth), VisitedAll(w.value, depth), w.budget, w.clipped, budget, lim)
    decreases items
  {
    if items != [] {
      var first := Walked(items[0], depth, budget, lim);
      var rest := WalkedAll(items[1..], depth, first.budget, lim);
      WalkIsScan(items[0], depth, budget, lim);
      WalkAllIsScan(items[1..], depth, first.budget, lim);
      ScansOfSum(Visited(items[0], depth), VisitedAll(items[1..], depth),
                 Visited(first.value, depth), VisitedAll(rest.value, depth),
                 first.budget, rest.budget, first.clipped, rest.clipped, budget, lim);
      VisitedCons(first.value, rest.value, depth);
    }
  }

  lemma VisitedCons(t: Json, rest: seq<Json>, depth: nat)
    ensures VisitedAll([t] + rest, depth) == Visited(t, depth) + VisitedAll(rest, depth)
  {
    assert ([t] + rest)[1..] == rest;
  }

  /** Shape and visited strings leave no freedom: the copy is determined by what is promised. */
  lemma {:induction false} ShapeAndStringsDecide(s: Json, a: Json, b: Json, depth: nat)
    requires SameShape(s, a, depth) && SameShape(s, b, depth) && Visited(a, depth) == Visited(b, depth)
    ensures a == b
    decreases s
  {
    if depth <= MAX_DEPTH {
      match s
      case Node(_, items) => ShapesAndStringsDecide(items, a.items, b.items, depth + 1);
      case Str(_) => assert Visited(a, depth)[0] == Visited(b, depth)[0];
      case _ =>
    }
  }

  lemma {:induction false} ShapesAndStringsDecide(s: seq<Json>, a: seq<Json>, b: seq<Json>, depth: nat)
    requires SameShapes(s, a, depth) && SameShapes(s, b, depth) && VisitedAll(a, depth) == VisitedAll(b, depth)
    ensures a == b
    decreases s
  {
    if s != [] {
      SameCount(s[0], a[0], depth);
      SameCount(s[0], b[0], depth);
      var n := |Visited(s[0], depth)|;
      assert VisitedAll(a, depth)[..n] == Visited(a[0], depth) && VisitedAll(b, depth)[..n] == Visited(b[0], depth);
      assert VisitedAll(a, depth)[n..] == VisitedAll(a[1..], depth);
      assert VisitedAll(b, depth)[n..] == VisitedAll(b[1..], depth);
      ShapeAndStringsDecide(s[0], a[0], b[0], depth);
      ShapesAndStringsDecide(s[1..], a[1..], b[1..], depth);
    }
  }

  lemma {:induction false} SameCount(s: Json, t: Json, depth: nat)
    requires SameShape(s, t, depth)
    ensures |Visited(s, depth)| == |Visited(t, depth)|
    decreases s
  {
    if depth <= MAX_DEPTH && s.Node? { SameCounts(s.items, t.items, depth + 1); }
  }

  lemma {:induction false} SameCounts(s: seq<Json>, t: seq<Json>, depth: nat)
    requires SameShapes(s, t, depth)
    ensures |VisitedAll(s, depth)| == |VisitedAll(t, depth)|
    decreases s
  {
    if s != [] {
      SameCount(s[0], t[0], depth);
      SameCounts(s[1..], t[1..], depth);
    }
  }

  /** All strings of a tree, however deep. */
  function AllStrings(t: Json): seq<string> {
    match t
    case Str(text) => [text]
    case Other(_) => []
    case Node(_, items) => AllStringsOf(items)
  }

  function AllStringsOf(items: seq<Json>): seq<string> {
    if items == [] then [] else AllStrings(items[0]) + AllStringsOf(items[1..])
  }

  function Height(t: Json): nat {
    if t.Node? then 1 + HeightOf(t.items) else 0
  }

  function HeightOf(items: seq<Json>): nat {
    if items == [] then 0
    else if Height(items[0]) > HeightOf(items[1..]) then Height(items[0]) else HeightOf(items[1..])
  }

  /** Nothing escapes the walk but what lies below the depth limit. */
  lemma {:induction false} VisitsEverything(t: Json, depth: nat)
    requires depth + Height(t) <= MAX_DEPTH
    ensures Visited(t, depth) == AllStrings(t)
    decreases t
  {
    if t.Node? && t.items != [] { VisitsAll(t.items, depth + 1); }
  }

  lemma {:induction false} VisitsAll(items: seq<Json>, depth: nat)
    requires depth + HeightOf(items) <= MAX_DEPTH
    ensures VisitedAll(items, depth) == AllStringsOf(items)
    decreases items
  {
    if items != [] {
      VisitsEverything(items[0], depth);
      VisitsAll(items[1..], depth);
    }
  }

  // ---------------------------------------------------------------- how much is retained

  /** How many characters of a string the copy keeps. */
  function Kept(text: string, budget: int, lim: Limits): nat {
    if |text| <= Allowance(budget, lim) then |text| else Allowance(budget, lim)
  }

  function Min(a: nat, b: nat): nat { if a < b then a else b }

  /** The same for every string in turn. */
  function Keeps(texts: seq<string>, budget: int, lim: Limits): (keeps: seq<nat>)
    ensures |keeps| == |texts|
  {
    if texts == [] then []
    else [Kept(texts[0], budget, lim)] + Keeps(texts[1..], budget - |texts[0]|, lim)
  }

  function Sum(keeps: seq<nat>): nat {
    if keeps == [] then 0 else keeps[0] + Sum(keeps[1..])
  }

  /** A prefix, followed by a remark if that is not all of the string. */
  function Cut(text: string, keep: nat, note: string): string
    requires keep <= |text|
  {
    text[..keep] + if keep == |text| then "" else Remark(keep, |text|, note)
  }

  lemma ShortenCuts(text: string, budget: int, lim: Limits)
    ensures Kept(text, budget, lim) <= |text|
    ensures Shorten(text, budget, lim) == Cut(text, Kept(text, budget, lim), lim.note)
  {
  }

  ghost predicate ShowsPrefixes(texts: seq<string>, shown: seq<string>, keeps: seq<nat>, note: string) {
    && |shown| == |keeps| == |texts|
    && forall i | 0 <= i < |texts| :: keeps[i] <= |texts[i]| && shown[i] == Cut(texts[i], keeps[i], note)
  }

  /** Each string of the copy is the original, or a prefix of it and a remark: it keeps as much as the
      limit for strings allows, or the one for tails if the strings before it have used up the budget. */
  lemma {:induction false} ScanAt(texts: seq<string>, budget: int, lim: Limits, i: nat)
    requires i < |texts|
    ensures var k := Min(|texts[i]|, if Total(texts[..i]) < budget then lim.stringMax else lim.tailMax);
            k == Keeps(texts, budget, lim)[i] <= |texts[i]| && Scan(texts, budget, lim)[i] == Cut(texts[i], k, lim.note)
  {
    if i == 0 {
      ShortenCuts(texts[0], budget, lim);
    } else {
      var rest, left := texts[1..], budget - |texts[0]|;
      ScanAt(rest, left, lim, i - 1);
      assert texts[..i][1..] == rest[..i - 1];
      assert Total(texts[..i]) == |texts[0]| + Total(rest[..i - 1]);
      assert Scan(texts, budget, lim)[i] == Scan(rest, left, lim)[i - 1];
      assert Keeps(texts, budget, lim)[i] == Keeps(rest, left, lim)[i - 1];
    }
  }

  lemma ScanShowsPrefixes(texts: seq<string>, budget: int, lim: Limits)
    ensures ShowsPrefixes(texts, Scan(texts, budget, lim), Keeps(texts, budget, lim), lim.note)
  {
    forall i | 0 <= i < |texts|
      ensures var k := Keeps(texts, budget, lim)[i];
              k <= |texts[i]| && Scan(texts, budget, lim)[i] == Cut(texts[i], k, lim.note)
    {
      ScanAt(texts, budget, lim, i);
    }
  }

  /** How many strings are met with the budget used up. */
  function Late(texts: seq<string>, budget: int): nat {
    if texts == [] then 0 else (if budget > 0 then 0 else 1) + Late(texts[1..], budget - |texts[0]|)
  }

  lemma OneMore(tail: nat, late: nat)
    ensures tail * (1 + late) == tail + tail * late
  {
  }

  /** At most this many characters of the strings remain: less than the budget, one full string and the
      short tails of those met too late. */
  predicate WithinBound(retained: nat, texts: seq<string>, budget: int, lim: Limits) {
    if budget > 0 then retained < budget + lim.stringMax + lim.tailMax * Late(texts, budget)
    else retained <= lim.tailMax * Late(texts, budget)
  }

  lemma {:induction false} RetainedIsBounded(texts: seq<string>, budget: int, lim: Limits)
    ensures WithinBound(Sum(Keeps(texts, budget, lim)), texts, budget, lim)
    decreases |texts|
  {
    if texts != [] {
      var keeps := Keeps(texts, budget, lim);
      assert keeps[1..] == Keeps(texts[1..], budget - |texts[0]|, lim);
      RetainedIsBounded(texts[1..], budget - |texts[0]|, lim);
      OneMore(lim.tailMax, Late(texts[1..], budget - |texts[0]|));
    }
  }

  /** The flag is raised exactly if one of the strings is not kept to its end. */
  lemma {:induction false} ExceedsIff(texts: seq<string>, budget: int, lim: Limits)
    ensures Exceeds(texts, budget, lim) <==> exists i :: 0 <= i < |texts| && Keeps(texts, budget, lim)[i] < |texts[i]|
    decreases |texts|
  {
    if texts != [] {
      var rest, left := texts[1..], budget - |texts[0]|;
      ExceedsIff(rest, left, lim);
      var keeps := Keeps(texts, budget, lim);
      if Exceeds(rest, left, lim) {
        var i :| 0 <= i < |rest| && Keeps(rest, left, lim)[i] < |rest[i]|;
        assert keeps[i + 1] < |texts[i + 1]|;
      }
      if i :| 0 <= i < |texts| && keeps[i] < |texts[i]| {
        if i > 0 { assert Keeps(rest, left, lim)[i - 1] < |rest[i - 1]|; }
      }
    }
  }

  /** So a result whose strings are within the limit, and together within the budget, is shown as it is. */
  lemma {:induction false} WithinLimits(texts: seq<string>, budget: int, lim: Limits)
    requires Total(texts) <= budget && forall i | 0 <= i < |texts| :: |texts[i]| <= lim.stringMax
    ensures !Exceeds(texts, budget, lim) && Scan(texts, budget, lim) == texts
    decreases |texts|
  {
    if texts != [] { WithinLimits(texts[1..], budget - |texts[0]|, lim); }
  }

  /** A result within all limits is shown as it is. */
  lemma {:induction false} SmallResultsUntouched(texts: seq<string>, budget: int, lim: Limits)
    requires !Exceeds(texts, budget, lim)
    ensures Scan(texts, budget, lim) == texts
    decreases |texts|
  {
    if texts != [] { SmallResultsUntouched(texts[1..], budget - |texts[0]|, lim); }
  }
}
