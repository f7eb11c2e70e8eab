/** The inline markdown scanner: `renderInline` in src/lib/markdown/render.tsx. One leftmost
    match at a time, alternatives in order; what lies between matches stays text. */
module Markdown {
  import opened Text

  /** `RawLink`: a link whose scheme is not allowed, pushed as the text it was. */
  datatype Node =
    | Plain(text: string)
    | Strong(text: string)
    | Em(text: string)
    | Code(text: string)
    | Link(text: string, href: string)
    | RawLink(text: string, href: string)

  // ---- The pattern ------------------------------------------------------------------

  /** Where a run of characters other than `stop` ends. */
  function RunEnd(t: string, from: nat, stop: char): (end: nat)
    requires from <= |t|
    ensures from <= end <= |t|
    decreases |t| - from
  {
    if from == |t| || t[from] == stop then from else RunEnd(t, from + 1, stop)
  }

  lemma {:induction false} RunEnds(t: string, from: nat, stop: char)
    requires from <= |t|
    ensures var end := RunEnd(t, from, stop);
            (end < |t| ==> t[end] == stop) && forall k :: from <= k < end ==> t[k] != stop
    decreases |t| - from
  {
    if from < |t| && t[from] != stop { RunEnds(t, from + 1, stop); }
  }

  predicate EndsHref(c: char) { c == ')' || IsSpace(c) }

  function HrefEnd(t: string, from: nat): (end: nat)
    requires from <= |t|
    ensures from <= end <= |t|
    decreases |t| - from
  {
    if from == |t| || EndsHref(t[from]) then from else HrefEnd(t, from + 1)
  }

  lemma {:induction false} HrefEnds(t: string, from: nat)
    requires from <= |t|
    ensures forall k :: from <= k < HrefEnd(t, from) ==> !EndsHref(t[k])
    decreases |t| - from
  {
    if from < |t| && !EndsHref(t[from]) { HrefEnds(t, from + 1); }
  }

  /** `**` one or more characters that are not stars `**`. Each alternative answers where its
      match would end; a character class that leaves out its own terminator never backtracks. */
  function StrongAt(t: string, i: nat): (end: Option<nat>)
    requires i <= |t|
    ensures end.Some? ==> i + 2 < end.value <= |t|
  {
    if i + 2 <= |t| && t[i] == '*' && t[i + 1] == '*' then
      var e := RunEnd(t, i + 2, '*');
      if e > i + 2 && e + 2 <= |t| && t[e + 1] == '*' then Some(e + 2) else None
    else None
  }

  /** The same mark on both sides. */
  function MarkedAt(t: string, i: nat, mark: char): (end: Option<nat>)
    requires i <= |t|
    ensures end.Some? ==> i + 2 < end.value <= |t|
  {
    if i < |t| && t[i] == mark then
      var e := RunEnd(t, i + 1, mark);
      if e > i + 1 && e < |t| then Some(e + 1) else None
    else None
  }

  function LinkAt(t: string, i: nat): (end: Option<nat>)
    requires i <= |t|
    ensures end.Some? ==> i + 2 < end.value <= |t|
  {
    if i < |t| && t[i] == '[' then
      var e := RunEnd(t, i + 1, ']');
      if e > i + 1 && e + 1 < |t| && t[e + 1] == '(' then
        var h := HrefEnd(t, e + 2);
        if h > e + 2 && h < |t| && t[h] == ')' then Some(h + 1) else None
      else None
    else None
  }

  function MatchAt(t: string, i: nat): (end: Option<nat>)
    requires i <= |t|
    ensures end.Some? ==> i + 2 < end.value <= |t|
  {
    var strong := StrongAt(t, i);
    if strong.Some? then strong
    else
      var em := MarkedAt(t, i, '*');
      if em.Some? then em
      else
        var code := MarkedAt(t, i, '`');
        if code.Some? then code else LinkAt(t, i)
  }

  /** Nowhere in this stretch does an alternative match, given what follows it. */
  predicate NoMatchIn(t: string, from: nat, until: nat)
    requires until <= |t|
  {
    forall i :: from <= i < until ==> MatchAt(t, i).None?
  }

  /** The leftmost position from here where an alternative matches, or the end. */
  function TextEnd(t: string, from: nat): (end: nat)
    requires from <= |t|
    ensures from <= end <= |t|
    decreases |t| - from
  {
    if from == |t| || MatchAt(t, from).Some? then from else TextEnd(t, from + 1)
  }

  lemma {:induction false} TextEnds(t: string, from: nat)
    requires from <= |t|
    ensures NoMatchIn(t, from, TextEnd(t, from))
    ensures TextEnd(t, from) < |t| ==> MatchAt(t, TextEnd(t, from)).Some?
    decreases |t| - from
  {
    if from < |t| && MatchAt(t, from).None? { TextEnds(t, from + 1); }
  }

  // ---- Nodes ------------------------------------------------------------------------

  /** Begins with these letters, in whatever case. */
  predicate HasScheme(href: string, scheme: string) {
    |scheme| <= |href| && forall k :: 0 <= k < |scheme| ==> LowerChar(href[k]) == scheme[k]
  }

  /** /^https?:\/\//i */
  predicate IsSafeHref(href: string) {
    HasScheme(href, "http://") || HasScheme(href, "https://")
  }

  /** What a matched token becomes, by how it starts. */
  function Dispatch(token: string): Node
    requires |token| > 2
  {
    if StartsWith(token, "**") then Strong(if |token| >= 4 then token[2..|token| - 2] else "")
    else if token[0] == '`' then Code(token[1..|token| - 1])
    else if token[0] == '[' then
      var e := RunEnd(token, 1, ']');
      var title := token[1..e];
      var href := if e + 2 < |token| then token[e + 2..|token| - 1] else "";
      if IsSafeHref(href) then Link(title, href) else RawLink(title, href)
    else Em(token[1..|token| - 1])
  }

  function PrintNode(n: Node): string {
    match n
    case Plain(s) => s
    case Strong(s) => "**" + s + "**"
    case Em(s) => "*" + s + "*"
    case Code(s) => "`" + s + "`"
    case Link(s, href) => "[" + s + "](" + href + ")"
    case RawLink(s, href) => "[" + s + "](" + href + ")"
  }

  function Print(nodes: seq<Node>): string {
    if nodes == [] then "" else PrintNode(nodes[0]) + Print(nodes[1..])
  }

  /** A node the scanner could make. */
  predicate NodeOk(n: Node) {
    n.text != "" &&
    match n
    case Plain(_) => true
    case Strong(s) => '*' !in s
    case Em(s) => '*' !in s
    case Code(s) => '`' !in s
    case Link(s, href) => ']' !in s && HrefOk(href) && IsSafeHref(href)
    case RawLink(s, href) => ']' !in s && HrefOk(href) && !IsSafeHref(href)
  }

  predicate HrefOk(href: string) {
    href != "" && forall k :: 0 <= k < |href| ==> !EndsHref(href[k])
  }


  /** Well formed nodes, no two texts in a row, and no match hidden in a text. */
  predicate IsNormal(nodes: seq<Node>) {
    nodes == [] ||
    (NodeOk(nodes[0]) && IsNormal(nodes[1..]) &&
     (nodes[0].Plain? ==>
        (|nodes| > 1 ==> !nodes[1].Plain?) && NoMatchIn(nodes[0].text + Print(nodes[1..]), 0, |nodes[0].text|)))
  }

  // ---- The scanner ------------------------------------------------------------------

  /** Where the node that begins here ends: a whole match, or the text up to the next one. */
  function NodeEnd(t: string, from: nat): (end: nat)
    requires from < |t|
    ensures from < end <= |t|
  {
    var hit := MatchAt(t, from);
    if hit.Some? then hit.value else TextEnd(t, from + 1)
  }

  function NodeOf(token: string, isMatch: bool): Node
    requires isMatch ==> |token| > 2
  {
    if isMatch then Dispatch(token) else Plain(token)
  }

  function NodeAt(t: string, from: nat): Node
    requires from < |t|
  {
    NodeOf(t[from..NodeEnd(t, from)], MatchAt(t, from).Some?)
  }

  function ParseFrom(t: string, from: nat): seq<Node>
    requires from <= |t|
    decreases |t| - from
  {
    if from == |t| then [] else [NodeAt(t, from)] + ParseFrom(t, NodeEnd(t, from))
  }

  function Parse(t: string): seq<Node> {
    ParseFrom(t, 0)
  }

  lemma ParseCons(t: string, from: nat, node: Node, end: nat)
    requires from < |t| && node == NodeAt(t, from) && end == NodeEnd(t, from)
    ensures ParseFrom(t, from) == [node] + ParseFrom(t, end)
  {
  }

  lemma PushOne(out: seq<Node>, t: string, from: nat, node: Node, end: nat)
    requires from < |t| && node == NodeAt(t, from) && end == NodeEnd(t, from)
    ensures out + ParseFrom(t, from) == (out + [node]) + ParseFrom(t, end)
  {
  }

  lemma TextThenMatch(t: string, from: nat)
    requires from < |t| && TextEnd(t, from) > from
    ensures NodeEnd(t, from) == TextEnd(t, from) && NodeAt(t, from) == Plain(t[from..TextEnd(t, from)])
  {
  }

  lemma MatchIsNext(t: string, at: nat)
    requires at < |t| && MatchAt(t, at).Some?
    ensures NodeEnd(t, at) == MatchAt(t, at).value && NodeAt(t, at) == Dispatch(t[at..MatchAt(t, at).value])
  {
  }

  /** The loop: `last` is where the previous token ended, and where the engine looks next. */
  method RenderInline(text: string) returns (out: seq<Node>)
    ensures out == Parse(text)
  {
    out := [];
    var last := 0;
    var at := TextEnd(text, last);
    while at < |text|
      invariant last <= at <= |text| && at == TextEnd(text, last)
      invariant out + ParseFrom(text, last) == Parse(text)
      decreases |text| - last
    {
      TextEnds(text, last);
      if at > last {
        TextThenMatch(text, last);
        PushOne(out, text, last, Plain(text[last..at]), at);
        out := out + [Plain(text[last..at])];
      }
      var end := MatchAt(text, at).value;
      MatchIsNext(text, at);
      PushOne(out, text, at, Dispatch(text[at..end]), end);
      out := out + [Dispatch(text[at..end])];
      last := end;
      at := TextEnd(text, last);
    }
    if last < |text| {
      TextThenMatch(text, last);
      assert text[last..at] == text[last..];
      PushOne(out, text, last, Plain(text[last..]), at);
      out := out + [Plain(text[last..])];
    }
  }

  lemma {:induction false} RunEndIsLocal(t: string, k: nat, from: nat, stop: char)
    requires k <= from <= |t|
    ensures RunEnd(t[k..], from - k, stop) == RunEnd(t, from, stop) - k
    decreases |t| - from
  {
    if from < |t| && t[from] != stop { RunEndIsLocal(t, k, from + 1, stop); }
  }

  lemma {:induction false} HrefEndIsLocal(t: string, k: nat, from: nat)
    requires k <= from <= |t|
    ensures HrefEnd(t[k..], from - k) == HrefEnd(t, from) - k
    decreases |t| - from
  {
    if from < |t| && !EndsHref(t[from]) { HrefEndIsLocal(t, k, from + 1); }
  }

  /** The same answer, read from a string that begins k characters later. */
  predicate SameFrom(here: Option<nat>, there: Option<nat>, k: nat) {
    here.Some? == there.Some? && (here.Some? ==> here.value + k == there.value)
  }

  lemma StrongIsLocal(t: string, k: nat, i: nat)
    requires k <= i <= |t|
    ensures SameFrom(StrongAt(t[k..], i - k), StrongAt(t, i), k)
  {
    if i + 2 <= |t| { RunEndIsLocal(t, k, i + 2, '*'); }
  }

  lemma MarkedIsLocal(t: string, k: nat, i: nat, mark: char)
    requires k <= i <= |t|
    ensures SameFrom(MarkedAt(t[k..], i - k, mark), MarkedAt(t, i, mark), k)
  {
    if i < |t| { RunEndIsLocal(t, k, i + 1, mark); }
  }

  lemma LinkIsLocal(t: string, k: nat, i: nat)
    requires k <= i <= |t|
    ensures SameFrom(LinkAt(t[k..], i - k), LinkAt(t, i), k)
  {
    if i < |t| {
      RunEndIsLocal(t, k, i + 1, ']');
      var e := RunEnd(t, i + 1, ']');
      if e + 2 <= |t| { HrefEndIsLocal(t, k, e + 2); }
    }
  }

  /** A match looks at nothing before it. */
  lemma MatchIsLocal(t: string, k: nat, i: nat)
    requires k <= i <= |t|
    ensures SameFrom(MatchAt(t[k..], i - k), MatchAt(t, i), k)
  {
    StrongIsLocal(t, k, i);
    MarkedIsLocal(t, k, i, '*');
    MarkedIsLocal(t, k, i, '`');
    LinkIsLocal(t, k, i);
  }

  lemma {:induction false} TextEndIsLocal(t: string, k: nat, from: nat)
    requires k <= from <= |t|
    ensures TextEnd(t[k..], from - k) + k == TextEnd(t, from)
    decreases |t| - from
  {
    MatchIsLocal(t, k, from);
    if from < |t| && MatchAt(t, from).None? { TextEndIsLocal(t, k, from + 1); }
  }

  lemma NodeEndIsLocal(t: string, k: nat, from: nat)
    requires k <= from < |t|
    ensures NodeEnd(t[k..], from - k) + k == NodeEnd(t, from)
  {
    MatchIsLocal(t, k, from);
    TextEndIsLocal(t, k, from + 1);
  }

  lemma SliceOfSlice(t: string, k: nat, a: nat, b: nat)
    requires k <= a <= b <= |t|
    ensures t[k..][a - k..b - k] == t[a..b]
  {
  }

  lemma NodeIsLocal(t: string, k: nat, from: nat)
    requires k <= from < |t|
    ensures NodeAt(t[k..], from - k) == NodeAt(t, from)
  {
    var s, end := t[k..], NodeEnd(t, from);
    MatchIsLocal(t, k, from);
    NodeEndIsLocal(t, k, from);
    SliceOfSlice(t, k, from, end);
    assert MatchAt(s, from - k).Some? == MatchAt(t, from).Some? && s[from - k..NodeEnd(s, from - k)] == t[from..end];
  }

  lemma ConsIsLocal(t: string, k: nat, from: nat, n: Node, end: nat)
    requires k <= from < |t| && n == NodeAt(t, from) && end == NodeEnd(t, from)
    ensures ParseFrom(t[k..], from - k) == [n] + ParseFrom(t[k..], end - k)
  {
    var s := t[k..];
    NodeIsLocal(t, k, from);
    NodeEndIsLocal(t, k, from);
    assert NodeAt(s, from - k) == n && NodeEnd(s, from - k) == end - k;
    ParseCons(s, from - k, n, end - k);
  }

  /** The rest of a text is parsed as if nothing stood before it. */
  lemma {:induction false} ParseIsLocal(t: string, k: nat, from: nat)
    requires k <= from <= |t|
    ensures ParseFrom(t[k..], from - k) == ParseFrom(t, from)
    decreases |t| - from
  {
    if from < |t| {
      var n, end := NodeAt(t, from), NodeEnd(t, from);
      ParseCons(t, from, n, end);
      ConsIsLocal(t, k, from, n, end);
      ParseIsLocal(t, k, end);
    }
  }

  // ---- A token and its node ---------------------------------------------------------

  predicate IsToken(token: string) {
    |token| > 2 && PrintNode(Dispatch(token)) == token && NodeOk(Dispatch(token)) && !Dispatch(token).Plain?
  }

  lemma SliceElements(t: string, i: nat, end: nat)
    requires i <= end <= |t|
    ensures forall k :: 0 <= k < end - i ==> t[i..end][k] == t[i + k]
  {
  }

  lemma StrongIsItsNode(t: string, i: nat, end: nat)
    requires i <= |t| && StrongAt(t, i) == Some(end)
    ensures IsToken(t[i..end])
  {
    var token := t[i..end];
    RunEnds(t, i + 2, '*');
    SliceElements(t, i, end);
    assert token == "**" + token[2..|token| - 2] + "**";
  }

  lemma EmIsItsNode(t: string, i: nat, end: nat)
    requires i <= |t| && MarkedAt(t, i, '*') == Some(end)
    ensures IsToken(t[i..end])
  {
    var token := t[i..end];
    RunEnds(t, i + 1, '*');
    SliceElements(t, i, end);
    assert token[1] != '*';
    assert token == "*" + token[1..|token| - 1] + "*";
  }

  lemma CodeIsItsNode(t: string, i: nat, end: nat)
    requires i <= |t| && MarkedAt(t, i, '`') == Some(end)
    ensures IsToken(t[i..end])
  {
    var token := t[i..end];
    RunEnds(t, i + 1, '`');
    SliceElements(t, i, end);
    assert forall k :: 1 <= k < |token| - 1 ==> token[k] != '`';
    assert token == "`" + token[1..|token| - 1] + "`";
  }

  /** A link token, cut at the bracket. */
  predicate IsLinkToken(token: string, e: nat) {
    && 1 < e && e + 3 < |token|
    && token[0] == '[' && token[e] == ']' && token[e + 1] == '(' && token[|token| - 1] == ')'
    && (forall k :: 1 <= k < e ==> token[k] != ']')
    && (forall k :: e + 2 <= k < |token| - 1 ==> !EndsHref(token[k]))
  }

  lemma LinkTokenIsToken(token: string, e: nat)
    requires IsLinkToken(token, e)
    ensures IsToken(token)
  {
    RunEndIs(token, 1, ']', e);
    var title, href := token[1..e], token[e + 2..|token| - 1];
    assert token == "[" + title + "](" + href + ")";
    assert HrefOk(href);
  }

  lemma LinkShape(t: string, i: nat, e: nat, h: nat)
    requires i < e < h < |t| && 1 < e - i && e + 2 < h && t[i] == '[' && t[e] == ']' && t[e + 1] == '(' && t[h] == ')'
    requires forall k :: i < k < e ==> t[k] != ']'
    requires forall k :: e + 2 <= k < h ==> !EndsHref(t[k])
    ensures IsLinkToken(t[i..h + 1], e - i)
  {
  }

  lemma LinkParts(t: string, i: nat, end: nat) returns (e: nat)
    requires i <= |t| && LinkAt(t, i) == Some(end)
    ensures i < e < end && IsLinkToken(t[i..end], e - i)
  {
    e := RunEnd(t, i + 1, ']');
    var h := HrefEnd(t, e + 2);
    RunEnds(t, i + 1, ']');
    HrefEnds(t, e + 2);
    LinkShape(t, i, e, h);
  }

  lemma LinkIsItsNode(t: string, i: nat, end: nat)
    requires i <= |t| && LinkAt(t, i) == Some(end)
    ensures IsToken(t[i..end])
  {
    var e := LinkParts(t, i, end);
    LinkTokenIsToken(t[i..end], e - i);
  }

  /** Any of the four alternatives, as a whole token: what the node prints is the token. */
  lemma TokenIsItsNode(t: string, i: nat, end: nat)
    requires i <= |t| && MatchAt(t, i) == Some(end)
    ensures IsToken(t[i..end])
  {
    if StrongAt(t, i).Some? {
      StrongIsItsNode(t, i, end);
    } else if MarkedAt(t, i, '*').Some? {
      EmIsItsNode(t, i, end);
    } else if MarkedAt(t, i, '`').Some? {
      CodeIsItsNode(t, i, end);
    } else {
      LinkIsItsNode(t, i, end);
    }
  }

  lemma {:induction false} RunEndIs(t: string, from: nat, stop: char, end: nat)
    requires from <= end < |t| && t[end] == stop && forall k :: from <= k < end ==> t[k] != stop
    ensures RunEnd(t, from, stop) == end
    decreases |t| - from
  {
    if from < end { RunEndIs(t, from + 1, stop, end); }
  }

  lemma {:induction false} HrefEndIs(t: string, from: nat, end: nat)
    requires from <= end < |t| && EndsHref(t[end]) && forall k :: from <= k < end ==> !EndsHref(t[k])
    ensures HrefEnd(t, from) == end
    decreases |t| - from
  {
    if from < end { HrefEndIs(t, from + 1, end); }
  }

  /** And a printed node, whatever follows it, is matched whole and dispatched back. */
  lemma NodeIsItsToken(n: Node, rest: string)
    requires NodeOk(n) && !n.Plain?
    ensures MatchAt(PrintNode(n) + rest, 0) == Some(|PrintNode(n)|)
    ensures |PrintNode(n)| > 2 && Dispatch(PrintNode(n)) == n
  {
    var p := PrintNode(n);
    var t := p + rest;
    match n
    case Strong(s) =>
      RunEndIs(t, 2, '*', |s| + 2);
      assert p[2..|p| - 2] == s;
    case Em(s) =>
      RunEndIs(t, 1, '*', |s| + 1);
      assert t[1] == s[0];
      assert p[1..|p| - 1] == s;
    case Code(s) =>
      RunEndIs(t, 1, '`', |s| + 1);
      assert p[1..|p| - 1] == s;
    case Link(s, href) => LinkIsItsToken(n, s, href, rest);
    case RawLink(s, href) => LinkIsItsToken(n, s, href, rest);
  }

  lemma LinkIsItsToken(n: Node, s: string, href: string, rest: string)
    requires NodeOk(n) && (n == Link(s, href) || n == RawLink(s, href))
    ensures MatchAt(PrintNode(n) + rest, 0) == Some(|PrintNode(n)|)
    ensures |PrintNode(n)| > 2 && Dispatch(PrintNode(n)) == n
  {
    LinkAtItsToken(PrintNode(n), s, href, rest);
    OnlyALinkOpens(PrintNode(n) + rest);
    LinkDispatches(n, s, href);
  }

  lemma OnlyALinkOpens(t: string)
    requires t != "" && t[0] == '['
    ensures MatchAt(t, 0) == LinkAt(t, 0)
  {
  }

  lemma LinkDispatches(n: Node, s: string, href: string)
    requires NodeOk(n) && (n == Link(s, href) || n == RawLink(s, href))
    ensures |PrintNode(n)| > 2 && Dispatch(PrintNode(n)) == n
  {
    var p := "[" + s + "](" + href + ")";
    assert p[..2][0] == '[' && "**"[0] == '*';
    assert forall k :: 0 <= k < |s| ==> p[1 + k] == s[k];
    RunEndIs(p, 1, ']', |s| + 1);
    assert p[1..|s| + 1] == s && p[|s| + 3..|p| - 1] == href;
  }

  lemma LinkAtItsToken(p: string, s: string, href: string, rest: string)
    requires s != "" && ']' !in s && HrefOk(href) && p == "[" + s + "](" + href + ")"
    ensures p + rest != "" && (p + rest)[0] == '[' && LinkAt(p + rest, 0) == Some(|p|)
  {
    var t := p + rest;
    assert forall k :: 0 <= k < |s| ==> t[1 + k] == s[k];
    assert t[|s| + 1] == ']' && t[|s| + 2] == '(' && t[|s| + 3 + |href|] == ')';
    RunEndIs(t, 1, ']', |s| + 1);
    assert forall k :: 0 <= k < |href| ==> t[|s| + 3 + k] == href[k];
    HrefEndIs(t, |s| + 3, |s| + 3 + |href|);
  }

  // ---- Parser and printer undo each other -------------------------------------------

  lemma PrintCons(n: Node, rest: seq<Node>)
    ensures Print([n] + rest) == PrintNode(n) + Print(rest)
  {
  }

  lemma Cut(t: string, from: nat, end: nat)
    requires from <= end <= |t|
    ensures t[from..] == t[from..end] + t[end..]
  {
  }

  lemma NodePrints(t: string, from: nat)
    requires from < |t|
    ensures PrintNode(NodeAt(t, from)) == t[from..NodeEnd(t, from)] && NodeOk(NodeAt(t, from))
    ensures NodeAt(t, from).Plain? <==> MatchAt(t, from).None?
  {
    if MatchAt(t, from).Some? {
      TokenIsItsNode(t, from, NodeEnd(t, from));
      assert IsToken(t[from..NodeEnd(t, from)]);
    }
  }

  lemma {:induction false} PrintUndoesParseFrom(t: string, from: nat)
    requires from <= |t|
    ensures Print(ParseFrom(t, from)) == t[from..]
    decreases |t| - from
  {
    if from < |t| {
      var n, end := NodeAt(t, from), NodeEnd(t, from);
      NodePrints(t, from);
      PrintUndoesParseFrom(t, end);
      PrintCons(n, ParseFrom(t, end));
      Cut(t, from, end);
    }
  }

  /** Every character comes back: nothing is dropped, doubled or rewritten. */
  lemma PrintUndoesParse(t: string)
    ensures Print(Parse(t)) == t
  {
    PrintUndoesParseFrom(t, 0);
  }

  lemma NoMatchIsLocal(t: string, from: nat, until: nat)
    requires from <= until <= |t| && NoMatchIn(t, from, until)
    ensures NoMatchIn(t[from..], 0, until - from)
  {
    forall i: nat | i < until - from ensures MatchAt(t[from..], i).None? { MatchIsLocal(t, from, from + i); }
  }

  lemma NormalCons(n: Node, rest: seq<Node>)
    requires NodeOk(n) && IsNormal(rest)
    requires n.Plain? ==> (rest != [] ==> !rest[0].Plain?) && NoMatchIn(n.text + Print(rest), 0, |n.text|)
    ensures IsNormal([n] + rest)
  {
  }

  lemma TextIsNormal(t: string, from: nat)
    requires from < |t| && MatchAt(t, from).None?
    ensures NoMatchIn(t[from..], 0, NodeEnd(t, from) - from)
    ensures NodeEnd(t, from) < |t| ==> MatchAt(t, NodeEnd(t, from)).Some?
  {
    TextEnds(t, from + 1);
    NoMatchIsLocal(t, from, NodeEnd(t, from));
  }

  lemma ParseHead(t: string, from: nat)
    requires from < |t|
    ensures ParseFrom(t, from) != [] && ParseFrom(t, from)[0] == NodeAt(t, from)
  {
  }

  lemma {:induction false} ParseFromIsNormal(t: string, from: nat)
    requires from <= |t|
    ensures IsNormal(ParseFrom(t, from))
    decreases |t| - from
  {
    if from < |t| {
      var n, end := NodeAt(t, from), NodeEnd(t, from);
      var rest := ParseFrom(t, end);
      NodePrints(t, from);
      ParseFromIsNormal(t, end);
      PrintUndoesParseFrom(t, end);
      Cut(t, from, end);
      if n.Plain? {
        TextIsNormal(t, from);
        if end < |t| {
          ParseHead(t, end);
          NodePrints(t, end);
        }
      }
      NormalCons(n, rest);
    }
  }

  /** What the scanner makes is normal: in particular no text holds a place where an
      alternative would match, and every link it lets through is http or https. */
  lemma ParseIsNormal(t: string)
    ensures IsNormal(Parse(t))
  {
    ParseFromIsNormal(t, 0);
  }

  lemma {:induction false} TextEndIs(t: string, from: nat, at: nat)
    requires from <= at <= |t| && NoMatchIn(t, from, at) && (at == |t| || MatchAt(t, at).Some?)
    ensures TextEnd(t, from) == at
    decreases |t| - from
  {
    if from < at { TextEndIs(t, from + 1, at); }
  }

  lemma ParseFirst(t: string, n: Node, end: nat)
    requires t != "" && NodeAt(t, 0) == n && NodeEnd(t, 0) == end
    ensures Parse(t) == [n] + Parse(t[end..])
  {
    ParseIsLocal(t, end, end);
  }

  lemma NodeFirst(n: Node, rest: string)
    requires NodeOk(n) && !n.Plain?
    ensures var t := PrintNode(n) + rest; t != "" && NodeAt(t, 0) == n && NodeEnd(t, 0) == |PrintNode(n)|
  {
    var t := PrintNode(n) + rest;
    NodeIsItsToken(n, rest);
    assert t[0..|PrintNode(n)|] == PrintNode(n);
  }

  /** Text with no match in it, in front of a match or at the end, is one node. */
  lemma TextFirst(s: string, rest: string)
    requires s != "" && NoMatchIn(s + rest, 0, |s|) && (rest == "" || MatchAt(rest, 0).Some?)
    ensures var t := s + rest; t != "" && NodeAt(t, 0) == Plain(s) && NodeEnd(t, 0) == |s|
  {
    var t := s + rest;
    assert t[|s|..] == rest && t[0..|s|] == s;
    MatchIsLocal(t, |s|, |s|);
    TextEndIs(t, 1, |s|);
    assert MatchAt(t, 0).None?;
  }

  lemma PrintedFirst(n: Node, rest: seq<Node>)
    requires NodeOk(n) && IsNormal(rest)
    requires n.Plain? ==> (rest != [] ==> !rest[0].Plain?) && NoMatchIn(n.text + Print(rest), 0, |n.text|)
    ensures var t := PrintNode(n) + Print(rest); t != "" && NodeAt(t, 0) == n && NodeEnd(t, 0) == |PrintNode(n)|
  {
    if !n.Plain? {
      NodeFirst(n, Print(rest));
    } else {
      if rest != [] { NodeIsItsToken(rest[0], Print(rest[1..])); }
      TextFirst(n.text, Print(rest));
    }
  }

  lemma ParsePrinted(n: Node, rest: seq<Node>)
    requires NodeOk(n) && IsNormal(rest) && Parse(Print(rest)) == rest
    requires n.Plain? ==> (rest != [] ==> !rest[0].Plain?) && NoMatchIn(n.text + Print(rest), 0, |n.text|)
    ensures Parse(PrintNode(n) + Print(rest)) == [n] + rest
  {
    var t := PrintNode(n) + Print(rest);
    PrintedFirst(n, rest);
    assert t[|PrintNode(n)|..] == Print(rest);
    ParseFirst(t, n, |PrintNode(n)|);
  }

  /** A normal list of nodes is what its own print parses to. */
  lemma {:induction false} ParseUndoesPrint(nodes: seq<Node>)
    requires IsNormal(nodes)
    ensures Parse(Print(nodes)) == nodes
  {
    if nodes != [] {
      ParseUndoesPrint(nodes[1..]);
      ParsePrinted(nodes[0], nodes[1..]);
      assert nodes == [nodes[0]] + nodes[1..];
    }
  }

  /** So a list of nodes survives printing and parsing exactly when it is normal, and two
      normal lists that print alike are the same. */
  lemma RoundTripIffNormal(nodes: seq<Node>, other: seq<Node>)
    ensures Parse(Print(nodes)) == nodes <==> IsNormal(nodes)
    ensures IsNormal(nodes) && IsNormal(other) && Print(nodes) == Print(other) ==> nodes == other
  {
    ParseIsNormal(Print(nodes));
    if IsNormal(nodes) { ParseUndoesPrint(nodes); }
    if IsNormal(other) { ParseUndoesPrint(other); }
  }

  /** Whatever is typed, a link that comes out goes to http or https. */
  lemma {:induction false} LinksAreSafe(nodes: seq<Node>, k: nat)
    requires IsNormal(nodes) && k < |nodes| && nodes[k].Link?
    ensures IsSafeHref(nodes[k].href)
  {
    if k > 0 { LinksAreSafe(nodes[1..], k - 1); }
  }
}
