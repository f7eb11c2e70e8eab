/** The inline pattern of src/lib/markdown/render.tsx as four languages of tokens, and the links
    it lets through, on characters alone. */
module InlineGrammar {
  import opened Text
  import opened Markdown

  /** One or more characters other than the mark, between two marks. */
  predicate IsMarked(token: string, mark: char) {
    |token| >= 3 && token[0] == mark && token[|token| - 1] == mark &&
    forall k :: 1 <= k < |token| - 1 ==> token[k] != mark
  }

  predicate IsBold(token: string) {
    |token| >= 5 && token[0] == '*' && token[1] == '*' && token[|token| - 2] == '*' && token[|token| - 1] == '*' &&
    forall k :: 2 <= k < |token| - 2 ==> token[k] != '*'
  }

  ghost predicate IsAnchor(token: string) {
    exists title, href :: IsTitle(title) && IsHref(href) && token == "[" + title + "](" + href + ")"
  }

  predicate IsTitle(s: string) { s != "" && ']' !in s }

  predicate IsHref(s: string) {
    s != "" && ')' !in s && forall k :: 0 <= k < |s| ==> !IsSpace(s[k])
  }

  lemma RunEndIs(t: string, from: nat, stop: char, end: nat)
    requires from <= end <= |t| && (forall k :: from <= k < end ==> t[k] != stop) && (end < |t| ==> t[end] == stop)
    ensures RunEnd(t, from, stop) == end
  {
    RunEnds(t, from, stop);
  }

  lemma {:induction false} HrefEndIs(t: string, from: nat, end: nat)
    requires from <= end < |t| && (forall k :: from <= k < end ==> !EndsHref(t[k])) && t[end] == ')'
    ensures HrefEnd(t, from) == end
    decreases end - from
  {
    if from < end { HrefEndIs(t, from + 1, end); }
  }

  lemma MarkedIff(t: string, i: nat, mark: char, e: nat)
    requires i <= e <= |t|
    ensures MarkedAt(t, i, mark) == Some(e) <==> IsMarked(t[i..e], mark)
  {
    if i < |t| && t[i] == mark { RunEnds(t, i + 1, mark); }
    if IsMarked(t[i..e], mark) {
      forall k | i + 1 <= k < e - 1 ensures t[k] != mark { assert t[k] == t[i..e][k - i]; }
      RunEndIs(t, i + 1, mark, e - 1);
    }
  }

  lemma BoldIsThere(t: string, i: nat, e: nat)
    requires i <= e <= |t| && StrongAt(t, i) == Some(e)
    ensures IsBold(t[i..e])
  {
    RunEnds(t, i + 2, '*');
  }

  lemma BoldIsRead(t: string, i: nat, e: nat)
    requires i <= e <= |t| && IsBold(t[i..e])
    ensures StrongAt(t, i) == Some(e)
  {
    forall k | i + 2 <= k < e - 2 ensures t[k] != '*' { assert t[k] == t[i..e][k - i]; }
    RunEndIs(t, i + 2, '*', e - 2);
  }

  lemma BoldIff(t: string, i: nat, e: nat)
    requires i <= e <= |t|
    ensures StrongAt(t, i) == Some(e) <==> IsBold(t[i..e])
  {
    if StrongAt(t, i) == Some(e) { BoldIsThere(t, i, e); }
    if IsBold(t[i..e]) { BoldIsRead(t, i, e); }
  }

  lemma AnchorIsRead(t: string, i: nat, e: nat, title: string, href: string)
    requires i <= e <= |t| && IsTitle(title) && IsHref(href) && t[i..e] == "[" + title + "](" + href + ")"
    ensures LinkAt(t, i) == Some(e)
  {
    var token := t[i..e];
    var close := i + 1 + |title|;
    assert t[i] == token[0] && t[close] == token[1 + |title|] == ']' && t[close + 1] == token[2 + |title|] == '(';
    forall k | i + 1 <= k < close ensures t[k] != ']' { assert t[k] == token[k - i] == title[k - i - 1]; }
    RunEndIs(t, i + 1, ']', close);
    forall k | close + 2 <= k < e - 1 ensures !EndsHref(t[k]) {
      assert t[k] == token[k - i] == href[k - close - 2];
    }
    assert t[e - 1] == token[|token| - 1] == ')';
    HrefEndIs(t, close + 2, e - 1);
  }

  lemma AnchorIff(t: string, i: nat, e: nat)
    requires i <= e <= |t|
    ensures LinkAt(t, i) == Some(e) <==> IsAnchor(t[i..e])
  {
    if LinkAt(t, i) == Some(e) {
      var close := RunEnd(t, i + 1, ']');
      RunEnds(t, i + 1, ']');
      HrefEnds(t, close + 2);
      var title, href := t[i + 1..close], t[close + 2..e - 1];
      assert IsTitle(title) && IsHref(href);
      assert t[i..e] == "[" + title + "](" + href + ")";
    }
    if IsAnchor(t[i..e]) {
      var title, href :| IsTitle(title) && IsHref(href) && t[i..e] == "[" + title + "](" + href + ")";
      AnchorIsRead(t, i, e, title, href);
    }
  }

  /** The scanner sees a token from i to e exactly when what stands there is bold, italic, code
      or an anchor. So at most one token begins at any place, and the order in which the pattern
      lists its alternatives decides nothing. */
  lemma MatchesExactly(t: string, i: nat, e: nat)
    requires i <= e <= |t|
    ensures var token := t[i..e];
            MatchAt(t, i) == Some(e) <==>
              IsBold(token) || IsMarked(token, '*') || IsMarked(token, '`') || IsAnchor(token)
  {
    BoldIff(t, i, e);
    MarkedIff(t, i, '*', e);
    MarkedIff(t, i, '`', e);
    AnchorIff(t, i, e);
    OneAlternative(t, i);
  }

  lemma OneAlternative(t: string, i: nat)
    requires i <= |t|
    ensures StrongAt(t, i).Some? ==> MarkedAt(t, i, '*').None? && MarkedAt(t, i, '`').None? && LinkAt(t, i).None?
    ensures MarkedAt(t, i, '*').Some? ==> MarkedAt(t, i, '`').None? && LinkAt(t, i).None?
    ensures MarkedAt(t, i, '`').Some? ==> LinkAt(t, i).None?
  {
  }

  // ---- Links ------------------------------------------------------------------------

  lemma SchemeIff(href: string, scheme: string)
    ensures HasScheme(href, scheme) <==> StartsWith(Lower(href), scheme)
  {
    if |scheme| <= |href| {
      forall k | 0 <= k < |scheme| ensures Lower(href)[..|scheme|][k] == LowerChar(href[k]) {}
      if HasScheme(href, scheme) { assert Lower(href)[..|scheme|] == scheme; }
    }
  }

  lemma OneNode(node: Node)
    requires NodeOk(node) && !node.Plain?
    ensures Parse(PrintNode(node)) == [node]
  {
    PrintsAlone(node);
    assert [node][1..] == [];
    assert IsNormal([]);
    assert IsNormal([node]);
    ParseUndoesPrint([node]);
  }

  lemma PrintsAlone(node: Node)
    ensures Print([node]) == PrintNode(node)
  {
    assert [node][1..] == [];
    assert Print([]) == "";
  }

  lemma AnchorsAreNodes(title: string, href: string)
    requires IsTitle(title) && IsHref(href)
    ensures IsSafeHref(href) ==> NodeOk(Link(title, href))
    ensures !IsSafeHref(href) ==> NodeOk(RawLink(title, href))
  {
  }

  /** A link is let through if and only if its address, in lower case, begins with `http://` or
      `https://`; any other comes out as the text it was. */
  lemma LinkIsLetThroughIff(title: string, href: string)
    requires IsTitle(title) && IsHref(href)
    ensures var web := StartsWith(Lower(href), "http://") || StartsWith(Lower(href), "https://");
            Parse("[" + title + "](" + href + ")") == [if web then Link(title, href) else RawLink(title, href)]
  {
    SafeIff(href);
    AnchorsAreNodes(title, href);
    OneNode(if IsSafeHref(href) then Link(title, href) else RawLink(title, href));
  }

  lemma SafeIff(href: string)
    ensures IsSafeHref(href) <==> StartsWith(Lower(href), "http://") || StartsWith(Lower(href), "https://")
  {
    SchemeIff(href, "http://");
    SchemeIff(href, "https://");
  }
}
