/** The host functions of src/lib/tenancy/host.ts by what they accept and answer, character by
    character: every spelling of a name, every classification, every claim. */
module HostShapes {
  import opened Text
  import opened Host

  /** Trimming takes the white space off both ends and nothing else. */
  lemma TrimExactly(s: string)
    ensures exists i, j :: 0 <= i <= j <= |s| && Trim(s) == s[i..j] && AllSpace(s[..i]) && AllSpace(s[j..]) &&
                           (i < j ==> !IsSpace(s[i]) && !IsSpace(s[j - 1]))
  {
    var i := TrimsFront(s);
    var t := s[i..];
    var k := TrimsBack(t);
    assert t[..k] == s[i..i + k] && t[k..] == s[i + k..];
  }

  predicate AllSpace(s: string) {
    forall i :: 0 <= i < |s| ==> IsSpace(s[i])
  }

  lemma {:induction false} TrimsFront(s: string) returns (i: nat)
    ensures i <= |s| && TrimStart(s) == s[i..] && AllSpace(s[..i]) && (i < |s| ==> !IsSpace(s[i]))
  {
    i := 0;
    if s != "" && IsSpace(s[0]) {
      var k := TrimsFront(s[1..]);
      i := k + 1;
      assert s[..i] == [s[0]] + s[1..][..k] && s[i..] == s[1..][k..];
    }
  }

  lemma {:induction false} TrimsBack(s: string) returns (j: nat)
    ensures j <= |s| && TrimEnd(s) == s[..j] && AllSpace(s[j..]) && (0 < j ==> !IsSpace(s[j - 1]))
    decreases |s|
  {
    j := |s|;
    if s != "" && IsSpace(s[|s| - 1]) {
      var t := s[..|s| - 1];
      j := TrimsBack(t);
      assert s[..j] == t[..j] && s[j..] == t[j..] + [s[|s| - 1]];
    } else {
      assert s[..j] == s;
    }
  }

  // ---- Spellings --------------------------------------------------------------------

  /** A cleaned header that names h: with a trailing dot or without, with a port or without. */
  predicate IsSpelling(s: string, h: string) {
    |h| <= |s| && s[..|h|] == h &&
    var rest := s[|h|..];
    rest == "" || rest == "." || rest[0] == ':' || (|rest| >= 2 && rest[0] == '.' && rest[1] == ':')
  }

  lemma FirstColon(s: string, i: int)
    requires 0 <= i < |s| && s[i] == ':' && forall j :: 0 <= j < i ==> s[j] != ':'
    ensures IndexOf(s, ':') == i && StripPort(s) == s[..i]
  {
  }

  lemma SpellingIsStripped(s: string, h: string)
    requires IsPlausible(h) && !EndsInDot(h) && IsSpelling(s, h)
    ensures StripDot(StripPort(s)) == h && !StartsWith(s, "[") && s != ""
  {
    PlausibleIsClean(h);
    var rest := s[|h|..];
    assert s == h + rest;
    assert forall j :: 0 <= j < |h| ==> s[j] == h[j] && h[j] != ':';
    if rest == "" || rest == "." {
      assert ':' !in s;
      assert StripPort(s) == s;
      if rest == "." { assert s[..|s| - 1] == h; }
    } else if rest[0] == ':' {
      FirstColon(s, |h|);
    } else {
      assert s[|h|] == '.' && s[|h| + 1] == ':';
      FirstColon(s, |h| + 1);
      assert s[..|h| + 1][..|h|] == h;
    }
  }

  lemma StrippedIsSpelling(s: string)
    requires var h := StripDot(StripPort(s)); IsPlausible(h) && !EndsInDot(h)
    ensures IsSpelling(s, StripDot(StripPort(s)))
  {
    var p := StripPort(s);
    var h := StripDot(p);
    assert s[..|p|] == p && p[..|h|] == h;
    assert s[..|h|] == h;
    if |p| < |s| { assert s[|p|] == ':'; }
  }

  lemma NotInBrackets(raw: string, h: string)
    requires NormalizeHost(Some(raw)) == Some(h) && !StartsWith(h, "[")
    ensures !StartsWith(Lower(Trim(raw)), "[")
  {
  }

  /** A header is answered with a name exactly when, cleaned of case and white space, it is one
      of that name's spellings. */
  lemma NormalizesIff(raw: string, h: string)
    requires IsPlausible(h) && !EndsInDot(h)
    ensures NormalizeHost(Some(raw)) == Some(h) <==> IsSpelling(Lower(Trim(raw)), h)
  {
    var s := Lower(Trim(raw));
    PlausibleIsClean(h);
    if IsSpelling(s, h) {
      SpellingIsStripped(s, h);
      assert raw != "";
    }
    if NormalizeHost(Some(raw)) == Some(h) {
      NotInBrackets(raw, h);
      StrippedIsSpelling(s);
    }
  }

  lemma CleanEnds(s: string)
    requires s != "" && !IsSpace(s[0]) && !IsSpace(s[|s| - 1])
    ensures Trim(s) == s
  {
  }

  /** A port is dropped, whatever it says. */
  lemma PortIsDropped(h: string, port: string)
    requires IsPlausible(h) && !EndsInDot(h) && (port != "" ==> !IsSpace(port[|port| - 1]))
    ensures NormalizeHost(Some(h + ":" + port)) == Some(h)
  {
    PlausibleIsClean(h);
    var raw := h + ":" + port;
    assert raw[0] == h[0] && IsHostChar(h[0]);
    CleanEnds(raw);
    var s := Lower(raw);
    assert forall j :: 0 <= j < |h| ==> s[j] == LowerChar(h[j]) == Lower(h)[j] == h[j];
    assert s[..|h|] == h && s[|h|..][0] == ':';
    NormalizesIff(raw, h);
  }

  /** ... outside the brackets of an address, which stays whole. */
  lemma BracketsKeepTheirColons(h: string, rest: string)
    requires IsBracketLiteral(h) && (rest != "" ==> !IsSpace(rest[|rest| - 1]))
    ensures NormalizeHost(Some(h + rest)) == Some(h)
  {
    BracketIsClean(h);
    CleanEnds(h + rest);
    var s := Lower(h + rest);
    assert forall j :: 0 <= j < |h| ==> s[j] == LowerChar(h[j]) == Lower(h)[j] == h[j];
    ClosesAt(s, h);
    assert Trim(h + rest) == h + rest;
  }

  lemma ClosesAt(s: string, h: string)
    requires IsBracketLiteral(h) && |h| <= |s| && forall j :: 0 <= j < |h| ==> s[j] == h[j]
    ensures StartsWith(s, "[") && IndexOf(s, ']') == |h| - 1 && s[..|h|] == h
  {
    assert s[..1] == "[";
    assert forall j :: 1 <= j < |h| - 1 ==> IsLiteralChar(h[j]);
  }

  // ---- Classification ---------------------------------------------------------------

  lemma SuffixSplits(host: string, apex: string)
    requires EndsWith(host, "." + apex)
    ensures host == host[..|host| - (|apex| + 1)] + "." + apex
  {
    assert host == host[..|host| - (|apex| + 1)] + host[|host| - (|apex| + 1)..];
  }

  lemma PrefixOfSlugHost(name: string, apex: string)
    ensures var host := name + "." + apex;
            EndsWith(host, "." + apex) && host[..|host| - (|apex| + 1)] == name && host != apex &&
            (host == "www." + apex <==> name == "www")
  {
    var host := name + "." + apex;
    assert host[|host| - (|apex| + 1)..] == "." + apex;
    assert "www." + apex == "www" + "." + apex;
    if host == "www." + apex { assert host[..3] == "www" && |name| == 3; }
  }

  /** The apex and its `www` are the apex; one label before it is that label's institute; all
      the rest, deeper names included, is somebody else's. */
  lemma ClassifiesExactly(host: string, apexDomain: string, name: string)
    ensures var apex := Lower(Trim(apexDomain));
            && (ClassifyHost(host, apexDomain) == Apex <==> host == apex || host == "www." + apex)
            && (ClassifyHost(host, apexDomain) == Subdomain(name) <==>
                  host == name + "." + apex && name != "" && '.' !in name && name != "www")
            && (ClassifyHost(host, apexDomain).Foreign? ==> ClassifyHost(host, apexDomain) == Foreign(host))
  {
    var apex := Lower(Trim(apexDomain));
    PrefixOfSlugHost(name, apex);
    if EndsWith(host, "." + apex) {
      SuffixSplits(host, apex);
      PrefixOfSlugHost(host[..|host| - (|apex| + 1)], apex);
    }
  }

  // ---- Claims -----------------------------------------------------------------------

  function JoinDots(labels: seq<string>): string
    requires labels != []
  {
    if |labels| == 1 then labels[0] else JoinDots(labels[..|labels| - 1]) + "." + labels[|labels| - 1]
  }

  predicate Dotless(labels: seq<string>) {
    labels != [] && forall i :: 0 <= i < |labels| ==> '.' !in labels[i]
  }

  lemma JoinOneMore(front: seq<string>, last: string)
    requires front != []
    ensures JoinDots(front + [last]) == JoinDots(front) + "." + last
  {
    assert (front + [last])[..|front|] == front;
  }

  /** Splitting at the last dot. */
  lemma SplitOneMore(front: string, last: string)
    requires '.' !in last
    ensures SplitDots(front + "." + last) == SplitDots(front) + [last]
  {
    var s := front + "." + last;
    assert s[|front|] == '.' && s[..|front|] == front && s[|front| + 1..] == last;
    assert LastIndexOf(s, '.') == |front| by {
      assert forall j :: |front| < j < |s| ==> s[j] == last[j - |front| - 1];
    }
  }

  lemma DotlessOneMore(front: seq<string>, last: string)
    requires Dotless(front) && '.' !in last
    ensures Dotless(front + [last])
  {
  }

  lemma CutAt(s: string, dot: nat)
    requires dot < |s| && s[dot] == '.'
    ensures s == s[..dot] + "." + s[dot + 1..]
  {
  }

  /** Splitting and joining at dots undo each other. */
  lemma {:induction false} JoinUndoesSplit(s: string)
    ensures Dotless(SplitDots(s)) && JoinDots(SplitDots(s)) == s
    decreases |s|
  {
    var dot := LastIndexOf(s, '.');
    if dot == -1 {
      assert SplitDots(s) == [s];
    } else {
      var front, last := s[..dot], s[dot + 1..];
      var parts := SplitDots(front);
      JoinUndoesSplit(front);
      assert SplitDots(s) == parts + [last];
      assert '.' !in last;
      DotlessOneMore(parts, last);
      JoinOneMore(parts, last);
      CutAt(s, dot);
    }
  }

  lemma {:induction false} SplitUndoesJoin(labels: seq<string>)
    requires Dotless(labels)
    ensures SplitDots(JoinDots(labels)) == labels
    decreases |labels|
  {
    if |labels| > 1 {
      var front, last := labels[..|labels| - 1], labels[|labels| - 1];
      assert labels == front + [last];
      SplitUndoesJoin(front);
      JoinOneMore(front, last);
      SplitOneMore(JoinDots(front), last);
    } else {
      assert LastIndexOf(labels[0], '.') == -1;
    }
  }

  /** A label of RFC 1123, section 2.1: one to sixty-three letters, digits and inner hyphens. */
  predicate IsLabel(s: string) {
    1 <= |s| <= 63 && s[0] != '-' && s[|s| - 1] != '-' &&
    forall i :: 0 <= i < |s| ==> 'a' <= s[i] <= 'z' || '0' <= s[i] <= '9' || s[i] == '-'
  }

  lemma SlugsAreLabels(s: string)
    ensures IsValidSlug(s) <==> IsLabel(s)
  {
  }

  /** Two labels or more, the last of them not a number. */
  predicate IsDnsName(labels: seq<string>) {
    |labels| >= 2 && (forall i :: 0 <= i < |labels| ==> IsLabel(labels[i])) &&
    var last := labels[|labels| - 1];
    exists i :: 0 <= i < |last| && !('0' <= last[i] <= '9')
  }

  lemma DnsNamesAreDotless(labels: seq<string>)
    requires IsDnsName(labels)
    ensures Dotless(labels)
  {
    forall i | 0 <= i < |labels| ensures '.' !in labels[i] {
      assert IsLabel(labels[i]);
    }
  }

  lemma DnsLabels(labels: seq<string>)
    ensures IsDnsName(labels) <==> AreLabels(labels)
  {
    forall s ensures IsValidSlug(s) <==> IsLabel(s) { SlugsAreLabels(s); }
    if |labels| >= 2 {
      var last := labels[|labels| - 1];
      assert forall i :: 0 <= i < |last| ==> (IsDigit(last[i]) <==> '0' <= last[i] <= '9');
      if IsDnsName(labels) {
        var i :| 0 <= i < |last| && !('0' <= last[i] <= '9');
        assert !IsDigit(last[i]);
      }
      if AreLabels(labels) { assert IsValidSlug(last); }
    }
  }

  /** Text that may be attached as a domain's name, as far as its form goes. */
  ghost predicate IsDomainText(h: string) {
    |h| <= 253 && exists labels :: IsDnsName(labels) && h == JoinDots(labels)
  }

  lemma DottedIff(h: string)
    ensures IsDottedName(h) <==> IsDomainText(h)
  {
    JoinUndoesSplit(h);
    DnsLabels(SplitDots(h));
    if IsDomainText(h) {
      var labels :| IsDnsName(labels) && h == JoinDots(labels);
      DnsLabels(labels);
      DnsNamesAreDotless(labels);
      SplitUndoesJoin(labels);
    }
  }

  /** A claim is accepted exactly for a DNS name, written without a colon, that is neither the
      platform's apex nor under it; refused as the platform's exactly for one that is. */
  lemma ClaimsExactly(candidate: string, apexDomain: string, h: string)
    ensures var apex := Lower(Trim(apexDomain));
            var ours := h == apex || EndsWith(h, "." + apex);
            var named := ':' !in candidate && NormalizeHost(Some(candidate)) == Some(h) && IsDomainText(h);
            && (ClaimableHostname(candidate, apexDomain) == Claimed(h) <==> named && !ours)
            && (NormalizeHost(Some(candidate)) == Some(h) ==>
                  (ClaimableHostname(candidate, apexDomain) == Refused(Platform) <==> named && ours))
            && (NormalizeHost(Some(candidate)).None? ==>
                  ClaimableHostname(candidate, apexDomain) == Refused(Malformed))
  {
    DottedIff(h);
  }
}
