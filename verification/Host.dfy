/** Host header parsing: src/lib/tenancy/host.ts. */
module Host {
  import opened Text

  datatype HostClassification = Apex | Subdomain(slug: string) | Foreign(host: string)

  datatype ClaimRefusal = Malformed | Platform
  datatype HostnameClaim = Claimed(hostname: string) | Refused(reason: ClaimRefusal)

  predicate IsDigit(c: char) { '0' <= c <= '9' }
  predicate IsLabelEdge(c: char) { 'a' <= c <= 'z' || IsDigit(c) }
  predicate IsHostChar(c: char) { IsLabelEdge(c) || c == '.' || c == '-' }
  predicate IsLiteralChar(c: char) { IsDigit(c) || 'a' <= c <= 'f' || c == ':' }

  /** A bracketed IPv6 literal in its one accepted spelling. */
  predicate IsBracketLiteral(s: string) {
    |s| >= 3 && s[0] == '[' && s[|s| - 1] == ']' &&
    forall i :: 1 <= i < |s| - 1 ==> IsLiteralChar(s[i])
  }

  function StripPort(host: string): string {
    var colon := IndexOf(host, ':');
    if colon == -1 then host else host[..colon]
  }

  function StripDot(host: string): string {
    if EndsInDot(host) then host[..|host| - 1] else host
  }

  /** Cleaned of space, case and port: what is left before the trailing dot is considered. */
  function HostPart(raw: string): string {
    StripPort(Lower(Trim(raw)))
  }

  predicate IsPlausible(h: string) {
    h != "" && (forall i :: 0 <= i < |h| ==> IsHostChar(h[i])) && !HasDotDot(h)
  }

  function NormalizeHost(raw: Option<string>): Option<string> {
    if raw.None? || raw.value == "" then None
    else
      var host := Lower(Trim(raw.value));
      if StartsWith(host, "[") then
        var close := IndexOf(host, ']');
        if close == -1 then None
        else if IsBracketLiteral(host[..close + 1]) then Some(host[..close + 1])
        else None
      else
        var h := StripDot(StripPort(host));
        if IsPlausible(h) then Some(h) else None
  }

  function ClassifyHost(host: string, apexDomain: string): HostClassification {
    var apex := Lower(Trim(apexDomain));
    if host == apex || host == "www." + apex then Apex
    else if EndsWith(host, "." + apex) then
      var name := host[..|host| - (|apex| + 1)];
      if |name| > 0 && '.' !in name then Subdomain(name) else Foreign(host)
    else Foreign(host)
  }

  predicate IsValidSlug(slug: string) {
    1 <= |slug| <= 63 && IsLabelEdge(slug[0]) && IsLabelEdge(slug[|slug| - 1]) &&
    forall i :: 0 <= i < |slug| ==> IsLabelEdge(slug[i]) || slug[i] == '-'
  }

  /** `split('.')`, taken from the right. */
  function SplitDots(s: string): (labels: seq<string>)
    ensures |labels| >= 1
    ensures labels[|labels| - 1] == s[LastIndexOf(s, '.') + 1..]
  {
    var dot := LastIndexOf(s, '.');
    if dot == -1 then [s] else SplitDots(s[..dot]) + [s[dot + 1..]]
  }

  predicate AllDigits(s: string) {
    s != "" && forall i :: 0 <= i < |s| ==> IsDigit(s[i])
  }

  /** At least two ordinary DNS labels, the last of them not a number. */
  predicate AreLabels(labels: seq<string>) {
    |labels| >= 2 && (forall i :: 0 <= i < |labels| ==> IsValidSlug(labels[i])) && !AllDigits(labels[|labels| - 1])
  }

  predicate IsDottedName(hostname: string) {
    AreLabels(SplitDots(hostname)) && |hostname| <= 253
  }

  predicate UnderApex(hostname: string, apex: string) {
    hostname == apex || EndsWith(hostname, "." + apex)
  }

  function ClaimableHostname(candidate: string, apexDomain: string): HostnameClaim {
    if ':' in candidate then Refused(Malformed)
    else
      var normalized := NormalizeHost(Some(candidate));
      if normalized.None? then Refused(Malformed)
      else
        var hostname := normalized.value;
        if !IsDottedName(hostname) then Refused(Malformed)
        else if UnderApex(hostname, Lower(Trim(apexDomain))) then Refused(Platform)
        else Claimed(hostname)
  }

  // ---- The normal form of a host --------------------------------------------------

  lemma PlausibleIsClean(h: string)
    requires IsPlausible(h)
    ensures Trim(h) == h && Lower(h) == h && ':' !in h && !StartsWith(h, "[")
  {
  }

  lemma BracketIsClean(h: string)
    requires IsBracketLiteral(h)
    ensures NormalizeHost(Some(h)) == Some(h) && !EndsInDot(h) && Lower(h) == h
  {
    assert forall i :: 0 <= i < |h| ==> LowerChar(h[i]) == h[i];
    TrimLowerFixed(h);
    assert h[|h| - 1] in h;
    var close := IndexOf(h, ']');
    assert h[close] == ']';
    assert close == |h| - 1;
    assert h[..close + 1] == h;
  }

  /** Every answer is a bracketed literal or a plausible name. */
  lemma NormalizedShape(raw: Option<string>)
    requires NormalizeHost(raw).Some?
    ensures var h := NormalizeHost(raw).value;
            (IsBracketLiteral(h) || IsPlausible(h)) && Lower(h) == h
  {
  }

  lemma WithoutItsDot(h: string)
    requires IsPlausible(h) && EndsInDot(h) && |h| > 1
    ensures var shorter := h[..|h| - 1]; IsPlausible(shorter) && !EndsInDot(shorter)
  {
    var shorter := h[..|h| - 1];
    forall i | 0 <= i < |shorter| - 1
      ensures !(shorter[i] == '.' && shorter[i + 1] == '.')
    {
      assert !(h[i] == '.' && h[i + 1] == '.');
    }
    assert h[|h| - 2 + 1] == '.';
  }

  lemma PlausibleAgain(h: string)
    requires IsPlausible(h)
    ensures !EndsInDot(h) ==> NormalizeHost(Some(h)) == Some(h)
    ensures EndsInDot(h) ==>
              NormalizeHost(Some(h)) == if |h| == 1 then None else Some(h[..|h| - 1])
  {
    PlausibleIsClean(h);
    if EndsInDot(h) && |h| > 1 {
      WithoutItsDot(h);
    }
  }

  /** A normalised host is a fixed point exactly when it does not end in a dot. */
  lemma FixedPointIff(raw: Option<string>)
    requires NormalizeHost(raw).Some?
    ensures NormalizeHost(NormalizeHost(raw)) == NormalizeHost(raw)
            <==> !EndsInDot(NormalizeHost(raw).value)
  {
    var h := NormalizeHost(raw).value;
    if IsBracketLiteral(h) { BracketIsClean(h); } else { PlausibleAgain(h); }
  }

  lemma EndsInTwoDots(s: string)
    ensures EndsWith(s, "..") <==> EndsInDot(s) && EndsInDot(StripDot(s))
  {
    if |s| >= 2 {
      assert s[|s| - 2..] == [s[|s| - 2], s[|s| - 1]];
    }
  }

  lemma StripPortKeepsBracket(s: string)
    ensures StartsWith(StripPort(s), "[") <==> StartsWith(s, "[")
  {
  }

  /** ... and it ends in a dot exactly when the raw host part ended in two. */
  lemma EndsInDotIff(raw: Option<string>)
    requires NormalizeHost(raw).Some?
    ensures EndsInDot(NormalizeHost(raw).value)
            <==> !StartsWith(HostPart(raw.value), "[") && EndsWith(HostPart(raw.value), "..")
  {
    var part := HostPart(raw.value);
    var h := NormalizeHost(raw).value;
    StripPortKeepsBracket(Lower(Trim(raw.value)));
    EndsInTwoDots(part);
    if StartsWith(part, "[") {
      BracketIsClean(h);
    } else {
      assert h == StripDot(part) && !HasDotDot(h);
    }
  }

  /** Two applications always suffice: the result is null or a fixed point. */
  lemma SecondApplicationSettles(raw: Option<string>)
    ensures var twice := NormalizeHost(NormalizeHost(raw)); NormalizeHost(twice) == twice
  {
    var once := NormalizeHost(raw);
    if once.Some? {
      NormalizedShape(raw);
      OneMoreSettles(once.value);
    }
  }

  lemma OneMoreSettles(h: string)
    requires IsBracketLiteral(h) || IsPlausible(h)
    ensures var next := NormalizeHost(Some(h)); NormalizeHost(next) == next
  {
    if IsBracketLiteral(h) {
      BracketIsClean(h);
    } else {
      PlausibleAgain(h);
      if EndsInDot(h) && |h| > 1 {
        WithoutItsDot(h);
        PlausibleAgain(h[..|h| - 1]);
      }
    }
  }

  /** Idempotence as such is false: a name written with two trailing dots. */
  lemma NormalizeIsNotIdempotent()
    ensures NormalizeHost(Some("a..")) == Some("a.") && NormalizeHost(Some("a.")) == Some("a")
    ensures NormalizeHost(Some("..")) == Some(".") && NormalizeHost(Some(".")) == None
  {
    assert "a.."[..2] == "a." && "a."[..1] == "a" && ".."[..1] == ".";
    TwoDotsLoseOne("a..");
    PlausibleAgain("a.");
    TwoDotsLoseOne("..");
    PlausibleAgain(".");
  }

  lemma TwoDotsLoseOne(s: string)
    requires EndsInDot(s) && IsPlausible(s[..|s| - 1]) && !IsSpace(s[0])
    ensures NormalizeHost(Some(s)) == Some(s[..|s| - 1])
  {
    assert forall i :: 0 <= i < |s| - 1 ==> s[i] == s[..|s| - 1][i];
    TrimLowerFixed(s);
    assert ':' !in s;
  }

  // ---- Claims ----------------------------------------------------------------------

  /** Every accepted claim is already in normal form, would be accepted again unchanged,
      and is a foreign name to the classifier that uses the same apex. */
  lemma AcceptedClaimIsSettled(candidate: string, apex: string)
    requires ClaimableHostname(candidate, apex).Claimed?
    ensures var h := ClaimableHostname(candidate, apex).hostname;
            NormalizeHost(Some(h)) == Some(h) &&
            ClaimableHostname(h, apex) == Claimed(h) &&
            ClassifyHost(h, apex) == Foreign(h) &&
            IsPlausible(h) && !EndsInDot(h)
  {
    var h := ClaimableHostname(candidate, apex).hostname;
    DottedNamesAreSettled(Some(candidate));
    UnclaimedIsForeign(h, apex);
  }

  lemma DottedNamesAreSettled(raw: Option<string>)
    requires NormalizeHost(raw).Some? && IsDottedName(NormalizeHost(raw).value)
    ensures var h := NormalizeHost(raw).value;
            NormalizeHost(Some(h)) == Some(h) && ':' !in h && IsPlausible(h) && !EndsInDot(h)
  {
    var h := NormalizeHost(raw).value;
    NormalizedShape(raw);
    LabelsEndInLetters(h);
    assert IsPlausible(h);
    PlausibleIsClean(h);
    PlausibleAgain(h);
  }

  lemma LabelsEndInLetters(h: string)
    requires IsDottedName(h)
    ensures h != "" && IsLabelEdge(h[|h| - 1])
  {
  }

  lemma UnclaimedIsForeign(h: string, apexDomain: string)
    requires !UnderApex(h, Lower(Trim(apexDomain)))
    ensures ClassifyHost(h, apexDomain) == Foreign(h)
  {
  }

  // ---- Slugs under the root --------------------------------------------------------

  /** The subdomain root as configuration is expected to hold it: in normal form, a name. */
  predicate RootOk(root: string) {
    IsPlausible(root) && !EndsInDot(root) && root[0] != '.'
  }

  function SlugHost(slug: string, root: string): string {
    slug + "." + root
  }

  lemma RootIsClean(root: string)
    requires RootOk(root)
    ensures Lower(Trim(root)) == root
  {
  }

  lemma SlugHostIsNormal(slug: string, root: string)
    requires IsValidSlug(slug) && RootOk(root)
    ensures NormalizeHost(Some(SlugHost(slug, root))) == Some(SlugHost(slug, root))
  {
    SlugHostIsPlausible(slug, root);
    PlausibleAgain(SlugHost(slug, root));
  }

  lemma SlugHostIsPlausible(slug: string, root: string)
    requires IsValidSlug(slug) && RootOk(root)
    ensures var h := SlugHost(slug, root);
            IsPlausible(h) && !EndsInDot(h) && EndsWith(h, "." + root)
  {
    var h := SlugHost(slug, root);
    assert h[|h| - |"." + root|..] == "." + root;
    forall i | 0 <= i < |h| - 1
      ensures !(h[i] == '.' && h[i + 1] == '.')
    {
      if i > |slug| {
        var j := i - |slug| - 1;
        assert !(root[j] == '.' && root[j + 1] == '.');
      }
    }
    assert h[|h| - 1] == root[|root| - 1];
  }

  /** The classifier reads a slug back out of the host provisioning gave it, `www` being
      the one slug it takes for the apex; and nothing else reads as that slug. */
  lemma SlugRoundTrip(slug: string, root: string)
    requires IsValidSlug(slug) && RootOk(root)
    ensures ClassifyHost(SlugHost(slug, root), root)
            == if slug == "www" then Apex else Subdomain(slug)
    ensures forall host :: ClassifyHost(host, root) == Subdomain(slug) ==> host == SlugHost(slug, root)
  {
    ReadsAsSlug(slug, root);
    forall host | ClassifyHost(host, root) == Subdomain(slug)
      ensures host == SlugHost(slug, root)
    {
      OnlySlugHostReads(host, slug, root);
    }
  }

  lemma ReadsAsSlug(slug: string, root: string)
    requires IsValidSlug(slug) && RootOk(root)
    ensures ClassifyHost(SlugHost(slug, root), root)
            == if slug == "www" then Apex else Subdomain(slug)
  {
    RootIsClean(root);
    var h := SlugHost(slug, root);
    assert h[|h| - |"." + root|..] == "." + root;
    var cut := |h| - (|root| + 1);
    assert h[..cut] == slug;
    assert '.' !in slug;
    if slug == "www" {
      assert h == "www." + root;
    } else {
      assert ("www." + root)[..|"www." + root| - (|root| + 1)] == "www";
      assert h != "www." + root;
      assert |h| > |root|;
    }
  }

  lemma OnlySlugHostReads(host: string, slug: string, root: string)
    requires RootOk(root) && ClassifyHost(host, root) == Subdomain(slug)
    ensures host == SlugHost(slug, root)
  {
  }
}
