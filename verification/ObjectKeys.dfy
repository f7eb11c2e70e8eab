/** Object keys: src/lib/storage/keys.ts. */
module ObjectKeys {
  import opened Text

  const MAX_NAME := 120

  datatype MediaPurpose = Lesson | Branding

  function PurposeName(p: MediaPurpose): string {
    match p case Lesson => "lesson" case Branding => "branding"
  }

  predicate IsSafe(c: char) {
    'a' <= c <= 'z' || 'A' <= c <= 'Z' || '0' <= c <= '9' || c == '.' || c == '_' || c == '-'
  }

  predicate IsSlash(c: char) { c == '/' || c == '\\' }

  /** What follows the last slash of either kind. */
  function Base(s: string): string {
    if s == "" || IsSlash(s[|s| - 1]) then "" else Base(s[..|s| - 1]) + [s[|s| - 1]]
  }

  function DropUnsafe(s: string): (r: string)
    ensures |r| <= |s|
  {
    if s != "" && !IsSafe(s[0]) then DropUnsafe(s[1..]) else s
  }

  /** Each maximal run of unsafe characters becomes one hyphen. */
  function HyphenateUnsafe(s: string): string
    decreases |s|
  {
    if s == "" then ""
    else if IsSafe(s[0]) then [s[0]] + HyphenateUnsafe(s[1..])
    else "-" + HyphenateUnsafe(DropUnsafe(s[1..]))
  }

  /** Each run of two or more hyphens becomes one. */
  function CollapseHyphens(s: string): string {
    if |s| < 2 then s
    else if s[0] == '-' && s[1] == '-' then CollapseHyphens(s[1..])
    else [s[0]] + CollapseHyphens(s[1..])
  }

  function StripLead(s: string): string {
    if s != "" && (s[0] == '.' || s[0] == '-') then StripLead(s[1..]) else s
  }

  function StripTail(s: string): string {
    if s != "" && s[|s| - 1] == '-' then StripTail(s[..|s| - 1]) else s
  }

  function Clean(base: string): string {
    StripTail(StripLead(CollapseHyphens(HyphenateUnsafe(base))))
  }

  function SanitizeFilename(filename: string): string {
    var cleaned := Clean(Base(filename));
    var trimmed := if |cleaned| > MAX_NAME then cleaned[..MAX_NAME] else cleaned;
    if trimmed == "" then "file" else trimmed
  }

  function TenantPrefix(tenantId: string): string {
    "t/" + tenantId + "/"
  }

  function BuildObjectKey(tenantId: string, purpose: MediaPurpose, objectId: string, filename: string): string {
    TenantPrefix(tenantId) + PurposeName(purpose) + "/" + objectId + "/" + SanitizeFilename(filename)
  }

  predicate KeyBelongsToTenant(key: string, tenantId: string) {
    key != "" && !HasDotDot(key) && !StartsWith(key, "/") && StartsWith(key, TenantPrefix(tenantId))
  }

  // ---- Sanitised names --------------------------------------------------------------

  predicate AllSafe(s: string) {
    forall i :: 0 <= i < |s| ==> IsSafe(s[i])
  }

  predicate HasHyphenPair(s: string) {
    exists i :: 0 <= i < |s| - 1 && s[i] == '-' && s[i + 1] == '-'
  }

  predicate CleanLead(s: string) {
    s != "" ==> s[0] != '.' && s[0] != '-'
  }

  lemma {:induction false} HyphenateIsSafe(s: string)
    ensures AllSafe(HyphenateUnsafe(s))
    ensures AllSafe(s) ==> HyphenateUnsafe(s) == s
    decreases |s|
  {
    if s != "" {
      if IsSafe(s[0]) {
        HyphenateIsSafe(s[1..]);
        assert s == [s[0]] + s[1..];
      } else {
        HyphenateIsSafe(DropUnsafe(s[1..]));
      }
    }
  }

  lemma {:induction false} CollapseShape(s: string)
    ensures var r := CollapseHyphens(s);
            (AllSafe(s) ==> AllSafe(r)) && !HasHyphenPair(r) && (s != "" ==> r != "" && r[0] == s[0]) &&
            (!HasHyphenPair(s) ==> r == s)
  {
    if |s| >= 2 {
      CollapseShape(s[1..]);
      var rest := CollapseHyphens(s[1..]);
      assert !HasHyphenPair(s) ==> !HasHyphenPair(s[1..]) by {
        forall i | 0 <= i < |s[1..]| - 1 && s[1..][i] == '-' && s[1..][i + 1] == '-'
          ensures HasHyphenPair(s)
        {
          assert s[i + 1] == '-' && s[i + 1 + 1] == '-';
        }
      }
      assert s == [s[0]] + s[1..];
      if !(s[0] == '-' && s[1] == '-') {
        var r := [s[0]] + rest;
        forall i | 0 <= i < |r| - 1 ensures !(r[i] == '-' && r[i + 1] == '-') {
          if i > 0 { assert !(rest[i - 1] == '-' && rest[i - 1 + 1] == '-'); }
        }
      } else {
        assert s[0 + 1] == '-';
      }
    }
  }

  lemma {:induction false} StripLeadShape(s: string)
    ensures var r := StripLead(s); |r| <= |s| && r == s[|s| - |r|..] && CleanLead(r)
    ensures CleanLead(s) ==> StripLead(s) == s
  {
    if s != "" && (s[0] == '.' || s[0] == '-') {
      StripLeadShape(s[1..]);
    }
  }

  lemma {:induction false} StripTailShape(s: string)
    ensures var r := StripTail(s); r <= s && (r != "" ==> r[|r| - 1] != '-')
    ensures (s != "" ==> s[|s| - 1] != '-') ==> StripTail(s) == s
    ensures s != "" && s[0] != '-' ==> StripTail(s) != ""
  {
    if s != "" && s[|s| - 1] == '-' {
      StripTailShape(s[..|s| - 1]);
    }
  }

  /** What every sanitised name is. */
  ghost predicate IsTidy(s: string) {
    s != "" && |s| <= MAX_NAME && AllSafe(s) && !HasHyphenPair(s) && CleanLead(s)
  }

  lemma CutKeepsShape(s: string, i: nat, j: nat)
    requires i <= j <= |s| && AllSafe(s) && !HasHyphenPair(s)
    ensures AllSafe(s[i..j]) && !HasHyphenPair(s[i..j])
  {
    var r := s[i..j];
    forall k | 0 <= k < |r| - 1 ensures !(r[k] == '-' && r[k + 1] == '-') {
      assert !(s[i + k] == '-' && s[i + k + 1] == '-');
    }
  }

  lemma CleanShape(base: string)
    ensures var c := Clean(base);
            AllSafe(c) && !HasHyphenPair(c) && CleanLead(c) && (c != "" ==> c[|c| - 1] != '-')
  {
    HyphenateIsSafe(base);
    var h := HyphenateUnsafe(base);
    CollapseShape(h);
    var d := CollapseHyphens(h);
    StripLeadShape(d);
    var l := StripLead(d);
    CutKeepsShape(d, |d| - |l|, |d|);
    StripTailShape(l);
    CutKeepsShape(l, 0, |StripTail(l)|);
    assert l[0..|StripTail(l)|] == StripTail(l);
  }

  /** Sanitised names are never empty, at most 120 characters long, safe, without a slash. */
  lemma SanitizedIsTidy(filename: string)
    ensures IsTidy(SanitizeFilename(filename))
  {
    CleanShape(Base(filename));
    var c := Clean(Base(filename));
    if |c| > MAX_NAME {
      CutKeepsShape(c, 0, MAX_NAME);
      assert c[0..MAX_NAME] == c[..MAX_NAME];
    }
  }

  lemma {:induction false} BaseOfSlashless(s: string)
    requires forall i :: 0 <= i < |s| ==> !IsSlash(s[i])
    ensures Base(s) == s
  {
    if s != "" {
      BaseOfSlashless(s[..|s| - 1]);
      assert s == s[..|s| - 1] + [s[|s| - 1]];
    }
  }

  /** A second sanitising only loses a hyphen the length cut may have left at the end. */
  lemma SanitizeTidy(s: string)
    requires IsTidy(s)
    ensures SanitizeFilename(s) == if s[|s| - 1] == '-' then s[..|s| - 1] else s
  {
    BaseOfSlashless(s);
    HyphenateIsSafe(s);
    CollapseShape(s);
    StripLeadShape(s);
    OneHyphenAtMost(s);
    assert Clean(Base(s)) == StripTail(s);
  }

  lemma OneHyphenAtMost(s: string)
    requires s != "" && s[0] != '-' && !HasHyphenPair(s)
    ensures StripTail(s) == if s[|s| - 1] == '-' then s[..|s| - 1] else s
    ensures StripTail(s) != ""
  {
    StripTailShape(s);
    if s[|s| - 1] == '-' {
      assert s[|s| - 2 + 1] == '-';
      assert s[|s| - 2] != '-';
      StripTailShape(s[..|s| - 1]);
    }
  }

  /** The cut at the length limit falls right after a hyphen. */
  predicate CutsAfterHyphen(filename: string) {
    var cleaned := Clean(Base(filename));
    |cleaned| > MAX_NAME && cleaned[MAX_NAME - 1] == '-'
  }

  lemma EndsInHyphenIff(filename: string)
    ensures var once := SanitizeFilename(filename);
            once != "" && (once[|once| - 1] == '-' <==> CutsAfterHyphen(filename))
  {
    CleanShape(Base(filename));
  }

  /** Stable from the second application on, and from the first exactly when the cut at the
      length limit does not fall right after a hyphen. */
  lemma SanitizeSettles(filename: string)
    ensures var once := SanitizeFilename(filename);
            var twice := SanitizeFilename(once);
            (twice == once <==> !CutsAfterHyphen(filename)) && SanitizeFilename(twice) == twice
  {
    SanitizedIsTidy(filename);
    EndsInHyphenIff(filename);
    var once := SanitizeFilename(filename);
    SanitizeTidy(once);
    if once[|once| - 1] == '-' {
      var twice := once[..|once| - 1];
      assert once[|once| - 2 + 1] == '-';
      assert once[|once| - 2] != '-';
      CutKeepsShape(once, 0, |once| - 1);
      assert once[0..|once| - 1] == twice;
      SanitizeTidy(twice);
    }
  }

  lemma CleanLeavesClean(s: string)
    requires s != "" && AllSafe(s) && !HasHyphenPair(s) && CleanLead(s) && s[|s| - 1] != '-'
    ensures Clean(Base(s)) == s
  {
    BaseOfSlashless(s);
    HyphenateIsSafe(s);
    CollapseShape(s);
    StripLeadShape(s);
    StripTailShape(s);
  }

  /** A name that does change a second time: 119 letters, a hyphen and one letter more. */
  lemma SanitizeIsNotIdempotent(name: string)
    requires |name| == 121 && (forall k :: 0 <= k < 119 ==> name[k] == 'a') && name[119] == '-' && name[120] == 'b'
    ensures CutsAfterHyphen(name) && SanitizeFilename(SanitizeFilename(name)) != SanitizeFilename(name)
  {
    forall k | 0 <= k < |name| - 1 ensures !(name[k] == '-' && name[k + 1] == '-') {}
    CleanLeavesClean(name);
    SanitizeSettles(name);
  }

  // ---- Keys -------------------------------------------------------------------------

  /** An id as the database makes them: no slash and no pair of dots. */
  predicate IsPlainId(id: string) {
    '/' !in id && !HasDotDot(id)
  }

  lemma DotDotAcrossSlash(a: string, b: string)
    ensures HasDotDot(a + "/" + b) <==> HasDotDot(a) || HasDotDot(b)
  {
    var s := a + "/" + b;
    if HasDotDot(a) {
      var i :| 0 <= i < |a| - 1 && a[i] == '.' && a[i + 1] == '.';
      assert s[i] == '.' && s[i + 1] == '.';
    }
    if HasDotDot(b) {
      var i :| 0 <= i < |b| - 1 && b[i] == '.' && b[i + 1] == '.';
      assert s[|a| + 1 + i] == '.' && s[|a| + 1 + i + 1] == '.';
    }
    if HasDotDot(s) {
      var i :| 0 <= i < |s| - 1 && s[i] == '.' && s[i + 1] == '.';
      if i < |a| {
        assert a[i] == '.' && a[i + 1] == '.';
      } else {
        assert b[i - |a| - 1] == '.' && b[i - |a| - 1 + 1] == '.';
      }
    }
  }

  /** The first segment of a path is what stands before its first slash. */
  lemma FirstSegment(a: string, b: string, rest: string, more: string)
    requires '/' !in a && '/' !in b && a + "/" + rest == b + "/" + more
    ensures a == b && rest == more
  {
    var s := a + "/" + rest;
    assert s[|a|] == '/' && s[|b|] == '/';
    assert forall i :: 0 <= i < |a| ==> s[i] == a[i];
    assert forall i :: 0 <= i < |b| ==> s[i] == b[i];
    assert |a| == |b|;
    assert s[..|a|] == a && s[..|b|] == b;
    assert s[|a| + 1..] == rest && s[|b| + 1..] == more;
  }

  function KeyTail(purpose: MediaPurpose, objectId: string, filename: string): string {
    PurposeName(purpose) + "/" + (objectId + "/" + SanitizeFilename(filename))
  }

  lemma KeySegments(tenantId: string, purpose: MediaPurpose, objectId: string, filename: string)
    ensures BuildObjectKey(tenantId, purpose, objectId, filename)
            == "t" + "/" + (tenantId + "/" + KeyTail(purpose, objectId, filename))
    ensures BuildObjectKey(tenantId, purpose, objectId, filename)
            == TenantPrefix(tenantId) + KeyTail(purpose, objectId, filename)
  {
    var name, safe := PurposeName(purpose), SanitizeFilename(filename);
    assert name + "/" + objectId + "/" + safe == name + "/" + (objectId + "/" + safe);
    assert TenantPrefix(tenantId) + name + "/" + objectId + "/" + safe
           == TenantPrefix(tenantId) + (name + "/" + (objectId + "/" + safe));
  }

  /** A built key is its own tenant's exactly when the sanitised name has no pair of dots. */
  lemma BuiltKeyBelongsIff(tenantId: string, purpose: MediaPurpose, objectId: string, filename: string)
    requires IsPlainId(tenantId) && IsPlainId(objectId)
    ensures KeyBelongsToTenant(BuildObjectKey(tenantId, purpose, objectId, filename), tenantId)
            <==> !HasDotDot(SanitizeFilename(filename))
  {
    var safe := SanitizeFilename(filename);
    KeySegments(tenantId, purpose, objectId, filename);
    DotDotAcrossSlash(objectId, safe);
    DotDotAcrossSlash(PurposeName(purpose), objectId + "/" + safe);
    DotDotAcrossSlash(tenantId, KeyTail(purpose, objectId, filename));
    DotDotAcrossSlash("t", tenantId + "/" + KeyTail(purpose, objectId, filename));
    var key := BuildObjectKey(tenantId, purpose, objectId, filename);
    assert key[..1] == "t";
  }

  /** ... and no other tenant's. */
  lemma BuiltKeyIsNoOthers(tenantId: string, other: string, purpose: MediaPurpose, objectId: string, filename: string)
    requires '/' !in tenantId && '/' !in other && tenantId != other
    ensures !KeyBelongsToTenant(BuildObjectKey(tenantId, purpose, objectId, filename), other)
  {
    var key := BuildObjectKey(tenantId, purpose, objectId, filename);
    var tail := KeyTail(purpose, objectId, filename);
    KeySegments(tenantId, purpose, objectId, filename);
    if StartsWith(key, TenantPrefix(other)) {
      PrefixSegments(key, other);
      var rest := key[|other| + 3..];
      FirstSegment("t", "t", tenantId + "/" + tail, other + "/" + rest);
      FirstSegment(tenantId, other, tail, rest);
    }
  }

  lemma PrefixSegments(key: string, tenantId: string)
    requires StartsWith(key, TenantPrefix(tenantId))
    ensures key == "t" + "/" + (tenantId + "/" + key[|tenantId| + 3..])
  {
  }

  lemma PurposeHasNoSlash(p: MediaPurpose)
    ensures '/' !in PurposeName(p)
  {
  }

  /** A key determines everything it was built from but the spelling of the file name. */
  lemma KeyDeterminesItsParts(t: string, p: MediaPurpose, o: string, f: string,
                              t': string, p': MediaPurpose, o': string, f': string)
    requires '/' !in t && '/' !in t' && '/' !in o && '/' !in o'
    requires BuildObjectKey(t, p, o, f) == BuildObjectKey(t', p', o', f')
    ensures t == t' && p == p' && o == o' && SanitizeFilename(f) == SanitizeFilename(f')
  {
    KeySegments(t, p, o, f);
    KeySegments(t', p', o', f');
    FirstSegment("t", "t", t + "/" + KeyTail(p, o, f), t' + "/" + KeyTail(p', o', f'));
    FirstSegment(t, t', KeyTail(p, o, f), KeyTail(p', o', f'));
    PurposeHasNoSlash(p);
    PurposeHasNoSlash(p');
    FirstSegment(PurposeName(p), PurposeName(p'), o + "/" + SanitizeFilename(f), o' + "/" + SanitizeFilename(f'));
    FirstSegment(o, o', SanitizeFilename(f), SanitizeFilename(f'));
    assert "lesson"[0] != "branding"[0];
  }

  /** The builder does not make a wrong key impossible: this one is refused by the verifier. */
  lemma DotsInTheMiddleAreRefused(tenantId: string, objectId: string)
    requires IsPlainId(tenantId) && IsPlainId(objectId)
    ensures !KeyBelongsToTenant(BuildObjectKey(tenantId, Lesson, objectId, "a..b.pdf"), tenantId)
  {
    var name := "a..b.pdf";
    SanitizeTidy(name);
    assert name[1] == '.' && name[1 + 1] == '.';
    BuiltKeyBelongsIff(tenantId, Lesson, objectId, name);
  }
}
