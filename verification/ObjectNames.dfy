/** What sanitising makes of a file name, run by run: sanitizeFilename in src/lib/storage/keys.ts. */
module ObjectNames {
  import opened Text
  import opened ObjectKeys

  /** Characters that stay where they are; all others end up in a hyphen. */
  predicate IsSolid(c: char) {
    'a' <= c <= 'z' || 'A' <= c <= 'Z' || '0' <= c <= '9' || c == '.' || c == '_'
  }

  predicate IsWord(s: string) { forall i :: 0 <= i < |s| ==> IsSolid(s[i]) }

  predicate IsGap(s: string) { s != "" && forall i :: 0 <= i < |s| ==> !IsSolid(s[i]) }

  predicate NoGapAhead(s: string) { s == "" || IsSolid(s[0]) }

  predicate NoSlash(s: string) { '/' !in s && '\\' !in s }

  // ---- The base name ----------------------------------------------------------------

  lemma {:induction false} NameWithoutSlash(name: string)
    requires NoSlash(name)
    ensures Base(name) == name
  {
    if name != "" {
      var front := name[..|name| - 1];
      assert name == front + [name[|name| - 1]];
      assert name[|name| - 1] in name;
      NameWithoutSlash(front);
    }
  }

  /** The base is what follows the last slash of either kind. */
  lemma {:induction false} BaseFollowsLastSlash(dir: string, slash: char, name: string)
    requires (slash == '/' || slash == '\\') && NoSlash(name)
    ensures Base(dir + [slash] + name) == name && Base(name) == name
    decreases |name|
  {
    var s := dir + [slash] + name;
    NameWithoutSlash(name);
    if name != "" {
      var front := name[..|name| - 1];
      assert name[|name| - 1] in name;
      assert s[..|s| - 1] == dir + [slash] + front;
      assert name == front + [name[|name| - 1]];
      BaseFollowsLastSlash(dir, slash, front);
    }
  }

  // ---- Runs -------------------------------------------------------------------------

  predicate AllHyphens(s: string) { forall i :: 0 <= i < |s| ==> s[i] == '-' }

  lemma {:induction false} UnsafeDropped(u: string, b: string)
    requires (forall i :: 0 <= i < |u| ==> !IsSafe(u[i])) && (b == "" || IsSafe(b[0]))
    ensures DropUnsafe(u + b) == b
  {
    if u != "" {
      assert (u + b)[1..] == u[1..] + b;
      UnsafeDropped(u[1..], b);
    } else {
      assert u + b == b;
    }
  }

  lemma {:induction false} SafeIsKept(a: string, b: string)
    requires AllSafe(a)
    ensures HyphenateUnsafe(a + b) == a + HyphenateUnsafe(b)
  {
    if a != "" {
      assert (a + b)[1..] == a[1..] + b;
      SafeIsKept(a[1..], b);
      assert a == [a[0]] + a[1..];
    } else {
      assert a + b == b;
    }
  }

  lemma OneHyphenAhead(u: string, b: string)
    requires u != "" && (forall i :: 0 <= i < |u| ==> !IsSafe(u[i])) && (b == "" || IsSafe(b[0]))
    ensures HyphenateUnsafe(u + b) == "-" + HyphenateUnsafe(b)
  {
    assert (u + b)[1..] == u[1..] + b;
    UnsafeDropped(u[1..], b);
  }

  /** Each maximal run of unsafe characters becomes one hyphen, and the safe characters before
      and after it are kept in their order. */
  lemma UnsafeRunIsOneHyphen(a: string, u: string, b: string)
    requires AllSafe(a) && u != "" && (forall i :: 0 <= i < |u| ==> !IsSafe(u[i])) && (b == "" || IsSafe(b[0]))
    ensures HyphenateUnsafe(a + (u + b)) == a + ("-" + HyphenateUnsafe(b))
    ensures HyphenateUnsafe(a) == a
  {
    SafeIsKept(a, u + b);
    OneHyphenAhead(u, b);
    HyphenateIsSafe(a);
  }

  lemma {:induction false} HyphensCollapse(h: string, b: string)
    requires h != "" && AllHyphens(h) && (b == "" || b[0] != '-')
    ensures CollapseHyphens(h + b) == "-" + CollapseHyphens(b)
  {
    assert (h + b)[1..] == h[1..] + b;
    if |h| > 1 {
      HyphensCollapse(h[1..], b);
    } else {
      assert h == "-" && h + b == ['-'] + b;
      assert (h + b)[1..] == b;
    }
  }

  lemma {:induction false} WordIsKept(a: string, b: string)
    requires forall i :: 0 <= i < |a| ==> a[i] != '-'
    ensures CollapseHyphens(a + b) == a + CollapseHyphens(b)
  {
    if a != "" {
      assert (a + b)[1..] == a[1..] + b;
      WordIsKept(a[1..], b);
      assert a == [a[0]] + a[1..];
    } else {
      assert a + b == b;
    }
  }

  /** Any mixture of unsafe characters and hyphens leaves hyphens. */
  lemma {:induction false} GapBecomesHyphens(u: string, b: string) returns (h: string)
    requires IsGap(u) && NoGapAhead(b)
    ensures h != "" && AllHyphens(h) && HyphenateUnsafe(u + b) == h + HyphenateUnsafe(b)
    decreases |u|
  {
    assert (u + b)[1..] == u[1..] + b;
    if !IsSafe(u[0]) {
      var k := FirstSafe(u);
      assert u + b == u[..k] + (u[k..] + b);
      OneHyphenAhead(u[..k], u[k..] + b);
      h := "-";
      if k < |u| {
        var more := GapBecomesHyphens(u[k..], b);
        h := h + more;
      } else {
        assert u[k..] + b == b;
      }
    } else {
      assert u[0] == '-';
      h := "-";
      if |u| > 1 {
        var more := GapBecomesHyphens(u[1..], b);
        h := h + more;
      } else {
        assert u[1..] + b == b;
      }
    }
  }

  lemma {:induction false} FirstSafe(u: string) returns (k: nat)
    ensures k <= |u| && (forall i :: 0 <= i < k ==> !IsSafe(u[i])) && (k < |u| ==> IsSafe(u[k]))
  {
    k := 0;
    if u != "" && !IsSafe(u[0]) {
      k := FirstSafe(u[1..]);
      assert forall i :: 1 <= i < k + 1 ==> u[i] == u[1..][i - 1];
      k := k + 1;
    }
  }

  function Tidied(s: string): string {
    CollapseHyphens(HyphenateUnsafe(s))
  }

  lemma WordAhead(a: string, b: string)
    requires IsWord(a)
    ensures Tidied(a + b) == a + Tidied(b)
  {
    SafeIsKept(a, b);
    WordIsKept(a, HyphenateUnsafe(b));
  }

  lemma GapAhead(u: string, b: string)
    requires IsGap(u) && NoGapAhead(b)
    ensures Tidied(u + b) == "-" + Tidied(b)
  {
    var h := GapBecomesHyphens(u, b);
    HyphensCollapse(h, HyphenateUnsafe(b));
  }

  /** Both replacements together: a word stays as it is, and the gap behind it, whatever mixture
      of hyphens and unsafe characters it is, comes out as one hyphen. */
  lemma GapIsOneHyphen(a: string, u: string, b: string)
    requires IsWord(a) && IsGap(u) && NoGapAhead(b)
    ensures CollapseHyphens(HyphenateUnsafe(a + (u + b))) == a + ("-" + CollapseHyphens(HyphenateUnsafe(b)))
    ensures CollapseHyphens(HyphenateUnsafe(a)) == a
  {
    WordAhead(a, u + b);
    GapAhead(u, b);
    assert a + "" == a;
    WordAhead(a, "");
  }

  predicate GapOrNothing(s: string) { s == "" || IsGap(s) }

  lemma EndsTidied(word: string, tail: string)
    requires IsWord(word) && GapOrNothing(tail)
    ensures Tidied(word + tail) == word + (if tail == "" then "" else "-")
  {
    WordAhead(word, tail);
    assert tail + "" == tail;
    if tail != "" { GapAhead(tail, ""); }
  }

  // ---- The ends ---------------------------------------------------------------------

  /** Leading dots and hyphens go, all of them and nothing else. */
  lemma {:induction false} LeadIsStripped(lead: string, s: string)
    requires (forall i :: 0 <= i < |lead| ==> lead[i] == '.' || lead[i] == '-') && (s == "" || s[0] !in ".-")
    ensures StripLead(lead + s) == s
  {
    if lead != "" {
      assert (lead + s)[1..] == lead[1..] + s;
      LeadIsStripped(lead[1..], s);
    } else {
      assert lead + s == s;
    }
  }

  /** Trailing hyphens go, all of them and nothing else. */
  lemma {:induction false} TailIsStripped(s: string, tail: string)
    requires AllHyphens(tail) && (s == "" || s[|s| - 1] != '-')
    ensures StripTail(s + tail) == s
  {
    if tail != "" {
      assert (s + tail)[..|s + tail| - 1] == s + tail[..|tail| - 1];
      TailIsStripped(s, tail[..|tail| - 1]);
    } else {
      assert s + tail == s;
    }
  }

  lemma OfPath(dir: string, base: string)
    requires NoSlash(base)
    ensures SanitizeFilename(dir + "/" + base) ==
              (var name := StripTail(StripLead(Tidied(base)));
               if name == "" then "file" else if |name| > 120 then name[..120] else name)
  {
    BaseFollowsLastSlash(dir, '/', base);
    assert dir + ['/'] + base == dir + "/" + base;
  }

  /** From end to end: a path, dots in front, two words with a gap between them and perhaps one
      behind. What is left is the two words with a hyphen, cut at a hundred and twenty. */
  lemma TwoWords(dir: string, lead: string, first: string, gap: string, second: string, tail: string)
    requires NoSlash(lead + (first + (gap + (second + tail))))
    requires (forall i :: 0 <= i < |lead| ==> lead[i] == '.') && IsWord(first) && first != "" && first[0] != '.'
    requires IsGap(gap) && IsWord(second) && second != "" && GapOrNothing(tail)
    ensures var name := first + ("-" + second);
            SanitizeFilename(dir + "/" + (lead + (first + (gap + (second + tail)))))
            == if |name| > 120 then name[..120] else name
  {
    var end := if tail == "" then "" else "-";
    OfPath(dir, lead + (first + (gap + (second + tail))));
    EndsTidied(second, tail);
    GapAhead(gap, second + tail);
    WordAhead(first, gap + (second + tail));
    WordAhead(lead, first + (gap + (second + tail)));
    TwoWordsStripped(lead, first, second, end);
  }

  lemma TwoWordsStripped(lead: string, first: string, second: string, end: string)
    requires (forall i :: 0 <= i < |lead| ==> lead[i] == '.') && first != "" && first[0] !in ".-"
    requires second != "" && IsWord(second) && AllHyphens(end)
    ensures StripTail(StripLead(lead + (first + ("-" + (second + end))))) == first + ("-" + second)
  {
    LeadIsStripped(lead, first + ("-" + (second + end)));
    Reassociated(first, second, end);
    TailIsStripped(first + ("-" + second), end);
  }

  lemma Reassociated(first: string, second: string, end: string)
    requires second != "" && IsWord(second)
    ensures first + ("-" + (second + end)) == (first + ("-" + second)) + end
    ensures var name := first + ("-" + second); name[|name| - 1] != '-'
  {
  }

  /** Nothing but dots in front and a gap behind them leaves no name. */
  lemma NothingLeft(dir: string, lead: string, tail: string)
    requires NoSlash(lead + tail) && (forall i :: 0 <= i < |lead| ==> lead[i] == '.') && GapOrNothing(tail)
    ensures SanitizeFilename(dir + "/" + (lead + tail)) == "file"
  {
    var end := if tail == "" then "" else "-";
    OfPath(dir, lead + tail);
    EndsTidied(lead, tail);
    assert lead + end + "" == lead + end;
    LeadIsStripped(lead + end, "");
  }

  // ---- Keys -------------------------------------------------------------------------

  /** How a key is spelled. */
  lemma KeyIsSpelled(tenant: string, id: string, filename: string)
    ensures BuildObjectKey(tenant, Lesson, id, filename)
            == "t/" + tenant + "/" + "lesson" + "/" + id + "/" + SanitizeFilename(filename)
    ensures BuildObjectKey(tenant, Branding, id, filename)
            == "t/" + tenant + "/" + "branding" + "/" + id + "/" + SanitizeFilename(filename)
  {
  }

  /** Which keys are signed for a tenant: those under its own prefix without a pair of dots. */
  lemma KeyBelongsExactly(key: string, tenant: string)
    ensures KeyBelongsToTenant(key, tenant) <==>
              (exists rest :: key == "t/" + tenant + "/" + rest) &&
              forall i :: 0 <= i < |key| - 1 ==> !(key[i] == '.' && key[i + 1] == '.')
  {
    var prefix := "t/" + tenant + "/";
    if KeyBelongsToTenant(key, tenant) { assert key == prefix + key[|prefix|..]; }
    if rest :| key == "t/" + tenant + "/" + rest {
      assert key == prefix + rest && key[..|prefix|] == prefix && key[0] == 't';
    }
  }
}
