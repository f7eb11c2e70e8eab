/** Options and the string operations the platform's pure functions are built from.
    Characters outside ASCII are left alone by `Lower` and `Trim`. */
module Text {

  datatype Option<+T> = None | Some(value: T)

  predicate IsSpace(c: char) {
    c == ' ' || c == '\t' || c == '\n' || c == '\r' || c == 11 as char || c == 12 as char
  }

  function LowerChar(c: char): char {
    if 'A' <= c <= 'Z' then (c as int + 32) as char else c
  }

  function Lower(s: string): (r: string)
    ensures |r| == |s|
    ensures forall i :: 0 <= i < |s| ==> r[i] == LowerChar(s[i])
  {
    seq(|s|, i requires 0 <= i < |s| => LowerChar(s[i]))
  }

  function TrimStart(s: string): string {
    if s != "" && IsSpace(s[0]) then TrimStart(s[1..]) else s
  }

  function TrimEnd(s: string): string {
    if s != "" && IsSpace(s[|s| - 1]) then TrimEnd(s[..|s| - 1]) else s
  }

  function Trim(s: string): string {
    TrimEnd(TrimStart(s))
  }

  function IndexFrom(s: string, c: char, from: nat): (i: int)
    requires from <= |s|
    ensures i == -1 || from <= i < |s|
    ensures i >= 0 ==> s[i] == c
    ensures forall j :: from <= j < (if i == -1 then |s| else i) ==> s[j] != c
    decreases |s| - from
  {
    if from == |s| then -1
    else if s[from] == c then from
    else IndexFrom(s, c, from + 1)
  }

  /** The first position of `c`, or -1, as `indexOf` answers. */
  function IndexOf(s: string, c: char): (i: int)
    ensures -1 <= i < |s|
    ensures i >= 0 ==> s[i] == c && forall j :: 0 <= j < i ==> s[j] != c
    ensures i == -1 <==> c !in s
  {
    IndexFrom(s, c, 0)
  }

  /** The last position of `c`, or -1. */
  function LastIndexOf(s: string, c: char): (i: int)
    ensures -1 <= i < |s|
    ensures i >= 0 ==> s[i] == c
    ensures forall j :: i < j < |s| ==> s[j] != c
  {
    if s == "" then -1
    else if s[|s| - 1] == c then |s| - 1
    else LastIndexOf(s[..|s| - 1], c)
  }

  predicate StartsWith(s: string, prefix: string) {
    |prefix| <= |s| && s[..|prefix|] == prefix
  }

  predicate EndsWith(s: string, suffix: string) {
    |suffix| <= |s| && s[|s| - |suffix|..] == suffix
  }

  predicate HasDotDot(s: string) {
    exists i :: 0 <= i < |s| - 1 && s[i] == '.' && s[i + 1] == '.'
  }

  predicate EndsInDot(s: string) {
    s != "" && s[|s| - 1] == '.'
  }

  /** Nothing to trim and nothing to lower: both operations leave the string alone. */
  lemma TrimLowerFixed(s: string)
    requires s != "" ==> !IsSpace(s[0]) && !IsSpace(s[|s| - 1])
    requires forall c :: c in s ==> LowerChar(c) == c
    ensures Trim(s) == s && Lower(s) == s
  {
  }

  lemma {:induction false} TrimStartShape(s: string)
    ensures var r := TrimStart(s); r != "" ==> !IsSpace(r[0])
  {
    if s != "" && IsSpace(s[0]) {
      TrimStartShape(s[1..]);
    }
  }

  lemma {:induction false} TrimEndShape(s: string)
    ensures var r := TrimEnd(s); r <= s && (r != "" ==> !IsSpace(r[|r| - 1]))
  {
    if s != "" && IsSpace(s[|s| - 1]) {
      TrimEndShape(s[..|s| - 1]);
    }
  }

  /** `trim().toLowerCase()` is idempotent, which is what makes an address or a
      host compare equal to itself after a second cleaning. */
  lemma NormalFormOnce(s: string)
    ensures var r := Lower(Trim(s)); Lower(Trim(r)) == r && Lower(r) == r
  {
    var t := TrimStart(s);
    TrimStartShape(s);
    TrimEndShape(t);
    var u := TrimEnd(t);
    var r := Lower(u);
    if r != "" {
      assert u[0] == t[0];
      assert !IsSpace(r[0]) && !IsSpace(r[|r| - 1]);
    }
    TrimLowerFixed(r);
  }
}
