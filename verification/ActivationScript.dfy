/** A demotion from the first step on: src/lib/auth/invitations.ts:319 reached from an empty
    platform. */
module ActivationScript {
  import opened Text
  import opened Invitations
  import opened Activation
  import ActivationSafety

  const EMAIL := "u@x"

  /** An institute, and a person an operator has made an instructor there. */
  const STAFFED :=
    [Provision("t", "a@x", "first", "k0"), Register("u", EMAIL, true), Appoint("t", "u", Instructor, "")]

  /** The instructor's own address is invited to a class, and the link is followed. */
  const FOLLOWED :=
    STAFFED + [Step.Issue("t", EMAIL, Student, "", "second", "k1"), Open(0, "t", "k1", true, "second")]
    + [LookUp(0, Some("u")), ReadSession(0, Some("u"))]

  const DEMOTED := FOLLOWED + [Step.Complete(0)]

  function FirstInvitation(): Invitation {
    Minted("t", "a@x", Admin, "", "k0", 0)
  }

  function SecondInvitation(): Invitation {
    Minted("t", EMAIL, Student, "", "k1", 0)
  }

  lemma AddressesAreNormal()
    ensures Normal(EMAIL) == EMAIL && Normal("a@x") == "a@x"
  {
    TrimLowerFixed(EMAIL);
    TrimLowerFixed("a@x");
  }

  lemma One(steps: seq<Step>, x: Step)
    ensures Run(EMPTY, steps + [x]) == Next(Run(EMPTY, steps), x)
  {
    assert (steps + [x])[..|steps|] == steps;
  }

  lemma Two(steps: seq<Step>, x: Step, y: Step)
    ensures Run(EMPTY, steps + [x, y]) == Next(Next(Run(EMPTY, steps), x), y)
  {
    One(steps, x);
    One(steps + [x], y);
    assert steps + [x] + [y] == steps + [x, y];
  }

  function Staffed(): State {
    State(0, {"t"},
          Tables(map["first" := FirstInvitation()], map["u" := Account(EMAIL, true)],
                 map[("t", "u") := Membership(Instructor, "")]),
          map[], map["first" := FirstInvitation()], [Issued("first")])
  }

  lemma IsStaffed()
    ensures Run(EMPTY, STAFFED) == Staffed()
  {
    AddressesAreNormal();
    var s1 := State(0, {"t"}, Tables(map["first" := FirstInvitation()], map[], map[]), map[],
                    map["first" := FirstInvitation()], [Issued("first")]);
    assert Next(EMPTY, STAFFED[0]) == s1;
    One([], STAFFED[0]);
    assert Run(EMPTY, []) == EMPTY && [] + [STAFFED[0]] == [STAFFED[0]];
    Two([STAFFED[0]], STAFFED[1], STAFFED[2]);
    assert [STAFFED[0]] + [STAFFED[1], STAFFED[2]] == STAFFED;
  }

  function Invited(): State {
    Staffed().(t := Staffed().t.(invites := map["first" := FirstInvitation(), "second" := SecondInvitation()]),
               issued := map["first" := FirstInvitation(), "second" := SecondInvitation()],
               log := [Issued("first"), Issued("second")])
  }

  lemma InvitationGoesOut()
    ensures Next(Staffed(), Step.Issue("t", EMAIL, Student, "", "second", "k1")) == Invited()
  {
    AddressesAreNormal();
    var s := Staffed();
    assert !IsPendingFor(FirstInvitation(), "t", EMAIL) by { assert "a@x"[0] != EMAIL[0]; }
    assert TokenIsNew(s.t.invites, "t", "k1") by { assert "k0"[1] != "k1"[1]; }
    assert AfterIssue(s.t.invites, "second", SecondInvitation())
           == map["first" := FirstInvitation(), "second" := SecondInvitation()];
  }

  lemma LinkIsFollowed()
    ensures var s := Next(Next(Next(Invited(), Open(0, "t", "k1", true, "second")), LookUp(0, Some("u"))),
                          ReadSession(0, Some("u")));
            s == Invited().(procs := map[0 := Finishing("t", "second", "u")])
  {
    AddressesAreNormal();
    NormalIsLower(EMAIL);
    var found := Invited().(procs := map[0 := Opened("t", "second", EMAIL, true)]);
    assert Next(Invited(), Open(0, "t", "k1", true, "second")).procs == found.procs;
    var asking := Invited().(procs := map[0 := AskingSession("t", "second", EMAIL, "u", true)]);
    assert Next(found, LookUp(0, Some("u"))).procs == asking.procs;
    assert Next(asking, ReadSession(0, Some("u"))).procs == map[0 := Finishing("t", "second", "u")];
  }

  lemma IsFollowed()
    ensures Run(EMPTY, FOLLOWED) == Invited().(procs := map[0 := Finishing("t", "second", "u")])
  {
    var issue, open := Step.Issue("t", EMAIL, Student, "", "second", "k1"), Open(0, "t", "k1", true, "second");
    IsStaffed();
    InvitationGoesOut();
    LinkIsFollowed();
    Two(STAFFED, issue, open);
    Two(STAFFED + [issue, open], LookUp(0, Some("u")), ReadSession(0, Some("u")));
  }

  /** An instructor before, a student after. */
  lemma DemotionIsReached()
    ensures Run(EMPTY, FOLLOWED).t.members == map[("t", "u") := Membership(Instructor, "")]
    ensures ("t", "u") in Run(EMPTY, DEMOTED).t.members && Run(EMPTY, DEMOTED).t.members[("t", "u")].role == Student
  {
    IsFollowed();
    One(FOLLOWED, Step.Complete(0));
    ActivationSafety.InstructorsCanBeDemoted(Run(EMPTY, FOLLOWED), 0, "t", "second", "u");
  }
}
