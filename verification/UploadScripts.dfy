/** The failures of Uploads.dfy from the first request on: each is reached from an empty
    platform by a handful of steps. */
module UploadScripts {
  import opened Text
  import opened ObjectKeys
  import opened Uploads

  const TENANT := "c0"
  const LESSON := "1e"
  const GOOD := Facts(1, true, false)
  const BAD := Facts(1, false, false)

  function Key(rid: string): string {
    BuildObjectKey(TENANT, Lesson, rid, "x")
  }

  function Fresh(rid: string): Row {
    Row(TENANT, InLesson(LESSON), Audio, Some(Key(rid)), None)
  }

  function Sent(rid: string): seq<Step> {
    [Reserve(TENANT, InLesson(LESSON), Audio, rid, "x", true), Put(Key(rid), GOOD)]
  }

  /** The file arrives, and is completed as far as its list of what to supersede. */
  function Checked(p: nat, rid: string): seq<Step> {
    [StartComplete(p, TENANT, LESSON, rid, true), Proceed(p, true)]
  }

  const COLLECTING := Sent("a") + Checked(0, "a")
  const READY := COLLECTING + [Proceed(0, true), Proceed(0, true)]
  const REMOVED := READY + [StartRemove(1, TENANT, LESSON, "a", true), Proceed(1, true), Crash(1)]
  const REJECTED :=
    READY + [Put(Key("a"), BAD), StartComplete(1, TENANT, LESSON, "a", true), Proceed(1, true), Proceed(1, true)]
  const INTRUDED :=
    COLLECTING + [Proceed(0, true), Reserve(TENANT, InLesson(LESSON), Audio, "b", "x", true), Proceed(0, true)]
  const BOTH := Sent("a") + Sent("b") + Checked(0, "a") + Checked(1, "b")
  const OVERLAPPED := BOTH + [Proceed(0, true), Proceed(1, true), Proceed(0, true), Proceed(1, true)]

  // ---- Running a script -------------------------------------------------------------

  lemma One(steps: seq<Step>, x: Step)
    ensures Run(steps + [x]) == Next(Run(steps), x)
  {
    assert (steps + [x])[..|steps|] == steps;
  }

  lemma Two(steps: seq<Step>, x: Step, y: Step)
    ensures Run(steps + [x, y]) == Next(Next(Run(steps), x), y)
  {
    One(steps, x);
    One(steps + [x], y);
    assert steps + [x] + [y] == steps + [x, y];
  }

  lemma Three(steps: seq<Step>, x: Step, y: Step, z: Step)
    ensures Run(steps + [x, y, z]) == Next(Next(Next(Run(steps), x), y), z)
  {
    Two(steps, x, y);
    One(steps + [x, y], z);
    assert steps + [x, y] + [z] == steps + [x, y, z];
  }

  lemma Four(steps: seq<Step>, w: Step, x: Step, y: Step, z: Step)
    ensures Run(steps + [w, x, y, z]) == Next(Next(Next(Next(Run(steps), w), x), y), z)
  {
    Three(steps, w, x, y);
    One(steps + [w, x, y], z);
    assert steps + [w, x, y] + [z] == steps + [w, x, y, z];
  }

  lemma KeyIsOwn(rid: string)
    requires rid == "a" || rid == "b"
    ensures KeyBelongsToTenant(Key(rid), TENANT) && IsUuid(rid) && IsUuid(TENANT)
  {
    SanitizeTidy("x");
    BuiltKeyBelongsIff(TENANT, Lesson, rid, "x");
  }

  lemma KeysDiffer()
    ensures Key("a") != Key("b")
  {
    if Key("a") == Key("b") { KeyDeterminesItsParts(TENANT, Lesson, "a", "x", TENANT, Lesson, "b", "x"); }
  }

  lemma SentA()
    ensures Run(Sent("a")) == State(map["a" := Fresh("a")], map[Key("a") := GOOD], map[], {"a"}, {Key("a")}, {}, {})
  {
    KeyIsOwn("a");
    Two([], Sent("a")[0], Sent("a")[1]);
    assert [] + Sent("a") == Sent("a") && Run([]) == EMPTY;
  }

  lemma SentBoth()
    ensures Run(Sent("a") + Sent("b"))
            == State(map["a" := Fresh("a"), "b" := Fresh("b")], map[Key("a") := GOOD, Key("b") := GOOD], map[],
                     {"a", "b"}, {Key("a"), Key("b")}, {}, {})
  {
    SentA();
    KeyIsOwn("b");
    KeysDiffer();
    Two(Sent("a"), Sent("b")[0], Sent("b")[1]);
    assert Sent("b") == [Sent("b")[0], Sent("b")[1]];
  }

  lemma CheckedRow(s: State, p: nat, rid: string)
    requires p !in s.procs && (rid == "a" || rid == "b") && rid in s.rows && s.rows[rid] == Fresh(rid)
    requires Key(rid) in s.bucket && s.bucket[Key(rid)] == GOOD
    ensures Next(Next(s, Checked(p, rid)[0]), Checked(p, rid)[1])
            == s.(procs := s.procs[p := Collecting(TENANT, LESSON, rid, Key(rid), 1)])
  {
    KeyIsOwn(rid);
  }

  lemma IsCollecting()
    ensures var s := Run(COLLECTING);
            s.rows == map["a" := Fresh("a")] && s.bucket == map[Key("a") := GOOD] && s.used == {"a"} &&
            s.tickets == {Key("a")} && s.procs == map[0 := Collecting(TENANT, LESSON, "a", Key("a"), 1)] &&
            s.removing == {} && s.rejected == {}
  {
    SentA();
    CheckedRow(Run(Sent("a")), 0, "a");
    Two(Sent("a"), Checked(0, "a")[0], Checked(0, "a")[1]);
    assert Checked(0, "a") == [Checked(0, "a")[0], Checked(0, "a")[1]];
  }

  lemma CommitAlone(s: State)
    requires s.rows == map["a" := Fresh("a")] && s.procs == map[0 := Collecting(TENANT, LESSON, "a", Key("a"), 1)]
    ensures Next(Next(s, Proceed(0, true)), Proceed(0, true))
            == s.(rows := map["a" := Fresh("a").(size := Some(1))], procs := map[0 := CleaningUp(TENANT, {})])
  {
    var listed := s.(procs := map[0 := Committing(TENANT, LESSON, "a", Key("a"), 1, map[])]);
    assert Superseded(s.rows, TENANT, LESSON, "a") == map[];
    assert Next(s, Proceed(0, true)).procs == listed.procs;
    assert CommitRows(s.rows, TENANT, "a", 1, {}) == map["a" := Fresh("a").(size := Some(1))];
    assert KeysOf(map[]) == {};
    assert Next(listed, Proceed(0, true)).procs == map[0 := CleaningUp(TENANT, {})];
  }

  lemma IsReadyNow()
    ensures var s := Run(READY);
            s.rows == map["a" := Fresh("a").(size := Some(1))] && s.tickets == {Key("a")} && s.removing == {} &&
            s.rejected == {} && 1 !in s.procs
  {
    IsCollecting();
    CommitAlone(Run(COLLECTING));
    Two(COLLECTING, Proceed(0, true), Proceed(0, true));
  }

  lemma AreCollecting()
    ensures var s := Run(BOTH);
            AudioOn(s.rows, TENANT, LESSON) == {"a", "b"} && 0 in s.procs && 1 in s.procs &&
            s.procs[0] == Collecting(TENANT, LESSON, "a", Key("a"), 1) &&
            s.procs[1] == Collecting(TENANT, LESSON, "b", Key("b"), 1)
  {
    SentBoth();
    var sent := Sent("a") + Sent("b");
    var one := sent + Checked(0, "a");
    CheckedRow(Run(sent), 0, "a");
    Two(sent, Checked(0, "a")[0], Checked(0, "a")[1]);
    assert Checked(0, "a") == [Checked(0, "a")[0], Checked(0, "a")[1]];
    CheckedRow(Run(one), 1, "b");
    Two(one, Checked(1, "b")[0], Checked(1, "b")[1]);
    assert Checked(1, "b") == [Checked(1, "b")[0], Checked(1, "b")[1]];
  }

  // ---- The failures, from the start -------------------------------------------------

  /** The first excuse of `ReadyRowsHaveTheirObject`. */
  lemma RemovalIsReached()
    ensures var n := Run(REMOVED); IsReady(n, "a") && n.rows["a"].key.value !in n.bucket
  {
    IsReadyNow();
    KeyIsOwn("a");
    RemovalThatDiesLeavesSilence(Run(READY), 1, TENANT, LESSON, "a");
    Three(READY, StartRemove(1, TENANT, LESSON, "a", true), Proceed(1, true), Crash(1));
  }

  /** The second, without any removal. */
  lemma RejectionIsReached()
    ensures var n := Run(REJECTED); IsReady(n, "a") && n.rows["a"].key.value !in n.bucket && n.removing == {}
  {
    IsReadyNow();
    KeyIsOwn("a");
    RejectionLeavesSilence(Run(READY), 1, TENANT, LESSON, "a", BAD);
    Four(READY, Put(Key("a"), BAD), StartComplete(1, TENANT, LESSON, "a", true), Proceed(1, true), Proceed(1, true));
  }

  /** Two audio rows after a completion that succeeded. */
  lemma IntrusionIsReached()
    ensures var n := Run(INTRUDED);
            {"a", "b"} <= AudioOn(n.rows, TENANT, LESSON) && 0 in n.procs && n.procs[0].CleaningUp?
  {
    IsCollecting();
    KeyIsOwn("b");
    ReservationBetweenLeavesTwo(Run(COLLECTING), 0, "b", "x");
    Three(COLLECTING, Proceed(0, true), Reserve(TENANT, InLesson(LESSON), Audio, "b", "x", true), Proceed(0, true));
  }

  /** None after two. */
  lemma OverlapIsReached()
    ensures var n := Run(OVERLAPPED);
            AudioOn(n.rows, TENANT, LESSON) == {} && 0 in n.procs && n.procs[0].CleaningUp? &&
            1 in n.procs && n.procs[1].CleaningUp?
  {
    AreCollecting();
    OverlappingCompletionsLeaveNoAudio(Run(BOTH), 0, 1, TENANT, LESSON, "a", "b", Key("a"), Key("b"), 1);
    Four(BOTH, Proceed(0, true), Proceed(1, true), Proceed(0, true), Proceed(1, true));
    ProcsAreKept(Run(BOTH));
  }

  lemma ProcsAreKept(s: State)
    requires 0 in s.procs && 1 in s.procs && s.procs[0].Collecting? && s.procs[1].Collecting?
    ensures var n := Next(Next(Next(Next(s, Proceed(0, true)), Proceed(1, true)), Proceed(0, true)), Proceed(1, true));
            0 in n.procs && 1 in n.procs
  {
  }
}
