/** "Replace means replace" while others move: the completion of
    src/app/(tenant)/teach/actions.ts, 305-468, inside the protocol of Uploads.dfy. */
module Replacement {
  import opened Text
  import opened ObjectKeys
  import opened Uploads

  // ---- What steps do to a lesson's audio --------------------------------------------

  predicate ReservesAudio(step: Step, tenant: string, lesson: string) {
    step.Reserve? && step.tenant == tenant && step.place == InLesson(lesson) && step.kind == Audio
  }

  /** The ids a stretch of steps would reserve for audio on the lesson. */
  function Reserved(steps: seq<Step>, tenant: string, lesson: string): set<string> {
    set i | 0 <= i < |steps| && ReservesAudio(steps[i], tenant, lesson) :: steps[i].rid
  }

  /** The step is one of this process's own, its start apart. */
  predicate ActsAs(step: Step, p: nat) {
    (step.Proceed? || step.CleanOne? || step.Crash?) && step.p == p
  }

  lemma DeletingShrinks(rows: Rows, tenant: string, ids: set<string>, t: string, lesson: string)
    ensures AudioOn(DeleteRows(rows, tenant, ids), t, lesson) <= AudioOn(rows, t, lesson)
    ensures AudioOn(DeleteRows(rows, tenant, ids), t, lesson)
            == AudioOn(rows, t, lesson) - (if t == tenant then ids else {})
  {
  }

  lemma SizingKeeps(rows: Rows, tenant: string, rid: string, size: nat, t: string, lesson: string)
    ensures AudioOn(SetSize(rows, tenant, rid, size), t, lesson) == AudioOn(rows, t, lesson)
  {
  }

  lemma AdvanceShrinks(s: State, p: nat, proc: Proc, ok: bool, t: string, lesson: string)
    ensures AudioOn(Advance(s, p, proc, ok).rows, t, lesson) <= AudioOn(s.rows, t, lesson)
  {
    match proc
    case Committing(tenant, _, rid, _, size, superseded) =>
      SizingKeeps(s.rows, tenant, rid, size, t, lesson);
      DeletingShrinks(SetSize(s.rows, tenant, rid, size), tenant, superseded.Keys, t, lesson);
    case Confirming(tenant, rid, _, size) => SizingKeeps(s.rows, tenant, rid, size, t, lesson);
    case RemovingRow(tenant, rid) => DeletingShrinks(s.rows, tenant, {rid}, t, lesson);
    case _ =>
  }

  lemma OnlyReservingAdds(s: State, step: Step, t: string, lesson: string)
    ensures AudioOn(Next(s, step).rows, t, lesson)
            <= AudioOn(s.rows, t, lesson) + (if ReservesAudio(step, t, lesson) then {step.rid} else {})
  {
    match step
    case Proceed(p, ok) => if p in s.procs { AdvanceShrinks(s, p, s.procs[p], ok, t, lesson); }
    case Detach(_, tenant, _, rid, _) => DeletingShrinks(s.rows, tenant, {rid}, t, lesson);
    case _ =>
  }

  lemma ReservedOneMore(steps: seq<Step>, t: string, lesson: string)
    requires steps != []
    ensures var last := steps[|steps| - 1];
            Reserved(steps, t, lesson)
            == Reserved(steps[..|steps| - 1], t, lesson) + (if ReservesAudio(last, t, lesson) then {last.rid} else {})
  {
    var before, last := steps[..|steps| - 1], steps[|steps| - 1];
    forall i | 0 <= i < |steps| && ReservesAudio(steps[i], t, lesson)
      ensures steps[i].rid in Reserved(before, t, lesson) + (if ReservesAudio(last, t, lesson) then {last.rid} else {})
    {
      if i < |before| { assert before[i] == steps[i]; }
    }
    forall i | 0 <= i < |before| && ReservesAudio(before[i], t, lesson)
      ensures before[i].rid in Reserved(steps, t, lesson)
    {
      assert before[i] == steps[i];
    }
  }

  /** Over any stretch a lesson gains audio by reservations alone. */
  lemma {:induction false} AudioComesFromReservations(s: State, steps: seq<Step>, t: string, lesson: string)
    ensures AudioOn(RunFrom(s, steps).rows, t, lesson) <= AudioOn(s.rows, t, lesson) + Reserved(steps, t, lesson)
  {
    if steps != [] {
      var before := steps[..|steps| - 1];
      AudioComesFromReservations(s, before, t, lesson);
      OnlyReservingAdds(RunFrom(s, before), steps[|steps| - 1], t, lesson);
      ReservedOneMore(steps, t, lesson);
    }
  }

  lemma {:induction false} ProcessWaits(s: State, steps: seq<Step>, p: nat)
    requires p in s.procs && forall i :: 0 <= i < |steps| ==> !ActsAs(steps[i], p)
    ensures p in RunFrom(s, steps).procs && RunFrom(s, steps).procs[p] == s.procs[p]
  {
    if steps != [] {
      ProcessWaits(s, steps[..|steps| - 1], p);
      OthersLeaveIt(RunFrom(s, steps[..|steps| - 1]), steps[|steps| - 1], p);
    }
  }

  lemma AdvanceMovesOne(s: State, q: nat, proc: Proc, ok: bool)
    ensures forall p :: p != q ==> (p in Advance(s, q, proc, ok).procs <==> p in s.procs)
    ensures forall p :: p != q && p in s.procs ==> Advance(s, q, proc, ok).procs[p] == s.procs[p]
  {
  }

  lemma OthersLeaveIt(s: State, step: Step, p: nat)
    requires p in s.procs && !ActsAs(step, p)
    ensures p in Next(s, step).procs && Next(s, step).procs[p] == s.procs[p]
  {
    if step.Proceed? {
      if step.p in s.procs { AdvanceMovesOne(s, step.p, s.procs[step.p], step.ok); }
    }
  }

  /** A row keeps tenant, place, kind and key for life, and a removed id never comes back. */
  ghost predicate SameRows(s: State, n: State) {
    s.used <= n.used &&
    forall id :: id in n.rows && id in s.used ==>
      id in s.rows && n.rows[id].tenant == s.rows[id].tenant && n.rows[id].place == s.rows[id].place &&
      n.rows[id].kind == s.rows[id].kind && n.rows[id].key == s.rows[id].key
  }

  lemma AdvanceKeepsRows(s: State, q: nat, proc: Proc, ok: bool)
    requires forall id :: id in s.rows ==> id in s.used
    ensures SameRows(s, Advance(s, q, proc, ok)) && Advance(s, q, proc, ok).used == s.used
  {
  }

  lemma StepKeepsRows(s: State, step: Step)
    requires forall id :: id in s.rows ==> id in s.used
    ensures SameRows(s, Next(s, step)) && forall id :: id in Next(s, step).rows ==> id in Next(s, step).used
  {
    if step.Proceed? {
      if step.p in s.procs { AdvanceKeepsRows(s, step.p, s.procs[step.p], step.ok); }
    }
  }

  lemma {:induction false} RunKeepsRows(s: State, steps: seq<Step>)
    requires forall id :: id in s.rows ==> id in s.used
    ensures SameRows(s, RunFrom(s, steps))
    ensures forall id :: id in RunFrom(s, steps).rows ==> id in RunFrom(s, steps).used
  {
    if steps != [] {
      RunKeepsRows(s, steps[..|steps| - 1]);
      StepKeepsRows(RunFrom(s, steps[..|steps| - 1]), steps[|steps| - 1]);
    }
  }

  // ---- Between the list and the commit ----------------------------------------------

  /** The state just before a completion commits: it has listed what to supersede, and then
      anything at all happened but its own steps. */
  function BeforeCommit(s: State, p: nat, between: seq<Step>): State {
    RunFrom(Next(s, Proceed(p, true)), between)
  }

  ghost predicate IsGap(s: State, p: nat, between: seq<Step>) {
    Inv(s) && p in s.procs && s.procs[p].Collecting? && forall i :: 0 <= i < |between| ==> !ActsAs(between[i], p)
  }

  lemma GapKeepsList(s: State, p: nat, between: seq<Step>)
    requires IsGap(s, p, between)
    ensures var c, m := s.procs[p], BeforeCommit(s, p, between);
            p in m.procs && m.procs[p] == Committing(c.tenant, c.lesson, c.rid, c.key, c.size,
                                                     Superseded(s.rows, c.tenant, c.lesson, c.rid))
  {
    ProcessWaits(Next(s, Proceed(p, true)), between, p);
  }

  /** Whatever happened in between, a completion succeeds and leaves exactly the audio that is
      there at its commit less what it had listed. What it leaves beside its own row was
      reserved in between; it leaves its own row alone exactly when that row is still there
      and no audio came in. */
  lemma CommitLeavesWhatCameIn(s: State, p: nat, between: seq<Step>)
    requires IsGap(s, p, between)
    ensures var c, m := s.procs[p], BeforeCommit(s, p, between);
            var n := Next(m, Proceed(p, true));
            var was, now, after := AudioOn(s.rows, c.tenant, c.lesson), AudioOn(m.rows, c.tenant, c.lesson),
                                   AudioOn(n.rows, c.tenant, c.lesson);
            && p in n.procs && n.procs[p].CleaningUp?
            && after == now - (was - {c.rid})
            && after <= {c.rid} + Reserved(between, c.tenant, c.lesson)
            && (after == {c.rid} <==> c.rid in now && now <= was + {c.rid})
  {
    var c, m := s.procs[p], BeforeCommit(s, p, between);
    GapKeepsList(s, p, between);
    var listed := Superseded(s.rows, c.tenant, c.lesson, c.rid).Keys;
    assert listed == AudioOn(s.rows, c.tenant, c.lesson) - {c.rid};
    SizingKeeps(m.rows, c.tenant, c.rid, c.size, c.tenant, c.lesson);
    DeletingShrinks(SetSize(m.rows, c.tenant, c.rid, c.size), c.tenant, listed, c.tenant, c.lesson);
    AudioComesFromReservations(Next(s, Proceed(p, true)), between, c.tenant, c.lesson);
  }

  lemma CommitReadiesItsRow(s: State, p: nat, between: seq<Step>)
    requires IsGap(s, p, between)
    ensures var c, m := s.procs[p], BeforeCommit(s, p, between);
            var n := Next(m, Proceed(p, true));
            c.rid in n.rows && c.rid in m.rows && m.rows[c.rid].tenant == c.tenant ==>
              n.rows[c.rid] == m.rows[c.rid].(size := Some(c.size))
  {
    GapKeepsList(s, p, between);
  }

  /** Unless another recording is reserved for the lesson in between, a completion leaves no
      audio but its own row, and that row exactly when nobody has taken it away; the row is
      ready, and every row that is not the lesson's audio stands. */
  lemma CommitLeavesItsRow(s: State, p: nat, between: seq<Step>)
    requires IsGap(s, p, between) && Reserved(between, s.procs[p].tenant, s.procs[p].lesson) == {}
    ensures var c, m := s.procs[p], BeforeCommit(s, p, between);
            var n := Next(m, Proceed(p, true));
            && AudioOn(n.rows, c.tenant, c.lesson) <= {c.rid}
            && (AudioOn(n.rows, c.tenant, c.lesson) == {c.rid} <==> c.rid in AudioOn(m.rows, c.tenant, c.lesson))
            && (c.rid in AudioOn(n.rows, c.tenant, c.lesson) ==> n.rows[c.rid].size == Some(c.size))
            && (forall id :: id in m.rows && id !in AudioOn(m.rows, c.tenant, c.lesson) && id != c.rid ==>
                  id in n.rows && n.rows[id] == m.rows[id])
  {
    var c, m := s.procs[p], BeforeCommit(s, p, between);
    var listed := Next(s, Proceed(p, true));
    CommitLeavesWhatCameIn(s, p, between);
    AudioComesFromReservations(listed, between, c.tenant, c.lesson);
    assert AudioOn(m.rows, c.tenant, c.lesson) <= AudioOn(s.rows, c.tenant, c.lesson) by {
      assert listed.rows == s.rows;
    }
    CommitReadiesItsRow(s, p, between);
    CommitSparesOthers(s, p, between);
  }

  lemma CommitSparesOthers(s: State, p: nat, between: seq<Step>)
    requires IsGap(s, p, between)
    ensures var c, m := s.procs[p], BeforeCommit(s, p, between);
            var n := Next(m, Proceed(p, true));
            forall id :: id in m.rows && id !in AudioOn(m.rows, c.tenant, c.lesson) && id != c.rid ==>
              id in n.rows && n.rows[id] == m.rows[id]
  {
    var c, m := s.procs[p], BeforeCommit(s, p, between);
    GapKeepsList(s, p, between);
    RowsAreUsed(s);
    RunKeepsRows(Next(s, Proceed(p, true)), between);
    forall id | id in m.rows && id in Superseded(s.rows, c.tenant, c.lesson, c.rid)
      ensures id in AudioOn(m.rows, c.tenant, c.lesson)
    {
      assert id in s.rows;
    }
  }

  // ---- The whole action -------------------------------------------------------------

  /** One completion: its process, whose lesson, and which row of what kind. */
  datatype Claim = Claim(p: nat, tenant: string, lesson: string, rid: string, kind: Kind)

  /** What may happen while the completion is under way: anything but another completion of
      the lesson's audio or a reservation for it, and a removal of the row itself. Its own
      process may do what it likes, or die. */
  predicate IsBystander(c: Claim, step: Step) {
    match step
    case Reserve(_, _, _, _, _, _) => !ReservesAudio(step, c.tenant, c.lesson)
    case StartComplete(q, t, lesson, _, _) => q != c.p && !(t == c.tenant && lesson == c.lesson)
    case StartConfirm(q, _, _, _, _) => q != c.p
    case StartRemove(q, t, _, rid, _) => q != c.p && !(t == c.tenant && rid == c.rid)
    case Detach(q, t, _, rid, _) => q != c.p && !(t == c.tenant && rid == c.rid)
    case _ => true
  }

  /** A process that was already under way and has no business with the lesson or the row. */
  predicate HandsOff(c: Claim, proc: Proc) {
    match proc
    case Checking(t, place, _, _, audio) => !(audio && t == c.tenant && place.id == c.lesson)
    case Collecting(t, lesson, _, _, _) => !(t == c.tenant && lesson == c.lesson)
    case Committing(t, _, _, _, _, superseded) => !(t == c.tenant && c.rid in superseded)
    case RemovingObject(t, rid, _) => !(t == c.tenant && rid == c.rid)
    case RemovingRow(t, rid) => !(t == c.tenant && rid == c.rid)
    case _ => true
  }

  predicate IsItsOwn(c: Claim, rows: Rows, proc: Proc) {
    var audio := AudioOn(rows, c.tenant, c.lesson);
    match proc
    case Checking(t, place, rid, _, isAudio) => t == c.tenant && place == InLesson(c.lesson) && rid == c.rid && isAudio
    case Rejecting(_, _, _) => true
    case Collecting(t, lesson, rid, _, _) => t == c.tenant && lesson == c.lesson && rid == c.rid
    case Committing(t, lesson, rid, _, _, superseded) =>
      t == c.tenant && lesson == c.lesson && rid == c.rid && rid !in superseded && audio <= superseded.Keys + {rid}
    case CleaningUp(_, _) => audio <= {c.rid} && c.rid in rows && rows[c.rid].size.Some?
    case _ => false
  }

  predicate RowStands(c: Claim, s: State) {
    c.rid in s.used && IsThere(s.rows, c.tenant, c.rid, InLesson(c.lesson)) && s.rows[c.rid].kind == c.kind
  }

  predicate IsUnderWay(c: Claim, s: State) {
    RowStands(c, s) && (c.p in s.procs ==> IsItsOwn(c, s.rows, s.procs[c.p])) &&
    forall q :: q in s.procs && q != c.p ==> HandsOff(c, s.procs[q])
  }

  lemma OtherAdvances(c: Claim, s: State, q: nat, ok: bool)
    requires RowStands(c, s) && q in s.procs && HandsOff(c, s.procs[q])
    ensures var n := Advance(s, q, s.procs[q], ok);
            RowStands(c, n) && (s.rows[c.rid].size.Some? ==> n.rows[c.rid].size.Some?) &&
            (q in n.procs ==> HandsOff(c, n.procs[q]))
  {
  }

  lemma OwnAdvances(c: Claim, s: State, proc: Proc, ok: bool)
    requires RowStands(c, s) && IsItsOwn(c, s.rows, proc) && c.p in s.procs && s.procs[c.p] == proc
    ensures var n := Advance(s, c.p, proc, ok);
            RowStands(c, n) && (c.p in n.procs ==> IsItsOwn(c, n.rows, n.procs[c.p]))
  {
    if proc.Committing? {
      SizingKeeps(s.rows, c.tenant, c.rid, proc.size, c.tenant, c.lesson);
      DeletingShrinks(SetSize(s.rows, c.tenant, c.rid, proc.size), c.tenant, proc.superseded.Keys, c.tenant, c.lesson);
    }
  }

  /** What nobody but the completion itself does: its own view of the audio only gets better. */
  lemma StillItsOwn(c: Claim, s: State, n: State, proc: Proc)
    requires RowStands(c, s) && RowStands(c, n) && IsItsOwn(c, s.rows, proc)
    requires AudioOn(n.rows, c.tenant, c.lesson) <= AudioOn(s.rows, c.tenant, c.lesson)
    requires s.rows[c.rid].size.Some? ==> n.rows[c.rid].size.Some?
    ensures IsItsOwn(c, n.rows, proc)
  {
  }

  lemma OtherProceeds(c: Claim, s: State, q: nat, ok: bool)
    requires IsUnderWay(c, s) && q in s.procs && q != c.p
    ensures IsUnderWay(c, Next(s, Proceed(q, ok)))
  {
    var n := Advance(s, q, s.procs[q], ok);
    OtherAdvances(c, s, q, ok);
    AdvanceMovesOne(s, q, s.procs[q], ok);
    AdvanceShrinks(s, q, s.procs[q], ok, c.tenant, c.lesson);
    if c.p in s.procs { StillItsOwn(c, s, n, s.procs[c.p]); }
  }

  lemma OwnProceeds(c: Claim, s: State, ok: bool)
    requires IsUnderWay(c, s) && c.p in s.procs
    ensures IsUnderWay(c, Next(s, Proceed(c.p, ok)))
  {
    OwnAdvances(c, s, s.procs[c.p], ok);
    AdvanceMovesOne(s, c.p, s.procs[c.p], ok);
  }

  lemma RowStandsBy(c: Claim, s: State, step: Step)
    requires RowStands(c, s) && IsBystander(c, step) && !step.Proceed?
    ensures RowStands(c, Next(s, step)) && Next(s, step).rows[c.rid] == s.rows[c.rid]
  {
  }

  lemma StartsHandsOff(c: Claim, s: State, step: Step)
    requires IsBystander(c, step) && !step.Proceed? && forall q :: q in s.procs && q != c.p ==> HandsOff(c, s.procs[q])
    ensures forall q :: q in Next(s, step).procs && q != c.p ==> HandsOff(c, Next(s, step).procs[q])
  {
  }

  lemma OwnStaysOrCleans(c: Claim, s: State, step: Step)
    requires IsBystander(c, step) && !step.Proceed? && c.p in Next(s, step).procs
    ensures c.p in s.procs
    ensures var was, now := s.procs[c.p], Next(s, step).procs[c.p];
            now == was || (was.CleaningUp? && now.CleaningUp?)
  {
  }

  lemma OtherStep(c: Claim, s: State, step: Step)
    requires IsUnderWay(c, s) && IsBystander(c, step) && !step.Proceed?
    ensures IsUnderWay(c, Next(s, step))
  {
    var n := Next(s, step);
    RowStandsBy(c, s, step);
    StartsHandsOff(c, s, step);
    OnlyReservingAdds(s, step, c.tenant, c.lesson);
    if c.p in n.procs {
      OwnStaysOrCleans(c, s, step);
      StillItsOwn(c, s, n, s.procs[c.p]);
    }
  }

  lemma {:induction false} StaysUnderWay(c: Claim, s: State, steps: seq<Step>)
    requires IsUnderWay(c, s) && forall i :: 0 <= i < |steps| ==> IsBystander(c, steps[i])
    ensures IsUnderWay(c, RunFrom(s, steps))
  {
    if steps != [] {
      var before, last := RunFrom(s, steps[..|steps| - 1]), steps[|steps| - 1];
      StaysUnderWay(c, s, steps[..|steps| - 1]);
      if !last.Proceed? {
        OtherStep(c, before, last);
      } else if last.p in before.procs {
        if last.p == c.p { OwnProceeds(c, before, last.ok); } else { OtherProceeds(c, before, last.p, last.ok); }
      }
    }
  }

  lemma StartIsUnderWay(c: Claim, s: State)
    requires c.p !in s.procs && RowStands(c, s) && s.rows[c.rid].key.Some?
    requires forall q :: q in s.procs ==> HandsOff(c, s.procs[q])
    ensures var started := Next(s, StartComplete(c.p, c.tenant, c.lesson, c.rid, true));
            IsUnderWay(c, started) && started.rows == s.rows && started.used == s.used
  {
  }

  lemma OneOrNone(c: Claim, n: State)
    requires RowStands(c, n) && AudioOn(n.rows, c.tenant, c.lesson) <= {c.rid}
    ensures AudioOn(n.rows, c.tenant, c.lesson) == if c.kind == Audio then {c.rid} else {}
  {
  }

  lemma RowsAreUsed(s: State)
    requires Inv(s)
    ensures forall id :: id in s.rows ==> id in s.used
  {
    forall id | id in s.rows ensures id in s.used { assert RowOk(s, id); }
  }

  /** From its first transaction to its clean-up, through every interleaving with bystanders and
      from every state a run can reach: when a completion succeeds, its row is there and ready,
      and it is the one audio row of the lesson exactly when it is audio; otherwise there is
      none. */
  lemma CompletionReplaces(c: Claim, s: State, during: seq<Step>)
    requires Inv(s) && c.p !in s.procs && IsThere(s.rows, c.tenant, c.rid, InLesson(c.lesson))
    requires s.rows[c.rid].key.Some? && s.rows[c.rid].kind == c.kind
    requires forall q :: q in s.procs ==> HandsOff(c, s.procs[q])
    requires forall i :: 0 <= i < |during| ==> IsBystander(c, during[i])
    ensures var n := RunFrom(Next(s, StartComplete(c.p, c.tenant, c.lesson, c.rid, true)), during);
            c.p in n.procs && n.procs[c.p].CleaningUp? ==>
              && IsThere(n.rows, c.tenant, c.rid, InLesson(c.lesson)) && IsReady(n, c.rid)
              && AudioOn(n.rows, c.tenant, c.lesson) == if c.kind == Audio then {c.rid} else {}
  {
    RowsAreUsed(s);
    CompletionEnds(c, s, during);
  }

  lemma CompletionEnds(c: Claim, s: State, during: seq<Step>)
    requires c.p !in s.procs && RowStands(c, s) && s.rows[c.rid].key.Some?
    requires forall id :: id in s.rows ==> id in s.used
    requires forall q :: q in s.procs ==> HandsOff(c, s.procs[q])
    requires forall i :: 0 <= i < |during| ==> IsBystander(c, during[i])
    ensures var n := RunFrom(Next(s, StartComplete(c.p, c.tenant, c.lesson, c.rid, true)), during);
            c.p in n.procs && n.procs[c.p].CleaningUp? ==>
              && IsThere(n.rows, c.tenant, c.rid, InLesson(c.lesson)) && IsReady(n, c.rid)
              && AudioOn(n.rows, c.tenant, c.lesson) == if c.kind == Audio then {c.rid} else {}
  {
    var started := Next(s, StartComplete(c.p, c.tenant, c.lesson, c.rid, true));
    StartIsUnderWay(c, s);
    StaysUnderWay(c, started, during);
    RunKeepsRows(started, during);
    var n := RunFrom(started, during);
    if c.p in n.procs && n.procs[c.p].CleaningUp? { OneOrNone(c, n); }
  }
}
