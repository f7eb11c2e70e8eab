/** The desk's answers and the protocol's processes: what UploadDesk.dfy says one caller gets is
    where Uploads.dfy takes the same action when nobody else moves. */
module DeskProtocol {
  import opened Text
  import opened ObjectKeys
  import opened Uploads
  import opened UploadDesk

  /** A process p may begin on this row's key. */
  ghost predicate MayBegin(s: State, p: nat, tenant: string, place: Place, rid: string, key: string) {
    p !in s.procs && IsKeyOf(s.rows, tenant, place, rid, key) && KeyBelongsToTenant(key, tenant)
  }

  /** A reservation writes its row, and a browser can send the file exactly when the desk hands
      out a ticket for it: when the sanitised name has no pair of dots. */
  lemma UndisturbedReservation(s: State, tenant: string, place: Place, kind: Kind, rid: string, filename: string,
                               facts: Facts)
    requires rid !in s.used && IsUuid(rid) && IsUuid(tenant)
    ensures var n := Next(s, Reserve(tenant, place, kind, rid, filename, true));
            var key := BuildObjectKey(tenant, Lesson, rid, filename);
            && n.rows == s.rows[rid := Row(tenant, place, kind, Some(key), None)] && n.bucket == s.bucket
            && n.tickets == (if HasDotDot(SanitizeFilename(filename)) then s.tickets else s.tickets + {key})
            && Next(n, Put(key, facts)).bucket == (if key in n.tickets then s.bucket[key := facts] else s.bucket)
            && Next(s, Reserve(tenant, place, kind, rid, filename, false)) == s
  {
    UuidIsPlain(tenant);
    UuidIsPlain(rid);
    BuiltKeyBelongsIff(tenant, Lesson, rid, filename);
  }

  lemma UuidIsPlain(s: string)
    requires IsUuid(s)
    ensures IsPlainId(s)
  {
  }

  /** A completion after its check. */
  function Completing(s: State, p: nat, tenant: string, lesson: string, rid: string): State {
    Next(Next(s, StartComplete(p, tenant, lesson, rid, true)), Proceed(p, true))
  }

  function Confirmed(s: State, p: nat, tenant: string, place: Place, rid: string): State {
    Next(Next(s, StartConfirm(p, tenant, place, rid, true)), Proceed(p, true))
  }

  /** Of a recording: Done at the desk is on its way to the commit, NotArrived an end with
      nothing changed, and Rejected (or Threw, where the object is stuck) one step from losing
      the object. Which of these it is, the object's fitness as audio alone decides. */
  lemma RecordingIsChecked(s: State, p: nat, tenant: string, lesson: string, rid: string, key: string,
                           stuck: set<string>)
    requires MayBegin(s, p, tenant, InLesson(lesson), rid, key)
    ensures var n := Completing(s, p, tenant, lesson, rid);
            var answer := Verdict(s.bucket, tenant, key, true, stuck);
            && n.rows == s.rows && n.bucket == s.bucket
            && (answer == Done <==> p in n.procs && n.procs[p].Collecting?)
            && (answer == Done ==> n.procs[p] == Collecting(tenant, lesson, rid, key, s.bucket[key].byteSize))
            && (answer == NotArrived <==> p !in n.procs)
            && (answer == Rejected || answer == Threw <==> p in n.procs && n.procs[p] == Rejecting(tenant, rid, key))
            && (answer == Rejected || answer == Threw <==> key in s.bucket && !s.bucket[key].audioOk)
  {
  }

  /** Of a document, the same with its fitness as a document. */
  lemma DocumentIsChecked(s: State, p: nat, tenant: string, place: Place, rid: string, key: string,
                          stuck: set<string>)
    requires MayBegin(s, p, tenant, place, rid, key)
    ensures var n := Confirmed(s, p, tenant, place, rid);
            var answer := Verdict(s.bucket, tenant, key, false, stuck);
            && n.rows == s.rows && n.bucket == s.bucket
            && (answer == Done <==> p in n.procs && n.procs[p].Confirming?)
            && (answer == Done ==> n.procs[p] == Confirming(tenant, rid, key, s.bucket[key].byteSize))
            && (answer == NotArrived <==> p !in n.procs)
            && (answer == Rejected || answer == Threw <==> p in n.procs && n.procs[p] == Rejecting(tenant, rid, key))
            && (answer == Rejected || answer == Threw <==> key in s.bucket && !s.bucket[key].documentOk)
  {
  }

  /** A key that is not the tenant's own throws at the desk and ends the process there and then,
      recording or document, whatever is in the bucket. */
  lemma StrangeKeysThrow(s: State, p: nat, tenant: string, place: Place, rid: string, key: string, audio: bool,
                         stuck: set<string>)
    requires p in s.procs && s.procs[p] == Checking(tenant, place, rid, key, audio) && (audio ==> place.InLesson?)
    ensures !KeyBelongsToTenant(key, tenant) ==>
              Verdict(s.bucket, tenant, key, audio, stuck) == Threw && Next(s, Proceed(p, true)) == Exit(s, p)
  {
  }

  /** A process about to reject ends with the bucket the desk leaves: without the object if it
      could be deleted, as it was if not. */
  lemma RejectionEnds(s: State, p: nat, tenant: string, rid: string, key: string, stuck: set<string>)
    requires p in s.procs && s.procs[p] == Rejecting(tenant, rid, key) && KeyBelongsToTenant(key, tenant)
    ensures var n := Next(s, Proceed(p, key !in stuck));
            && p !in n.procs && n.rows == s.rows
            && n.bucket == (if key in stuck then s.bucket else s.bucket - {key})
            && n.rejected == (if key in stuck then s.rejected else s.rejected + {rid})
  {
  }

  /** A document that passed ends with its size recorded, in the bucket as it was. */
  lemma UndisturbedConfirmation(s: State, p: nat, tenant: string, place: Place, rid: string, key: string)
    requires MayBegin(s, p, tenant, place, rid, key) && key in s.bucket && s.bucket[key].documentOk
    ensures var n := Next(Confirmed(s, p, tenant, place, rid), Proceed(p, true));
            && p !in n.procs && n.bucket == s.bucket
            && n.rows == s.rows[rid := s.rows[rid].(size := Some(s.bucket[key].byteSize))]
  {
    DocumentIsChecked(s, p, tenant, place, rid, key, {});
  }

  // ---- The rest of a completion -----------------------------------------------------

  /** The clean-up of p, key by key in some order. */
  function CleanUpOf(p: nat, keys: seq<string>, stuck: set<string>): seq<Step> {
    if keys == [] then []
    else CleanUpOf(p, keys[..|keys| - 1], stuck) + [CleanOne(p, keys[|keys| - 1], keys[|keys| - 1] !in stuck)]
  }

  function Listed(keys: seq<string>): set<string> {
    set k | k in keys
  }

  lemma ListedOneMore(front: seq<string>, last: string)
    ensures Listed(front + [last]) == Listed(front) + {last}
  {
  }

  ghost predicate CleanedUp(s: State, n: State, p: nat, tenant: string, all: set<string>, done: set<string>,
                            stuck: set<string>) {
    && n.rows == s.rows && n.bucket == Emptied(s.bucket, tenant, done, stuck)
    && p in n.procs && n.procs[p] == CleaningUp(tenant, all - done)
  }

  lemma OneMoreCleaned(s: State, n: State, p: nat, tenant: string, all: set<string>, done: set<string>, key: string,
                       stuck: set<string>)
    requires CleanedUp(s, n, p, tenant, all, done, stuck) && key in all
    ensures CleanedUp(s, Next(n, CleanOne(p, key, key !in stuck)), p, tenant, all, done + {key}, stuck)
  {
    EmptiedByOneMore(s.bucket, tenant, done, key, stuck);
    if key in done {
      assert done + {key} == done;
    } else {
      assert all - done - {key} == all - (done + {key});
    }
  }

  /** Whatever order it takes them in, the clean-up leaves the bucket the desk's loop leaves. */
  lemma {:induction false} UndisturbedCleanUp(s: State, p: nat, tenant: string, all: set<string>, keys: seq<string>,
                                              stuck: set<string>)
    requires p in s.procs && s.procs[p] == CleaningUp(tenant, all) && Listed(keys) <= all
    ensures CleanedUp(s, RunFrom(s, CleanUpOf(p, keys, stuck)), p, tenant, all, Listed(keys), stuck)
  {
    if keys == [] {
      assert Emptied(s.bucket, tenant, {}, stuck) == s.bucket;
      assert all - {} == all;
    } else {
      var front, last := keys[..|keys| - 1], keys[|keys| - 1];
      assert keys == front + [last];
      ListedOneMore(front, last);
      UndisturbedCleanUp(s, p, tenant, all, front, stuck);
      OneMoreCleaned(s, RunFrom(s, CleanUpOf(p, front, stuck)), p, tenant, all, Listed(front), last, stuck);
      RunOneMore(s, CleanUpOf(p, front, stuck), CleanOne(p, last, last !in stuck));
    }
  }

  lemma RunOneMore(s: State, steps: seq<Step>, step: Step)
    ensures RunFrom(s, steps + [step]) == Next(RunFrom(s, steps), step)
  {
    assert (steps + [step])[..|steps|] == steps;
  }

  // ---- Removals ---------------------------------------------------------------------

  /** The object first and then the row, as `RemoveResource` says. */
  lemma UndisturbedRemoval(s: State, p: nat, tenant: string, lesson: string, rid: string, key: string,
                           stuck: set<string>)
    requires MayBegin(s, p, tenant, InLesson(lesson), rid, key)
    ensures var n := Next(Next(Next(s, StartRemove(p, tenant, lesson, rid, true)), Proceed(p, key !in stuck)),
                          Proceed(p, true));
            && p !in n.procs && n.rows == s.rows - {rid}
            && n.bucket == if key in stuck then s.bucket else s.bucket - {key}
  {
  }

  /** The row first and then the object, as `RemoveAttachment` says. */
  lemma UndisturbedDetachment(s: State, p: nat, tenant: string, place: Place, rid: string, key: string,
                              stuck: set<string>)
    requires MayBegin(s, p, tenant, place, rid, key)
    ensures var n := Next(Next(s, Detach(p, tenant, place, rid, true)), Proceed(p, key !in stuck));
            && p !in n.procs && n.rows == s.rows - {rid}
            && n.bucket == if key in stuck then s.bucket else s.bucket - {key}
  {
  }
}
