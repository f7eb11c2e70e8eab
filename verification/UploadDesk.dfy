/** The upload actions as one caller sees them: src/app/(tenant)/teach/actions.ts and
    src/lib/media/attachments.ts run from start to end with nobody else moving. Uploads.dfy
    interleaves the same transactions; `UndisturbedCompletion` ties the two together. */
module UploadDesk {
  import opened Text
  import opened ObjectKeys
  import opened Uploads

  /** `Threw`: the storage refused the key or did not answer, and nothing caught it. */
  datatype Outcome =
    | Done | Denied | NotConfigured | NotArrived | Rejected | Threw
    | Ticket(resourceId: string, key: string)

  /** What a caller who may author the place finds; an empty key is no key. */
  function KeyFor(rows: Rows, tenant: string, place: Place, rid: string, allowed: bool): Option<string> {
    var found := FindKey(rows, tenant, place, rid);
    if allowed && found.Some? && found.value.Some? && found.value.value != "" then found.value else None
  }

  /** The row is there, in this place of this tenant's, and this is its key. */
  predicate IsKeyOf(rows: Rows, tenant: string, place: Place, rid: string, key: string) {
    rid in rows && rows[rid].tenant == tenant && rows[rid].place == place && rows[rid].key == Some(key) && key != ""
  }

  lemma KeyForIff(rows: Rows, tenant: string, place: Place, rid: string, allowed: bool, key: string)
    ensures KeyFor(rows, tenant, place, rid, allowed) == Some(key)
            <==> allowed && IsKeyOf(rows, tenant, place, rid, key)
  {
  }

  /** The bucket once every one of these keys has been tried, the stuck ones in vain. */
  function Emptied(bucket: Bucket, tenant: string, keys: set<string>, stuck: set<string>): Bucket {
    map key | key in bucket && !(key in keys && key !in stuck && KeyBelongsToTenant(key, tenant)) :: bucket[key]
  }

  lemma EmptiedByOneMore(bucket: Bucket, tenant: string, keys: set<string>, key: string, stuck: set<string>)
    ensures Emptied(bucket, tenant, keys + {key}, stuck)
            == DeleteObject(Emptied(bucket, tenant, keys, stuck), tenant, key, key !in stuck)
  {
  }

  /** The keys whose turn has come. */
  ghost function Tried(superseded: map<string, Option<string>>, left: set<string>): set<string> {
    set id | id in superseded && id !in left && superseded[id].Some? :: superseded[id].value
  }

  lemma TriedOneMore(superseded: map<string, Option<string>>, left: set<string>, id: string)
    requires id in superseded && id in left
    ensures Tried(superseded, left - {id})
            == Tried(superseded, left) + (if superseded[id].Some? then {superseded[id].value} else {})
  {
    var more := Tried(superseded, left - {id});
    if superseded[id].Some? {
      assert superseded[id].value in more;
    }
    forall key | key in Tried(superseded, left) ensures key in more {
      var i :| i in superseded && i !in left && superseded[i] == Some(key);
      assert i !in left - {id};
    }
  }

  lemma NothingTried(bucket: Bucket, tenant: string, superseded: map<string, Option<string>>, stuck: set<string>)
    ensures bucket == Emptied(bucket, tenant, Tried(superseded, superseded.Keys), stuck)
  {
  }

  lemma OneMoreTried(bucket: Bucket, tenant: string, superseded: map<string, Option<string>>, left: set<string>,
                     id: string, stuck: set<string>)
    requires id in superseded && id in left
    ensures var now := Emptied(bucket, tenant, Tried(superseded, left), stuck);
            Emptied(bucket, tenant, Tried(superseded, left - {id}), stuck)
            == if superseded[id].None? then now
               else DeleteObject(now, tenant, superseded[id].value, superseded[id].value !in stuck)
  {
    TriedOneMore(superseded, left, id);
    if superseded[id].Some? {
      EmptiedByOneMore(bucket, tenant, Tried(superseded, left), superseded[id].value, stuck);
    } else {
      assert Tried(superseded, left - {id}) == Tried(superseded, left);
    }
  }

  /** What the HEAD and the check make of an upload; a misfit that will not be deleted throws. */
  function Verdict(bucket: Bucket, tenant: string, key: string, audio: bool, stuck: set<string>): Outcome {
    if !KeyBelongsToTenant(key, tenant) then Threw
    else if key !in bucket then NotArrived
    else if if audio then bucket[key].audioOk else bucket[key].documentOk then Done
    else if key in stuck then Threw
    else Rejected
  }

  /** What the check found of an object that is there and signed for: recordings are held to one
      list, documents to the other. */
  lemma VerdictExactly(bucket: Bucket, tenant: string, key: string, stuck: set<string>)
    requires KeyBelongsToTenant(key, tenant)
    ensures var heard, read := Verdict(bucket, tenant, key, true, stuck), Verdict(bucket, tenant, key, false, stuck);
            && (heard == Done <==> key in bucket && bucket[key].audioOk)
            && (read == Done <==> key in bucket && bucket[key].documentOk)
            && (heard == NotArrived <==> key !in bucket) && (read == NotArrived <==> key !in bucket)
            && (heard == Rejected <==> key in bucket && !bucket[key].audioOk && key !in stuck)
            && (read == Rejected <==> key in bucket && !bucket[key].documentOk && key !in stuck)
            && (heard == Threw <==> key in bucket && !bucket[key].audioOk && key in stuck)
            && (read == Threw <==> key in bucket && !bucket[key].documentOk && key in stuck)
  {
  }

  class MediaDesk {
    const configured: bool
    var rows: Rows
    var bucket: Bucket

    constructor (configured: bool, rows: Rows, bucket: Bucket)
      ensures this.configured == configured && this.rows == rows && this.bucket == bucket
    {
      this.configured, this.rows, this.bucket := configured, rows, bucket;
    }

    /** requestUploadAction and reserveAttachment: the row first, then the signature. A name
        that keeps two dots together leaves the row behind and no ticket. */
    method Reserve(tenant: string, place: Place, kind: Kind, rid: string, filename: string, checked: bool,
                   allowed: bool) returns (outcome: Outcome)
      requires rid !in rows && IsPlainId(tenant) && IsPlainId(rid)
      modifies this`rows
      ensures outcome.Ticket? <==>
                configured && checked && allowed && !HasDotDot(SanitizeFilename(filename))
      ensures outcome.Ticket? ==> outcome == Ticket(rid, BuildObjectKey(tenant, Lesson, rid, filename))
      ensures configured && checked && allowed ==>
                var key := BuildObjectKey(tenant, Lesson, rid, filename);
                rows == old(rows)[rid := Row(tenant, place, kind, Some(key), None)]
      ensures !(configured && checked && allowed) ==> rows == old(rows)
    {
      if !configured { return NotConfigured; }
      if !checked { return Rejected; }
      if !allowed { return Denied; }
      var key := BuildObjectKey(tenant, Lesson, rid, filename);
      rows := rows[rid := Row(tenant, place, kind, Some(key), None)];
      BuiltKeyBelongsIff(tenant, Lesson, rid, filename);
      if !KeyBelongsToTenant(key, tenant) { return Threw; }
      return Ticket(rid, key);
    }

    /** The HEAD and the check that completeUploadAction and confirmAttachment share. */
    method Inspect(tenant: string, key: string, audio: bool, stuck: set<string>)
      returns (outcome: Outcome, size: nat)
      modifies this`bucket
      ensures outcome == Verdict(old(bucket), tenant, key, audio, stuck)
      ensures outcome == Done ==> size == old(bucket)[key].byteSize
      ensures bucket == if outcome == Rejected then old(bucket) - {key} else old(bucket)
    {
      size := 0;
      if !KeyBelongsToTenant(key, tenant) { return Threw, size; }
      if key !in bucket { return NotArrived, size; }
      var facts := bucket[key];
      if !(if audio then facts.audioOk else facts.documentOk) {
        bucket := DeleteObject(bucket, tenant, key, key !in stuck);
        return if key in stuck then Threw else Rejected, size;
      }
      return Done, facts.byteSize;
    }

    /** An answer other than Done changes no row and at most its own object. */
    method CompleteUpload(tenant: string, lesson: string, rid: string, allowed: bool, stuck: set<string>)
      returns (outcome: Outcome)
      modifies this
      ensures var key := KeyFor(old(rows), tenant, InLesson(lesson), rid, allowed);
              outcome == if !configured then NotConfigured
                         else if key.None? then Denied
                         else Verdict(old(bucket), tenant, key.value, true, stuck)
      ensures outcome == Done <==>
                configured && allowed &&
                exists key :: IsKeyOf(old(rows), tenant, InLesson(lesson), rid, key) &&
                  KeyBelongsToTenant(key, tenant) && key in old(bucket) && old(bucket)[key].audioOk
      ensures outcome == Rejected <==>
                configured && allowed &&
                exists key :: IsKeyOf(old(rows), tenant, InLesson(lesson), rid, key) &&
                  KeyBelongsToTenant(key, tenant) && key in old(bucket) && !old(bucket)[key].audioOk && key !in stuck
      ensures outcome == Done ==>
                var key := KeyFor(old(rows), tenant, InLesson(lesson), rid, allowed).value;
                var superseded := Superseded(old(rows), tenant, lesson, rid);
                rows == CommitRows(old(rows), tenant, rid, old(bucket)[key].byteSize, superseded.Keys) &&
                bucket == Emptied(old(bucket), tenant, KeysOf(superseded), stuck)
      ensures outcome != Done ==>
                var key := KeyFor(old(rows), tenant, InLesson(lesson), rid, allowed);
                rows == old(rows) &&
                (bucket == old(bucket) ||
                 (outcome == Rejected && key.Some? && bucket == old(bucket) - {key.value}))
    {
      if !configured { return NotConfigured; }
      var key := KeyFor(rows, tenant, InLesson(lesson), rid, allowed);
      if key.None? { return Denied; }
      KeyForIff(rows, tenant, InLesson(lesson), rid, allowed, key.value);
      var size;
      outcome, size := Inspect(tenant, key.value, true, stuck);
      if outcome != Done { return outcome; }
      var superseded := Superseded(rows, tenant, lesson, rid);
      rows := CommitRows(rows, tenant, rid, size, superseded.Keys);
      CleanUp(tenant, superseded, stuck);
    }

    /** The objects last, and one that will not go does not stop the others. */
    method CleanUp(tenant: string, superseded: map<string, Option<string>>, stuck: set<string>)
      modifies this`bucket
      ensures bucket == Emptied(old(bucket), tenant, KeysOf(superseded), stuck)
    {
      var left := superseded.Keys;
      ghost var before := bucket;
      NothingTried(bucket, tenant, superseded, stuck);
      while left != {}
        invariant left <= superseded.Keys
        invariant bucket == Emptied(before, tenant, Tried(superseded, left), stuck)
        decreases |left|
      {
        var id :| id in left;
        OneMoreTried(before, tenant, superseded, left, id, stuck);
        left := left - {id};
        if superseded[id].Some? {
          bucket := DeleteObject(bucket, tenant, superseded[id].value, superseded[id].value !in stuck);
        }
      }
      assert Tried(superseded, {}) == KeysOf(superseded);
    }

    method ConfirmAttachment(tenant: string, place: Place, rid: string, allowed: bool, stuck: set<string>)
      returns (outcome: Outcome)
      modifies this
      ensures var key := KeyFor(old(rows), tenant, place, rid, allowed);
              (outcome == if key.None? then Denied
                          else if !configured then Threw
                          else Verdict(old(bucket), tenant, key.value, false, stuck)) &&
              (outcome == Done <==>
                 key.Some? && configured && KeyBelongsToTenant(key.value, tenant) && key.value in old(bucket) &&
                 old(bucket)[key.value].documentOk) &&
              (outcome == Rejected <==>
                 key.Some? && configured && KeyBelongsToTenant(key.value, tenant) && key.value in old(bucket) &&
                 !old(bucket)[key.value].documentOk && key.value !in stuck) &&
              (outcome == Done ==>
                 rows == SetSize(old(rows), tenant, rid, old(bucket)[key.value].byteSize) && bucket == old(bucket)) &&
              (outcome != Done ==>
                 rows == old(rows) &&
                 (bucket == old(bucket) || (outcome == Rejected && key.Some? && bucket == old(bucket) - {key.value})))
    {
      var key := KeyFor(rows, tenant, place, rid, allowed);
      if key.None? { return Denied; }
      if !configured { return Threw; }
      var size;
      outcome, size := Inspect(tenant, key.value, false, stuck);
      if outcome == Done { rows := SetSize(rows, tenant, rid, size); }
    }

    /** removeResourceAction: the object first, and the row goes whatever became of it. A link
        has no key and is denied. */
    method RemoveResource(tenant: string, lesson: string, rid: string, allowed: bool, stuck: set<string>)
      returns (outcome: Outcome)
      modifies this
      ensures var key := KeyFor(old(rows), tenant, InLesson(lesson), rid, allowed);
              outcome == (if key.None? then Denied else Done) &&
              rows == (if key.None? then old(rows) else old(rows) - {rid}) &&
              bucket == (if key.Some? && configured && key.value !in stuck && KeyBelongsToTenant(key.value, tenant)
                         then old(bucket) - {key.value} else old(bucket))
    {
      var key := KeyFor(rows, tenant, InLesson(lesson), rid, allowed);
      if key.None? { return Denied; }
      if configured { bucket := DeleteObject(bucket, tenant, key.value, key.value !in stuck); }
      rows := DeleteRows(rows, tenant, {rid});
      return Done;
    }

    /** removeAttachment: the row first. A link goes too, and touches no object. */
    method RemoveAttachment(tenant: string, place: Place, rid: string, allowed: bool, stuck: set<string>)
      returns (outcome: Outcome)
      modifies this
      ensures outcome == if allowed && IsThere(old(rows), tenant, rid, place) then Done else Denied
      ensures rows == if outcome == Done then old(rows) - {rid} else old(rows)
      ensures var key := KeyFor(old(rows), tenant, place, rid, allowed);
              bucket == if key.Some? && configured && key.value !in stuck && KeyBelongsToTenant(key.value, tenant)
                        then old(bucket) - {key.value} else old(bucket)
    {
      var found := FindKey(rows, tenant, place, rid);
      if !allowed || found.None? { return Denied; }
      rows := DeleteRows(rows, tenant, {rid});
      if found.value.Some? && found.value.value != "" && configured {
        bucket := DeleteObject(bucket, tenant, found.value.value, found.value.value !in stuck);
      }
      return Done;
    }
  }

  // ---- Replace means replace --------------------------------------------------------

  function Completed(rows: Rows, tenant: string, lesson: string, rid: string, size: nat): Rows {
    CommitRows(rows, tenant, rid, size, Superseded(rows, tenant, lesson, rid).Keys)
  }

  /** The desk's completion leaves its row the one audio row of the lesson, ready, and every
      other kind, lesson and institute as it was. The kind of its own row is never looked at,
      so that holds exactly when that row is audio: completing a document removes the
      recording. What is left of this while others move is in Replacement.dfy. */
  lemma ReplaceMeansReplace(rows: Rows, tenant: string, lesson: string, rid: string, size: nat)
    requires IsThere(rows, tenant, rid, InLesson(lesson))
    ensures var n := Completed(rows, tenant, lesson, rid, size);
            && (AudioOn(n, tenant, lesson) == {rid} <==> rows[rid].kind == Audio)
            && (AudioOn(n, tenant, lesson) == {} <==> rows[rid].kind != Audio)
            && rid in n && n[rid] == rows[rid].(size := Some(size))
            && (forall id :: id in n <==> id in rows && (id == rid || id !in AudioOn(rows, tenant, lesson)))
            && (forall id :: id in n && id != rid ==> n[id] == rows[id])
  {
    var n := Completed(rows, tenant, lesson, rid, size);
    forall id | id in rows
      ensures id in n <==> id == rid || id !in AudioOn(rows, tenant, lesson)
    {
      assert id in Superseded(rows, tenant, lesson, rid).Keys <==> id in AudioOn(rows, tenant, lesson) && id != rid;
    }
    if rows[rid].kind == Audio {
      assert rid in AudioOn(n, tenant, lesson);
      assert AudioOn(n, tenant, lesson) == {rid};
    } else {
      assert AudioOn(n, tenant, lesson) == {};
    }
  }

  /** What was said of the rows at the desk is what the protocol does when nobody else moves:
      three transactions and the object check, ending in the clean-up. */
  lemma UndisturbedCompletion(s: State, p: nat, tenant: string, lesson: string, rid: string)
    requires p !in s.procs && IsThere(s.rows, tenant, rid, InLesson(lesson)) && s.rows[rid].key.Some?
    requires KeyBelongsToTenant(s.rows[rid].key.value, tenant) && s.rows[rid].key.value in s.bucket
    requires s.bucket[s.rows[rid].key.value].audioOk
    ensures var n := Next(Next(Next(Next(s, StartComplete(p, tenant, lesson, rid, true)),
                                    Proceed(p, true)), Proceed(p, true)), Proceed(p, true));
            n.rows == Completed(s.rows, tenant, lesson, rid, s.bucket[s.rows[rid].key.value].byteSize) &&
            n.bucket == s.bucket && p in n.procs &&
            n.procs[p] == CleaningUp(tenant, KeysOf(Superseded(s.rows, tenant, lesson, rid)))
  {
  }
}
