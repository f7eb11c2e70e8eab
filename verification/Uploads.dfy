/** Uploading, confirming, replacing and removing media: src/app/(tenant)/teach/actions.ts
    and src/lib/media/attachments.ts.

    The database and the bucket share no transaction. A process is where a server action has
    got to; between any two of its steps others move, browsers send files, and it may die. */
module Uploads {
  import opened Text
  import opened ObjectKeys

  datatype Place = InCourse(id: string) | InLesson(id: string)
  datatype Kind = Audio | Video | Pdf | Link

  /** What a HEAD reports, and what `checkUpload` would say of it for either use. */
  datatype Facts = Facts(byteSize: nat, audioOk: bool, documentOk: bool)

  /** lesson_resources and course_resources, told apart by their place. */
  datatype Row = Row(tenant: string, place: Place, kind: Kind, key: Option<string>, size: Option<nat>)

  type Rows = map<string, Row>
  type Bucket = map<string, Facts>

  /** Ids and tenant ids are uuids. */
  predicate IsUuid(s: string) {
    forall i :: 0 <= i < |s| ==> '0' <= s[i] <= '9' || 'a' <= s[i] <= 'f' || 'A' <= s[i] <= 'F' || s[i] == '-'
  }

  // ---- The transactions -------------------------------------------------------------

  predicate IsThere(rows: Rows, tenant: string, rid: string, place: Place) {
    rid in rows && rows[rid].tenant == tenant && rows[rid].place == place
  }

  /** None: no such row here. Some(None): a link. */
  function FindKey(rows: Rows, tenant: string, place: Place, rid: string): Option<Option<string>> {
    if IsThere(rows, tenant, rid, place) then Some(rows[rid].key) else None
  }

  function AudioOn(rows: Rows, tenant: string, lesson: string): set<string> {
    set id | id in rows && rows[id].tenant == tenant && rows[id].place == InLesson(lesson) && rows[id].kind == Audio
  }

  function Superseded(rows: Rows, tenant: string, lesson: string, rid: string): map<string, Option<string>> {
    map id | id in rows && id in AudioOn(rows, tenant, lesson) && id != rid :: rows[id].key
  }

  function SetSize(rows: Rows, tenant: string, rid: string, size: nat): Rows {
    if rid in rows && rows[rid].tenant == tenant then rows[rid := rows[rid].(size := Some(size))] else rows
  }

  function DeleteRows(rows: Rows, tenant: string, ids: set<string>): Rows {
    map id | id in rows && !(id in ids && rows[id].tenant == tenant) :: rows[id]
  }

  function CommitRows(rows: Rows, tenant: string, rid: string, size: nat, superseded: set<string>): Rows {
    DeleteRows(SetSize(rows, tenant, rid, size), tenant, superseded)
  }

  /** `deleteObject`: refuses a key outside the tenant's prefix, and may fail. */
  function DeleteObject(bucket: Bucket, tenant: string, key: string, ok: bool): Bucket {
    if ok && KeyBelongsToTenant(key, tenant) then bucket - {key} else bucket
  }

  function KeysOf(superseded: map<string, Option<string>>): set<string> {
    set id | id in superseded && superseded[id].Some? :: superseded[id].value
  }

  // ---- The protocol -----------------------------------------------------------------

  datatype Proc =
    | Checking(tenant: string, place: Place, rid: string, key: string, audio: bool)
    | Rejecting(tenant: string, rid: string, key: string)
    | Collecting(tenant: string, lesson: string, rid: string, key: string, size: nat)
    | Committing(tenant: string, lesson: string, rid: string, key: string, size: nat,
                 superseded: map<string, Option<string>>)
    | CleaningUp(tenant: string, keys: set<string>)
    | Confirming(tenant: string, rid: string, key: string, size: nat)
    | RemovingObject(tenant: string, rid: string, key: string)
    | RemovingRow(tenant: string, rid: string)
    | DetachingObject(tenant: string, key: string)

  /** `used`: every id ever given out. `tickets`: every key a PUT was ever signed for.
      `removing`, `rejected`: the rows a removeResourceAction has started on, and those whose
      object was refused by the check and is known to have been deleted for it. */
  datatype State = State(rows: Rows, bucket: Bucket, procs: map<nat, Proc>, used: set<string>,
                         tickets: set<string>, removing: set<string>, rejected: set<string>)

  const EMPTY := State(map[], map[], map[], {}, {}, {}, {})

  datatype Step =
    | Reserve(tenant: string, place: Place, kind: Kind, rid: string, filename: string, allowed: bool)
    | AddLink(tenant: string, place: Place, rid: string, allowed: bool)
    | Put(key: string, facts: Facts)
    | StartComplete(p: nat, tenant: string, lesson: string, rid: string, allowed: bool)
    | StartConfirm(p: nat, tenant: string, place: Place, rid: string, allowed: bool)
    | StartRemove(p: nat, tenant: string, lesson: string, rid: string, allowed: bool)
    | Detach(p: nat, tenant: string, place: Place, rid: string, allowed: bool)
    | Proceed(p: nat, ok: bool)
    | CleanOne(p: nat, key: string, ok: bool)
    | Crash(p: nat)

  function Spawn(s: State, p: nat, proc: Proc): State {
    s.(procs := s.procs[p := proc])
  }

  function Exit(s: State, p: nat): State {
    s.(procs := s.procs - {p})
  }

  /** The key of an uploaded row, when the caller may author it and it has one. */
  function OwnKey(s: State, tenant: string, place: Place, rid: string, allowed: bool): Option<string> {
    var found := FindKey(s.rows, tenant, place, rid);
    if allowed && found.Some? then found.value else None
  }

  function ReserveRow(s: State, tenant: string, place: Place, kind: Kind, rid: string, filename: string): State {
    var key := BuildObjectKey(tenant, Lesson, rid, filename);
    s.(rows := s.rows[rid := Row(tenant, place, kind, Some(key), None)], used := s.used + {rid},
       tickets := if KeyBelongsToTenant(key, tenant) then s.tickets + {key} else s.tickets)
  }

  function Advance(s: State, p: nat, proc: Proc, ok: bool): State {
    match proc
    case Checking(tenant, place, rid, key, audio) =>
      if !ok || !KeyBelongsToTenant(key, tenant) || key !in s.bucket then Exit(s, p)
      else
        var facts := s.bucket[key];
        if !(if audio then facts.audioOk else facts.documentOk) then Spawn(s, p, Rejecting(tenant, rid, key))
        else if audio then Spawn(s, p, Collecting(tenant, place.id, rid, key, facts.byteSize))
        else Spawn(s, p, Confirming(tenant, rid, key, facts.byteSize))
    case Rejecting(tenant, rid, key) =>
      Exit(s.(bucket := DeleteObject(s.bucket, tenant, key, ok),
              rejected := if ok && KeyBelongsToTenant(key, tenant) then s.rejected + {rid} else s.rejected), p)
    case Collecting(tenant, lesson, rid, key, size) =>
      Spawn(s, p, Committing(tenant, lesson, rid, key, size, Superseded(s.rows, tenant, lesson, rid)))
    case Committing(tenant, lesson, rid, key, size, superseded) =>
      Spawn(s.(rows := CommitRows(s.rows, tenant, rid, size, superseded.Keys)), p,
            CleaningUp(tenant, KeysOf(superseded)))
    case CleaningUp(_, _) => s
    case Confirming(tenant, rid, key, size) =>
      Exit(s.(rows := SetSize(s.rows, tenant, rid, size)), p)
    case RemovingObject(tenant, rid, key) =>
      Spawn(s.(bucket := DeleteObject(s.bucket, tenant, key, ok)), p, RemovingRow(tenant, rid))
    case RemovingRow(tenant, rid) =>
      Exit(s.(rows := DeleteRows(s.rows, tenant, {rid})), p)
    case DetachingObject(tenant, key) =>
      Exit(s.(bucket := DeleteObject(s.bucket, tenant, key, ok)), p)
  }

  function Next(s: State, step: Step): State {
    match step
    case Reserve(tenant, place, kind, rid, filename, allowed) =>
      if allowed && rid !in s.used && IsUuid(rid) && IsUuid(tenant) then
        ReserveRow(s, tenant, place, kind, rid, filename)
      else s
    case AddLink(tenant, place, rid, allowed) =>
      if allowed && rid !in s.used && IsUuid(rid) && IsUuid(tenant) then
        s.(rows := s.rows[rid := Row(tenant, place, Link, None, Some(0))], used := s.used + {rid})
      else s
    case Put(key, facts) => if key in s.tickets then s.(bucket := s.bucket[key := facts]) else s
    case StartComplete(p, tenant, lesson, rid, allowed) =>
      var key := OwnKey(s, tenant, InLesson(lesson), rid, allowed);
      if p in s.procs || key.None? then s
      else Spawn(s, p, Checking(tenant, InLesson(lesson), rid, key.value, true))
    case StartConfirm(p, tenant, place, rid, allowed) =>
      var key := OwnKey(s, tenant, place, rid, allowed);
      if p in s.procs || key.None? then s else Spawn(s, p, Checking(tenant, place, rid, key.value, false))
    case StartRemove(p, tenant, lesson, rid, allowed) =>
      var key := OwnKey(s, tenant, InLesson(lesson), rid, allowed);
      if p in s.procs || key.None? then s
      else Spawn(s.(removing := s.removing + {rid}), p, RemovingObject(tenant, rid, key.value))
    case Detach(p, tenant, place, rid, allowed) =>
      if p in s.procs || !allowed || !IsThere(s.rows, tenant, rid, place) then s
      else
        var gone := s.(rows := DeleteRows(s.rows, tenant, {rid}));
        if s.rows[rid].key.None? then gone else Spawn(gone, p, DetachingObject(tenant, s.rows[rid].key.value))
    case Proceed(p, ok) => if p in s.procs then Advance(s, p, s.procs[p], ok) else s
    case CleanOne(p, key, ok) =>
      if p in s.procs && s.procs[p].CleaningUp? && key in s.procs[p].keys then
        var c := s.procs[p];
        Spawn(s.(bucket := DeleteObject(s.bucket, c.tenant, key, ok)), p, CleaningUp(c.tenant, c.keys - {key}))
      else s
    case Crash(p) => Exit(s, p)
  }

  function RunFrom(s: State, steps: seq<Step>): State {
    if steps == [] then s else Next(RunFrom(s, steps[..|steps| - 1]), steps[|steps| - 1])
  }

  function Run(steps: seq<Step>): State {
    RunFrom(EMPTY, steps)
  }

  // ---- What every step keeps --------------------------------------------------------

  /** This key was built for this row: the id it carries is the row's. */
  ghost predicate Names(tenant: string, rid: string, key: string) {
    IsUuid(tenant) && IsUuid(rid) && exists f :: key == BuildObjectKey(tenant, Lesson, rid, f)
  }

  lemma NamesOneRow(t: string, rid: string, t': string, rid': string, key: string)
    requires Names(t, rid, key) && Names(t', rid', key)
    ensures rid == rid'
  {
    var f :| key == BuildObjectKey(t, Lesson, rid, f);
    var f' :| key == BuildObjectKey(t', Lesson, rid', f');
    KeyDeterminesItsParts(t, Lesson, rid, f, t', Lesson, rid', f');
  }

  /** The object is there, or one of the two excuses applies to its row. */
  predicate Present(s: State, rid: string, key: string) {
    key in s.bucket || rid in s.removing || rid in s.rejected
  }

  ghost predicate RowOk(s: State, rid: string) {
    rid in s.rows ==>
      rid in s.used &&
      (s.rows[rid].key.Some? ==>
         Names(s.rows[rid].tenant, rid, s.rows[rid].key.value) &&
         (s.rows[rid].size.Some? ==> Present(s, rid, s.rows[rid].key.value)))
  }

  /** A process that remembers this row's key remembers it rightly. */
  ghost predicate Bound(s: State, tenant: string, rid: string, key: string) {
    rid in s.used && Names(tenant, rid, key) &&
    (rid in s.rows ==> s.rows[rid].tenant == tenant && s.rows[rid].key == Some(key))
  }

  /** The key of a row that is gone for good. */
  ghost predicate Orphan(s: State, tenant: string, key: string) {
    exists rid :: rid in s.used && rid !in s.rows && Names(tenant, rid, key)
  }

  ghost predicate ReadyToRecord(s: State, tenant: string, rid: string, key: string) {
    Bound(s, tenant, rid, key) && (rid in s.rows ==> Present(s, rid, key))
  }

  ghost predicate SupersededOk(s: State, tenant: string, rid: string, superseded: map<string, Option<string>>) {
    forall id :: id in superseded ==>
      id != rid && id in s.used && (superseded[id].Some? ==> Names(tenant, id, superseded[id].value)) &&
      (id in s.rows ==> s.rows[id].tenant == tenant && s.rows[id].key == superseded[id])
  }

  ghost predicate ProcOk(s: State, proc: Proc) {
    match proc
    case Checking(tenant, _, rid, key, _) => Bound(s, tenant, rid, key)
    case Rejecting(tenant, rid, key) => Bound(s, tenant, rid, key)
    case Collecting(tenant, _, rid, key, _) => ReadyToRecord(s, tenant, rid, key)
    case Committing(tenant, _, rid, key, _, superseded) =>
      ReadyToRecord(s, tenant, rid, key) && SupersededOk(s, tenant, rid, superseded)
    case CleaningUp(tenant, keys) => forall key :: key in keys ==> Orphan(s, tenant, key)
    case Confirming(tenant, rid, key, _) => ReadyToRecord(s, tenant, rid, key)
    case RemovingObject(tenant, rid, key) => Bound(s, tenant, rid, key) && rid in s.removing
    case RemovingRow(_, rid) => rid in s.removing
    case DetachingObject(tenant, key) => Orphan(s, tenant, key)
  }

  ghost predicate Inv(s: State) {
    (forall rid :: rid in s.rows ==> RowOk(s, rid)) &&
    (forall p :: p in s.procs ==> ProcOk(s, s.procs[p]))
  }

  /** How the state may move under a process that is not looking: ids are never given out
      twice, rows keep tenant and key, and no surviving row loses its object unexcused. */
  ghost predicate Later(s: State, n: State) {
    && s.used <= n.used && s.removing <= n.removing && s.rejected <= n.rejected
    && (forall rid :: rid in n.rows && rid in s.used ==>
          rid in s.rows && n.rows[rid].tenant == s.rows[rid].tenant && n.rows[rid].key == s.rows[rid].key)
    && (forall t, rid, key :: Names(t, rid, key) && rid in n.rows && rid in s.rows && Present(s, rid, key)
          ==> Present(n, rid, key))
  }

  lemma LaterKeepsProc(s: State, n: State, proc: Proc)
    requires Later(s, n) && ProcOk(s, proc)
    ensures ProcOk(n, proc)
  {
  }

  /** Rows of the new state are in order when those whose size was just written have their
      object. */
  lemma LaterKeepsRows(s: State, n: State, written: set<string>)
    requires Later(s, n) && Inv(s)
    requires forall rid :: rid in n.rows && rid !in written ==> rid in s.rows && n.rows[rid].size == s.rows[rid].size
    requires forall rid :: rid in written ==> RowOk(n, rid)
    ensures forall rid :: rid in n.rows ==> RowOk(n, rid)
  {
    forall rid | rid in n.rows ensures RowOk(n, rid) {
      if rid !in written { assert RowOk(s, rid); }
    }
  }

  lemma Close(s: State, n: State, written: set<string>, p: nat)
    requires Later(s, n) && Inv(s)
    requires forall rid :: rid in n.rows && rid !in written ==> rid in s.rows && n.rows[rid].size == s.rows[rid].size
    requires forall rid :: rid in written ==> RowOk(n, rid)
    requires forall q :: q in n.procs && q != p ==> q in s.procs && n.procs[q] == s.procs[q]
    requires p in n.procs ==> ProcOk(n, n.procs[p])
    ensures Inv(n)
  {
    LaterKeepsRows(s, n, written);
    forall q | q in n.procs ensures ProcOk(n, n.procs[q]) {
      if q != p { LaterKeepsProc(s, n, s.procs[q]); }
    }
  }

  /** Deleting an object touches no other row's: keys carry the id of their row. */
  lemma DeleteIsLater(s: State, n: State, tenant: string, rid: string, key: string, ok: bool)
    requires Names(tenant, rid, key)
    requires n.rows == s.rows && n.used == s.used && n.bucket == DeleteObject(s.bucket, tenant, key, ok)
    requires s.removing <= n.removing && s.rejected <= n.rejected
    requires rid !in s.rows || rid in n.removing || rid in n.rejected || n.bucket == s.bucket
    ensures Later(s, n)
  {
    forall t, other, k | Names(t, other, k) && other in n.rows && Present(s, other, k)
      ensures Present(n, other, k)
    {
      if k == key { NamesOneRow(tenant, rid, t, other, key); }
    }
  }

  lemma ReserveKeeps(s: State, tenant: string, place: Place, kind: Kind, rid: string, filename: string)
    requires Inv(s) && rid !in s.used && IsUuid(rid) && IsUuid(tenant)
    ensures Inv(ReserveRow(s, tenant, place, kind, rid, filename))
  {
    var n := ReserveRow(s, tenant, place, kind, rid, filename);
    var key := BuildObjectKey(tenant, Lesson, rid, filename);
    assert Names(tenant, rid, key);
    assert RowOk(n, rid);
    NoProcess(s, n, {rid});
  }

  /** A step that is no process's own. */
  lemma NoProcess(s: State, n: State, written: set<string>)
    requires Later(s, n) && Inv(s)
    requires forall rid :: rid in n.rows && rid !in written ==> rid in s.rows && n.rows[rid].size == s.rows[rid].size
    requires forall rid :: rid in written ==> RowOk(n, rid)
    requires forall q :: q in n.procs ==> q in s.procs && n.procs[q] == s.procs[q]
    ensures Inv(n)
  {
    LaterKeepsRows(s, n, written);
    forall q | q in n.procs ensures ProcOk(n, n.procs[q]) {
      LaterKeepsProc(s, n, s.procs[q]);
    }
  }

  lemma AddLinkKeeps(s: State, tenant: string, place: Place, rid: string)
    requires Inv(s) && rid !in s.used
    ensures Inv(Next(s, AddLink(tenant, place, rid, true)))
  {
    var n := Next(s, AddLink(tenant, place, rid, true));
    if IsUuid(rid) && IsUuid(tenant) {
      assert RowOk(n, rid);
      NoProcess(s, n, {rid});
    }
  }

  lemma OwnKeyIsBound(s: State, tenant: string, place: Place, rid: string)
    requires Inv(s) && OwnKey(s, tenant, place, rid, true).Some?
    ensures Bound(s, tenant, rid, OwnKey(s, tenant, place, rid, true).value)
  {
  }

  lemma StartKeeps(s: State, p: nat, proc: Proc, removing: set<string>)
    requires Inv(s) && p !in s.procs && s.removing <= removing
    requires ProcOk(s.(removing := removing), proc)
    ensures Inv(Spawn(s.(removing := removing), p, proc))
  {
    var n := Spawn(s.(removing := removing), p, proc);
    assert Later(s, n);
    LaterKeepsProc(s.(removing := removing), n, proc);
    Close(s, n, {}, p);
  }

  lemma DeleteRowIsLater(s: State, n: State, tenant: string, ids: set<string>)
    requires n.rows == DeleteRows(s.rows, tenant, ids)
    requires n == s.(rows := n.rows, procs := n.procs)
    ensures Later(s, n)
  {
  }

  lemma DetachKeeps(s: State, p: nat, tenant: string, place: Place, rid: string)
    requires Inv(s) && p !in s.procs && IsThere(s.rows, tenant, rid, place)
    ensures Inv(Next(s, Detach(p, tenant, place, rid, true)))
  {
    var n := Next(s, Detach(p, tenant, place, rid, true));
    DeleteRowIsLater(s, n, tenant, {rid});
    assert RowOk(s, rid);
    if s.rows[rid].key.Some? {
      assert Orphan(n, tenant, s.rows[rid].key.value);
      Close(s, n, {}, p);
    } else {
      NoProcess(s, n, {});
    }
  }

  /** A step that only moves one process on. */
  lemma CloseProcs(s: State, n: State, p: nat)
    requires Inv(s) && n == s.(procs := n.procs)
    requires forall q :: q in n.procs && q != p ==> q in s.procs && n.procs[q] == s.procs[q]
    requires p in n.procs ==> ProcOk(s, n.procs[p])
    ensures Inv(n)
  {
    assert Later(s, n);
    if p in n.procs { LaterKeepsProc(s, n, n.procs[p]); }
    Close(s, n, {}, p);
  }

  lemma CheckingKeeps(s: State, p: nat, ok: bool)
    requires Inv(s) && p in s.procs && s.procs[p].Checking?
    ensures Inv(Advance(s, p, s.procs[p], ok))
  {
    var n := Advance(s, p, s.procs[p], ok);
    assert ProcOk(s, s.procs[p]);
    CloseProcs(s, n, p);
  }

  lemma DeletingKeeps(s: State, p: nat, ok: bool)
    requires Inv(s) && p in s.procs
    requires s.procs[p].Rejecting? || s.procs[p].RemovingObject? || s.procs[p].DetachingObject?
    ensures Inv(Advance(s, p, s.procs[p], ok))
  {
    var proc := s.procs[p];
    var n := Advance(s, p, proc, ok);
    assert ProcOk(s, proc);
    if proc.DetachingObject? {
      var rid :| rid in s.used && rid !in s.rows && Names(proc.tenant, rid, proc.key);
      DeleteIsLater(s, n, proc.tenant, rid, proc.key, ok);
    } else {
      DeleteIsLater(s, n, proc.tenant, proc.rid, proc.key, ok);
    }
    Close(s, n, {}, p);
  }

  lemma OrphanDeleted(s: State, n: State, tenant: string, key: string, ok: bool)
    requires Orphan(s, tenant, key)
    requires n.rows == s.rows && n.used == s.used && n.bucket == DeleteObject(s.bucket, tenant, key, ok)
    requires s.removing == n.removing && s.rejected == n.rejected
    ensures Later(s, n)
  {
    var rid :| rid in s.used && rid !in s.rows && Names(tenant, rid, key);
    DeleteIsLater(s, n, tenant, rid, key, ok);
  }

  /** The keys still to be tried stay orphans. */
  lemma OthersStayOrphans(s: State, n: State, tenant: string, keys: set<string>, key: string)
    requires ProcOk(s, CleaningUp(tenant, keys)) && n.rows == s.rows && n.used == s.used
    ensures ProcOk(n, CleaningUp(tenant, keys - {key}))
  {
    forall k | k in keys - {key} ensures Orphan(n, tenant, k) { assert Orphan(s, tenant, k); }
  }

  lemma CleanOneKeeps(s: State, p: nat, key: string, ok: bool)
    requires Inv(s) && p in s.procs && s.procs[p].CleaningUp? && key in s.procs[p].keys
    ensures Inv(Next(s, CleanOne(p, key, ok)))
  {
    var proc := s.procs[p];
    var n := Next(s, CleanOne(p, key, ok));
    assert ProcOk(s, proc);
    OrphanDeleted(s, n, proc.tenant, key, ok);
    OthersStayOrphans(s, n, proc.tenant, proc.keys, key);
    Close(s, n, {}, p);
  }

  lemma CollectingKeeps(s: State, p: nat, ok: bool)
    requires Inv(s) && p in s.procs && s.procs[p].Collecting?
    ensures Inv(Advance(s, p, s.procs[p], ok))
  {
    var proc := s.procs[p];
    var n := Advance(s, p, proc, ok);
    assert ProcOk(s, proc);
    assert Later(s, n);
    var superseded := Superseded(s.rows, proc.tenant, proc.lesson, proc.rid);
    forall id | id in superseded
      ensures id != proc.rid && id in s.used && n.rows[id].tenant == proc.tenant &&
              n.rows[id].key == superseded[id] &&
              (superseded[id].Some? ==> Names(proc.tenant, id, superseded[id].value))
    {
      assert RowOk(s, id);
    }
    Close(s, n, {}, p);
  }

  lemma SupersededAreOrphans(s: State, n: State, tenant: string, rid: string, superseded: map<string, Option<string>>)
    requires SupersededOk(s, tenant, rid, superseded) && n.used == s.used
    requires forall id :: id in superseded ==> id !in n.rows
    ensures ProcOk(n, CleaningUp(tenant, KeysOf(superseded)))
  {
    forall key | key in KeysOf(superseded) ensures Orphan(n, tenant, key) {
      var id :| id in superseded && superseded[id] == Some(key);
      assert id !in n.rows && Names(tenant, id, key);
    }
  }

  lemma CommittingKeeps(s: State, p: nat, ok: bool)
    requires Inv(s) && p in s.procs && s.procs[p].Committing?
    ensures Inv(Advance(s, p, s.procs[p], ok))
  {
    var proc := s.procs[p];
    var n := Advance(s, p, proc, ok);
    assert ProcOk(s, proc);
    assert Later(s, n);
    assert RowOk(s, proc.rid);
    assert RowOk(n, proc.rid);
    SupersededAreOrphans(s, n, proc.tenant, proc.rid, proc.superseded);
    Close(s, n, {proc.rid}, p);
  }

  lemma ConfirmingKeeps(s: State, p: nat, ok: bool)
    requires Inv(s) && p in s.procs && (s.procs[p].Confirming? || s.procs[p].RemovingRow?)
    ensures Inv(Advance(s, p, s.procs[p], ok))
  {
    var proc := s.procs[p];
    var n := Advance(s, p, proc, ok);
    assert ProcOk(s, proc);
    assert Later(s, n);
    assert RowOk(s, proc.rid);
    assert RowOk(n, proc.rid);
    Close(s, n, {proc.rid}, p);
  }

  lemma StepKeeps(s: State, step: Step)
    requires Inv(s)
    ensures Inv(Next(s, step))
  {
    match step
    case Reserve(tenant, place, kind, rid, filename, allowed) =>
      if allowed && rid !in s.used && IsUuid(rid) && IsUuid(tenant) {
        ReserveKeeps(s, tenant, place, kind, rid, filename);
      }
    case AddLink(tenant, place, rid, allowed) =>
      if allowed && rid !in s.used { AddLinkKeeps(s, tenant, place, rid); }
    case Put(key, facts) => NoProcess(s, Next(s, step), {});
    case StartComplete(p, tenant, lesson, rid, allowed) =>
      if p !in s.procs && OwnKey(s, tenant, InLesson(lesson), rid, allowed).Some? {
        OwnKeyIsBound(s, tenant, InLesson(lesson), rid);
        StartKeeps(s, p, Next(s, step).procs[p], s.removing);
      }
    case StartConfirm(p, tenant, place, rid, allowed) =>
      if p !in s.procs && OwnKey(s, tenant, place, rid, allowed).Some? {
        OwnKeyIsBound(s, tenant, place, rid);
        StartKeeps(s, p, Next(s, step).procs[p], s.removing);
      }
    case StartRemove(p, tenant, lesson, rid, allowed) =>
      if p !in s.procs && OwnKey(s, tenant, InLesson(lesson), rid, allowed).Some? {
        OwnKeyIsBound(s, tenant, InLesson(lesson), rid);
        StartKeeps(s, p, Next(s, step).procs[p], s.removing + {rid});
      }
    case Detach(p, tenant, place, rid, allowed) =>
      if p !in s.procs && allowed && IsThere(s.rows, tenant, rid, place) { DetachKeeps(s, p, tenant, place, rid); }
    case Proceed(p, ok) => if p in s.procs { AdvanceKeeps(s, p, ok); }
    case CleanOne(p, key, ok) =>
      if p in s.procs && s.procs[p].CleaningUp? && key in s.procs[p].keys { CleanOneKeeps(s, p, key, ok); }
    case Crash(p) => NoProcess(s, Next(s, step), {});
  }

  lemma AdvanceKeeps(s: State, p: nat, ok: bool)
    requires Inv(s) && p in s.procs
    ensures Inv(Advance(s, p, s.procs[p], ok))
  {
    match s.procs[p]
    case Checking(_, _, _, _, _) => CheckingKeeps(s, p, ok);
    case Rejecting(_, _, _) => DeletingKeeps(s, p, ok);
    case Collecting(_, _, _, _, _) => CollectingKeeps(s, p, ok);
    case Committing(_, _, _, _, _, _) => CommittingKeeps(s, p, ok);
    case CleaningUp(_, _) =>
    case Confirming(_, _, _, _) => ConfirmingKeeps(s, p, ok);
    case RemovingObject(_, _, _) => DeletingKeeps(s, p, ok);
    case RemovingRow(_, _) => ConfirmingKeeps(s, p, ok);
    case DetachingObject(_, _) => DeletingKeeps(s, p, ok);
  }

  lemma {:induction false} RunFromKeeps(s: State, steps: seq<Step>)
    requires Inv(s)
    ensures Inv(RunFrom(s, steps))
  {
    if steps != [] {
      RunFromKeeps(s, steps[..|steps| - 1]);
      StepKeeps(RunFrom(s, steps[..|steps| - 1]), steps[|steps| - 1]);
    }
  }

  lemma RunKeeps(steps: seq<Step>)
    ensures Inv(Run(steps))
  {
    RunFromKeeps(EMPTY, steps);
  }

  // ---- The results ------------------------------------------------------------------

  predicate IsReady(s: State, rid: string) {
    rid in s.rows && s.rows[rid].key.Some? && s.rows[rid].size.Some?
  }

  /** A recording that is offered can be played: in every interleaving and after any crash a
      row with a key and a size names an object that is in the bucket, unless its removal has
      begun or an object of its was refused by the check and deleted for it. */
  lemma ReadyRowsHaveTheirObject(steps: seq<Step>, rid: string)
    ensures var s := Run(steps);
            IsReady(s, rid) && rid !in s.removing && rid !in s.rejected ==> s.rows[rid].key.value in s.bucket
  {
    RunKeeps(steps);
    assert rid in Run(steps).rows ==> RowOk(Run(steps), rid);
  }

  predicate IsSupersedingDelete(s: State, step: Step) {
    step.CleanOne? ||
    (step.Proceed? && step.p in s.procs && s.procs[step.p].DetachingObject?)
  }

  /** Superseding a recording and removing an attachment never delete an object that any
      surviving row names, ready or not. */
  lemma SupersedingSparesNamedObjects(steps: seq<Step>, step: Step, rid: string)
    requires IsSupersedingDelete(Run(steps), step)
    requires rid in Run(steps).rows && Run(steps).rows[rid].key.Some?
    ensures var key := Run(steps).rows[rid].key.value;
            Next(Run(steps), step).rows == Run(steps).rows &&
            (key in Next(Run(steps), step).bucket <==> key in Run(steps).bucket)
  {
    var s := Run(steps);
    RunKeeps(steps);
    assert RowOk(s, rid);
    if step.p in s.procs {
      var proc := s.procs[step.p];
      assert ProcOk(s, proc);
      var key := s.rows[rid].key.value;
      if proc.DetachingObject? && key == proc.key {
        var gone :| gone in s.used && gone !in s.rows && Names(proc.tenant, gone, key);
        NamesOneRow(s.rows[rid].tenant, rid, proc.tenant, gone, key);
        assert false;
      }
      if proc.CleaningUp? && step.CleanOne? && key == step.key && key in proc.keys {
        assert Orphan(s, proc.tenant, key);
        var gone :| gone in s.used && gone !in s.rows && Names(proc.tenant, gone, key);
        NamesOneRow(s.rows[rid].tenant, rid, proc.tenant, gone, key);
        assert false;
      }
    }
  }

  /** The first excuse is real: a removal that dies between its two halves leaves a ready row
      whose object is gone. */
  lemma RemovalThatDiesLeavesSilence(s: State, p: nat, tenant: string, lesson: string, rid: string)
    requires p !in s.procs && IsThere(s.rows, tenant, rid, InLesson(lesson)) && IsReady(s, rid)
    requires KeyBelongsToTenant(s.rows[rid].key.value, tenant)
    ensures var n := Next(Next(Next(s, StartRemove(p, tenant, lesson, rid, true)), Proceed(p, true)), Crash(p));
            IsReady(n, rid) && n.rows[rid].key.value !in n.bucket && p !in n.procs
  {
  }

  /** So is the second: a ready row whose object is put again as something else, and completed
      again, stays ready without an object. */
  lemma RejectionLeavesSilence(s: State, p: nat, tenant: string, lesson: string, rid: string, bad: Facts)
    requires p !in s.procs && IsThere(s.rows, tenant, rid, InLesson(lesson)) && IsReady(s, rid) && !bad.audioOk
    requires s.rows[rid].key.value in s.tickets && KeyBelongsToTenant(s.rows[rid].key.value, tenant)
    ensures var put := Next(s, Put(s.rows[rid].key.value, bad));
            var started := Next(put, StartComplete(p, tenant, lesson, rid, true));
            var n := Next(Next(started, Proceed(p, true)), Proceed(p, true));
            IsReady(n, rid) && n.rows[rid].key.value !in n.bucket && n.removing == s.removing && p !in n.procs
  {
  }

  /** A reservation that lands between a completion's list and its commit is not superseded:
      the completion succeeds, and two audio rows are left. */
  lemma ReservationBetweenLeavesTwo(s: State, p: nat, other: string, filename: string)
    requires p in s.procs && s.procs[p].Collecting? && IsUuid(other) && IsUuid(s.procs[p].tenant)
    requires other !in s.used && forall id :: id in s.rows ==> id in s.used
    requires s.procs[p].rid in AudioOn(s.rows, s.procs[p].tenant, s.procs[p].lesson)
    ensures var c := s.procs[p];
            var reserve := Reserve(c.tenant, InLesson(c.lesson), Audio, other, filename, true);
            var n := Next(Next(Next(s, Proceed(p, true)), reserve), Proceed(p, true));
            {c.rid, other} <= AudioOn(n.rows, c.tenant, c.lesson) && p in n.procs && n.procs[p].CleaningUp?
  {
    var c := s.procs[p];
    var listed := Next(s, Proceed(p, true));
    var came := Next(listed, Reserve(c.tenant, InLesson(c.lesson), Audio, other, filename, true));
    assert came.procs[p] == Committing(c.tenant, c.lesson, c.rid, c.key, c.size,
                                       Superseded(s.rows, c.tenant, c.lesson, c.rid));
    assert other in came.rows && other !in Superseded(s.rows, c.tenant, c.lesson, c.rid);
  }

  /** Two completions that overlap supersede each other: both go on to their clean-up, which
      is success, and the lesson is left without audio. */
  lemma OverlappingCompletionsLeaveNoAudio(s: State, p: nat, q: nat, tenant: string, lesson: string,
                                           a: string, b: string, keyA: string, keyB: string, size: nat)
    requires p != q && a != b && p in s.procs && q in s.procs
    requires s.procs[p] == Collecting(tenant, lesson, a, keyA, size)
    requires s.procs[q] == Collecting(tenant, lesson, b, keyB, size)
    requires AudioOn(s.rows, tenant, lesson) == {a, b}
    ensures var n := Next(Next(Next(Next(s, Proceed(p, true)), Proceed(q, true)), Proceed(p, true)), Proceed(q, true));
            AudioOn(n.rows, tenant, lesson) == {} && n.procs[p].CleaningUp? && n.procs[q].CleaningUp?
  {
  }
}
