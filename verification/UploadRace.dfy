/** Uploading the content of one file while others write to it.  A write is two steps: the
    bytes, then the row and the queued operation.  The uploader takes a fingerprint, makes
    room, reads, sends, asks for the new record by name, and only if the fingerprint is still
    the same marks the row clean.  Every write changes the fingerprint.  iCloud never overwrites:
    what arrives under a name that is taken becomes a numbered copy. */
module UploadRace {
  import opened Paths
  import opened Tables
  import opened Files
  import opened Cloud

  /** The file: its path, and the folder on iCloud and the name it goes by there. */
  datatype Spot = Spot(path: Path, folder: string, name: string)

  /** The mirror's file: `written` counts writes, `stamp` is what a fingerprint compares and
      changes with every write and every touch. */
  datatype LocalFile = LocalFile(bytes: Bytes, written: nat, stamp: nat)

  /** Where the uploader is; `before` and `written` are from when it took the fingerprint, and
      `arrived` is what iCloud had when the content arrived. */
  datatype Uploader =
    | Idle
    | Statted(before: nat, written: nat)
    | Cleared(before: nat, written: nat)
    | HasRead(before: nat, written: nat, data: Bytes)
    | Sent(before: nat, written: nat, data: Bytes, arrived: Items)
    | Learned(before: nat, written: nat, data: Bytes, arrived: Items, meta: RemoteNode)

  /** `writers` are between their two steps, `touchers` have set the time but not the row. */
  datatype Race = Race(
    file: LocalFile,
    db: Db,
    items: Items,
    nextId: nat,
    writers: set<nat>,
    touchers: set<nat>,
    up: Uploader)

  datatype Step =
    | Write(writer: nat, bytes: Bytes)
    | Record(writer: nat, size: nat, mtime: int)
    | Touch(toucher: nat)
    | RecordTouch(toucher: nat, mtime: int)
    | TakeFingerprint
    | RemoveOld(fate: Fate)
    | Read(data: Bytes)
    | Send(fate: Fate, mtime: int)
    | Ask(id: string)
    | GiveUp
    | Finish(now: int)
    | Elsewhere(db: Db)
    | OtherItems(items: Items, nextId: nat)

  /** An item of the file's name in its folder. */
  predicate HasName(f: Spot, items: Items, id: string) {
    id in items && items[id].parent == Some(f.folder) && items[id].name == f.name
  }

  /** Ids are handed out in order. */
  ghost predicate FreshIds(items: Items, nextId: nat) {
    forall kind, n: nat :: n > nextId ==> ItemId(kind, n) !in items
  }

  ghost predicate Enabled(f: Spot, r: Race, s: Step) {
    var p := f.path;
    match s
    case Write(w, _) => w !in r.writers
    case Record(w, _, _) => w in r.writers
    case Touch(_) => true
    case RecordTouch(t, _) => t in r.touchers
    case TakeFingerprint => r.up.Idle? && AsksForUpload(r.db, p)
    case RemoveOld(_) => r.up.Statted?
    // A read that no write overlaps sees the file; one that a write overlaps may see anything.
    case Read(data) => r.up.Cleared? && (r.file.written == r.up.written ==> data == r.file.bytes)
    case Send(_, _) => r.up.HasRead?
    // If several items have the name, any of them may be found.
    case Ask(id) => r.up.Sent? && HasName(f, r.items, id)
    case GiveUp => !r.up.Idle?
    case Finish(_) => r.up.Learned?
    // Work on other paths.
    case Elsewhere(db) =>
      && p in db.rows && p in r.db.rows && db.rows[p] == r.db.rows[p]
      && (PendingContent(db.ops, p) <==> PendingContent(r.db.ops, p))
    // Changes on iCloud that concern neither the name nor the row's item.
    case OtherItems(items, nextId) =>
      && FreshIds(items, nextId)
      && (forall id :: HasName(f, items, id) || HasName(f, r.items, id) ==>
            id in items && id in r.items && items[id] == r.items[id])
      && (p in r.db.rows && r.db.rows[p].remoteId.Some? ==> SameAt(items, r.items, r.db.rows[p].remoteId.value))
  }

  predicate SameAt(items: Items, items': Items, id: string) {
    (id in items <==> id in items') && (id in items ==> items[id] == items'[id])
  }

  ghost function Next(f: Spot, r: Race, s: Step): Race
    requires Enabled(f, r, s)
  {
    var p := f.path;
    match s
    case Write(w, bytes) =>
      r.(file := LocalFile(bytes, r.file.written + 1, r.file.stamp + 1), writers := r.writers + {w})
    case Record(w, size, mtime) =>
      r.(db := r.db.(rows := MarkDirty(r.db.rows, p, Some(size), Some(mtime), Some(true)),
                     ops := QueueOp(r.db.ops, UpdateOp, p, None)),
         writers := r.writers - {w})
    case Touch(t) => r.(file := r.file.(stamp := r.file.stamp + 1), touchers := r.touchers + {t})
    case RecordTouch(t, mtime) =>
      r.(db := r.db.(rows := MarkDirty(r.db.rows, p, None, Some(mtime), None)), touchers := r.touchers - {t})
    case TakeFingerprint => r.(up := Statted(r.file.stamp, r.file.written))
    case RemoveOld(fate) => r.(up := Cleared(r.up.before, r.up.written), items := Removed(p, r, fate))
    case Read(data) => r.(up := HasRead(r.up.before, r.up.written, data))
    case Send(fate, mtime) =>
      if fate == Fails || f.folder !in r.items then r.(up := Idle)
      else
        r.(up := if fate == Works then Sent(r.up.before, r.up.written, r.up.data, r.items) else Idle,
           items := Cloud.Created(r.items, r.nextId + 1, f.folder, f.name, File, r.up.data, mtime),
           nextId := r.nextId + 1)
    case Ask(id) =>
      r.(up := Learned(r.up.before, r.up.written, r.up.data, r.up.arrived, Node(id, r.items[id])))
    case GiveUp => r.(up := Idle)
    case Finish(now) =>
      if r.file.stamp == r.up.before then
        r.(db := MarkClean(r.db, p, r.up.meta, now), up := Idle, file := r.file.(stamp := r.file.stamp + 1))
      else
        r.(db := r.db.(rows := MarkUploadedButDirty(r.db.rows, p, r.up.meta, now)), up := Idle)
    case Elsewhere(db) => r.(db := db)
    case OtherItems(items, nextId) => r.(items := items, nextId := nextId)
  }

  /** The delete of the item the row names; its failure is ignored, and there may be none. */
  function Removed(p: Path, r: Race, fate: Fate): Items {
    if fate != Fails && p in r.db.rows && r.db.rows[p].remoteId.Some? && r.db.rows[p].remoteId.value in r.items
    then Without(r.items, r.db.rows[p].remoteId.value)
    else r.items
  }

  // ---- what must not be lost ----------------------------------------------------------------

  /** The item the row names has the mirror's bytes. */
  ghost predicate InStep(p: Path, r: Race) {
    && p in r.db.rows && r.db.rows[p].remoteId.Some? && r.db.rows[p].remoteId.value in r.items
    && r.items[r.db.rows[p].remoteId.value].data == r.file.bytes
  }

  /** If the row's item does not have the mirror's bytes, the row says so, or a writer is about to. */
  ghost predicate Safe(p: Path, r: Race) {
    !InStep(p, r) ==> AsksForUpload(r.db, p) || r.writers != {}
  }

  /** The item with the name is as it was when the content arrived, or is what arrived and found
      the name free. */
  ghost predicate IsAccounted(f: Spot, r: Race, id: string)
    requires r.up.Sent? || r.up.Learned?
  {
    && id in r.items && r.items[id].data == (if id in r.up.arrived then r.up.arrived[id].data else r.up.data)
    && (if id in r.up.arrived then HasName(f, r.up.arrived, id) else !Taken(r.up.arrived, f.folder, f.name))
  }

  /** What the uploader knows: a write since its fingerprint shows in the row or is about to, and
      without one it has read, and sent, the mirror's bytes. */
  ghost predicate Knows(f: Spot, r: Race) {
    && FreshIds(r.items, r.nextId)
    && (!r.up.Idle? ==>
          && AsksForUpload(r.db, f.path)
          && r.up.written <= r.file.written && r.up.before <= r.file.stamp
          && (r.file.stamp == r.up.before ==> r.file.written == r.up.written)
          && (r.file.written > r.up.written ==> PendingContent(r.db.ops, f.path) || r.writers != {})
          && (!r.up.Statted? && !r.up.Cleared? && r.file.written == r.up.written ==> r.up.data == r.file.bytes))
    && (r.up.Sent? ==> forall id :: HasName(f, r.items, id) ==> IsAccounted(f, r, id))
    && (r.up.Learned? ==> HasName(f, r.items, r.up.meta.id) && IsAccounted(f, r, r.up.meta.id))
  }

  /** When the content arrived the name was taken, by an item with other bytes, and asking for the
      name found that one. */
  predicate FoundAnother(up: Uploader)
    requires up.Learned?
  {
    up.meta.id in up.arrived && up.arrived[up.meta.id].data != up.data
  }

  /** The uploader adopts that item for a file nobody is writing, and either marks the row clean or
      leaves it, only touched, without a content operation. */
  ghost predicate Misses(f: Spot, r: Race, s: Step) {
    && s.Finish? && r.up.Learned? && FoundAnother(r.up) && r.writers == {}
    && (r.file.stamp == r.up.before || !PendingContent(r.db.ops, f.path))
  }

  lemma ArrivedIsNew(items: Items, nextId: nat, f: Spot, data: Bytes, mtime: int)
    requires FreshIds(items, nextId)
    ensures var n := nextId + 1; var items' := Cloud.Created(items, n, f.folder, f.name, File, data, mtime);
            && FreshIds(items', n) && ItemId(File, n) !in items && items'[ItemId(File, n)].data == data
            && forall id :: id in items' && id != ItemId(File, n) ==> id in items && items'[id] == items[id]
  {
    var n := nextId + 1;
    forall kind, m: nat | m > n ensures ItemId(kind, m) != ItemId(File, n) {
      IdsDiffer(kind, m, File, n);
    }
  }

  lemma SendKnows(f: Spot, r: Race, fate: Fate, mtime: int)
    requires Knows(f, r) && Enabled(f, r, Send(fate, mtime))
    ensures Knows(f, Next(f, r, Send(fate, mtime)))
  {
    ArrivedIsNew(r.items, r.nextId, f, r.up.data, mtime);
  }

  /** What the uploader knows stays true, whoever takes a step. */
  lemma StepKeepsKnowing(f: Spot, r: Race, s: Step)
    requires f.path in r.db.rows && !r.db.rows[f.path].tombstone && Enabled(f, r, s) && Knows(f, r)
    ensures var r' := Next(f, r, s); f.path in r'.db.rows && !r'.db.rows[f.path].tombstone && Knows(f, r')
  {
    match s
    case Send(fate, mtime) => SendKnows(f, r, fate, mtime);
    case OtherItems(items, nextId) => OthersKeepKnowing(f, r, items, nextId);
    case TakeFingerprint =>
    case RemoveOld(_) =>
    case Read(_) =>
    case Ask(_) =>
    case GiveUp =>
    case Finish(_) =>
    case _ => LocalStepKeepsKnowing(f, r, s);
  }

  /** Steps of writers, and work on other paths. */
  lemma LocalStepKeepsKnowing(f: Spot, r: Race, s: Step)
    requires s.Write? || s.Record? || s.Touch? || s.RecordTouch? || s.Elsewhere?
    requires f.path in r.db.rows && !r.db.rows[f.path].tombstone && Enabled(f, r, s) && Knows(f, r)
    ensures var r' := Next(f, r, s); f.path in r'.db.rows && !r'.db.rows[f.path].tombstone && Knows(f, r')
  {
    var r' := Next(f, r, s);
    UpdateQueued(r.db.ops, f.path);
    assert r'.items == r.items && r'.up == r.up && r'.nextId == r.nextId;
    if r.up.Sent? {
      forall id | HasName(f, r'.items, id) ensures IsAccounted(f, r', id) {
        assert IsAccounted(f, r, id);
      }
    }
  }

  lemma OthersKeepKnowing(f: Spot, r: Race, items: Items, nextId: nat)
    requires Enabled(f, r, OtherItems(items, nextId)) && Knows(f, r)
    ensures Knows(f, Next(f, r, OtherItems(items, nextId)))
  {
    var r' := Next(f, r, OtherItems(items, nextId));
    if r.up.Sent? {
      forall id | HasName(f, r'.items, id) ensures IsAccounted(f, r', id) {
        assert HasName(f, r.items, id) && IsAccounted(f, r, id);
      }
    }
  }

  /** A step loses an edit exactly when it adopts another item than the one that was sent. */
  lemma StepExactly(f: Spot, r: Race, s: Step)
    requires f.path in r.db.rows && !r.db.rows[f.path].tombstone && Enabled(f, r, s)
    requires Safe(f.path, r) && Knows(f, r)
    ensures Safe(f.path, Next(f, r, s)) <==> !Misses(f, r, s)
  {
    match s
    case Record(_, _, _) => UpdateQueued(r.db.ops, f.path);
    case Send(_, mtime) => ArrivedIsNew(r.items, r.nextId, f, r.up.data, mtime);
    case Finish(now) => FinishExactly(f, r, now);
    case _ =>
  }

  lemma FinishExactly(f: Spot, r: Race, now: int)
    requires f.path in r.db.rows && !r.db.rows[f.path].tombstone && r.up.Learned? && Knows(f, r)
    ensures Safe(f.path, Next(f, r, Finish(now))) <==> !Misses(f, r, Finish(now))
  {
    if r.file.stamp == r.up.before {
      assert !AsksForUpload(Next(f, r, Finish(now)).db, f.path);
    }
  }

  // ---- runs -----------------------------------------------------------------------------------

  ghost predicate IsRun(f: Spot, r: Race, steps: seq<Step>)
    decreases |steps|
  {
    steps == [] || (Enabled(f, r, steps[0]) && IsRun(f, Next(f, r, steps[0]), steps[1..]))
  }

  ghost function Run(f: Spot, r: Race, steps: seq<Step>): Race
    requires IsRun(f, r, steps)
    decreases |steps|
  {
    if steps == [] then r else Run(f, Next(f, r, steps[0]), steps[1..])
  }

  ghost predicate SafeThroughout(f: Spot, r: Race, steps: seq<Step>)
    requires IsRun(f, r, steps)
    decreases |steps|
  {
    Safe(f.path, r) && (steps != [] ==> SafeThroughout(f, Next(f, r, steps[0]), steps[1..]))
  }

  ghost predicate MissesNothing(f: Spot, r: Race, steps: seq<Step>)
    requires IsRun(f, r, steps)
    decreases |steps|
  {
    steps != [] ==> !Misses(f, r, steps[0]) && MissesNothing(f, Next(f, r, steps[0]), steps[1..])
  }

  /** A state in which no upload is under way. */
  ghost predicate AtRest(f: Spot, r: Race) {
    && f.path in r.db.rows && !r.db.rows[f.path].tombstone && r.up.Idle? && Safe(f.path, r)
    && FreshIds(r.items, r.nextId)
  }

  /** In every interleaving an edit iCloud does not have is marked as such, or its writer is still
      between its two steps, exactly as long as no upload adopts an item that had the name, with
      other bytes, when the content arrived. */
  lemma NoLostEdit(f: Spot, r: Race, steps: seq<Step>)
    requires AtRest(f, r) && IsRun(f, r, steps)
    ensures SafeThroughout(f, r, steps) <==> MissesNothing(f, r, steps)
    ensures MissesNothing(f, r, steps) ==> Safe(f.path, Run(f, r, steps))
  {
    EditsKept(f, r, steps);
  }

  lemma {:induction false} EditsKept(f: Spot, r: Race, steps: seq<Step>)
    requires f.path in r.db.rows && !r.db.rows[f.path].tombstone && Safe(f.path, r) && Knows(f, r)
    requires IsRun(f, r, steps)
    ensures SafeThroughout(f, r, steps) <==> MissesNothing(f, r, steps)
    ensures MissesNothing(f, r, steps) ==> Safe(f.path, Run(f, r, steps))
    decreases |steps|
  {
    if steps != [] {
      StepExactly(f, r, steps[0]);
      StepKeepsKnowing(f, r, steps[0]);
      if !Misses(f, r, steps[0]) {
        EditsKept(f, Next(f, r, steps[0]), steps[1..]);
      }
    }
  }

  /** So when nobody is writing and the row asks for no upload, its item has the mirror's bytes. */
  lemma QuietMeansInStep(f: Spot, r: Race, steps: seq<Step>)
    requires AtRest(f, r) && IsRun(f, r, steps) && MissesNothing(f, r, steps)
    ensures var r' := Run(f, r, steps);
            r'.writers == {} && !AsksForUpload(r'.db, f.path) ==> InStep(f.path, r')
  {
    NoLostEdit(f, r, steps);
  }

  /** The name is free, or only items with those very bytes have it. */
  ghost predicate NameOpen(f: Spot, items: Items, data: Bytes) {
    forall id :: HasName(f, items, id) ==> items[id].data == data
  }

  /** Whenever content arrives, its name is open. */
  ghost predicate ArrivalsOpen(f: Spot, r: Race, steps: seq<Step>)
    requires IsRun(f, r, steps)
    decreases |steps|
  {
    steps != [] ==>
      && (steps[0].Send? ==> NameOpen(f, r.items, r.up.data))
      && ArrivalsOpen(f, Next(f, r, steps[0]), steps[1..])
  }

  /** Then nothing is lost. */
  lemma OpenNamesLoseNothing(f: Spot, r: Race, steps: seq<Step>)
    requires AtRest(f, r) && IsRun(f, r, steps) && ArrivalsOpen(f, r, steps)
    ensures SafeThroughout(f, r, steps) && Safe(f.path, Run(f, r, steps))
  {
    OpenMissesNothing(f, r, steps);
    NoLostEdit(f, r, steps);
  }

  lemma {:induction false} OpenMissesNothing(f: Spot, r: Race, steps: seq<Step>)
    requires f.path in r.db.rows && !r.db.rows[f.path].tombstone && Knows(f, r)
    requires IsRun(f, r, steps) && ArrivalsOpen(f, r, steps)
    requires r.up.Sent? || r.up.Learned? ==> NameOpen(f, r.up.arrived, r.up.data)
    ensures MissesNothing(f, r, steps)
    decreases |steps|
  {
    if steps != [] {
      StepKeepsKnowing(f, r, steps[0]);
      OpenMissesNothing(f, Next(f, r, steps[0]), steps[1..]);
    }
  }

  // ---- one upload, from its arrival ------------------------------------------------------------

  /** No two items of the folder share the name. */
  ghost predicate OneHolder(f: Spot, items: Items) {
    forall id, id' :: HasName(f, items, id) && HasName(f, items, id') ==> id == id'
  }

  /** Steps between the arrival of the content and the end of the upload. */
  ghost predicate Underway(steps: seq<Step>) {
    forall i :: 0 <= i < |steps| ==> !steps[i].Finish? && !steps[i].GiveUp?
  }

  lemma {:induction false} ArrivalRemembered(f: Spot, r: Race, steps: seq<Step>)
    requires IsRun(f, r, steps) && Underway(steps) && (r.up.Sent? || r.up.Learned?)
    requires f.path in r.db.rows && !r.db.rows[f.path].tombstone && Knows(f, r)
    ensures var r' := Run(f, r, steps);
            && (r'.up.Sent? || r'.up.Learned?) && r'.up.arrived == r.up.arrived && r'.up.data == r.up.data
            && f.path in r'.db.rows && !r'.db.rows[f.path].tombstone && Knows(f, r')
    decreases |steps|
  {
    if steps != [] {
      assert forall i :: 0 <= i < |steps[1..]| ==> steps[1..][i] == steps[i + 1];
      StepKeepsKnowing(f, r, steps[0]);
      ArrivalRemembered(f, Next(f, r, steps[0]), steps[1..]);
    }
  }

  /** A write or a touch changes the fingerprint for good. */
  lemma {:induction false} ChangesShow(f: Spot, r: Race, steps: seq<Step>)
    requires IsRun(f, r, steps) && Underway(steps) && f.path in r.db.rows
    ensures var r' := Run(f, r, steps);
            && f.path in r'.db.rows && r'.file.stamp >= r.file.stamp
            && (!r.up.Idle? && !r'.up.Idle? && TakeFingerprint !in steps ==> r'.up.before == r.up.before)
            && (r.up.Idle? && TakeFingerprint !in steps ==> r'.up.Idle?)
            && ((exists s :: s in steps && (s.Write? || s.Touch?)) ==> r'.file.stamp > r.file.stamp)
    decreases |steps|
  {
    if steps != [] {
      assert forall i :: 0 <= i < |steps[1..]| ==> steps[1..][i] == steps[i + 1];
      assert steps == [steps[0]] + steps[1..];
      ChangesShow(f, Next(f, r, steps[0]), steps[1..]);
    }
  }

  /** So a file that was written or touched after the fingerprint was taken stays marked, with its
      operations, when the upload ends. */
  lemma ChangedMeanwhileStaysMarked(f: Spot, r: Race, steps: seq<Step>, now: int)
    requires IsRun(f, r, steps) && Underway(steps) && TakeFingerprint !in steps && f.path in r.db.rows
    requires r.up.Statted? && r.up.before == r.file.stamp && Run(f, r, steps).up.Learned?
    requires exists s :: s in steps && (s.Write? || s.Touch?)
    ensures var r1 := Run(f, r, steps);
            var r' := Next(f, r1, Finish(now));
            && f.path in r1.db.rows && f.path in r'.db.rows
            && r'.db.rows[f.path].dirty == r1.db.rows[f.path].dirty && r'.db.ops == r1.db.ops
  {
    ChangesShow(f, r, steps);
  }

  /** An upload from the moment its content arrives, others writing meanwhile, that finds its
      fingerprint unchanged at the end: the clean row's item has the mirror's bytes exactly when
      the name was free, or the item found under it had those bytes already.  Where names are not
      shared that can be told when the content arrives. */
  lemma UploadExactly(f: Spot, r: Race, mtime: int, steps: seq<Step>, now: int)
    requires f.path in r.db.rows && !r.db.rows[f.path].tombstone && Knows(f, r)
    requires r.up.HasRead? && f.folder in r.items
    requires IsRun(f, Next(f, r, Send(Works, mtime)), steps) && Underway(steps)
    requires var r1 := Run(f, Next(f, r, Send(Works, mtime)), steps);
             r1.up.Learned? && r1.file.stamp == r1.up.before
    ensures var r1 := Run(f, Next(f, r, Send(Works, mtime)), steps);
            var r' := Next(f, r1, Finish(now));
            var taken := Taken(r.items, f.folder, f.name);
            && f.path in r'.db.rows && !r'.db.rows[f.path].dirty && r'.db.rows[f.path].remoteId == Some(r1.up.meta.id)
            && (taken <==> r1.up.meta.id in r.items)
            && (InStep(f.path, r') <==> !taken || r.items[r1.up.meta.id].data == r.up.data)
            && (NameOpen(f, r.items, r.up.data) ==> InStep(f.path, r'))
            && (OneHolder(f, r.items) ==> (InStep(f.path, r') <==> NameOpen(f, r.items, r.up.data)))
  {
    SendKnows(f, r, Works, mtime);
    ArrivalRemembered(f, Next(f, r, Send(Works, mtime)), steps);
    var r1 := Run(f, Next(f, r, Send(Works, mtime)), steps);
    assert IsAccounted(f, r1, r1.up.meta.id);
  }

  // ---- when the name is taken ---------------------------------------------------------------

  lemma OneStep(f: Spot, r: Race, s: Step, rest: seq<Step>)
    requires Enabled(f, r, s) && IsRun(f, Next(f, r, s), rest)
    ensures IsRun(f, r, [s] + rest) && Run(f, r, [s] + rest) == Run(f, Next(f, r, s), rest)
  {
    assert ([s] + rest)[1..] == rest;
  }

  lemma CleanAsksForNothing(db: Db, p: Path, node: RemoteNode, now: int)
    ensures !AsksForUpload(MarkClean(db, p, node, now), p)
  {
  }

  /** After an upload that nobody disturbs, up to the answer. */
  ghost function Arrived(f: Spot, r: Race, fate: Fate, sent: Fate, mtime: int): Race
    requires sent != Fails && f.folder in Removed(f.path, r, fate)
  {
    var items := Removed(f.path, r, fate);
    r.(up := if sent == Works then Sent(r.file.stamp, r.file.written, r.file.bytes, items) else Idle,
       items := Cloud.Created(items, r.nextId + 1, f.folder, f.name, File, r.file.bytes, mtime),
       nextId := r.nextId + 1)
  }

  function UploadSteps(data: Bytes, fate: Fate, sent: Fate, mtime: int): seq<Step> {
    [TakeFingerprint] + ([RemoveOld(fate)] + ([Read(data)] + [Send(sent, mtime)]))
  }

  /** Taking the fingerprint and making room. */
  lemma RoomMade(f: Spot, r: Race, fate: Fate, rest: seq<Step>)
    requires r.up.Idle? && AsksForUpload(r.db, f.path)
    requires IsRun(f, Cleaned(f, r, fate), rest)
    ensures var steps := [TakeFingerprint] + ([RemoveOld(fate)] + rest);
            IsRun(f, r, steps) && Run(f, r, steps) == Run(f, Cleaned(f, r, fate), rest)
  {
    OneStep(f, r.(up := Statted(r.file.stamp, r.file.written)), RemoveOld(fate), rest);
    OneStep(f, r, TakeFingerprint, [RemoveOld(fate)] + rest);
  }

  ghost function Cleaned(f: Spot, r: Race, fate: Fate): Race {
    r.(up := Cleared(r.file.stamp, r.file.written), items := Removed(f.path, r, fate))
  }

  /** Reading and sending. */
  lemma ContentSent(f: Spot, r: Race, sent: Fate, mtime: int, rest: seq<Step>)
    requires r.up.Cleared? && sent != Fails && f.folder in r.items
    requires IsRun(f, Next(f, r.(up := HasRead(r.up.before, r.up.written, r.file.bytes)), Send(sent, mtime)), rest)
    ensures var steps := [Read(r.file.bytes)] + ([Send(sent, mtime)] + rest);
            var read := r.(up := HasRead(r.up.before, r.up.written, r.file.bytes));
            IsRun(f, r, steps) && Run(f, r, steps) == Run(f, Next(f, read, Send(sent, mtime)), rest)
  {
    OneStep(f, r.(up := HasRead(r.up.before, r.up.written, r.file.bytes)), Send(sent, mtime), rest);
    OneStep(f, r, Read(r.file.bytes), [Send(sent, mtime)] + rest);
  }

  lemma UpToArrival(f: Spot, r: Race, fate: Fate, sent: Fate, mtime: int, rest: seq<Step>)
    requires r.up.Idle? && AsksForUpload(r.db, f.path)
    requires sent != Fails && f.folder in Removed(f.path, r, fate)
    requires IsRun(f, Arrived(f, r, fate, sent, mtime), rest)
    ensures var steps := UploadSteps(r.file.bytes, fate, sent, mtime) + rest;
            IsRun(f, r, steps) && Run(f, r, steps) == Run(f, Arrived(f, r, fate, sent, mtime), rest)
  {
    ContentSent(f, Cleaned(f, r, fate), sent, mtime, rest);
    RoomMade(f, r, fate, [Read(r.file.bytes)] + ([Send(sent, mtime)] + rest));
    assert [TakeFingerprint] + ([RemoveOld(fate)] + ([Read(r.file.bytes)] + ([Send(sent, mtime)] + rest)))
        == UploadSteps(r.file.bytes, fate, sent, mtime) + rest;
  }

  /** The end of an upload that nobody disturbs. */
  lemma FinishFinding(f: Spot, r: Race, id: string, now: int)
    requires r.up.Sent? && r.file.stamp == r.up.before && HasName(f, r.items, id)
    ensures var steps := [Ask(id)] + [Finish(now)];
            && IsRun(f, r, steps)
            && Run(f, r, steps) == r.(db := MarkClean(r.db, f.path, Node(id, r.items[id]), now), up := Idle,
                                      file := r.file.(stamp := r.file.stamp + 1))
  {
    var r1 := Next(f, r, Ask(id));
    OneStep(f, r1, Finish(now), []);
    OneStep(f, r, Ask(id), [Finish(now)]);
  }

  /** A file to be uploaded, and in its folder an item of its name with other bytes that making room
      does not remove: the row ends clean and names that item. */
  lemma TakenNameLosesTheEdit(f: Spot, r: Race, fate: Fate, id: string, mtime: int, now: int)
    returns (steps: seq<Step>)
    requires AtRest(f, r) && AsksForUpload(r.db, f.path) && r.writers == {}
    requires var items := Removed(f.path, r, fate);
             f.folder in items && HasName(f, items, id) && items[id].data != r.file.bytes
    ensures steps == UploadSteps(r.file.bytes, fate, Works, mtime) + ([Ask(id)] + [Finish(now)])
    ensures IsRun(f, r, steps) && LostInClean(f, r, Run(f, r, steps), id)
  {
    var r1 := Arrived(f, r, fate, Works, mtime);
    ArrivedIsNew(Removed(f.path, r, fate), r.nextId, f, r.file.bytes, mtime);
    FinishFinding(f, r1, id, now);
    CleanAsksForNothing(r1.db, f.path, Node(id, r1.items[id]), now);
    UpToArrival(f, r, fate, Works, mtime, [Ask(id)] + [Finish(now)]);
    steps := UploadSteps(r.file.bytes, fate, Works, mtime) + ([Ask(id)] + [Finish(now)]);
  }

  /** Nobody is writing, the row is clean, and its item is one iCloud already had, with other bytes. */
  ghost predicate LostInClean(f: Spot, r: Race, r': Race, id: string) {
    && f.path in r'.db.rows && !r'.db.rows[f.path].dirty && r'.db.rows[f.path].remoteId == Some(id)
    && id in r.items && id in r'.items && r'.items[id] == r.items[id] && r.items[id].data != r'.file.bytes
    && r'.writers == {} && r'.file.bytes == r.file.bytes && !Safe(f.path, r')
  }

  /** A new file whose upload does its work and loses the answer, and is then written to: the next
      upload finds the item of the first. */
  lemma LostAnswerLosesTheNextEdit(f: Spot, r: Race, data: Bytes, size: nat, mtime: int, now: int)
    returns (steps: seq<Step>, r1: Race)
    requires AtRest(f, r) && AsksForUpload(r.db, f.path) && r.writers == {} && r.db.rows[f.path].remoteId.None?
    requires f.folder in r.items && !Taken(r.items, f.folder, f.name) && data != r.file.bytes
    ensures var id := ItemId(File, r.nextId + 1);
            && steps == UploadSteps(r.file.bytes, Works, LosesAnswer, mtime) +
                        ([Write(0, data)] + ([Record(0, size, mtime)] +
                         (UploadSteps(data, Works, Works, mtime) + ([Ask(id)] + [Finish(now)]))))
            && IsRun(f, r, steps) && r1.file.bytes == data && LostInClean(f, r1, Run(f, r, steps), id)
  {
    var id := ItemId(File, r.nextId + 1);
    var sent := Arrived(f, r, Works, LosesAnswer, mtime);
    ArrivedIsNew(r.items, r.nextId, f, r.file.bytes, mtime);
    assert HasName(f, sent.items, id);
    var written := Next(f, sent, Write(0, data));
    r1 := Next(f, written, Record(0, size, mtime));
    UpdateQueued(r.db.ops, f.path);
    assert r1.writers == {};
    var rest := TakenNameLosesTheEdit(f, r1, Works, id, mtime, now);
    OneStep(f, written, Record(0, size, mtime), rest);
    OneStep(f, sent, Write(0, data), [Record(0, size, mtime)] + rest);
    rest := [Write(0, data)] + ([Record(0, size, mtime)] + rest);
    UpToArrival(f, r, Works, LosesAnswer, mtime, rest);
    steps := UploadSteps(r.file.bytes, Works, LosesAnswer, mtime) + rest;
  }

  lemma ShortIdsAreFresh(items: Items, nextId: nat)
    requires forall id :: id in items ==> |id| < 23
    ensures FreshIds(items, nextId)
  {
    assert |"::com.apple.CloudDocs::"| == 23;
  }

  const FILE_F := Spot(["f"], "root", "f")
  const ROOT_ITEM := Item(None, "root", Folder, [], 1, 0)

  function RowOfF(id: Option<string>, synced: Option<Path>): Row {
    Row(File, ROOT, id, if id == None then None else Some("e1"), 1, 0, true, true, false, None, synced)
  }

  /** A recorded edit, while the item on iCloud has a newer etag than the row: the delete is refused. */
  lemma RefusedDeleteLosesAnEdit(mtime: int, now: int) returns (r: Race, steps: seq<Step>)
    ensures AtRest(FILE_F, r) && r.writers == {} && RemoveOld(Fails) in steps && IsRun(FILE_F, r, steps)
    ensures r.file.bytes == [2] && LostInClean(FILE_F, r, Run(FILE_F, r, steps), "old")
  {
    var items := map["root" := ROOT_ITEM, "old" := Item(Some("root"), "f", File, [1], 2, 0)];
    var op := Op(UpdateOp, ["f"], None);
    var row := RowOfF(Some("old"), Some(["f"]));
    r := Race(LocalFile([2], 1, 1), Db(map[["f"] := row], [op], map[]), items, 1, {}, {}, Idle);
    assert op in r.db.ops;
    ShortIdsAreFresh(items, 1);
    steps := TakenNameLosesTheEdit(FILE_F, r, Fails, "old", mtime, now);
    assert steps[1] == RemoveOld(Fails);
  }

  /** A new file, the answer to its first upload lost, then an edit. */
  lemma LostAnswerLosesAnEdit(mtime: int, now: int) returns (r: Race, steps: seq<Step>, r1: Race)
    ensures AtRest(FILE_F, r) && r.writers == {} && IsRun(FILE_F, r, steps)
    ensures r1.file.bytes == [2] && LostInClean(FILE_F, r1, Run(FILE_F, r, steps), ItemId(File, 2))
  {
    var items := map["root" := ROOT_ITEM];
    var op := Op(CreateOp, ["f"], None);
    r := Race(LocalFile([1], 1, 1), Db(map[["f"] := RowOfF(None, None)], [op], map[]), items, 1, {}, {}, Idle);
    ShortIdsAreFresh(items, 1);
    steps, r1 := LostAnswerLosesTheNextEdit(FILE_F, r, [2], 1, mtime, now);
  }

  // ---- the branch for a file that was only renamed -----------------------------------------

  /** It decides early that no content has to go up, and marks the row clean for the item of the
      name without looking at the file again. */
  ghost function FinishRenameOnly(f: Spot, r: Race, id: string, now: int): Race
    requires HasName(f, r.items, id)
  {
    r.(db := MarkClean(r.db, f.path, Node(id, r.items[id]), now))
  }

  ghost predicate OnlyWriters(steps: seq<Step>) {
    forall i :: 0 <= i < |steps| ==> steps[i].Write? || steps[i].Record?
  }

  lemma {:induction false} WritersLeaveItems(f: Spot, r: Race, steps: seq<Step>)
    requires OnlyWriters(steps) && IsRun(f, r, steps)
    ensures var r' := Run(f, r, steps); r'.items == r.items && (f.path in r.db.rows ==> f.path in r'.db.rows)
    decreases |steps|
  {
    if steps != [] {
      assert forall i :: 0 <= i < |steps[1..]| ==> steps[1..][i] == steps[i + 1];
      WritersLeaveItems(f, Next(f, r, steps[0]), steps[1..]);
    }
  }

  /** That branch keeps every edit exactly when the item it found has the bytes the file has in the
      end, or a writer has yet to record its write: not when a write before or after the decision
      is recorded before the branch ends. */
  lemma RenameOnlyExactly(f: Spot, r: Race, steps: seq<Step>, id: string, now: int)
    requires f.path in r.db.rows && HasName(f, r.items, id)
    requires OnlyWriters(steps) && IsRun(f, r, steps)
    ensures var r' := Run(f, r, steps);
            && r'.items == r.items
            && (Safe(f.path, FinishRenameOnly(f, r', id, now)) <==>
                  r.items[id].data == r'.file.bytes || r'.writers != {})
  {
    WritersLeaveItems(f, r, steps);
  }

  /** A file that was renamed to `f`, and no more, as far as its row says. */
  function Renamed(bytes: Bytes, writers: set<nat>): Race {
    var row := RowOfF(Some("id"), Some(["old name"]));
    Race(LocalFile(bytes, 0, 0), Db(map[["f"] := row], [], map[]),
         map["id" := Item(Some("root"), "f", File, [1], 2, 0)], 1, writers, {}, Idle)
  }

  /** The branch decides, others run, the branch ends: the row is clean, nobody is writing, and the
      item has other bytes. */
  ghost predicate RenameOnlyLoses(r: Race, steps: seq<Step>, now: int) {
    && !AsksForUpload(r.db, ["f"]) && Safe(["f"], r) && OnlyWriters(steps) && IsRun(FILE_F, r, steps)
    && var r1 := Run(FILE_F, r, steps);
       && HasName(FILE_F, r1.items, "id")
       && var r' := FinishRenameOnly(FILE_F, r1, "id", now);
          && !Safe(["f"], r') && ["f"] in r'.db.rows && !r'.db.rows[["f"]].dirty && r'.writers == {}
          && r'.db.rows[["f"]].remoteId == Some("id") && r'.items["id"].data == [1] && r'.file.bytes == [2]
  }

  /** A write that begins after the decision. */
  lemma RenameOnlyLosesAWrite(now: int)
    ensures RenameOnlyLoses(Renamed([1], {}), [Write(0, [2]), Record(0, 1, 0)], now)
  {
    var r := Renamed([1], {});
    var write, record := Write(0, [2]), Record(0, 1, 0);
    var r1 := Next(FILE_F, r, write);
    OneStep(FILE_F, r1, record, []);
    OneStep(FILE_F, r, write, [record]);
    assert [write] + [record] == [write, record];
    var r2 := Next(FILE_F, r1, record);
    CleanAsksForNothing(r2.db, ["f"], Node("id", r2.items["id"]), now);
  }

  /** A write that has stored its bytes before the decision and has not marked the row. */
  lemma RenameOnlyLosesAnEarlierWrite(now: int)
    ensures RenameOnlyLoses(Renamed([2], {0}), [Record(0, 1, 0)], now)
  {
    var r, record := Renamed([2], {0}), Record(0, 1, 0);
    OneStep(FILE_F, r, record, []);
    var r1 := Next(FILE_F, r, record);
    CleanAsksForNothing(r1.db, ["f"], Node("id", r1.items["id"]), now);
  }
}
