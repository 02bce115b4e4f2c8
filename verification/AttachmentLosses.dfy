/**
 * What the attachment pipeline loses: scans nobody takes up again, and bytes nobody deletes. For each, exactly
 * which worlds still lead to a good end.
 */
module AttachmentLosses {
  import opened Options
  import opened AttachmentPolicy
  import opened Attachments

  // ---------------------------------------------------------------- crashed scans

  /** A pass is at work on the row. */
  ghost predicate Attended(w: World, id: Id) {
    exists p :: p in w.passes && w.passes[p].id == id && w.passes[p].Active()
  }

  /** Nobody is at work on a row that was claimed, or has expired since. */
  ghost predicate Stranded(w: World, id: Id) {
    id in w.rows && w.rows[id].state in {SCANNING, EXPIRED} && !Attended(w, id)
  }

  lemma StrandedStep(policy: Policy, w: World, e: Event, id: Id)
    requires Safe(policy, w) && Stranded(w, id)
    ensures Stranded(Step(policy, w, e), id)
  {
    hide RowsSafe, PassesSafe, OneAtATime, OwnObjects, SweepSafe;
  }

  lemma {:induction false} StrandedStays(policy: Policy, w: World, more: seq<Event>, id: Id)
    requires Safe(policy, w) && Stranded(w, id)
    ensures Stranded(Run(policy, w, more), id)
  {
    hide Stranded, Step, Safe;
    if more != [] {
      StrandedStays(policy, w, more[..|more| - 1], id);
      SafeOnwards(policy, w, more[..|more| - 1]);
      StrandedStep(policy, Run(policy, w, more[..|more| - 1]), more[|more| - 1], id);
    }
  }

  /** The row has left SCANNING, and not by expiring. */
  predicate Settled(w: World, id: Id) {
    id in w.rows && w.rows[id].state !in {SCANNING, EXPIRED}
  }

  /** Some continuation settles the row. */
  ghost predicate CanSettle(policy: Policy, w: World, id: Id) {
    exists more :: Settled(Run(policy, w, more), id)
  }

  lemma RunOne(policy: Policy, w: World, e: Event)
    ensures Run(policy, w, [e]) == Step(policy, w, e)
  {
    var none: seq<Event> := [];
    NoEvents(policy, w);
    RunMore(policy, w, none, e);
    assert none + [e] == [e];
  }

  lemma RunTwo(policy: Policy, w: World, a: Event, b: Event)
    ensures Run(policy, w, [a, b]) == Step(policy, Step(policy, w, a), b)
  {
    hide Step;
    RunOne(policy, w, a);
    RunMore(policy, w, [a], b);
    assert [a] + [b] == [a, b];
  }

  /** The steps left to a pass if the scanner finds the worst and storage is down. */
  function Remaining(p: PassId, at: Counter): seq<Event> {
    match at
    case Scanning => [ScannerAnswers(p, Infected), Records(p), Writes(p)]
    case Recording(_) => [Records(p), Writes(p)]
    case Promoting(_) => [StorageAnswers(p, Unavailable), Writes(p)]
    case Writing(_) => [Writes(p)]
    case _ => []
  }

  lemma WritingSettles(w: World, p: PassId, id: Id)
    requires Matches(w, id, SCANNING) && p in w.passes && w.passes[p].id == id && w.passes[p].at.Writing?
    ensures Settled(Write(w, p), id)
  {
  }

  lemma RecordingSettles(w: World, p: PassId, id: Id)
    requires Matches(w, id, SCANNING) && p in w.passes && w.passes[p].id == id && w.passes[p].at.Recording?
    ensures Settled(Write(Record(w, p), p), id)
  {
    hide Write;
    WritingSettles(Record(w, p), p, id);
  }

  /** A pass that stands anywhere before its write can still get there. */
  lemma TheRestSettles(policy: Policy, w: World, p: PassId, id: Id)
    requires Matches(w, id, SCANNING) && p in w.passes && w.passes[p].id == id && w.passes[p].Active()
    ensures Settled(Run(policy, w, Remaining(p, w.passes[p].at)), id)
  {
    hide Run, Write, Record;
    match w.passes[p].at
    case Scanning =>
      var none: seq<Event> := [];
      NoEvents(policy, w);
      RunThree(policy, w, none, ScannerAnswers(p, Infected), Records(p), Writes(p));
      assert none + Remaining(p, w.passes[p].at) == Remaining(p, w.passes[p].at);
      RecordingSettles(Scan(w, policy, p, Infected), p, id);
    case Recording(_) =>
      RunTwo(policy, w, Records(p), Writes(p));
      RecordingSettles(w, p, id);
    case Promoting(_) =>
      RunTwo(policy, w, StorageAnswers(p, Unavailable), Writes(p));
      WritingSettles(Promote(w, p, Unavailable), p, id);
    case Writing(_) =>
      RunOne(policy, w, Writes(p));
      WritingSettles(w, p, id);
  }

  /**
   * In every world reached, a row under scan can still be settled, whether accepted, refused or put back for
   * another pass, exactly if the pass that claimed it is still at work. No claim matches SCANNING, so nothing
   * else will ever take it up.
   */
  lemma ScansSettleOnlyByTheirPass(policy: Policy, events: seq<Event>, id: Id)
    requires id in Run(policy, NO_UPLOADS, events).rows && Run(policy, NO_UPLOADS, events).rows[id].state == SCANNING
    ensures CanSettle(policy, Run(policy, NO_UPLOADS, events), id) <==> Attended(Run(policy, NO_UPLOADS, events), id)
  {
    hide Run, Settled;
    var w := Run(policy, NO_UPLOADS, events);
    EveryRunIsSafe(policy, events);
    assert RowSafe(policy, w, id);
    if Attended(w, id) {
      var p :| p in w.passes && w.passes[p].id == id && w.passes[p].Active();
      TheRestSettles(policy, w, p, id);
    } else {
      forall more
        ensures !Settled(Run(policy, w, more), id)
      {
        StrandedStays(policy, w, more, id);
        StrandedIsNotSettled(Run(policy, w, more), id);
      }
    }
  }

  lemma StrandedIsNotSettled(w: World, id: Id)
    requires Stranded(w, id)
    ensures !Settled(w, id)
  {
  }

  /** The step that loses a scan, wherever its pass stands: there is no other pass on the row to go on. */
  lemma CrashLosesTheScan(policy: Policy, events: seq<Event>, p: PassId)
    requires var w := Run(policy, NO_UPLOADS, events);
             p in w.passes && w.passes[p].Active() && w.passes[p].id in w.rows && w.rows[w.passes[p].id].state == SCANNING
    ensures var w := Run(policy, NO_UPLOADS, events);
            var id, v := w.passes[p].id, Run(policy, NO_UPLOADS, events + [PassCrashes(p)]);
            id in v.rows && v.rows[id].state == SCANNING && !CanSettle(policy, v, id)
  {
    hide Run, CanSettle, RowsSafe, SweepsSafe, OwnObjects, OnTheWay;
    var w := Run(policy, NO_UPLOADS, events);
    EveryRunIsSafe(policy, events);
    assert PassSafe(policy, w.rows, w.objects, w.passes[p]);
    RunMore(policy, NO_UPLOADS, events, PassCrashes(p));
    ScansSettleOnlyByTheirPass(policy, events + [PassCrashes(p)], w.passes[p].id);
  }

  /** A run that comes to it. */
  lemma ACrashedScan(policy: Policy, upload: Upload)
    ensures var claimed := [Granted("a", upload, 0), Announced("a"), PassStarts(0, "a"), Claims(0)];
            var w := Run(policy, NO_UPLOADS, claimed + [PassCrashes(0)]);
            "a" in w.rows && w.rows["a"].state == SCANNING && !CanSettle(policy, w, "a")
  {
    hide Run, CanSettle, Grant, Announce, Start, TryClaim;
    var none, three: seq<Event> := [], [Granted("a", upload, 0), Announced("a"), PassStarts(0, "a")];
    var events := three + [Claims(0)];
    NoEvents(policy, NO_UPLOADS);
    RunThree(policy, NO_UPLOADS, none, three[0], three[1], three[2]);
    assert none + [three[0], three[1], three[2]] == three;
    RunMore(policy, NO_UPLOADS, three, Claims(0));
    assert events == [Granted("a", upload, 0), Announced("a"), PassStarts(0, "a"), Claims(0)];
    AClaim(upload);
    CrashLosesTheScan(policy, events, 0);
  }

  lemma AClaim(upload: Upload)
    ensures var w := TryClaim(Start(Announce(Grant(NO_UPLOADS, "a", upload, 0), "a"), 0, "a"), 0);
            "a" in w.rows && w.rows["a"].state == SCANNING && 0 in w.passes && w.passes[0].id == "a" && w.passes[0].at.Scanning?
  {
  }

  // ---------------------------------------------------------------- bytes left behind

  /** A sweep that marked its row still means to delete the key. */
  ghost predicate StillHeld(w: World, key: Key) {
    exists s :: s in w.sweeps && HeldBy(w, s, key)
  }

  predicate HeldBy(w: World, s: SweepId, key: Key)
    requires s in w.sweeps
  {
    w.sweeps[s].at.Deleting? && key in w.sweeps[s].keys
  }

  /** Bytes of an expired row that no sweep under way still means to delete. */
  ghost predicate Forgotten(w: World, id: Id, key: Key) {
    && id in w.rows && w.rows[id].state == EXPIRED
    && key in {Quarantine(w.rows[id].upload.objectId), Clean(w.rows[id].upload.objectId)}
    && !StillHeld(w, key)
  }

  predicate OfASweep(e: Event) {
    e.SweepReads? || e.SweepMarks? || e.SweepDeletes? || e.SweepCrashes?
  }

  lemma OthersLeaveSweeps(policy: Policy, w: World, e: Event)
    requires !OfASweep(e)
    ensures Step(policy, w, e).sweeps == w.sweeps
  {
    hide MoveRow, Judge, Target;
  }

  lemma ForgottenBySweeps(policy: Policy, w: World, e: Event, id: Id, key: Key, s: SweepId)
    requires Safe(policy, w) && Forgotten(w, id, key) && s in Step(policy, w, e).sweeps
    ensures !HeldBy(Step(policy, w, e), s, key)
  {
    hide Safe, TryClaim, Write, Promote, Record, Scan, Announce, Bind, Arrive, Grant;
    if s in w.sweeps {
      assert !HeldBy(w, s, key);
    }
    if !OfASweep(e) {
      OthersLeaveSweeps(policy, w, e);
    } else if e.SweepMarks? && e.s == s {
      MarkedIsNotForgotten(policy, w, s, id, key);
    } else if s in w.sweeps {
      assert forall k :: k in Step(policy, w, e).sweeps[s].keys ==> k in w.sweeps[s].keys;
    }
  }

  lemma MarkedIsNotForgotten(policy: Policy, w: World, s: SweepId, id: Id, key: Key)
    requires Safe(policy, w) && Forgotten(w, id, key) && s in Mark(w, s).sweeps
    ensures !HeldBy(Mark(w, s), s, key)
  {
    hide RowsSafe, PassesSafe, OneAtATime;
    if s in w.sweeps {
      assert SweepSafe(w.rows, w.sweeps[s]) && !HeldBy(w, s, key);
    }
  }

  lemma ForgottenStep(policy: Policy, w: World, e: Event, id: Id, key: Key)
    requires Safe(policy, w) && Forgotten(w, id, key)
    ensures Forgotten(Step(policy, w, e), id, key)
  {
    hide Safe, HeldBy;
    SettledStays(policy, w, e, id);
    forall s | s in Step(policy, w, e).sweeps
      ensures !HeldBy(Step(policy, w, e), s, key)
    {
      ForgottenBySweeps(policy, w, e, id, key, s);
    }
  }

  lemma {:induction false} ForgottenStays(policy: Policy, w: World, more: seq<Event>, id: Id, key: Key)
    requires Safe(policy, w) && Forgotten(w, id, key)
    ensures Forgotten(Run(policy, w, more), id, key)
  {
    hide Forgotten, Step, Safe;
    if more != [] {
      ForgottenStays(policy, w, more[..|more| - 1], id, key);
      SafeOnwards(policy, w, more[..|more| - 1]);
      ForgottenStep(policy, Run(policy, w, more[..|more| - 1]), more[|more| - 1], id, key);
    }
  }

  /** Some sweep's next deletion is of the key. */
  ghost predicate UpNext(w: World, key: Key) {
    exists s :: s in w.sweeps && w.sweeps[s].at.Deleting? && w.sweeps[s].keys != [] && w.sweeps[s].keys[0] == key
  }

  /** Some continuation comes to where a sweep deletes the key. */
  ghost predicate CanBeDeleted(policy: Policy, w: World, key: Key) {
    exists more :: UpNext(Run(policy, w, more), key)
  }

  function Deletions(s: SweepId, n: nat): seq<Event> {
    seq(n, i => SweepDeletes(s, false))
  }

  lemma {:induction false} DeletionsSkip(policy: Policy, w: World, s: SweepId, n: nat)
    requires s in w.sweeps && w.sweeps[s].at.Deleting? && n <= |w.sweeps[s].keys|
    ensures var v := Run(policy, w, Deletions(s, n));
            s in v.sweeps && v.sweeps[s] == w.sweeps[s].(keys := w.sweeps[s].keys[n..])
  {
    if n > 0 {
      DeletionsSkip(policy, w, s, n - 1);
      RunMore(policy, w, Deletions(s, n - 1), SweepDeletes(s, false));
      assert Deletions(s, n) == Deletions(s, n - 1) + [SweepDeletes(s, false)];
    }
  }

  /**
   * In every world reached, either key of an expired row can still come to be deleted exactly if a sweep that
   * marked the row still holds it. A sweep reads only unexpired rows, so no later tick looks at it again.
   */
  lemma BytesGoOnlyByTheirSweep(policy: Policy, events: seq<Event>, id: Id, key: Key)
    requires var w := Run(policy, NO_UPLOADS, events);
             id in w.rows && w.rows[id].state == EXPIRED
             && key in {Quarantine(w.rows[id].upload.objectId), Clean(w.rows[id].upload.objectId)}
    ensures var w := Run(policy, NO_UPLOADS, events);
            CanBeDeleted(policy, w, key) <==> StillHeld(w, key)
  {
    hide Run, Step, Safe, UpNext;
    var w := Run(policy, NO_UPLOADS, events);
    EveryRunIsSafe(policy, events);
    if StillHeld(w, key) {
      var s :| s in w.sweeps && HeldBy(w, s, key);
      var n: nat :| n < |w.sweeps[s].keys| && w.sweeps[s].keys[n] == key;
      DeletionsSkip(policy, w, s, n);
      FirstIsUpNext(Run(policy, w, Deletions(s, n)), s, key);
    } else {
      forall more
        ensures !UpNext(Run(policy, w, more), key)
      {
        ForgottenStays(policy, w, more, id, key);
        ForgottenIsNotUpNext(Run(policy, w, more), id, key);
      }
    }
  }

  lemma FirstIsUpNext(w: World, s: SweepId, key: Key)
    requires s in w.sweeps && w.sweeps[s].at.Deleting? && w.sweeps[s].keys != [] && w.sweeps[s].keys[0] == key
    ensures UpNext(w, key)
  {
  }

  lemma ForgottenIsNotUpNext(w: World, id: Id, key: Key)
    requires Forgotten(w, id, key)
    ensures !UpNext(w, key)
  {
    forall s | s in w.sweeps && w.sweeps[s].at.Deleting? && w.sweeps[s].keys != []
      ensures w.sweeps[s].keys[0] != key
    {
      assert !HeldBy(w, s, key);
    }
  }

  /** Such bytes stay in storage, the clean copy always and the quarantined one unless a pass is still to promote it. */
  lemma ForgottenBytesStay(policy: Policy, events: seq<Event>, more: seq<Event>, id: Id, key: Key)
    requires var w := Run(policy, NO_UPLOADS, events);
             Forgotten(w, id, key) && key in w.objects && (key.Clean? || !Attended(w, id))
    ensures var v := Run(policy, Run(policy, NO_UPLOADS, events), more);
            key in v.objects && !CanBeDeleted(policy, v, key)
  {
    hide Run, Step, Safe, Forgotten, CanBeDeleted, Attended, StillHeld;
    var w := Run(policy, NO_UPLOADS, events);
    EveryRunIsSafe(policy, events);
    StaysInStorage(policy, w, more, id, key);
    ForgottenStays(policy, w, more, id, key);
    NotDeletedFrom(policy, w, more, id, key);
  }

  lemma NotDeletedFrom(policy: Policy, w: World, more: seq<Event>, id: Id, key: Key)
    requires Safe(policy, w) && Forgotten(w, id, key)
    ensures !CanBeDeleted(policy, Run(policy, w, more), key)
  {
    hide Run, Step, Safe, Forgotten, UpNext;
    var v := Run(policy, w, more);
    SafeOnwards(policy, w, more);
    ForgottenStays(policy, w, more, id, key);
    forall further
      ensures !UpNext(Run(policy, v, further), key)
    {
      ForgottenStays(policy, v, further, id, key);
      ForgottenIsNotUpNext(Run(policy, v, further), id, key);
    }
  }

  /** The bytes are there, and no step to come takes them away. */
  ghost predicate Lingering(w: World, id: Id, key: Key) {
    Forgotten(w, id, key) && key in w.objects && (key.Clean? || Stranded(w, id))
  }

  lemma LingeringStep(policy: Policy, w: World, e: Event, id: Id, key: Key)
    requires Safe(policy, w) && Lingering(w, id, key)
    ensures Lingering(Step(policy, w, e), id, key)
  {
    hide Stranded;
    ForgottenStep(policy, w, e, id, key);
    if key.Quarantine? {
      StrandedStep(policy, w, e, id);
    }
    ObjectLingers(policy, w, e, id, key);
  }

  lemma DeletionKeepsOthers(w: World, s: SweepId, deleted: bool, key: Key)
    requires key in w.objects && !StillHeld(w, key)
    ensures key in Delete(w, s, deleted).objects
  {
    if s in w.sweeps && w.sweeps[s].at.Deleting? && w.sweeps[s].keys != [] {
      assert !HeldBy(w, s, key);
      assert w.sweeps[s].keys[0] in w.sweeps[s].keys;
    }
  }

  /** No pass promotes a stranded row's object. */
  lemma PromotionIsOwn(policy: Policy, w: World, p: PassId, id: Id)
    requires Safe(policy, w) && Stranded(w, id) && p in w.passes && w.passes[p].at.Promoting?
    ensures w.passes[p].upload.objectId != w.rows[id].upload.objectId
  {
    hide RowsSafe, SweepsSafe, OneAtATime, OnTheWay;
    assert PassSafe(policy, w.rows, w.objects, w.passes[p]);
  }

  lemma OthersKeepObjects(policy: Policy, w: World, e: Event, key: Key)
    requires key in w.objects && !e.SweepDeletes? && !e.StorageAnswers?
    ensures key in Step(policy, w, e).objects
  {
    hide MoveRow, Judge, Target, CheckReceived;
  }

  lemma ObjectLingers(policy: Policy, w: World, e: Event, id: Id, key: Key)
    requires Safe(policy, w) && Lingering(w, id, key)
    ensures key in Step(policy, w, e).objects
  {
    hide Safe, Stranded, StillHeld, Delete, Promote;
    match e
    case SweepDeletes(s, deleted) => DeletionKeepsOthers(w, s, deleted, key);
    case StorageAnswers(p, promotion) =>
      if p in w.passes && w.passes[p].at.Promoting? && key.Quarantine? {
        PromotionIsOwn(policy, w, p, id);
      }
      PromotionKeepsOthers(w, p, promotion, key);
    case _ => OthersKeepObjects(policy, w, e, key);
  }

  lemma PromotionKeepsOthers(w: World, p: PassId, promotion: PromoteAnswer, key: Key)
    requires key in w.objects
    requires p in w.passes && w.passes[p].at.Promoting? ==> key != Quarantine(w.passes[p].upload.objectId)
    ensures key in Promote(w, p, promotion).objects
  {
  }

  lemma {:induction false} StaysInStorage(policy: Policy, w: World, more: seq<Event>, id: Id, key: Key)
    requires Safe(policy, w) && Forgotten(w, id, key) && key in w.objects && (key.Clean? || !Attended(w, id))
    ensures Lingering(Run(policy, w, more), id, key)
  {
    hide Step, Safe, Attended, StillHeld;
    if more != [] {
      StaysInStorage(policy, w, more[..|more| - 1], id, key);
      SafeOnwards(policy, w, more[..|more| - 1]);
      LingeringStep(policy, Run(policy, w, more[..|more| - 1]), more[|more| - 1], id, key);
    }
  }

  // ---------------------------------------------------------------- two ways to leave them

  /** Storage refuses one deletion, and the sweep does not try it again. */
  lemma ARefusedDeletion(policy: Policy, upload: Upload)
    ensures var w := Run(policy, NO_UPLOADS, [Granted("a", upload, 0), BytesArrive("a"), Announced("a")]
                                             + [SweepReads(0, "a", 0), SweepMarks(0), SweepDeletes(0, false)]);
            var key := Quarantine(upload.objectId);
            Forgotten(w, "a", key) && key in w.objects && !Attended(w, "a")
  {
    hide Run, Grant, Arrive, Announce, Read, Mark, Delete, Forgotten;
    var none: seq<Event> := [];
    var first := [Granted("a", upload, 0), BytesArrive("a"), Announced("a")];
    NoEvents(policy, NO_UPLOADS);
    SixSteps(policy, NO_UPLOADS, none, first, [SweepReads(0, "a", 0), SweepMarks(0), SweepDeletes(0, false)]);
    assert none + first == first;
    UploadedAndAnnounced(upload);
    SweptInVain(Announce(Arrive(Grant(NO_UPLOADS, "a", upload, 0), "a"), "a"), upload);
  }

  lemma SweptInVain(w: World, upload: Upload)
    requires "a" in w.rows && w.rows["a"] == Row(upload, QUARANTINED, None, None, None, Some(0)) && "a" in w.past
    requires w.passes == map[] && w.sweeps == map[] && Quarantine(upload.objectId) in w.objects
    ensures var v := Delete(Mark(Read(w, 0, "a", 0), 0), 0, false);
            Forgotten(v, "a", Quarantine(upload.objectId)) && Quarantine(upload.objectId) in v.objects && v.passes == w.passes
  {
    var keys := [Quarantine(upload.objectId)];
    assert keys + [] == keys;
    assert Mark(Read(w, 0, "a", 0), 0).sweeps == map[0 := Sweep("a", QUARANTINED, keys, Deleting)];
  }

  function LostUpload(upload: Upload): seq<Event> {
    [Granted("a", upload, 0), BytesArrive("a"), Announced("a"),
     PassStarts(0, "a"), Claims(0), ScannerAnswers(0, FoundClean(upload.claim)),
     StorageAnswers(0, Renamed), SweepReads(0, "a", 0), SweepMarks(0),
     SweepDeletes(0, true), Records(0), Writes(0)]
  }

  /** The same twelve steps, one inside the other. */
  function LostWorld(policy: Policy, upload: Upload): World {
    var w1 := Announce(Arrive(Grant(NO_UPLOADS, "a", upload, 0), "a"), "a");
    var w2 := Scan(TryClaim(Start(w1, 0, "a"), 0), policy, 0, FoundClean(upload.claim));
    var w3 := Mark(Read(Promote(w2, 0, Renamed), 0, "a", 0), 0);
    Write(Record(Delete(w3, 0, true), 0), 0)
  }

  lemma LostUploadRuns(policy: Policy, upload: Upload)
    ensures Run(policy, NO_UPLOADS, LostUpload(upload)) == LostWorld(policy, upload)
  {
    hide Run, Grant, Arrive, Announce, Start, TryClaim, Scan, Promote, Read, Mark, Delete, Record, Write;
    var none, all: seq<Event> := [], LostUpload(upload);
    NoEvents(policy, NO_UPLOADS);
    SixSteps(policy, NO_UPLOADS, none, all[..3], all[3..6]);
    SixSteps(policy, NO_UPLOADS, all[..6], all[6..9], all[9..]);
    assert none + all[..3] + all[3..6] == all[..6] && all[..6] + all[6..9] + all[9..] == all;
  }

  /**
   * How bytes are forgotten: the upload expires between its promotion and the write that would have recorded
   * the clean key, so the sweep deletes the only key the row knew.
   */
  lemma PromotedThenExpired(policy: Policy, upload: Upload)
    requires CheckReceived(policy, upload.uploader, upload.claim, upload.claim).Pass?
    ensures var w := Run(policy, NO_UPLOADS, LostUpload(upload));
            Forgotten(w, "a", Clean(upload.objectId)) && Clean(upload.objectId) in w.objects
  {
    hide Run, Grant, Arrive, Announce, Start, TryClaim, Scan, Promote, Read, Mark, Delete, Record, Write, Forgotten;
    LostUploadRuns(policy, upload);
    var w1 := Announce(Arrive(Grant(NO_UPLOADS, "a", upload, 0), "a"), "a");
    UploadedAndAnnounced(upload);
    var w2 := Scan(TryClaim(Start(w1, 0, "a"), 0), policy, 0, FoundClean(upload.claim));
    ScannedClean(policy, w1, upload);
    ExpiredAfterPromotion(w2, upload);
  }

  lemma UploadedAndAnnounced(upload: Upload)
    ensures var w := Announce(Arrive(Grant(NO_UPLOADS, "a", upload, 0), "a"), "a");
            "a" in w.rows && w.rows["a"] == Row(upload, QUARANTINED, None, None, None, Some(0)) && "a" in w.past
            && w.passes == map[] && w.sweeps == map[] && Quarantine(upload.objectId) in w.objects
  {
  }

  lemma ScannedClean(policy: Policy, w: World, upload: Upload)
    requires CheckReceived(policy, upload.uploader, upload.claim, upload.claim).Pass?
    requires "a" in w.rows && w.rows["a"] == Row(upload, QUARANTINED, None, None, None, Some(0)) && "a" in w.past
    requires w.passes == map[]
    ensures var v := Scan(TryClaim(Start(w, 0, "a"), 0), policy, 0, FoundClean(upload.claim));
            "a" in v.rows && v.rows["a"] == w.rows["a"].(state := SCANNING) && "a" in v.past && 0 in v.passes
            && v.passes[0].id == "a" && v.passes[0].upload == upload && v.passes[0].at == Promoting(upload.claim)
            && v.sweeps == w.sweeps && v.objects == w.objects
  {
    hide CheckReceived;
  }

  lemma ExpiredAfterPromotion(w: World, upload: Upload)
    requires "a" in w.rows && w.rows["a"] == Row(upload, SCANNING, None, None, None, Some(0)) && "a" in w.past
    requires 0 in w.passes && w.passes[0].id == "a" && w.passes[0].upload == upload && w.passes[0].at == Promoting(upload.claim)
    requires w.sweeps == map[] && Quarantine(upload.objectId) in w.objects
    ensures var v := Mark(Read(Promote(w, 0, Renamed), 0, "a", 0), 0);
            var u := Write(Record(Delete(v, 0, true), 0), 0);
            Forgotten(u, "a", Clean(upload.objectId)) && Clean(upload.objectId) in u.objects
  {
    hide Write, Record;
    var v := Mark(Read(Promote(w, 0, Renamed), 0, "a", 0), 0);
    var keys := [Quarantine(upload.objectId)];
    assert keys + [] == keys;
    assert v.sweeps == map[0 := Sweep("a", SCANNING, keys, Deleting)];
    var u := Delete(v, 0, true);
    assert u.sweeps[0].keys == [];
    assert Forgotten(u, "a", Clean(upload.objectId));
    LateWrite(u, "a", Clean(upload.objectId));
  }

  lemma LateWrite(w: World, id: Id, key: Key)
    requires Forgotten(w, id, key) && 0 in w.passes && w.passes[0].id == id
    ensures var v := Write(Record(w, 0), 0); Forgotten(v, id, key) && v.objects == w.objects
  {
  }
}
