/**
 * Which answers lead where: what a pass's facts say happened, and which of them earn each state it writes.
 */
module AttachmentVerdicts {
  import opened Options
  import opened AttachmentPolicy
  import opened Attachments

  // ---------------------------------------------------------------- facts are what happened

  /** What an event adds to the facts of a pass that stands where the event finds it. */
  function Added(policy: Policy, w: World, e: Event, pass: ScanPass): seq<Fact> {
    match e
    case Claims(_) => if pass.at.Ready? && Matches(w, pass.id, QUARANTINED) then [Claimed] else []
    case ScannerAnswers(_, answer) =>
      if !pass.at.Scanning? then []
      else if answer.FoundClean? && CheckReceived(policy, pass.upload.uploader, pass.upload.claim, answer.measured).Pass?
      then [Saw(answer), PassedPolicy]
      else [Saw(answer)]
    case StorageAnswers(_, promotion) =>
      if pass.at.Promoting? && promotion != Unavailable && Quarantine(pass.upload.objectId) in w.objects
      then [Promoted(Clean(pass.upload.objectId))] else []
    case Records(_) => if pass.at.Recording? then [Recorded] else []
    case _ => []
  }

  /** The pass an event is a step of. */
  predicate StepOf(e: Event, p: PassId) {
    match e
    case Claims(q) => q == p
    case ScannerAnswers(q, _) => q == p
    case StorageAnswers(q, _) => q == p
    case Records(q) => q == p
    case Writes(q) => q == p
    case PassCrashes(q) => q == p
    case _ => false
  }

  /** Another's event leaves a pass alone. */
  lemma OthersStay(policy: Policy, w: World, e: Event, p: PassId)
    requires p in w.passes && !StepOf(e, p)
    ensures p in Step(policy, w, e).passes && Step(policy, w, e).passes[p] == w.passes[p]
  {
    hide MoveRow, Judge, Target;
  }

  lemma OwnStep(policy: Policy, w: World, e: Event, p: PassId)
    requires p in w.passes && StepOf(e, p) && !e.Writes? && (w.passes[p].at.Ready? ==> w.passes[p].facts == [])
    ensures p in Step(policy, w, e).passes
    ensures Step(policy, w, e).passes[p].facts == w.passes[p].facts + Added(policy, w, e, w.passes[p])
  {
    hide CheckReceived;
    assert w.passes[p].facts + [] == w.passes[p].facts;
  }

  /** A write adds the state it leaves the row in, if it finds the row under scan. */
  lemma OwnWrite(policy: Policy, w: World, p: PassId)
    requires p in w.passes && WhereItStands(w.passes[p]) && (w.passes[p].id in w.rows ==> w.passes[p].id in w.past)
    ensures var id, v := w.passes[p].id, Step(policy, w, Writes(p));
            && p in v.passes && v.rows.Keys == w.rows.Keys
            && if w.passes[p].at.Writing? && id in w.rows && w.rows[id].state == SCANNING
               then v.passes[p].facts == w.passes[p].facts + [Wrote(v.rows[id].state)]
               else v.passes[p].facts == w.passes[p].facts
  {
  }

  /** Every decision is for a state the table allows. */
  predicate WhereItStands(pass: ScanPass) {
    pass.at.Writing? ==> Target(pass.at.next).Some?
  }

  lemma EveryDecisionStands(pass: ScanPass)
    ensures WhereItStands(pass)
  {
  }

  // ---------------------------------------------------------------- and earn what is written

  /** The facts before a write of each state, in order. */
  ghost predicate Earns(policy: Policy, upload: Upload, facts: seq<Fact>, to: State) {
    var permitted := (m: Claim) => CheckReceived(policy, upload.uploader, upload.claim, m).Pass?;
    match to
    case QUARANTINED =>
      facts == [Claimed, Saw(CannotRun), Recorded]
      || exists m :: permitted(m) && facts == [Claimed, Saw(FoundClean(m)), PassedPolicy]
    case INFECTED => facts == [Claimed, Saw(Infected), Recorded]
    case REJECTED =>
      facts == [Claimed, Saw(Rejected), Recorded]
      || exists m :: !permitted(m) && facts == [Claimed, Saw(FoundClean(m)), Recorded]
    case CLEAN =>
      exists m :: permitted(m) && facts == [Claimed, Saw(FoundClean(m)), PassedPolicy, Promoted(Clean(upload.objectId)), Recorded]
    case _ => false
  }

  /** The state each decision is for. */
  function StateFor(decision: Decision): State {
    match decision
    case Retry => QUARANTINED
    case Condemn(infected) => if infected then INFECTED else REJECTED
    case Accept(_, _) => CLEAN
  }

  /** What a pass has been through so far earns what it is about to write, or the record is still to come. */
  ghost predicate Traced(policy: Policy, pass: ScanPass) {
    match pass.at
    case Ready => pass.facts == []
    case Scanning => pass.facts == [Claimed]
    case Promoting(m) =>
      && pass.facts == [Claimed, Saw(FoundClean(m)), PassedPolicy]
      && CheckReceived(policy, pass.upload.uploader, pass.upload.claim, m).Pass?
    case Recording(next) => Earns(policy, pass.upload, pass.facts + [Recorded], StateFor(next))
    case Writing(next) => Earns(policy, pass.upload, pass.facts, StateFor(next))
    case Done => forall to: State :: WroteLast(pass.facts, to) ==> Earns(policy, pass.upload, pass.facts[..|pass.facts| - 1], to)
  }

  predicate WroteLast(facts: seq<Fact>, to: State) {
    facts != [] && facts[|facts| - 1] == Wrote(to)
  }

  ghost predicate AllTraced(policy: Policy, passes: map<PassId, ScanPass>) {
    forall p :: p in passes ==> Traced(policy, passes[p])
  }

  lemma JudgedIsTraced(policy: Policy, w: World, p: PassId, answer: ScanAnswer)
    requires p in w.passes && Traced(policy, w.passes[p])
    ensures Traced(policy, Scan(w, policy, p, answer).passes[p])
  {
    hide CheckReceived;
    var pass := w.passes[p];
    if pass.at.Scanning? {
      assert pass.facts + [Saw(answer)] + [Recorded] == [Claimed, Saw(answer), Recorded];
    }
  }

  lemma PromotedIsTraced(policy: Policy, w: World, p: PassId, promotion: PromoteAnswer)
    requires p in w.passes && Traced(policy, w.passes[p])
    ensures Traced(policy, Promote(w, p, promotion).passes[p])
  {
    hide CheckReceived;
    var pass := w.passes[p];
    if pass.at.Promoting? {
      var to := Clean(pass.upload.objectId);
      assert pass.facts + [Promoted(to)] + [Recorded]
          == [Claimed, Saw(FoundClean(pass.at.measured)), PassedPolicy, Promoted(to), Recorded];
    }
  }

  lemma WrittenIsTraced(policy: Policy, w: World, p: PassId)
    requires p in w.passes && Traced(policy, w.passes[p])
    ensures Traced(policy, Write(w, p).passes[p])
  {
    hide CheckReceived;
    var pass := w.passes[p];
    if pass.at.Writing? {
      var facts := Write(w, p).passes[p].facts;
      if facts == pass.facts {
        NothingWrittenYet(policy, pass.upload, facts, StateFor(pass.at.next));
      } else {
        assert facts[..|facts| - 1] == pass.facts;
      }
    }
  }

  lemma NothingWrittenYet(policy: Policy, upload: Upload, facts: seq<Fact>, next: State)
    requires Earns(policy, upload, facts, next)
    ensures forall to: State :: !WroteLast(facts, to)
  {
  }

  /** A pass that dies has written nothing, unless it had already. */
  lemma CrashedIsTraced(policy: Policy, pass: ScanPass)
    requires Traced(policy, pass)
    ensures Traced(policy, pass.(at := Done))
  {
    hide CheckReceived;
    match pass.at
    case Recording(next) =>
      NothingWrittenYet(policy, pass.upload, pass.facts + [Recorded], StateFor(next));
      BeforeTheRecord(policy, pass.upload, pass.facts, StateFor(next));
    case Writing(next) => NothingWrittenYet(policy, pass.upload, pass.facts, StateFor(next));
    case _ =>
  }

  lemma BeforeTheRecord(policy: Policy, upload: Upload, facts: seq<Fact>, next: State)
    requires Earns(policy, upload, facts + [Recorded], next)
    ensures forall to: State :: !WroteLast(facts, to)
  {
    hide CheckReceived;
    if facts != [] {
      assert (facts + [Recorded])[|facts| - 1] == facts[|facts| - 1];
    }
  }

  lemma StepIsTraced(policy: Policy, w: World, e: Event, p: PassId)
    requires Safe(policy, w) && AllTraced(policy, w.passes) && p in Step(policy, w, e).passes
    ensures Traced(policy, Step(policy, w, e).passes[p])
  {
    hide CheckReceived, Safe, Earns, Scan, Promote, Write;
    if p in w.passes {
      assert Traced(policy, w.passes[p]);
      match e
      case ScannerAnswers(q, answer) =>
        if q == p {
          JudgedIsTraced(policy, w, p, answer);
        } else {
          OthersStay(policy, w, e, p);
        }
      case StorageAnswers(q, promotion) =>
        if q == p {
          PromotedIsTraced(policy, w, p, promotion);
        } else {
          OthersStay(policy, w, e, p);
        }
      case Writes(q) =>
        if q == p {
          WrittenIsTraced(policy, w, p);
        } else {
          OthersStay(policy, w, e, p);
        }
      case PassCrashes(q) => CrashedIsTraced(policy, w.passes[p]);
      case _ =>
    } else {
      NewPass(policy, w, e, p);
    }
  }

  lemma NewPass(policy: Policy, w: World, e: Event, p: PassId)
    requires p !in w.passes && p in Step(policy, w, e).passes
    ensures e.PassStarts? && e.p == p && Step(policy, w, e).passes[p].facts == [] && Step(policy, w, e).passes[p].at == Ready
  {
    hide CheckReceived;
  }

  lemma {:induction false} EveryPassIsTraced(policy: Policy, events: seq<Event>)
    ensures AllTraced(policy, Run(policy, NO_UPLOADS, events).passes)
  {
    hide Step, Safe, Traced;
    if events != [] {
      var before, e := events[..|events| - 1], events[|events| - 1];
      EveryPassIsTraced(policy, before);
      EveryRunIsSafe(policy, before);
      forall p | p in Run(policy, NO_UPLOADS, events).passes
        ensures Traced(policy, Run(policy, NO_UPLOADS, events).passes[p])
      {
        StepIsTraced(policy, Run(policy, NO_UPLOADS, before), e, p);
      }
    }
  }

  // ---------------------------------------------------------------- over whole runs

  /**
   * Facts are never forgotten and never invented. After any run, an event that is not the pass's own leaves it
   * alone, and its own adds exactly what it did; a write adds the state it left the row in, if it found the row
   * under scan.
   */
  lemma FactsAreWhatHappened(policy: Policy, events: seq<Event>, e: Event, p: PassId)
    requires p in Run(policy, NO_UPLOADS, events).passes
    ensures var w := Run(policy, NO_UPLOADS, events);
            var v, id := Step(policy, w, e), w.passes[p].id;
            && p in v.passes && v.passes[p].id == id && v.passes[p].upload == w.passes[p].upload
            && id in w.rows && id in v.rows
            && v.passes[p].facts == w.passes[p].facts
               + (if !StepOf(e, p) then []
                  else if !e.Writes? then Added(policy, w, e, w.passes[p])
                  else if w.passes[p].at.Writing? && w.rows[id].state == SCANNING then [Wrote(v.rows[id].state)]
                  else [])
  {
    hide Run, Step, Safe, Added;
    var w := Run(policy, NO_UPLOADS, events);
    EveryRunIsSafe(policy, events);
    EveryPassIsTraced(policy, events);
    RowOfThePass(policy, w, p);
    IdsStay(policy, w, e, p);
    EveryDecisionStands(w.passes[p]);
    assert Traced(policy, w.passes[p]);
    assert w.passes[p].facts + [] == w.passes[p].facts;
    if !StepOf(e, p) {
      OthersStay(policy, w, e, p);
      RowsStay(policy, w, e);
    } else if e.Writes? {
      OwnWrite(policy, w, p);
    } else {
      OwnStep(policy, w, e, p);
      RowsStay(policy, w, e);
    }
  }

  lemma RowsStay(policy: Policy, w: World, e: Event)
    ensures w.rows.Keys <= Step(policy, w, e).rows.Keys
  {
    hide MoveRow, Judge, Target;
  }

  /** The pass wrote the state, and it was its last fact. */
  ghost predicate WroteIt(w: World, p: PassId, id: Id, to: State) {
    p in w.passes && w.passes[p].id == id && w.passes[p].at.Done? && WroteLast(w.passes[p].facts, to)
  }

  /** A row in a state only a scan gives was written by a pass; a pass that wrote a settled state left it so. */
  ghost predicate Written(w: World, id: Id) {
    && (id in w.rows && w.rows[id].state in {INFECTED, REJECTED} ==> exists p :: WroteIt(w, p, id, w.rows[id].state))
    && (forall p, to :: to in {INFECTED, REJECTED} && WroteIt(w, p, id, to) ==> id in w.rows && w.rows[id].state == to)
  }

  lemma StepIsWritten(policy: Policy, w: World, e: Event, id: Id)
    requires Safe(policy, w) && AllTraced(policy, w.passes) && Written(w, id)
    ensures Written(Step(policy, w, e), id)
  {
    hide Safe, Step, WroteLast, Traced;
    var v := Step(policy, w, e);
    forall p | p in w.passes && w.passes[p].at.Done?
      ensures p in v.passes && v.passes[p] == w.passes[p]
    {
      DoneStays(policy, w, e, p);
    }
    if id in w.rows && w.rows[id].state in {INFECTED, REJECTED} {
      var p :| WroteIt(w, p, id, w.rows[id].state);
      SettledStays(policy, w, e, id);
      assert WroteIt(v, p, id, v.rows[id].state);
    } else if id in v.rows && v.rows[id].state in {INFECTED, REJECTED} {
      var p := NewlyCondemned(policy, w, e, id);
    }
    forall p, to | to in {INFECTED, REJECTED} && WroteIt(v, p, id, to)
      ensures id in v.rows && v.rows[id].state == to
    {
      if p in w.passes && w.passes[p].at.Done? {
        assert WroteIt(w, p, id, to);
        SettledStays(policy, w, e, id);
      } else {
        NewlyWritten(policy, w, e, p, id, to);
      }
    }
  }

  lemma DoneStays(policy: Policy, w: World, e: Event, p: PassId)
    requires Safe(policy, w) && p in w.passes && w.passes[p].at.Done?
    ensures p in Step(policy, w, e).passes && Step(policy, w, e).passes[p] == w.passes[p]
  {
    hide CheckReceived, Safe, RowsSafe;
  }

  /** Only a pass condemns a row, by its write. */
  lemma NewlyCondemned(policy: Policy, w: World, e: Event, id: Id) returns (p: PassId)
    requires Safe(policy, w) && id in Step(policy, w, e).rows && Step(policy, w, e).rows[id].state in {INFECTED, REJECTED}
    requires id in w.rows ==> w.rows[id].state !in {INFECTED, REJECTED}
    ensures WroteIt(Step(policy, w, e), p, id, Step(policy, w, e).rows[id].state)
  {
    hide CheckReceived, Safe, RowsSafe;
    assert e.Writes? && e.p in w.passes && w.passes[e.p].at.Writing? && w.passes[e.p].id == id;
    p := e.p;
  }

  lemma NewlyWritten(policy: Policy, w: World, e: Event, p: PassId, id: Id, to: State)
    requires Safe(policy, w) && AllTraced(policy, w.passes) && WroteIt(Step(policy, w, e), p, id, to)
    requires p in w.passes ==> !w.passes[p].at.Done?
    ensures id in Step(policy, w, e).rows && Step(policy, w, e).rows[id].state == to
  {
    hide Safe, Step, Earns, CheckReceived;
    if p !in w.passes {
      NewPass(policy, w, e, p);
    } else {
      assert Traced(policy, w.passes[p]);
      NotWrittenWhileActive(policy, w.passes[p]);
      IdsStay(policy, w, e, p);
      RowOfThePass(policy, w, p);
      EveryDecisionStands(w.passes[p]);
      if !StepOf(e, p) {
        OthersStay(policy, w, e, p);
      } else if e.Writes? {
        OwnWrite(policy, w, p);
      } else {
        OwnStep(policy, w, e, p);
        NothingWrittenBy(policy, w, e, w.passes[p]);
      }
    }
  }

  lemma NothingWrittenBy(policy: Policy, w: World, e: Event, pass: ScanPass)
    requires forall to: State :: !WroteLast(pass.facts, to)
    ensures forall to: State :: !WroteLast(pass.facts + Added(policy, w, e, pass), to)
  {
    hide CheckReceived;
    assert Added(policy, w, e, pass) == [] ==> pass.facts + Added(policy, w, e, pass) == pass.facts;
  }

  lemma IdsStay(policy: Policy, w: World, e: Event, p: PassId)
    requires p in w.passes
    ensures p in Step(policy, w, e).passes && Step(policy, w, e).passes[p].id == w.passes[p].id
    ensures Step(policy, w, e).passes[p].upload == w.passes[p].upload
  {
    hide MoveRow, Judge, Target;
  }

  lemma RowOfThePass(policy: Policy, w: World, p: PassId)
    requires Safe(policy, w) && p in w.passes
    ensures w.passes[p].id in w.rows && w.passes[p].id in w.past
  {
    hide OnTheWay, LegalPath, OneAtATime;
    assert PassSafe(policy, w.rows, w.objects, w.passes[p]);
    assert RowSafe(policy, w, w.passes[p].id);
  }

  lemma NotWrittenWhileActive(policy: Policy, pass: ScanPass)
    requires Traced(policy, pass) && !pass.at.Done?
    ensures forall to: State :: !WroteLast(pass.facts, to)
  {
    hide CheckReceived, Earns;
    match pass.at
    case Recording(next) => BeforeTheRecord(policy, pass.upload, pass.facts, StateFor(next));
    case Writing(next) => NothingWrittenYet(policy, pass.upload, pass.facts, StateFor(next));
    case _ =>
  }

  lemma {:induction false} EveryRunIsWritten(policy: Policy, events: seq<Event>, id: Id)
    ensures Written(Run(policy, NO_UPLOADS, events), id)
  {
    hide Step, Safe, AllTraced, WroteIt;
    if events == [] {
      NothingWritten(policy, id);
    } else {
      var before := events[..|events| - 1];
      EveryRunIsWritten(policy, before, id);
      EveryRunIsSafe(policy, before);
      EveryPassIsTraced(policy, before);
      StepIsWritten(policy, Run(policy, NO_UPLOADS, before), events[|events| - 1], id);
    }
  }

  lemma NothingWritten(policy: Policy, id: Id)
    ensures Written(Run(policy, NO_UPLOADS, []), id)
  {
  }

  /**
   * What is written is what was earned: over every run and for every pass, a write of INFECTED follows an infected
   * answer, a write of REJECTED a rejection or a clean file the policy refuses, a write of CLEAN a promotion the
   * policy permitted, and a scanner or a storage that could not run puts the row back.
   */
  lemma EveryWriteIsEarned(policy: Policy, events: seq<Event>, p: PassId, to: State)
    ensures var w := Run(policy, NO_UPLOADS, events);
            p in w.passes && w.passes[p].at.Done? && WroteLast(w.passes[p].facts, to) ==>
              Earns(policy, w.passes[p].upload, w.passes[p].facts[..|w.passes[p].facts| - 1], to)
  {
    hide Run, Earns;
    EveryPassIsTraced(policy, events);
  }

  /** A row is INFECTED exactly if a pass that claimed it saw the scanner say so, recorded it and wrote. */
  lemma InfectedIsEarned(policy: Policy, events: seq<Event>, id: Id)
    ensures var w := Run(policy, NO_UPLOADS, events);
            id in w.rows && w.rows[id].state == INFECTED <==>
            exists p :: p in w.passes && w.passes[p].id == id && w.passes[p].at.Done?
                        && w.passes[p].facts == [Claimed, Saw(Infected), Recorded, Wrote(INFECTED)]
  {
    hide Run, Step;
    var w := Run(policy, NO_UPLOADS, events);
    EveryRunIsWritten(policy, events, id);
    if id in w.rows && w.rows[id].state == INFECTED {
      var p :| WroteIt(w, p, id, INFECTED);
      EveryWriteIsEarned(policy, events, p, INFECTED);
      Rejoined(w.passes[p].facts);
    }
    if p :| p in w.passes && w.passes[p].id == id && w.passes[p].at.Done?
            && w.passes[p].facts == [Claimed, Saw(Infected), Recorded, Wrote(INFECTED)] {
      assert WroteIt(w, p, id, INFECTED);
    }
  }

  lemma Rejoined(facts: seq<Fact>)
    requires facts != []
    ensures facts == facts[..|facts| - 1] + [facts[|facts| - 1]]
  {
  }

  /** Refused for what it is: by the scanner, or by the policy on what the scanner measured. */
  ghost predicate RefusedBy(policy: Policy, pass: ScanPass) {
    || pass.facts == [Claimed, Saw(Rejected), Recorded, Wrote(REJECTED)]
    || exists m ::
         && pass.facts == [Claimed, Saw(FoundClean(m)), Recorded, Wrote(REJECTED)]
         && CheckReceived(policy, pass.upload.uploader, pass.upload.claim, m).Refuse?
  }

  /** A row is REJECTED exactly if a pass that claimed it saw a rejection, or a clean answer the policy refuses, and wrote. */
  lemma RejectedIsEarned(policy: Policy, events: seq<Event>, id: Id)
    ensures var w := Run(policy, NO_UPLOADS, events);
            id in w.rows && w.rows[id].state == REJECTED <==>
            exists p :: p in w.passes && w.passes[p].id == id && w.passes[p].at.Done? && RefusedBy(policy, w.passes[p])
  {
    hide Run, Step, CheckReceived;
    var w := Run(policy, NO_UPLOADS, events);
    EveryRunIsWritten(policy, events, id);
    if id in w.rows && w.rows[id].state == REJECTED {
      var p :| WroteIt(w, p, id, REJECTED);
      EveryWriteIsEarned(policy, events, p, REJECTED);
      Rejoined(w.passes[p].facts);
      assert RefusedBy(policy, w.passes[p]);
    }
    if p :| p in w.passes && w.passes[p].id == id && w.passes[p].at.Done? && RefusedBy(policy, w.passes[p]) {
      assert WroteIt(w, p, id, REJECTED);
    }
  }
}
