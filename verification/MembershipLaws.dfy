/**
 * What every run of creates, adds, removes and leaves keeps: no customer inside an internal conversation, no
 * third person in a one-to-one, and a group founded as one with exactly one creator while anyone remains.
 */
module MembershipLaws {
  import opened Conversations
  import opened Options
  import opened Membership
  import Sorting

  // ---------------------------------------------------------------- counting rows

  function Count(rows: seq<Row>, p: Row -> bool): nat {
    if rows == [] then 0 else Count(rows[..|rows| - 1], p) + if p(rows[|rows| - 1]) then 1 else 0
  }

  function IsLive(): Row -> bool {
    (r: Row) => r.live
  }

  function IsLiveCreator(): Row -> bool {
    (r: Row) => r.live && r.role == CREATOR
  }

  function One(b: bool): nat {
    if b then 1 else 0
  }

  /** At most one row per principal, as the table's key demands. */
  ghost predicate Keyed(rows: seq<Row>) {
    forall i, j :: 0 <= i < j < |rows| ==> rows[i].principalId != rows[j].principalId
  }

  lemma {:induction false} CountSame(a: seq<Row>, b: seq<Row>, p: Row -> bool)
    requires |a| == |b| && forall i :: 0 <= i < |a| ==> p(a[i]) == p(b[i])
    ensures Count(a, p) == Count(b, p)
  {
    if a != [] {
      CountSame(a[..|a| - 1], b[..|b| - 1], p);
    }
  }

  lemma {:induction false} CountUpdated(rows: seq<Row>, i: nat, f: Row -> Row, p: Row -> bool)
    requires Keyed(rows) && i < |rows|
    ensures Count(Updated(rows, rows[i].principalId, f), p) + One(p(rows[i])) == Count(rows, p) + One(p(f(rows[i])))
  {
    var id, k := rows[i].principalId, |rows| - 1;
    var updated := Updated(rows, id, f);
    if i == k {
      CountSame(updated[..k], rows[..k], p);
    } else {
      CountUpdated(rows[..k], i, f, p);
      assert updated[..k] == Updated(rows[..k], id, f);
    }
  }

  lemma CountAppended(rows: seq<Row>, r: Row, p: Row -> bool)
    ensures Count(rows + [r], p) == Count(rows, p) + One(p(r))
  {
    assert (rows + [r])[..|rows|] == rows;
  }

  lemma {:induction false} CountPositive(rows: seq<Row>, p: Row -> bool, i: nat)
    requires i < |rows| && p(rows[i])
    ensures Count(rows, p) >= 1
  {
    if i < |rows| - 1 {
      CountPositive(rows[..|rows| - 1], p, i);
    }
  }

  lemma {:induction false} CountTwo(rows: seq<Row>, p: Row -> bool, i: nat, j: nat)
    requires i < j < |rows| && p(rows[i]) && p(rows[j])
    ensures Count(rows, p) >= 2
  {
    if j < |rows| - 1 {
      CountTwo(rows[..|rows| - 1], p, i, j);
    } else {
      CountPositive(rows[..|rows| - 1], p, i);
    }
  }

  lemma {:induction false} SomeoneCounts(rows: seq<Row>, p: Row -> bool)
    requires Count(rows, p) > 0
    ensures exists i :: 0 <= i < |rows| && p(rows[i])
  {
    if !p(rows[|rows| - 1]) {
      SomeoneCounts(rows[..|rows| - 1], p);
      var i :| 0 <= i < |rows| - 1 && p(rows[..|rows| - 1][i]);
      assert p(rows[i]);
    }
  }

  lemma {:induction false} FewerThan(rows: seq<Row>, p: Row -> bool, q: Row -> bool)
    requires forall r :: p(r) ==> q(r)
    ensures Count(rows, p) <= Count(rows, q)
  {
    if rows != [] {
      FewerThan(rows[..|rows| - 1], p, q);
    }
  }

  // ---------------------------------------------------------------- the queries mean what they say

  ghost predicate InOrder(rows: seq<Row>) {
    forall i, j :: 0 <= i < j < |rows| ==> !Earlier(rows[j], rows[i])
  }

  lemma {:induction false} LiveRowsAreLive(rows: seq<Row>)
    ensures forall r :: r in LiveRows(rows) <==> r in rows && r.live
    ensures |LiveRows(rows)| == Count(rows, IsLive())
  {
    if rows != [] {
      LiveRowsAreLive(rows[..|rows| - 1]);
      assert rows == rows[..|rows| - 1] + [rows[|rows| - 1]];
    }
  }

  lemma ListedIsLive(rows: seq<Row>)
    ensures forall r :: r in Listed(rows) <==> r in rows && r.live
    ensures |Listed(rows)| == Count(rows, IsLive()) && InOrder(Listed(rows))
  {
    LiveRowsAreLive(rows);
    var live := LiveRows(rows);
    Sorting.SortOrders(EarliestFirst(), live);
    Sorting.SortPermutes(EarliestFirst(), live);
    assert |multiset(Listed(rows))| == |multiset(live)|;
    forall r ensures r in Listed(rows) <==> r in live {
      Sorting.SortKeepsMembers(EarliestFirst(), live, r);
    }
    forall i, j | 0 <= i < j < |Listed(rows)|
      ensures !Earlier(Listed(rows)[j], Listed(rows)[i])
    {
      assert !EarliestFirst()(Listed(rows)[j], Listed(rows)[i]);
    }
  }

  lemma {:induction false} FindFinds(rows: seq<Row>, id: PrincipalId)
    ensures Find(rows, id).Some? ==> Find(rows, id).value in rows && Find(rows, id).value.principalId == id
    ensures Find(rows, id).None? ==> forall r :: r in rows ==> r.principalId != id
  {
    if rows != [] {
      FindFinds(rows[1..], id);
      assert rows == [rows[0]] + rows[1..];
    }
  }

  /** A live participant, by the list the commands read. */
  predicate Present(c: Conversation, id: PrincipalId) {
    Find(Listed(c.rows), id).Some?
  }

  lemma PresentMeans(c: Conversation, id: PrincipalId)
    ensures Present(c, id) <==> exists k :: 0 <= k < |c.rows| && c.rows[k].principalId == id && c.rows[k].live
    ensures Present(c, id) ==> exists k :: 0 <= k < |c.rows| && c.rows[k] == Find(Listed(c.rows), id).value
                                           && c.rows[k].principalId == id && c.rows[k].live
  {
    ListedIsLive(c.rows);
    FindFinds(Listed(c.rows), id);
    if Present(c, id) {
      assert Find(Listed(c.rows), id).value in c.rows;
    }
    if k :| 0 <= k < |c.rows| && c.rows[k].principalId == id && c.rows[k].live {
      assert c.rows[k] in Listed(c.rows);
    }
  }

  lemma {:induction false} FirstOtherIsEarliest(rows: seq<Row>, id: PrincipalId)
    requires InOrder(rows)
    ensures FirstOther(rows, id).Some? ==>
              var first := FirstOther(rows, id).value;
              first in rows && first.principalId != id
              && forall r :: r in rows && r.principalId != id ==> !Earlier(r, first)
    ensures FirstOther(rows, id).None? ==> forall r :: r in rows ==> r.principalId == id
  {
    if rows != [] {
      if rows[0].principalId == id {
        FirstOtherIsEarliest(rows[1..], id);
        assert rows == [rows[0]] + rows[1..];
      } else {
        forall r | r in rows
          ensures !Earlier(r, rows[0])
        {
          var k :| 0 <= k < |rows| && rows[k] == r;
        }
      }
    }
  }

  // ---------------------------------------------------------------- the invariant

  ghost predicate NoCustomers(rows: seq<Row>) {
    forall i :: 0 <= i < |rows| ==> rows[i].kind != CUSTOMER
  }

  ghost predicate OneCreator(rows: seq<Row>) {
    Count(rows, IsLiveCreator()) == if Count(rows, IsLive()) == 0 then 0 else 1
  }

  ghost predicate ConversationSafe(c: Conversation) {
    && Keyed(c.rows)
    && (IsInternal(c.kind) ==> NoCustomers(c.rows))
    && (c.kind == INTERNAL_DIRECT ==> Count(c.rows, IsLive()) <= 2)
    && (c.foundedAs == INTERNAL_GROUP ==> c.kind == INTERNAL_GROUP && OneCreator(c.rows))
  }

  ghost predicate Safe(s: Store) {
    forall id :: id in s ==> ConversationSafe(s[id])
  }

  datatype Event =
    | Creates(create: CreateCommand, found: Option<ConversationId>, newId: ConversationId)
    | OpensForCustomer(id: ConversationId, rows: seq<Row>)
    | Adds(add: AddCommand)
    | Removes(id: ConversationId, principalId: PrincipalId, removedBy: PrincipalId)
    | Leaves(id: ConversationId, principalId: PrincipalId)

  ghost function Step(s: Store, e: Event): Store {
    match e
    case Creates(cmd, found, newId) =>
      if newId in s || cmd.kind == CUSTOMER_CONVERSATION || (cmd.kind == INTERNAL_DIRECT && !LooksUp(s, cmd, found)) then s
      else Create(s, cmd, found, newId).0
    case OpensForCustomer(id, rows) =>
      if id in s || !Keyed(rows) then s else s[id := Conversation(CUSTOMER_CONVERSATION, rows, CUSTOMER_CONVERSATION)]
    case Adds(cmd) => Add(s, cmd).0
    case Removes(id, principalId, removedBy) => Remove(s, id, principalId, removedBy).0
    case Leaves(id, principalId) => Leave(s, id, principalId).0
  }

  /** The lookup's answer for a one-to-one with the one other person named. */
  ghost predicate LooksUp(s: Store, cmd: CreateCommand, found: Option<ConversationId>) {
    var others := Others(cmd.participantIds, cmd.createdBy);
    |others| == 1 ==> DirectLookup(s, cmd.createdBy, others[0], found)
  }

  ghost function Run(events: seq<Event>): Store {
    if events == [] then map[] else Step(Run(events[..|events| - 1]), events[|events| - 1])
  }

  // ---------------------------------------------------------------- creating

  lemma {:induction false} OthersAreOthers(ids: seq<PrincipalId>, createdBy: PrincipalId)
    ensures createdBy !in Others(ids, createdBy)
    ensures forall i, j :: 0 <= i < j < |Others(ids, createdBy)| ==> Others(ids, createdBy)[i] != Others(ids, createdBy)[j]
  {
    if ids != [] {
      OthersAreOthers(ids[..|ids| - 1], createdBy);
    }
  }

  lemma {:induction false} PlainFounders(rows: seq<Row>)
    requires forall i :: 0 <= i < |rows| ==> rows[i].live && rows[i].role == PARTICIPANT
    ensures Count(rows, IsLive()) == |rows| && Count(rows, IsLiveCreator()) == 0
  {
    if rows != [] {
      PlainFounders(rows[..|rows| - 1]);
    }
  }

  lemma {:induction false} CountFromFront(rows: seq<Row>, p: Row -> bool)
    requires rows != []
    ensures Count(rows, p) == One(p(rows[0])) + Count(rows[1..], p)
  {
    if |rows| > 1 {
      var k := |rows| - 1;
      CountFromFront(rows[..k], p);
      assert rows[1..][..k - 1] == rows[..k][1..];
    }
  }

  lemma FoundingIsSafe(cmd: CreateCommand)
    requires CheckCreate(cmd).None? && cmd.kind != CUSTOMER_CONVERSATION
    ensures ConversationSafe(Conversation(cmd.kind, FoundingRows(cmd), cmd.kind))
  {
    var rows := FoundingRows(cmd);
    OthersAreOthers(cmd.participantIds, cmd.createdBy);
    CountFromFront(rows, IsLive());
    CountFromFront(rows, IsLiveCreator());
    PlainFounders(rows[1..]);
  }

  // ---------------------------------------------------------------- adding

  /** An upsert of an absent principal adds one live row and no creator. */
  lemma UpsertedCounts(rows: seq<Row>, r: Row)
    requires Keyed(rows) && r.live && r.role == PARTICIPANT
    requires forall i :: 0 <= i < |rows| && rows[i].principalId == r.principalId ==> !rows[i].live
    ensures Keyed(Upserted(rows, r))
    ensures Count(Upserted(rows, r), IsLive()) == Count(rows, IsLive()) + 1
    ensures Count(Upserted(rows, r), IsLiveCreator()) == Count(rows, IsLiveCreator())
    ensures NoCustomers(rows) && r.kind != CUSTOMER ==> NoCustomers(Upserted(rows, r))
  {
    if i :| 0 <= i < |rows| && rows[i].principalId == r.principalId {
      var f := (was: Row) => Revived(was, r);
      CountUpdated(rows, i, f, IsLive());
      CountUpdated(rows, i, f, IsLiveCreator());
      assert Upserted(rows, r) == Updated(rows, r.principalId, f);
    } else {
      CountAppended(rows, r, IsLive());
      CountAppended(rows, r, IsLiveCreator());
    }
  }

  lemma AddKeeps(s: Store, cmd: AddCommand)
    requires Safe(s)
    ensures Safe(Add(s, cmd).0)
  {
    hide Upserted, Count, Keyed, Listed, Find;
    if Add(s, cmd).1.Added? {
      var c := s[cmd.id];
      assert ConversationSafe(c);
      AbsentIsDead(c, cmd.principalId);
      UpsertedCounts(c.rows, Row(cmd.principalId, cmd.kind, PARTICIPANT, cmd.at, true));
      ListedIsLive(c.rows);
      PresentMeans(c, cmd.addedBy);
      var k :| 0 <= k < |c.rows| && c.rows[k].principalId == cmd.addedBy && c.rows[k].live;
      CountPositive(c.rows, IsLive(), k);
    }
  }

  lemma AbsentIsDead(c: Conversation, id: PrincipalId)
    requires !Present(c, id)
    ensures forall i :: 0 <= i < |c.rows| && c.rows[i].principalId == id ==> !c.rows[i].live
  {
    PresentMeans(c, id);
  }

  // ---------------------------------------------------------------- removing and leaving

  lemma EndedCounts(rows: seq<Row>, i: nat)
    requires Keyed(rows) && i < |rows| && rows[i].live
    ensures var ended := Ended(rows, rows[i].principalId);
            && Keyed(ended) && (NoCustomers(rows) ==> NoCustomers(ended))
            && Count(ended, IsLive()) + 1 == Count(rows, IsLive())
            && Count(ended, IsLiveCreator()) + One(rows[i].role == CREATOR) == Count(rows, IsLiveCreator())
  {
    var f := (r: Row) => r.(live := false);
    CountUpdated(rows, i, f, IsLive());
    CountUpdated(rows, i, f, IsLiveCreator());
  }

  lemma RemoveKeeps(s: Store, id: ConversationId, principalId: PrincipalId, removedBy: PrincipalId)
    requires Safe(s)
    ensures Safe(Remove(s, id, principalId, removedBy).0)
  {
    hide Listed, Find, Ended, Count, Keyed, NoCustomers;
    if Remove(s, id, principalId, removedBy).1.Removed? {
      var c := s[id];
      assert ConversationSafe(c);
      PresentMeans(c, principalId);
      PresentMeans(c, removedBy);
      var i :| 0 <= i < |c.rows| && c.rows[i] == Find(Listed(c.rows), principalId).value
        && c.rows[i].principalId == principalId && c.rows[i].live;
      var k :| 0 <= k < |c.rows| && c.rows[k] == Find(Listed(c.rows), removedBy).value
        && c.rows[k].principalId == removedBy && c.rows[k].live;
      EndedCounts(c.rows, i);
      if c.foundedAs == INTERNAL_GROUP {
        RemovedIsNoCreator(c.rows, i, k);
      }
    }
  }

  /** The one creator is who removes, so whoever is removed is not it, and someone stays. */
  lemma RemovedIsNoCreator(rows: seq<Row>, i: nat, k: nat)
    requires OneCreator(rows) && i < |rows| && k < |rows| && i != k
    requires rows[i].live && rows[k].live && rows[k].role == CREATOR
    ensures rows[i].role != CREATOR && Count(rows, IsLive()) >= 2
  {
    CountTwo(rows, IsLive(), if i < k then i else k, if i < k then k else i);
    if rows[i].role == CREATOR {
      CountTwo(rows, IsLiveCreator(), if i < k then i else k, if i < k then k else i);
    }
  }

  lemma PromotedCounts(rows: seq<Row>, i: nat, role: Role)
    requires Keyed(rows) && i < |rows| && rows[i].live
    ensures var promoted := WithRole(rows, rows[i].principalId, role);
            && Keyed(promoted) && (NoCustomers(rows) ==> NoCustomers(promoted))
            && Count(promoted, IsLive()) == Count(rows, IsLive())
            && Count(promoted, IsLiveCreator()) + One(rows[i].role == CREATOR)
               == Count(rows, IsLiveCreator()) + One(role == CREATOR)
  {
    var f := (r: Row) => if r.live then r.(role := role) else r;
    CountUpdated(rows, i, f, IsLive());
    CountUpdated(rows, i, f, IsLiveCreator());
  }

  /** Only a lone participant has no successor to pass the role to. */
  lemma SuccessorStays(c: Conversation, i: nat, leaver: Row)
    requires ConversationSafe(c) && i < |c.rows| && c.rows[i] == leaver && leaver.live
    ensures FirstOther(Listed(c.rows), leaver.principalId).Some? ==>
              exists k :: 0 <= k < |c.rows| && k != i && c.rows[k].live
                          && c.rows[k] == FirstOther(Listed(c.rows), leaver.principalId).value
    ensures FirstOther(Listed(c.rows), leaver.principalId).None? ==> Count(c.rows, IsLive()) == 1
  {
    hide Listed, FirstOther;
    ListedIsLive(c.rows);
    FirstOtherIsEarliest(Listed(c.rows), leaver.principalId);
    if FirstOther(Listed(c.rows), leaver.principalId).Some? {
      assert FirstOther(Listed(c.rows), leaver.principalId).value in c.rows;
    } else {
      CountPositive(c.rows, IsLive(), i);
      EndedCounts(c.rows, i);
      if Count(Ended(c.rows, leaver.principalId), IsLive()) > 0 {
        SomeoneCounts(Ended(c.rows, leaver.principalId), IsLive());
      }
    }
  }

  lemma LeaveKeeps(s: Store, id: ConversationId, principalId: PrincipalId)
    requires Safe(s)
    ensures Safe(Leave(s, id, principalId).0)
  {
    hide Listed, Find, FirstOther, Ended, WithRole, Count, Keyed, NoCustomers, ConversationSafe;
    if Leave(s, id, principalId).1.Left? {
      var c := s[id];
      assert ConversationSafe(c);
      PresentMeans(c, principalId);
      var leaver := Find(Listed(c.rows), principalId).value;
      var i :| 0 <= i < |c.rows| && c.rows[i] == leaver && c.rows[i].principalId == principalId && c.rows[i].live;
      LeftIsSafe(c, i);
    }
  }

  function AfterLeaving(c: Conversation, leaver: Row): Conversation {
    var ended := Ended(c.rows, leaver.principalId);
    match Successor(c, leaver)
    case None => c.(rows := ended)
    case Some(next) => c.(rows := WithRole(ended, next.principalId, if c.kind == INTERNAL_CHANNEL then ADMIN else CREATOR))
  }

  lemma LeftIsSafe(c: Conversation, i: nat)
    requires ConversationSafe(c) && i < |c.rows| && c.rows[i].live && c.kind in {INTERNAL_GROUP, INTERNAL_CHANNEL}
    ensures ConversationSafe(AfterLeaving(c, c.rows[i]))
  {
    hide Listed, FirstOther, WithRole, Count, AdminRemains;
    var leaver := c.rows[i];
    var ended := Ended(c.rows, leaver.principalId);
    EndedCounts(c.rows, i);
    SuccessorStays(c, i, leaver);
    CountPositive(c.rows, IsLive(), i);
    if Successor(c, leaver).Some? {
      var k :| 0 <= k < |c.rows| && k != i && c.rows[k] == Successor(c, leaver).value && c.rows[k].live;
      assert ended[k] == c.rows[k];
      PromotedCounts(ended, k, if c.kind == INTERNAL_CHANNEL then ADMIN else CREATOR);
      if c.foundedAs == INTERNAL_GROUP {
        CountPositive(ended, IsLive(), k);
        if c.rows[k].role == CREATOR {
          CountPositive(ended, IsLiveCreator(), k);
        }
      }
    } else {
      FewerThan(ended, IsLiveCreator(), IsLive());
    }
  }

  // ---------------------------------------------------------------- every run

  lemma StepKeeps(s: Store, e: Event)
    requires Safe(s)
    ensures Safe(Step(s, e))
  {
    hide ConversationSafe, Add, Remove, Leave, FoundingRows;
    match e
    case Creates(cmd, found, newId) =>
      if CheckCreate(cmd).None? && cmd.kind != CUSTOMER_CONVERSATION {
        FoundingIsSafe(cmd);
      }
    case OpensForCustomer(id, rows) =>
      if Keyed(rows) {
        CustomerConversationIsSafe(rows);
      }
    case Adds(cmd) => AddKeeps(s, cmd);
    case Removes(id, principalId, removedBy) => RemoveKeeps(s, id, principalId, removedBy);
    case Leaves(id, principalId) => LeaveKeeps(s, id, principalId);
  }

  lemma CustomerConversationIsSafe(rows: seq<Row>)
    requires Keyed(rows)
    ensures ConversationSafe(Conversation(CUSTOMER_CONVERSATION, rows, CUSTOMER_CONVERSATION))
  {
  }

  lemma {:induction false} EveryRunIsSafe(events: seq<Event>)
    ensures Safe(Run(events))
  {
    hide Step, ConversationSafe;
    if events != [] {
      EveryRunIsSafe(events[..|events| - 1]);
      StepKeeps(Run(events[..|events| - 1]), events[|events| - 1]);
    }
  }

  // ---------------------------------------------------------------- who gets inside

  function Founders(cmd: CreateCommand): seq<PrincipalId> {
    [cmd.createdBy] + Others(cmd.participantIds, cmd.createdBy)
  }

  /** The principal has a row, live or not, in an internal conversation. */
  predicate Inside(s: Store, id: ConversationId, p: PrincipalId) {
    id in s && IsInternal(s[id].kind) && HasRow(s[id].rows, p)
  }

  predicate CalledCustomer(cmd: CreateCommand, p: PrincipalId) {
    p in cmd.kinds && cmd.kinds[p] == CUSTOMER
  }

  /** The event founds the conversation with the principal, or adds them to it, and does not call them a customer. */
  ghost predicate LetsIn(s: Store, e: Event, id: ConversationId, p: PrincipalId) {
    match e
    case Creates(cmd, _, newId) =>
      newId == id && id !in s && id in Step(s, e) && p in Founders(cmd) && !CalledCustomer(cmd, p)
    case Adds(cmd) =>
      cmd.id == id && cmd.principalId == p && cmd.kind != CUSTOMER && Add(s, cmd).1.Added? && IsInternal(s[id].kind)
    case _ => false
  }

  lemma UpdatedHas(rows: seq<Row>, id: PrincipalId, f: Row -> Row, p: PrincipalId)
    requires forall r :: f(r).principalId == r.principalId
    ensures HasRow(Updated(rows, id, f), p) <==> HasRow(rows, p)
  {
    var after := Updated(rows, id, f);
    assert forall k :: 0 <= k < |rows| ==> after[k].principalId == rows[k].principalId;
  }

  lemma UpsertedHas(rows: seq<Row>, r: Row, p: PrincipalId)
    ensures HasRow(Upserted(rows, r), p) <==> HasRow(rows, p) || p == r.principalId
  {
    if HasRow(rows, r.principalId) {
      UpdatedHas(rows, r.principalId, (was: Row) => Revived(was, r), p);
    } else {
      var after := rows + [r];
      assert after[|rows|] == r && forall k :: 0 <= k < |rows| ==> after[k] == rows[k];
    }
  }

  lemma FoundersHaveRows(cmd: CreateCommand, p: PrincipalId)
    ensures HasRow(FoundingRows(cmd), p) <==> p in Founders(cmd)
  {
    var rows := FoundingRows(cmd);
    assert forall k :: 0 <= k < |rows| ==> rows[k].principalId == Founders(cmd)[k];
    if p in Founders(cmd) {
      var k :| 0 <= k < |Founders(cmd)| && Founders(cmd)[k] == p;
      assert rows[k].principalId == p;
    }
  }

  lemma RemoveKeepsRows(s: Store, id: ConversationId, principalId: PrincipalId, removedBy: PrincipalId, p: PrincipalId)
    requires id in s
    ensures var t := Remove(s, id, principalId, removedBy).0;
            id in t && t[id].kind == s[id].kind && (HasRow(t[id].rows, p) <==> HasRow(s[id].rows, p))
  {
    hide Listed, Find, Updated;
    UpdatedHas(s[id].rows, principalId, (r: Row) => r.(live := false), p);
  }

  lemma LeaveKeepsRows(s: Store, id: ConversationId, principalId: PrincipalId, p: PrincipalId)
    requires id in s
    ensures var t := Leave(s, id, principalId).0;
            id in t && t[id].kind == s[id].kind && (HasRow(t[id].rows, p) <==> HasRow(s[id].rows, p))
  {
    hide Listed, Find, Successor, Updated;
    UpdatedHas(s[id].rows, principalId, (r: Row) => r.(live := false), p);
    if Leave(s, id, principalId).1.Left? && Leave(s, id, principalId).1.passedTo.Some? {
      var role := if s[id].kind == INTERNAL_CHANNEL then ADMIN else CREATOR;
      var successor := Leave(s, id, principalId).1.passedTo.value;
      UpdatedHas(Ended(s[id].rows, principalId), successor, (r: Row) => if r.live then r.(role := role) else r, p);
    }
  }

  /** A founded conversation holds its founders, and none of them was called a customer. */
  lemma CreateLetsIn(s: Store, cmd: CreateCommand, found: Option<ConversationId>, newId: ConversationId, p: PrincipalId)
    requires newId !in s && newId in Step(s, Creates(cmd, found, newId))
    ensures var t := Step(s, Creates(cmd, found, newId));
            IsInternal(t[newId].kind) && (HasRow(t[newId].rows, p) <==> p in Founders(cmd) && !CalledCustomer(cmd, p))
  {
    hide HasRow, FoundingRows, LooksUp;
    FoundersHaveRows(cmd, p);
  }

  /**
   * Exactly how anybody gets a row in an internal conversation, whoever they are: a create that founds it with
   * them or an add that brings them in, and calls them no customer. Nothing else lets in, and nothing lets out.
   */
  lemma InsideStep(s: Store, e: Event, id: ConversationId, p: PrincipalId)
    ensures Inside(Step(s, e), id, p) <==> Inside(s, id, p) || LetsIn(s, e, id, p)
  {
    hide HasRow, Listed, Find, Upserted, Founders, FoundingRows, CheckCreate, Remove, Leave, CalledCustomer, Keyed, LooksUp;
    match e
    case Creates(cmd, found, newId) =>
      if newId == id && id !in s && id in Step(s, e) {
        CreateLetsIn(s, cmd, found, newId, p);
      }
    case OpensForCustomer(_, _) =>
    case Adds(cmd) =>
      if cmd.id == id && id in s {
        UpsertedHas(s[id].rows, Row(cmd.principalId, cmd.kind, PARTICIPANT, cmd.at, true), p);
      }
    case Removes(c, principalId, removedBy) =>
      if c in s {
        RemoveKeepsRows(s, c, principalId, removedBy, p);
      }
      RemoveIsThere(s, c, principalId, removedBy);
    case Leaves(c, principalId) =>
      if c in s {
        LeaveKeepsRows(s, c, principalId, p);
      }
      LeaveIsThere(s, c, principalId);
  }

  lemma RemoveIsThere(s: Store, c: ConversationId, principalId: PrincipalId, removedBy: PrincipalId)
    ensures var t := Remove(s, c, principalId, removedBy).0; t.Keys == s.Keys && forall x :: x in s && x != c ==> t[x] == s[x]
  {
    hide Listed, Find, Ended;
  }

  lemma LeaveIsThere(s: Store, c: ConversationId, principalId: PrincipalId)
    ensures var t := Leave(s, c, principalId).0; t.Keys == s.Keys && forall x :: x in s && x != c ==> t[x] == s[x]
  {
    hide Listed, Find, Successor, Ended, WithRole;
  }

  /** Somewhere in the run, an event let the principal into the conversation. */
  ghost predicate WasLetIn(events: seq<Event>, id: ConversationId, p: PrincipalId) {
    exists i :: 0 <= i < |events| && LetsIn(Run(events[..i]), events[i], id, p)
  }

  lemma LetInEarlierOrLast(events: seq<Event>, id: ConversationId, p: PrincipalId)
    requires events != []
    ensures var n := |events| - 1;
            WasLetIn(events, id, p) <==> WasLetIn(events[..n], id, p) || LetsIn(Run(events[..n]), events[n], id, p)
  {
    hide LetsIn, Run;
    var n := |events| - 1;
    if WasLetIn(events, id, p) {
      var i :| 0 <= i < |events| && LetsIn(Run(events[..i]), events[i], id, p);
      if i < n {
        assert events[..n][..i] == events[..i] && events[..n][i] == events[i];
      }
    }
    if WasLetIn(events[..n], id, p) {
      var i :| 0 <= i < n && LetsIn(Run(events[..n][..i]), events[..n][i], id, p);
      assert events[..n][..i] == events[..i] && events[..n][i] == events[i];
    }
  }

  /**
   * Over any run whatever: a principal, and so a customer, has a row in an internal conversation exactly if some
   * create or add put them there without calling them a customer. The code goes by what it is told, and neither
   * asks nor remembers who anybody is.
   */
  lemma {:induction false} InsideExactlyIfLetIn(events: seq<Event>, id: ConversationId, p: PrincipalId)
    ensures Inside(Run(events), id, p) <==> WasLetIn(events, id, p)
  {
    if events == [] {
      assert Run(events) == map[];
    } else {
      hide Step, LetsIn, Inside, WasLetIn;
      var n := |events| - 1;
      InsideExactlyIfLetIn(events[..n], id, p);
      InsideStep(Run(events[..n]), events[n], id, p);
      LetInEarlierOrLast(events, id, p);
    }
  }

  // ---------------------------------------------------------------- customers, for callers who tell the truth

  /** Who the principals are, whatever a row or a command says. */
  type Directory = PrincipalId -> PrincipalKind

  /** A command that says what it says of a principal's kind truthfully; it need not say it of everybody. */
  ghost predicate Truthful(kindOf: Directory, e: Event) {
    match e
    case Creates(cmd, _, _) => forall id :: id in cmd.kinds ==> cmd.kinds[id] == kindOf(id)
    case Adds(cmd) => cmd.kind == kindOf(cmd.principalId)
    case _ => true
  }

  /** The conversation is founded with the principal and the command leaves their kind out. */
  ghost predicate LeavesOut(s: Store, e: Event, id: ConversationId, p: PrincipalId) {
    e.Creates? && e.newId == id && id !in s && id in Step(s, e) && p in Founders(e.create) && p !in e.create.kinds
  }

  lemma TruthfulLetsInByOmission(kindOf: Directory, s: Store, e: Event, id: ConversationId, p: PrincipalId)
    requires Truthful(kindOf, e) && kindOf(p) == CUSTOMER
    ensures LetsIn(s, e, id, p) <==> LeavesOut(s, e, id, p)
  {
    hide Step, Founders, Add;
  }

  ghost predicate WasLeftOut(events: seq<Event>, id: ConversationId, p: PrincipalId) {
    exists i :: 0 <= i < |events| && LeavesOut(Run(events[..i]), events[i], id, p)
  }

  /**
   * While commands are truthful a customer gets in only by omission: by a create that names them and leaves
   * their kind out, since the check reads the kinds it is given and lets whoever is missing from them through.
   */
  lemma CustomersGetInByOmissionOnly(kindOf: Directory, events: seq<Event>, id: ConversationId, p: PrincipalId)
    requires kindOf(p) == CUSTOMER && forall i :: 0 <= i < |events| ==> Truthful(kindOf, events[i])
    ensures Inside(Run(events), id, p) <==> WasLeftOut(events, id, p)
  {
    hide Run, Inside, Truthful, LetsIn, LeavesOut;
    InsideExactlyIfLetIn(events, id, p);
    forall i | 0 <= i < |events|
      ensures LetsIn(Run(events[..i]), events[i], id, p) <==> LeavesOut(Run(events[..i]), events[i], id, p)
    {
      TruthfulLetsInByOmission(kindOf, Run(events[..i]), events[i], id, p);
    }
  }

  /** So internal conversations stay free of customers while every create says truly what all of its founders are. */
  lemma InternalMeansNoCustomers(kindOf: Directory, events: seq<Event>, id: ConversationId, i: nat)
    requires forall k :: 0 <= k < |events| ==> Truthful(kindOf, events[k])
    requires forall k :: 0 <= k < |events| && events[k].Creates? ==>
               forall p :: p in Founders(events[k].create) ==> p in events[k].create.kinds
    ensures var s := Run(events);
            id in s && IsInternal(s[id].kind) && i < |s[id].rows| ==> kindOf(s[id].rows[i].principalId) != CUSTOMER
  {
    hide Run, Step, Truthful, Founders;
    var s := Run(events);
    if id in s && i < |s[id].rows| && kindOf(s[id].rows[i].principalId) == CUSTOMER {
      CustomersGetInByOmissionOnly(kindOf, events, id, s[id].rows[i].principalId);
    }
  }

  /** A group of 1 and 2 whose command speaks of 1 only, and a channel whose command calls both employees. */
  const GROUP_OF_2 := CreateCommand(INTERNAL_GROUP, 1, [2], map[1 := EMPLOYEE], true, false, 0)
  const CHANNEL_WITH_2 := CreateCommand(INTERNAL_CHANNEL, 1, [2], map[1 := EMPLOYEE, 2 := EMPLOYEE], true, true, 0)

  /** One create that goes through, and all its founders are inside. */
  lemma FoundersAreInside(cmd: CreateCommand, id: ConversationId, p: PrincipalId)
    requires cmd.kind in {INTERNAL_GROUP, INTERNAL_CHANNEL} && CheckCreate(cmd).None? && p in Founders(cmd)
    ensures Inside(Run([Creates(cmd, None, id)]), id, p)
  {
    hide CheckCreate, Founders, FoundingRows;
    var e := Creates(cmd, None, id);
    assert [e][..0] == [] && Run([]) == map[];
    FoundersHaveRows(cmd, p);
  }

  lemma BothGoThrough()
    ensures CheckCreate(GROUP_OF_2).None? && CheckCreate(CHANNEL_WITH_2).None?
    ensures 2 in Founders(GROUP_OF_2) && 2 in Founders(CHANNEL_WITH_2)
  {
    hide Others;
    OnlyTheOther();
  }

  /** Either way 2 is in, and 2 may well be a customer: nothing that was asked depends on it. */
  lemma ACustomerInside(calledEmployee: bool, kindOf: Directory)
    requires kindOf(1) == EMPLOYEE && kindOf(2) == CUSTOMER
    ensures var e := Creates(if calledEmployee then CHANNEL_WITH_2 else GROUP_OF_2, None, "inside");
            Inside(Run([e]), "inside", 2) && (Truthful(kindOf, e) <==> !calledEmployee)
  {
    hide CheckCreate, Founders, Inside, Run;
    BothGoThrough();
    FoundersAreInside(if calledEmployee then CHANNEL_WITH_2 else GROUP_OF_2, "inside", 2);
  }

  // ---------------------------------------------------------------- one-to-ones and groups

  /** A one-to-one never has a third: whoever would be third turns it into a group. */
  lemma DirectMeansAtMostTwo(events: seq<Event>, id: ConversationId)
    ensures var s := Run(events);
            id in s && s[id].kind == INTERNAL_DIRECT ==> |Listed(s[id].rows)| <= 2
  {
    hide Run;
    EveryRunIsSafe(events);
    var s := Run(events);
    if id in s {
      assert ConversationSafe(s[id]);
      ListedIsLive(s[id].rows);
    }
  }

  /** A group founded as one always has exactly one live creator, unless everybody has left. */
  lemma GroupsKeepOneCreator(events: seq<Event>, id: ConversationId)
    requires id in Run(events) && Run(events)[id].foundedAs == INTERNAL_GROUP
    ensures var rows := Run(events)[id].rows;
            || (forall k :: 0 <= k < |rows| ==> !rows[k].live)
            || exists k :: 0 <= k < |rows| && rows[k].live && rows[k].role == CREATOR
                           && forall j :: 0 <= j < |rows| && rows[j].live && rows[j].role == CREATOR ==> j == k
  {
    hide Run;
    EveryRunIsSafe(events);
    var rows := Run(events)[id].rows;
    assert ConversationSafe(Run(events)[id]);
    if i :| 0 <= i < |rows| && rows[i].live {
      CountPositive(rows, IsLive(), i);
      SomeoneCounts(rows, IsLiveCreator());
      var k :| 0 <= k < |rows| && IsLiveCreator()(rows[k]);
      forall j | 0 <= j < |rows| && rows[j].live && rows[j].role == CREATOR
        ensures j == k
      {
        if j != k {
          CountTwo(rows, IsLiveCreator(), if j < k then j else k, if j < k then k else j);
        }
      }
    }
  }

  /** When a creator leaves, the role goes to whoever has been there longest of those who stay. */
  lemma TheLongestStandingTakesOver(s: Store, id: ConversationId, principalId: PrincipalId, other: Row)
    requires Leave(s, id, principalId).1.Left? && Leave(s, id, principalId).1.passedTo.Some?
    requires other in s[id].rows && other.live && other.principalId != principalId
    ensures exists next :: next in s[id].rows && next.live && next.principalId == Leave(s, id, principalId).1.passedTo.value
                           && next.principalId != principalId
                           && (next.since < other.since
                               || (next.since == other.since && next.principalId <= other.principalId))
  {
    hide Listed, Find, FirstOther, Ended, WithRole, AdminRemains;
    var listed := Listed(s[id].rows);
    ListedIsLive(s[id].rows);
    FindFinds(listed, principalId);
    FirstOtherIsEarliest(listed, Find(listed, principalId).value.principalId);
    var next := FirstOther(listed, principalId).value;
    assert other in listed && next in s[id].rows;
  }

  /** A customer in their own conversation is never put out of it: no step ends a customer's participation. */
  lemma CustomersAreNeverRemoved(events: seq<Event>, e: Event, id: ConversationId, customer: Row)
    requires id in Run(events) && customer in Run(events)[id].rows && customer.live && customer.kind == CUSTOMER
    ensures id in Step(Run(events), e) && customer in Step(Run(events), e)[id].rows
  {
    hide Run, Create, Listed, Find, FirstOther, Count;
    EveryRunIsSafe(events);
    var s := Run(events);
    var c := s[id];
    assert ConversationSafe(c);
    var i :| 0 <= i < |c.rows| && c.rows[i] == customer;
    if e.Removes? && e.id == id && Remove(s, id, e.principalId, e.removedBy).1.Removed? {
      PresentMeans(c, e.principalId);
      assert Ended(c.rows, e.principalId)[i] == customer;
    } else if e.Adds? && e.add.id == id && Add(s, e.add).1.Added? {
      UpsertLeavesTheLive(c.rows, Row(e.add.principalId, e.add.kind, PARTICIPANT, e.add.at, true), i);
    } else if e.Creates? && e.newId !in s {
      CreateLeavesOthers(s, e.create, e.found, e.newId, id);
    }
  }

  lemma UpsertLeavesTheLive(rows: seq<Row>, r: Row, i: nat)
    requires i < |rows| && rows[i].live
    ensures i < |Upserted(rows, r)| && Upserted(rows, r)[i] == rows[i]
  {
  }

  lemma CreateLeavesOthers(s: Store, cmd: CreateCommand, found: Option<ConversationId>, newId: ConversationId, id: ConversationId)
    requires id in s && newId !in s
    ensures id in Create(s, cmd, found, newId).0 && Create(s, cmd, found, newId).0[id] == s[id]
  {
  }

  // ---------------------------------------------------------------- one thread per pair

  /** Opening a one-to-one lands in the same thread however often: at most one per pair. */
  ghost predicate OneDirectPerPair(s: Store) {
    forall x, y, a, b :: x in s && y in s && a != b && IsDirectOf(s[x], a, b) && IsDirectOf(s[y], a, b) ==> x == y
  }

  /** An add that completes a pair another thread already has. */
  ghost predicate CompletesASecond(s: Store, e: Event) {
    && e.Adds? && Add(s, e.add).1.Added? && s[e.add.id].kind == INTERNAL_DIRECT && |Listed(s[e.add.id].rows)| == 1
    && exists y :: y in s && y != e.add.id && IsDirectOf(s[y], e.add.addedBy, e.add.principalId)
  }

  lemma {:induction false} CountThree(rows: seq<Row>, p: Row -> bool, i: nat, j: nat, k: nat)
    requires i < j < k < |rows| && p(rows[i]) && p(rows[j]) && p(rows[k])
    ensures Count(rows, p) >= 3
  {
    if k < |rows| - 1 {
      CountThree(rows[..|rows| - 1], p, i, j, k);
    } else {
      CountTwo(rows[..|rows| - 1], p, i, j);
    }
  }

  lemma OnlyTwo(rows: seq<Row>, i: nat, j: nat, k: nat)
    requires i < |rows| && j < |rows| && k < |rows| && i != j && rows[i].live && rows[j].live && rows[k].live
    requires Count(rows, IsLive()) == 2
    ensures k == i || k == j
  {
    if k != i && k != j {
      var low := if i < j then i else j;
      var high := if i < j then j else i;
      if k < low {
        CountThree(rows, IsLive(), k, low, high);
      } else if k < high {
        CountThree(rows, IsLive(), low, k, high);
      } else {
        CountThree(rows, IsLive(), low, high, k);
      }
    }
  }

  lemma DirectMeans(c: Conversation, a: PrincipalId, b: PrincipalId)
    ensures IsDirectOf(c, a, b) <==> c.kind == INTERNAL_DIRECT && Count(c.rows, IsLive()) == 2 && Present(c, a) && Present(c, b)
  {
    ListedIsLive(c.rows);
  }

  /** A one-to-one is of one pair only. */
  lemma SamePair(c: Conversation, a: PrincipalId, b: PrincipalId, x: PrincipalId, y: PrincipalId)
    requires IsDirectOf(c, a, b) && IsDirectOf(c, x, y) && a != b && x != y
    ensures (x == a && y == b) || (x == b && y == a)
  {
    hide IsDirectOf, Listed, Find, Present, Count;
    DirectMeans(c, a, b);
    DirectMeans(c, x, y);
    PresentMeans(c, a);
    PresentMeans(c, b);
    PresentMeans(c, x);
    PresentMeans(c, y);
    var i :| 0 <= i < |c.rows| && c.rows[i].principalId == a && c.rows[i].live;
    var j :| 0 <= j < |c.rows| && c.rows[j].principalId == b && c.rows[j].live;
    var k :| 0 <= k < |c.rows| && c.rows[k].principalId == x && c.rows[k].live;
    var l :| 0 <= l < |c.rows| && c.rows[l].principalId == y && c.rows[l].live;
    OnlyTwo(c.rows, i, j, k);
    OnlyTwo(c.rows, i, j, l);
  }

  /** One conversation replaced by one that is a one-to-one of nobody: no new pair arises. */
  lemma NoNewPair(s: Store, id: ConversationId, c: Conversation)
    requires OneDirectPerPair(s) && forall a, b :: a != b ==> !IsDirectOf(c, a, b)
    ensures OneDirectPerPair(s[id := c])
  {
    hide IsDirectOf;
  }

  /** One conversation becoming the one-to-one of a pair: unique exactly if no other one is. */
  lemma NewPair(s: Store, id: ConversationId, c: Conversation, p: PrincipalId, q: PrincipalId)
    requires OneDirectPerPair(s) && p != q && IsDirectOf(c, p, q)
    ensures OneDirectPerPair(s[id := c]) <==> !exists y :: y in s && y != id && IsDirectOf(s[y], p, q)
  {
    hide IsDirectOf, Listed;
    var t := s[id := c];
    if y :| y in s && y != id && IsDirectOf(s[y], p, q) {
      assert IsDirectOf(t[id], p, q) && IsDirectOf(t[y], p, q);
    } else {
      forall x, y, a, b | x in t && y in t && a != b && IsDirectOf(t[x], a, b) && IsDirectOf(t[y], a, b)
        ensures x == y
      {
        if x != y {
          if x == id {
            SamePair(c, p, q, a, b);
            Symmetric(s[y], a, b);
          } else if y == id {
            SamePair(c, p, q, a, b);
            Symmetric(s[x], a, b);
          }
        }
      }
    }
  }

  lemma Symmetric(c: Conversation, a: PrincipalId, b: PrincipalId)
    ensures IsDirectOf(c, a, b) <==> IsDirectOf(c, b, a)
  {
  }

  lemma NotDirect(c: Conversation)
    requires c.kind != INTERNAL_DIRECT || Count(c.rows, IsLive()) != 2
    ensures forall a, b :: a != b ==> !IsDirectOf(c, a, b)
  {
    forall a, b | a != b
      ensures !IsDirectOf(c, a, b)
    {
      DirectMeans(c, a, b);
    }
  }

  lemma FoundingDirect(cmd: CreateCommand)
    requires CheckCreate(cmd).None? && cmd.kind == INTERNAL_DIRECT
    ensures var others := Others(cmd.participantIds, cmd.createdBy);
            |others| == 1 && cmd.createdBy != others[0]
            && IsDirectOf(Conversation(INTERNAL_DIRECT, FoundingRows(cmd), INTERNAL_DIRECT), cmd.createdBy, others[0])
  {
    hide Listed, Find, Count;
    OthersAreOthers(cmd.participantIds, cmd.createdBy);
    var other := Others(cmd.participantIds, cmd.createdBy)[0];
    var c := Conversation(INTERNAL_DIRECT, FoundingRows(cmd), INTERNAL_DIRECT);
    assert c.rows[0].principalId == cmd.createdBy && c.rows[0].live && c.rows[1].principalId == other && c.rows[1].live;
    DirectMeans(c, cmd.createdBy, other);
    PresentMeans(c, cmd.createdBy);
    PresentMeans(c, other);
    CountTwo(c.rows, IsLive(), 0, 1);
    FoundingIsSafe(cmd);
  }

  lemma CreatedDirects(s: Store, e: Event)
    requires OneDirectPerPair(s) && e.Creates?
    ensures OneDirectPerPair(Step(s, e))
  {
    hide IsDirectOf, Listed, FoundingRows, OneDirectPerPair;
    var cmd := e.create;
    if e.newId !in s && cmd.kind != CUSTOMER_CONVERSATION && CheckCreate(cmd).None? {
      var c := Conversation(cmd.kind, FoundingRows(cmd), cmd.kind);
      if cmd.kind == INTERNAL_DIRECT {
        FoundingDirect(cmd);
        NewPair(s, e.newId, c, cmd.createdBy, Others(cmd.participantIds, cmd.createdBy)[0]);
      } else {
        NotDirect(c);
        NoNewPair(s, e.newId, c);
      }
    }
  }

  lemma RemovedDirects(s: Store, e: Event)
    requires Safe(s) && OneDirectPerPair(s) && (e.Removes? || e.Leaves? || e.OpensForCustomer?)
    ensures OneDirectPerPair(Step(s, e))
  {
    hide IsDirectOf, Listed, Find, FirstOther, Ended, WithRole, AdminRemains, OneDirectPerPair, Count;
    if e.OpensForCustomer? {
      if e.id !in s && Keyed(e.rows) {
        NotDirect(Step(s, e)[e.id]);
        NoNewPair(s, e.id, Step(s, e)[e.id]);
      }
    } else if e.Leaves? {
      if Leave(s, e.id, e.principalId).1.Left? {
        NotDirect(Step(s, e)[e.id]);
        NoNewPair(s, e.id, Step(s, e)[e.id]);
      }
    } else if Remove(s, e.id, e.principalId, e.removedBy).1.Removed? {
      var c := s[e.id];
      assert ConversationSafe(c);
      PresentMeans(c, e.principalId);
      var i :| 0 <= i < |c.rows| && c.rows[i].principalId == e.principalId && c.rows[i].live;
      EndedCounts(c.rows, i);
      NotDirect(Step(s, e)[e.id]);
      NoNewPair(s, e.id, Step(s, e)[e.id]);
    }
  }

  lemma AddedDirects(s: Store, e: Event)
    requires Safe(s) && OneDirectPerPair(s) && e.Adds?
    ensures OneDirectPerPair(Step(s, e)) <==> !CompletesASecond(s, e)
  {
    hide IsDirectOf, Listed, Find, Upserted, OneDirectPerPair, Count, Keyed;
    var cmd := e.add;
    if Add(s, cmd).1.Added? {
      var c := s[cmd.id];
      var d := Step(s, e)[cmd.id];
      assert ConversationSafe(c);
      ListedIsLive(c.rows);
      AbsentIsDead(c, cmd.principalId);
      UpsertedCounts(c.rows, Row(cmd.principalId, cmd.kind, PARTICIPANT, cmd.at, true));
      if c.kind == INTERNAL_DIRECT && |Listed(c.rows)| == 1 {
        AddedPair(c, d, cmd);
        NewPair(s, cmd.id, d, cmd.addedBy, cmd.principalId);
      } else {
        NotDirect(d);
        NoNewPair(s, cmd.id, d);
      }
    }
  }

  lemma AddedPair(c: Conversation, d: Conversation, cmd: AddCommand)
    requires c.kind == INTERNAL_DIRECT && d.kind == INTERNAL_DIRECT && Count(c.rows, IsLive()) == 1 && Keyed(c.rows)
    requires Present(c, cmd.addedBy) && !Present(c, cmd.principalId)
    requires d.rows == Upserted(c.rows, Row(cmd.principalId, cmd.kind, PARTICIPANT, cmd.at, true))
    requires Count(d.rows, IsLive()) == 2
    ensures cmd.addedBy != cmd.principalId && IsDirectOf(d, cmd.addedBy, cmd.principalId)
  {
    hide IsDirectOf, Listed, Find, Count, Keyed, Present;
    PresentMeans(c, cmd.addedBy);
    PresentMeans(c, cmd.principalId);
    PresentMeans(d, cmd.addedBy);
    PresentMeans(d, cmd.principalId);
    DirectMeans(d, cmd.addedBy, cmd.principalId);
    var k :| 0 <= k < |c.rows| && c.rows[k].principalId == cmd.addedBy && c.rows[k].live;
    assert d.rows[k] == c.rows[k];
    if HasRow(c.rows, cmd.principalId) {
      var j :| 0 <= j < |c.rows| && c.rows[j].principalId == cmd.principalId;
      assert d.rows[j].principalId == cmd.principalId && d.rows[j].live;
    } else {
      assert d.rows[|c.rows|].principalId == cmd.principalId && d.rows[|c.rows|].live;
    }
  }

  /**
   * "Open a one-to-one" always lands in the same thread, until somebody is added to a one-to-one that was left
   * with one person while the pair has another thread: every other step keeps one thread per pair, and that
   * one never does. The lookup would have found the other thread.
   */
  lemma DirectThreadsStayUnique(events: seq<Event>, e: Event)
    requires OneDirectPerPair(Run(events))
    ensures OneDirectPerPair(Run(events + [e])) <==> !CompletesASecond(Run(events), e)
  {
    hide Step, OneDirectPerPair, CompletesASecond, IsDirectOf;
    EveryRunIsSafe(events);
    assert (events + [e])[..|events|] == events;
    match e
    case Creates(_, _, _) => CreatedDirects(Run(events), e); OnlyAddsComplete(Run(events), e);
    case Adds(_) => AddedDirects(Run(events), e);
    case OpensForCustomer(_, _) => RemovedDirects(Run(events), e); OnlyAddsComplete(Run(events), e);
    case Removes(_, _, _) => RemovedDirects(Run(events), e); OnlyAddsComplete(Run(events), e);
    case Leaves(_, _) => RemovedDirects(Run(events), e); OnlyAddsComplete(Run(events), e);
  }

  lemma OnlyAddsComplete(s: Store, e: Event)
    requires !e.Adds?
    ensures !CompletesASecond(s, e)
  {
  }

  // ---------------------------------------------------------------- two threads for one pair

  function Between1And2(both: bool): Conversation {
    Conversation(INTERNAL_DIRECT, [Row(1, EMPLOYEE, CREATOR, 0, true), Row(2, EMPLOYEE, PARTICIPANT, 0, both)], INTERNAL_DIRECT)
  }

  const OPEN_1_WITH_2 := CreateCommand(INTERNAL_DIRECT, 1, [2], map[], false, false, 0)
  const BRING_2_BACK := AddCommand("first", 2, EMPLOYEE, 1, true, 0)

  lemma ListedPair()
    ensures Listed(Between1And2(true).rows) == Between1And2(true).rows
    ensures Listed(Between1And2(false).rows) == [Row(1, EMPLOYEE, CREATOR, 0, true)]
  {
    var both, one := Between1And2(true).rows, Between1And2(false).rows;
    assert both[..1] == [both[0]] && one[..1] == [both[0]] && [both[0]][..0] == [];
    assert LiveRows([both[0]]) == [both[0]];
    assert LiveRows(both) == both && LiveRows(one) == [both[0]];
    assert Sorting.Sort(EarliestFirst(), [both[0]]) == [both[0]];
    assert Sorting.Insert(EarliestFirst(), both[1], [both[0]]) == [both[0]] + Sorting.Insert(EarliestFirst(), both[1], []);
  }

  lemma OnlyTheOther()
    ensures Others([2], 1) == [2]
  {
    assert [2][..0] == [];
    assert Others([2][..0], 1) == [];
  }

  lemma FoundedBy1With2()
    ensures FoundingRows(OPEN_1_WITH_2) == Between1And2(true).rows && CheckCreate(OPEN_1_WITH_2).None?
  {
    hide Others;
    OnlyTheOther();
    assert [1] + [2] == [1, 2];
  }

  lemma Opening(s: Store, id: ConversationId)
    ensures Create(s, OPEN_1_WITH_2, None, id) == (s[id := Between1And2(true)], Created(id, false))
  {
    hide Others, FoundingRows, CheckCreate;
    FoundedBy1With2();
  }

  lemma Removing()
    ensures Remove(map["first" := Between1And2(true)], "first", 2, 1) == (map["first" := Between1And2(false)], Removed)
  {
    hide Listed;
    ListedPair();
    var rows := Between1And2(true).rows;
    assert rows[1..] == [rows[1]] && Find(rows, 1) == Some(rows[0]) && Find(rows, 2) == Some(rows[1]);
    assert Ended(rows, 2) == Between1And2(false).rows;
    assert map["first" := Between1And2(true)]["first" := Between1And2(false)] == map["first" := Between1And2(false)];
  }

  /**
   * It happens: 1 opens a thread with 2, removes 2 from it, opens a thread with 2 again, which is a new one,
   * and brings 2 back into the first.
   */
  lemma TwoThreadsForOnePair()
    ensures var started := Step(map[], Creates(OPEN_1_WITH_2, None, "first"));
            var removed := Step(started, Removes("first", 2, 1));
            var again := Step(removed, Creates(OPEN_1_WITH_2, None, "second"));
            CompletesASecond(again, Adds(BRING_2_BACK))
  {
    hide Listed, Create, Remove;
    Opening(map[], "first");
    OnlyTheOther();
    assert Step(map[], Creates(OPEN_1_WITH_2, None, "first")) == map["first" := Between1And2(true)];
    Removing();
    var removed := map["first" := Between1And2(false)];
    ListedPair();
    Opening(removed, "second");
    var again := removed["second" := Between1And2(true)];
    var rows := Between1And2(true).rows;
    assert rows[1..] == [rows[1]] && [rows[0]][1..] == [];
    assert Find(rows, 1) == Some(rows[0]) && Find(rows, 2) == Some(rows[1]);
    assert Find([rows[0]], 1) == Some(rows[0]) && Find([rows[0]], 2) == None;
    assert IsDirectOf(again["second"], 1, 2);
  }
}
