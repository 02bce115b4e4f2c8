/**
 * The pure half of the attachment pipeline: the table of permitted moves, and the two policy gates an upload
 * passes, one before any byte is accepted and one after the bytes have been measured.
 */
module AttachmentPolicy {
  import opened Options

  // ---------------------------------------------------------------- the pipeline's table

  datatype State = UPLOAD_GRANTED | QUARANTINED | SCANNING | CLEAN | INFECTED | REJECTED | BOUND | EXPIRED

  datatype Kind = UPLOADED | SCAN_STARTED | SCAN_CLEAN | SCAN_INFECTED | SCAN_REJECTED | BIND | EXPIRE

  datatype Refusal = NOT_A_TRANSITION | NOT_CLEAN_YET | INFECTED_IS_TERMINAL | ALREADY_BOUND | ALREADY_EXPIRED

  datatype Advanced = Moved(state: State) | Refused(refusal: Refusal)

  /** The table of moves; whatever it does not list is refused. */
  function Moves(from: State, kind: Kind): Option<State> {
    match (from, kind)
    case (UPLOAD_GRANTED, UPLOADED) => Some(QUARANTINED)
    case (UPLOAD_GRANTED, EXPIRE) => Some(EXPIRED)
    case (QUARANTINED, SCAN_STARTED) => Some(SCANNING)
    case (QUARANTINED, EXPIRE) => Some(EXPIRED)
    case (SCANNING, SCAN_CLEAN) => Some(CLEAN)
    case (SCANNING, SCAN_INFECTED) => Some(INFECTED)
    case (SCANNING, SCAN_REJECTED) => Some(REJECTED)
    case (SCANNING, EXPIRE) => Some(EXPIRED)
    case (CLEAN, BIND) => Some(BOUND)
    case (CLEAN, EXPIRE) => Some(EXPIRED)
    case _ => None
  }

  function Advance(from: State, kind: Kind): Advanced {
    if from == INFECTED then Refused(INFECTED_IS_TERMINAL)
    else if from == BOUND then Refused(ALREADY_BOUND)
    else if from == EXPIRED then Refused(ALREADY_EXPIRED)
    else
      match Moves(from, kind)
      case Some(to) => Moved(to)
      case None => Refused(if kind == BIND then NOT_CLEAN_YET else NOT_A_TRANSITION)
  }

  predicate IsReachable(state: State) {
    state == BOUND
  }

  predicate IsExpirable(state: State) {
    state == UPLOAD_GRANTED || state == QUARANTINED || state == SCANNING || state == CLEAN
  }

  /** The state after a list of events, if the table permits every one of them. */
  function Follow(from: State, kinds: seq<Kind>): Option<State>
    decreases |kinds|
  {
    if kinds == [] then Some(from)
    else
      match Advance(from, kinds[0])
      case Refused(_) => None
      case Moved(to) => Follow(to, kinds[1..])
  }

  /** How far a state is from the end of the pipeline. */
  function Remaining(from: State): nat {
    match from
    case UPLOAD_GRANTED => 4
    case QUARANTINED => 3
    case SCANNING => 2
    case CLEAN => 1
    case _ => 0
  }

  lemma {:induction false} PipelinesAreShort(from: State, kinds: seq<Kind>)
    requires Follow(from, kinds).Some?
    ensures |kinds| <= Remaining(from)
    ensures forall k :: 0 <= k < |kinds| ==> Follow(from, kinds[..k]).Some? && IsExpirable(Follow(from, kinds[..k]).value)
    decreases |kinds|
  {
    if kinds != [] {
      var to := Advance(from, kinds[0]).state;
      PipelinesAreShort(to, kinds[1..]);
      forall k | 0 <= k < |kinds|
        ensures Follow(from, kinds[..k]).Some? && IsExpirable(Follow(from, kinds[..k]).value)
      {
        if k > 0 {
          assert kinds[..k][1..] == kinds[1..][..k - 1];
        }
      }
    }
  }

  /**
   * The only way to become reachable is the whole pipeline in order: uploaded, scan started, scanned clean,
   * bound. Nothing follows it.
   */
  lemma OnlyOnePathIsReachable(kinds: seq<Kind>)
    ensures (Follow(UPLOAD_GRANTED, kinds).Some? && IsReachable(Follow(UPLOAD_GRANTED, kinds).value))
            <==> kinds == [UPLOADED, SCAN_STARTED, SCAN_CLEAN, BIND]
  {
    if Follow(UPLOAD_GRANTED, kinds) == Some(BOUND) {
      PathsToBound(UPLOAD_GRANTED, kinds);
    }
    if kinds == [UPLOADED, SCAN_STARTED, SCAN_CLEAN, BIND] {
      assert kinds[1..] == [SCAN_STARTED, SCAN_CLEAN, BIND];
      assert kinds[1..][1..] == [SCAN_CLEAN, BIND];
      assert kinds[1..][1..][1..] == [BIND];
      assert Follow(CLEAN, [BIND]) == Follow(BOUND, []);
      assert Follow(SCANNING, [SCAN_CLEAN, BIND]) == Some(BOUND);
    }
  }

  function RestOfPipeline(from: State): seq<Kind> {
    match from
    case UPLOAD_GRANTED => [UPLOADED, SCAN_STARTED, SCAN_CLEAN, BIND]
    case QUARANTINED => [SCAN_STARTED, SCAN_CLEAN, BIND]
    case SCANNING => [SCAN_CLEAN, BIND]
    case CLEAN => [BIND]
    case _ => []
  }

  lemma {:induction false} PathsToBound(from: State, kinds: seq<Kind>)
    requires Follow(from, kinds) == Some(BOUND)
    ensures kinds == RestOfPipeline(from)
    ensures from !in {INFECTED, REJECTED, EXPIRED}
    decreases |kinds|
  {
    if kinds != [] {
      PathsToBound(Advance(from, kinds[0]).state, kinds[1..]);
      assert kinds == [kinds[0]] + kinds[1..];
    }
  }

  // ---------------------------------------------------------------- policy

  datatype Uploader = EMPLOYEE | CUSTOMER

  datatype UploaderPolicy = UploaderPolicy(
    allowedMimeTypes: seq<string>, maxBytes: int, maxBytesByFamily: map<string, int>,
    allowedCategoryRoots: Option<seq<string>>)

  datatype Policy = Policy(employee: UploaderPolicy, customer: UploaderPolicy) {
    function For(uploader: Uploader): UploaderPolicy {
      if uploader == CUSTOMER then customer else employee
    }
  }

  const MIB := 1024 * 1024

  const DEFAULT_POLICY := Policy(
    UploaderPolicy(
      [ "application/pdf", "image/jpeg", "image/png", "image/heic", "image/tiff", "application/msword",
        "application/vnd.openxmlformats-officedocument.wordprocessingml.document", "application/vnd.ms-excel",
        "application/vnd.openxmlformats-officedocument.spreadsheetml.sheet", "text/plain",
        "audio/webm", "audio/ogg", "audio/mp4", "audio/mpeg",
        "video/mp4", "video/webm", "video/quicktime", "image/gif", "image/webp", "image/avif"],
      10 * MIB, map["video" := 25 * MIB, "audio" := 25 * MIB], None),
    UploaderPolicy(
      ["application/pdf", "image/jpeg", "image/png", "image/heic"], 10 * MIB, map[], Some(["claims"])))

  datatype Gate<R> = Pass | Refuse(refusal: R)

  datatype UploadRefusal = UPLOADS_NOT_PERMITTED_FOR_CATEGORY | MIME_NOT_ALLOWED | TOO_LARGE_TO_GRANT | EMPTY

  datatype ValidationRefusal = MIME_MISMATCH | SIZE_MISMATCH | TOO_LARGE

  datatype Claim = Claim(mime: string, bytes: int)

  /** The part of a string before the first occurrence of a character, or all of it. */
  function Before(s: string, c: char): string {
    if s == [] || s[0] == c then [] else [s[0]] + Before(s[1..], c)
  }

  function CeilingFor(rules: UploaderPolicy, mime: string): int {
    var family := Before(mime, '/');
    if family in rules.maxBytesByFamily then rules.maxBytesByFamily[family] else rules.maxBytes
  }

  /** The gate before any byte is accepted. */
  function CheckUploadIntent(policy: Policy, uploader: Uploader, claim: Claim, category: Option<string>): Gate<UploadRefusal> {
    var rules := policy.For(uploader);
    if rules.allowedCategoryRoots.Some?
       && (category.None? || Before(category.value, '.') !in rules.allowedCategoryRoots.value) then
      Refuse(UPLOADS_NOT_PERMITTED_FOR_CATEGORY)
    else if claim.mime !in rules.allowedMimeTypes then Refuse(MIME_NOT_ALLOWED)
    else if claim.bytes <= 0 then Refuse(EMPTY)
    else if claim.bytes > CeilingFor(rules, claim.mime) then Refuse(TOO_LARGE_TO_GRANT)
    else Pass
  }

  /** The gate before promotion: what was measured, against what was claimed. */
  function CheckReceived(policy: Policy, uploader: Uploader, claim: Claim, received: Claim): Gate<ValidationRefusal> {
    var rules := policy.For(uploader);
    if received.mime != claim.mime then Refuse(MIME_MISMATCH)
    else if received.mime !in rules.allowedMimeTypes then Refuse(MIME_MISMATCH)
    else if received.bytes != claim.bytes then Refuse(SIZE_MISMATCH)
    else if received.bytes > CeilingFor(rules, received.mime) then Refuse(TOO_LARGE)
    else Pass
  }

  /**
   * The two gates agree: bytes whose intent was permitted pass the second gate exactly when they are what was
   * claimed, and bytes that pass the second gate could have been claimed in the first place, the category and
   * emptiness aside, which only the first gate looks at.
   */
  lemma GatesAgree(policy: Policy, uploader: Uploader, claim: Claim, category: Option<string>, received: Claim)
    ensures CheckUploadIntent(policy, uploader, claim, category).Pass? ==>
              (CheckReceived(policy, uploader, claim, received).Pass? <==> received == claim)
    ensures CheckReceived(policy, uploader, claim, received).Pass? ==>
              received == claim
              && (CheckUploadIntent(policy, uploader, received, category) in
                  {Pass, Refuse(EMPTY), Refuse(UPLOADS_NOT_PERMITTED_FOR_CATEGORY)})
  {
  }

  /**
   * Under the shipped policy an employee may send whatever a customer may, in any category and at the same
   * ceiling.
   */
  lemma EmployeesMaySendWhatCustomersMay(claim: Claim, category: Option<string>, otherCategory: Option<string>)
    ensures CheckUploadIntent(DEFAULT_POLICY, CUSTOMER, claim, category).Pass? ==>
              CheckUploadIntent(DEFAULT_POLICY, EMPLOYEE, claim, otherCategory).Pass?
              && CeilingFor(DEFAULT_POLICY.employee, claim.mime) == CeilingFor(DEFAULT_POLICY.customer, claim.mime)
  {
    hide Before;
    if CheckUploadIntent(DEFAULT_POLICY, CUSTOMER, claim, category).Pass? {
      CustomerFamilies(claim.mime);
    }
  }

  lemma CustomerFamilies(mime: string)
    requires mime in DEFAULT_POLICY.customer.allowedMimeTypes
    ensures Before(mime, '/') !in DEFAULT_POLICY.employee.maxBytesByFamily
    ensures mime in DEFAULT_POLICY.employee.allowedMimeTypes
  {
    hide Before;
    var types, employee := DEFAULT_POLICY.customer.allowedMimeTypes, DEFAULT_POLICY.employee.allowedMimeTypes;
    var i :| 0 <= i < 4 && types[i] == mime;
    FamilyOfCustomerType(i);
    NeitherSoundNorFilm(Before(mime, '/'));
    assert employee[i] == mime;
  }

  lemma NeitherSoundNorFilm(family: string)
    requires family == "application" || family == "image"
    ensures family != "audio" && family != "video"
  {
    assert |"application"| == 11 && "image"[0] == 'i' && "audio"[0] == 'a' && "video"[0] == 'v';
  }

  lemma FamilyOfCustomerType(i: nat)
    requires i < 4
    ensures Before(DEFAULT_POLICY.customer.allowedMimeTypes[i], '/') == if i == 0 then "application" else "image"
  {
    hide Before;
    var types := DEFAULT_POLICY.customer.allowedMimeTypes;
    if i == 0 {
      BeforeSplits("application", "pdf", '/');
      assert types[0] == "application" + ['/'] + "pdf";
    } else if i == 1 {
      BeforeSplits("image", "jpeg", '/');
      assert types[1] == "image" + ['/'] + "jpeg";
    } else if i == 2 {
      BeforeSplits("image", "png", '/');
      assert types[2] == "image" + ['/'] + "png";
    } else {
      BeforeSplits("image", "heic", '/');
      assert types[3] == "image" + ['/'] + "heic";
    }
  }

  lemma {:induction false} BeforeSplits(a: string, b: string, c: char)
    requires c !in a
    ensures Before(a + [c] + b, c) == a
  {
    if a == [] {
    } else {
      BeforeSplits(a[1..], b, c);
      assert (a + [c] + b)[1..] == a[1..] + [c] + b;
    }
  }
}
