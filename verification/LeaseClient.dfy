/** The Lease client of the signing fence: what it reads from a Lease, which
    JSON Patch it sends, and which authority a reply gives it. Instants and
    durations are integers in nanoseconds. */
module LeaseClient {
  import opened Outcomes

  const MICROSECOND: int := 1_000
  const SECOND: int := 1_000_000_000

  datatype LeaseError = LeaseHeld | LeaseConflict | InvalidLease | RequestFailed

  /** The `renewTime` text of a stored Lease: not there, not a time, or an instant. */
  datatype TimeField = Absent | Malformed(text: string) | At(instant: int)

  /** The stored JSON document, as the API server keeps and returns it. */
  datatype LeaseDoc = LeaseDoc(
    resourceVersion: string,
    holderIdentity: Option<string>,
    durationSeconds: Option<int>,
    renewTime: TimeField)

  /** The document as the fence decodes it. */
  datatype Lease = Lease(resourceVersion: string, holder: string, duration: int, renewed: Option<int>)

  /** One fence's identity and time bounds. */
  datatype Config = Config(holder: string, poll: int, margin: int, timeout: int)

  /** What start-up demands: an identity and positive time bounds. */
  predicate ValidConfig(c: Config) {
    c.holder != "" && c.poll > 0 && c.margin > 0 && c.timeout > 0
  }

  function DecodeLease(doc: LeaseDoc): Result<Lease, LeaseError> {
    if doc.resourceVersion == "" || doc.durationSeconds.None? || doc.durationSeconds.value <= 0 then
      Err(InvalidLease)
    else if doc.renewTime.Malformed? then
      Err(InvalidLease)
    else
      Ok(Lease(
        doc.resourceVersion,
        if doc.holderIdentity.None? then "" else doc.holderIdentity.value,
        doc.durationSeconds.value * SECOND,
        if doc.renewTime.At? then Some(doc.renewTime.instant) else None))
  }

  predicate ValidDuration(c: Config, duration: int) {
    duration > c.poll + 3 * c.timeout + c.margin
  }

  /** A `MicroTime` keeps whole microseconds, rounded down. */
  function Truncate(t: int): int {
    t - t % MICROSECOND
  }

  // ---------------------------------------------------------------- JSON Patch

  datatype Path = ResourceVersionPath | HolderPath | RenewTimePath

  datatype PatchValue = Text(text: string) | Time(instant: int)

  datatype PatchOp =
    | Test(path: Path, value: PatchValue)
    | Replace(path: Path, value: PatchValue)
    | Add(path: Path, value: PatchValue)

  function Lookup(doc: LeaseDoc, path: Path): Option<PatchValue> {
    match path
    case ResourceVersionPath => Some(Text(doc.resourceVersion))
    case HolderPath => if doc.holderIdentity.None? then None else Some(Text(doc.holderIdentity.value))
    case RenewTimePath =>
      match doc.renewTime
      case Absent => None
      case Malformed(text) => Some(Text(text))
      case At(t) => Some(Time(t))
  }

  function Store(doc: LeaseDoc, path: Path, value: PatchValue): Option<LeaseDoc> {
    match (path, value)
    case (ResourceVersionPath, Text(s)) => Some(doc.(resourceVersion := s))
    case (HolderPath, Text(s)) => Some(doc.(holderIdentity := Some(s)))
    case (RenewTimePath, Time(t)) => Some(doc.(renewTime := At(t)))
    case (RenewTimePath, Text(s)) => Some(doc.(renewTime := Malformed(s)))
    case _ => None
  }

  /** One operation of RFC 6902: `test` needs an equal value at the path
      (section 4.6), `replace` needs the path to exist (4.3), `add` does not (4.1). */
  function ApplyOp(doc: LeaseDoc, op: PatchOp): Option<LeaseDoc> {
    match op
    case Test(path, value) => if Lookup(doc, path) == Some(value) then Some(doc) else None
    case Replace(path, value) => if Lookup(doc, path).Some? then Store(doc, path, value) else None
    case Add(path, value) => Store(doc, path, value)
  }

  /** A whole patch applies in order and fails as a whole (section 5). */
  function ApplyPatch(doc: LeaseDoc, ops: seq<PatchOp>): Option<LeaseDoc>
    decreases |ops|
  {
    if ops == [] then
      Some(doc)
    else
      match ApplyOp(doc, ops[0])
      case None => None
      case Some(next) => ApplyPatch(next, ops[1..])
  }

  /** What the server's operations do: a test compares and changes nothing, a replacement needs something
      to replace, and what is stored is then found. */
  lemma OperationsExactly(doc: LeaseDoc, path: Path, value: PatchValue)
    ensures ApplyOp(doc, Test(path, value)) == if Lookup(doc, path) == Some(value) then Some(doc) else None
    ensures Lookup(doc, path).None? ==> ApplyOp(doc, Replace(path, value)).None?
    ensures Lookup(doc, path).Some? ==> ApplyOp(doc, Replace(path, value)) == ApplyOp(doc, Add(path, value))
    ensures ApplyOp(doc, Add(path, value)).Some? ==> Lookup(ApplyOp(doc, Add(path, value)).value, path) == Some(value)
  {
  }

  lemma {:induction false} ApplyPatchAppend(doc: LeaseDoc, a: seq<PatchOp>, b: seq<PatchOp>)
    ensures ApplyPatch(doc, a + b) ==
            match ApplyPatch(doc, a) { case None => None case Some(next) => ApplyPatch(next, b) }
    decreases |a|
  {
    if a == [] {
      assert a + b == b;
    } else {
      assert (a + b)[0] == a[0] && (a + b)[1..] == a[1..] + b;
      match ApplyOp(doc, a[0])
      case None =>
      case Some(next) => ApplyPatchAppend(next, a[1..], b);
    }
  }

  // ------------------------------------------------------- the decision to write

  /** `renewTime` of the snapshot plus its duration has come on the local clock. */
  predicate ExpiredAt(lease: Lease, now: int) {
    lease.renewed.Some? && Truncate(now) >= lease.renewed.value + lease.duration
  }

  function PatchFor(c: Config, lease: Lease, now: int): seq<PatchOp> {
    [Test(ResourceVersionPath, Text(lease.resourceVersion)), Test(HolderPath, Text(lease.holder))]
    + (if lease.holder != c.holder then [Replace(HolderPath, Text(c.holder))] else [])
    + [Add(RenewTimePath, Time(Truncate(now)))]
  }

  /** From a snapshot and a clock reading to the patch to send, or the refusal. */
  function Prepare(c: Config, lease: Lease, now: int): Result<seq<PatchOp>, LeaseError> {
    if !ValidDuration(c, lease.duration) then Err(InvalidLease)
    else if lease.holder != "" && (lease.renewed.None? || lease.renewed.value > Truncate(now) + c.margin) then
      Err(InvalidLease)
    else if lease.holder == c.holder && lease.holder != "" && ExpiredAt(lease, now) then Err(InvalidLease)
    else if lease.holder != "" && lease.holder != c.holder && !ExpiredAt(lease, now) then Err(LeaseHeld)
    else Ok(PatchFor(c, lease, now))
  }

  /** From the reply to a patch to the local deadline it gives authority until. */
  function Conclude(c: Config, reply: LeaseDoc, now: int): Result<int, LeaseError> {
    match DecodeLease(reply)
    case Err(e) => Err(InvalidLease)
    case Ok(updated) =>
      if updated.holder != c.holder || updated.renewed != Some(Truncate(now)) then Err(InvalidLease)
      else if !ValidDuration(c, updated.duration) then Err(InvalidLease)
      else Ok(now + updated.duration - c.margin)
  }

  /** The document a successful patch leaves, before the server stamps a new version. */
  function Renewed(doc: LeaseDoc, holder: string, now: int): LeaseDoc {
    doc.(holderIdentity := Some(holder), renewTime := At(Truncate(now)))
  }

  /** The patch is a compare-and-swap: it applies exactly when the document still
      has the version and the (present) holder of the snapshot, and then changes the
      holder and the renewal time and nothing else. In particular a Lease without a
      `holderIdentity` member can never be bootstrapped. */
  lemma PatchIsCompareAndSwap(c: Config, lease: Lease, now: int, doc: LeaseDoc)
    ensures ApplyPatch(doc, PatchFor(c, lease, now)) ==
            if doc.resourceVersion == lease.resourceVersion && doc.holderIdentity == Some(lease.holder)
            then Some(Renewed(doc, c.holder, now))
            else None
  {
    var tests := [Test(ResourceVersionPath, Text(lease.resourceVersion)), Test(HolderPath, Text(lease.holder))];
    var swap := if lease.holder != c.holder then [Replace(HolderPath, Text(c.holder))] else [];
    var stamp := [Add(RenewTimePath, Time(Truncate(now)))];
    ApplyPatchAppend(doc, tests + swap, stamp);
    ApplyPatchAppend(doc, tests, swap);
    assert tests == [tests[0]] + [tests[1]];
    ApplyPatchAppend(doc, [tests[0]], [tests[1]]);
  }

  /** Exactly which snapshots a fence may write over: an unheld Lease, its own
      unexpired one, or another holder's expired one; never a time field it cannot
      trust and never a duration too short for its own polling. */
  lemma PrepareExactly(c: Config, lease: Lease, now: int)
    requires ValidConfig(c)
    ensures Prepare(c, lease, now).Ok? <==>
            && ValidDuration(c, lease.duration)
            && (lease.holder == "" ||
                (&& lease.renewed.Some?
                 && lease.renewed.value <= Truncate(now) + c.margin
                 && (lease.holder == c.holder <==> Truncate(now) < lease.renewed.value + lease.duration)))
    ensures lease.holder != "" && lease.holder != c.holder && Prepare(c, lease, now).Ok? ==>
              lease.renewed.Some? && now >= lease.renewed.value + lease.duration
  {
  }

  /** The reply to a landed patch always gives the deadline that was fixed by the
      clock reading taken before the patch was sent. */
  lemma LandedReplyGivesAuthority(c: Config, lease: Lease, now: int, doc: LeaseDoc, version: string)
    requires ValidConfig(c) && version != ""
    requires DecodeLease(doc) == Ok(lease) && Prepare(c, lease, now).Ok?
    ensures Conclude(c, Renewed(doc, c.holder, now).(resourceVersion := version), now)
            == Ok(now + lease.duration - c.margin)
  {
  }

  /** Exactly which replies give authority: those that show this fence as the holder
      since the very reading it sent, for a duration it can poll within. */
  lemma ConcludeExactly(c: Config, reply: LeaseDoc, now: int)
    requires ValidConfig(c)
    ensures Conclude(c, reply, now).Ok? <==>
            && reply.resourceVersion != "" && reply.holderIdentity == Some(c.holder)
            && reply.renewTime == At(now - now % 1_000)
            && reply.durationSeconds.Some?
            && reply.durationSeconds.value * 1_000_000_000 > c.poll + 3 * c.timeout + c.margin
    ensures Conclude(c, reply, now).Ok? ==>
              Conclude(c, reply, now).value == now + reply.durationSeconds.value * 1_000_000_000 - c.margin
              && Conclude(c, reply, now).value > now + c.poll + 3 * c.timeout
  {
  }

  // ------------------------------------------------------------ the client object

  datatype Reply = Body(doc: LeaseDoc) | Conflict

  /** The Lease as the API server holds it. */
  class LeaseApi {
    var doc: LeaseDoc

    constructor (doc: LeaseDoc)
      ensures this.doc == doc
    {
      this.doc := doc;
    }

    /** Apply a patch and stamp a new version, or change nothing. */
    method Patch(ops: seq<PatchOp>, version: string) returns (reply: Reply)
      modifies this
      ensures match ApplyPatch(old(doc), ops)
              case None => reply == Conflict && doc == old(doc)
              case Some(next) => doc == next.(resourceVersion := version) && reply == Body(doc)
    {
      var working := doc;
      var i := 0;
      while i < |ops|
        invariant 0 <= i <= |ops|
        invariant doc == old(doc)
        invariant ApplyPatch(doc, ops) == ApplyPatch(working, ops[i..])
      {
        match ApplyOp(working, ops[i]) {
          case None => return Conflict;
          case Some(next) => working := next;
        }
        i := i + 1;
      }
      doc := working.(resourceVersion := version);
      reply := Body(doc);
    }
  }

  /** The patch list is built by appending, as the client does. */
  method BuildPatch(c: Config, lease: Lease, now: int) returns (patch: seq<PatchOp>)
    ensures patch == PatchFor(c, lease, now)
  {
    patch := [Test(ResourceVersionPath, Text(lease.resourceVersion)), Test(HolderPath, Text(lease.holder))];
    if lease.holder != c.holder {
      patch := patch + [Replace(HolderPath, Text(c.holder))];
    }
    patch := patch + [Add(RenewTimePath, Time(Truncate(now)))];
  }

  /** What becomes of the patch request: it gets through and so does its reply, only the
      request does, or neither. */
  datatype Delivery = Answered | ReplyLost | NotSent

  /** A stored Lease that can be read and lasts long enough to be polled within. */
  ghost predicate Usable(c: Config, doc: LeaseDoc) {
    && doc.resourceVersion != "" && !doc.renewTime.Malformed?
    && doc.durationSeconds.Some? && doc.durationSeconds.value > 0
    && doc.durationSeconds.value * 1_000_000_000 > c.poll + 3 * c.timeout + c.margin
  }

  /** On the clock, in whole microseconds, the renewal time has not been and gone by the duration. */
  ghost predicate Unexpired(doc: LeaseDoc, now: int)
    requires doc.renewTime.At? && doc.durationSeconds.Some?
  {
    now - now % 1_000 < doc.renewTime.instant + doc.durationSeconds.value * 1_000_000_000
  }

  /** The Lease is somebody's, since a time that is not in the future but for the margin. */
  ghost predicate HeldSince(c: Config, doc: LeaseDoc, now: int) {
    && doc.holderIdentity.Some? && doc.holderIdentity.value != ""
    && doc.renewTime.At? && doc.renewTime.instant <= now - now % 1_000 + c.margin
  }

  /** What a fence may write over: a Lease that nobody holds, its own while that lasts, and another's
      when that is over. */
  ghost predicate MayWrite(c: Config, doc: LeaseDoc, now: int) {
    && Usable(c, doc)
    && (doc.holderIdentity == None || doc.holderIdentity == Some("")
        || (HeldSince(c, doc, now) && (doc.holderIdentity == Some(c.holder) <==> Unexpired(doc, now))))
  }

  /** Somebody else holds it, and may go on doing so. */
  ghost predicate HeldByOther(c: Config, doc: LeaseDoc, now: int) {
    Usable(c, doc) && HeldSince(c, doc, now) && doc.holderIdentity != Some(c.holder) && Unexpired(doc, now)
  }

  /** One acquisition or renewal against a server nobody else writes to meanwhile. A writable
      Lease is written exactly if the request gets through: then it names this fence with the
      truncated clock reading, also when the reply is lost and the call fails. Authority comes
      only with the reply, and its deadline follows from that reading. Nothing else is ever written,
      and each failure has its reason. */
  method AcquireOrRenew(c: Config, api: LeaseApi, now: int, version: string, delivery: Delivery)
    returns (r: Result<int, LeaseError>)
    requires ValidConfig(c) && version != ""
    modifies api
    ensures var doc := old(api.doc);
      && api.doc == (if MayWrite(c, doc, now) && doc.holderIdentity.Some? && delivery != NotSent
                     then doc.(holderIdentity := Some(c.holder), renewTime := At(now - now % 1_000),
                               resourceVersion := version)
                     else doc)
      && r == if HeldByOther(c, doc, now) then Err(LeaseHeld)
              else if !MayWrite(c, doc, now) then Err(InvalidLease)
              else if delivery != Answered then Err(RequestFailed)
              else if doc.holderIdentity.None? then Err(LeaseConflict)
              else Ok(now + doc.durationSeconds.value * 1_000_000_000 - c.margin)
  {
    var decoded := DecodeLease(api.doc);
    if decoded.Err? {
      return Err(decoded.error);
    }
    var state := decoded.value;
    var nowUTC := Truncate(now);
    if !ValidDuration(c, state.duration) {
      return Err(InvalidLease);
    }
    var expired := false;
    if state.holder != "" {
      if state.renewed.None? || state.renewed.value > nowUTC + c.margin {
        return Err(InvalidLease);
      }
      expired := !(nowUTC < state.renewed.value + state.duration);
    }
    if state.holder == c.holder && expired {
      return Err(InvalidLease);
    }
    if state.holder != "" && state.holder != c.holder && !expired {
      return Err(LeaseHeld);
    }
    var patch := BuildPatch(c, state, now);
    PatchIsCompareAndSwap(c, state, now, api.doc);
    LandedReplyGivesAuthority(c, state, now, api.doc, version);
    if delivery == NotSent {
      return Err(RequestFailed);
    }
    var reply := api.Patch(patch, version);
    if delivery == ReplyLost {
      return Err(RequestFailed);
    }
    if reply.Conflict? {
      return Err(LeaseConflict);
    }
    r := Conclude(c, reply.doc, now);
  }
}
