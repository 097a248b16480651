/** Any number of fences and one Lease object, as interleaved steps: clocks advance,
    a fence reads the Lease, decides, sends its patch, the API server applies or
    refuses it (possibly after its sender gave up), the reply arrives or not, and
    between these the fence processes take their own steps or restart. */
module LeaseCluster {
  import opened Outcomes
  import opened LeaseClient
  import opened FenceProcess

  /** A fence is named by the holder identity it writes, so identities are distinct. */
  type Id = string

  /** The fences' time bounds, how far two local clocks may be apart, and the Lease's
      constant duration. */
  datatype Setup = Setup(configs: map<Id, Config>, maxAge: map<Id, int>, skew: nat, seconds: int)

  predicate ValidSetup(k: Setup) {
    && k.seconds > 0
    && k.maxAge.Keys == k.configs.Keys
    && (forall f <- k.configs :: k.configs[f].holder == f && ValidConfig(k.configs[f]))
  }

  function Duration(k: Setup): int {
    k.seconds * SECOND
  }

  /** The fence accepts the Lease's duration; one that does not never gets authority. */
  predicate Accepts(k: Setup, f: Id) {
    f in k.configs && ValidDuration(k.configs[f], Duration(k))
  }

  /** The bound under which exclusion holds: of any two fences that accept the Lease's
      duration, each one's safety margin covers the clock skew and the part of a
      microsecond that truncation loses. */
  predicate MarginsCoverSkew(k: Setup) {
    forall f <- k.configs, g <- k.configs :: Accepts(k, f) && Accepts(k, g) && f != g ==>
      k.skew + 999 <= k.configs[f].margin
  }

  datatype Request = Idle | Fetched(lease: Lease) | Awaiting(attempt: nat)

  datatype Fate = InFlight | Landed(doc: LeaseDoc) | Refused

  /** One patch: its sender, the snapshot it is built on, the clock reading behind it. */
  datatype Attempt = Attempt(fence: Id, basis: Lease, now: int, patch: seq<PatchOp>, fate: Fate)

  datatype World = World(
    doc: LeaseDoc,
    versions: set<string>,
    fences: map<Id, Process>,
    requests: map<Id, Request>,
    attempts: seq<Attempt>)

  datatype Event =
    | Tick(clocks: map<Id, int>)
    | Fetch(f: Id)
    | Send(f: Id)
    | Land(i: nat, version: string)
    | Answer(f: Id)
    | GiveUp(f: Id)
    | Local(f: Id, s: Step)
    | Restart(f: Id)

  ghost predicate ClocksAgree(k: Setup, fences: map<Id, Process>) {
    forall f, g :: f in fences && g in fences ==> fences[f].clock - fences[g].clock <= k.skew
  }

  /** Fences that have not started, and any Lease of the set-up's duration whose
      renewal time, if it names one of the fences, was written from its clock. */
  ghost predicate Init(k: Setup, w: World) {
    && w.doc.resourceVersion != "" && w.doc.resourceVersion in w.versions
    && w.doc.durationSeconds == Some(k.seconds)
    && w.fences.Keys == k.configs.Keys == k.maxAge.Keys && w.requests.Keys == k.configs.Keys
    && ClocksAgree(k, w.fences)
    && w.attempts == []
    && (forall f <- k.configs :: w.requests[f] == Idle && w.fences[f] == Boot(w.fences[f].clock, k.maxAge[f]))
    && (w.doc.holderIdentity.Some? && w.doc.holderIdentity.value in k.configs && w.doc.renewTime.At? ==>
          w.doc.renewTime.instant <= Truncate(w.fences[w.doc.holderIdentity.value].clock))
  }

  /** A fence's acquisition ends without authority. */
  function Abandon(w: World, f: Id): World
    requires f in w.fences
  {
    w.(requests := w.requests[f := Idle], fences := w.fences[f := w.fences[f].(renewer := Failed)])
  }

  function NextFetch(w: World, f: Id): Option<World> {
    if f in w.fences && f in w.requests && w.fences[f].renewer.Leasing? && w.requests[f].Idle? then
      match DecodeLease(w.doc)
      case Ok(lease) => Some(w.(requests := w.requests[f := Fetched(lease)]))
      case Err(_) => Some(Abandon(w, f))
    else None
  }

  function NextSend(k: Setup, w: World, f: Id): Option<World> {
    if f in w.fences && f in w.requests && f in k.configs && w.fences[f].renewer.Leasing? && w.requests[f].Fetched? then
      var lease := w.requests[f].lease;
      var now := w.fences[f].clock;
      match Prepare(k.configs[f], lease, now)
      case Ok(patch) =>
        Some(w.(attempts := w.attempts + [Attempt(f, lease, now, patch, InFlight)],
                requests := w.requests[f := Awaiting(|w.attempts|)]))
      case Err(_) => Some(Abandon(w, f))
    else None
  }

  /** The server takes up one patch; a successful write gets a never used version. */
  function NextLand(w: World, i: nat, version: string): Option<World> {
    if i < |w.attempts| && w.attempts[i].fate.InFlight? && version != "" && version !in w.versions then
      match ApplyPatch(w.doc, w.attempts[i].patch)
      case None => Some(w.(attempts := w.attempts[i := w.attempts[i].(fate := Refused)]))
      case Some(next) =>
        var doc := next.(resourceVersion := version);
        Some(w.(doc := doc, versions := w.versions + {version},
                attempts := w.attempts[i := w.attempts[i].(fate := Landed(doc))]))
    else None
  }

  function NextAnswer(k: Setup, w: World, f: Id): Option<World> {
    if f in w.fences && f in w.requests && f in k.configs && w.fences[f].renewer.Leasing? && w.requests[f].Awaiting?
       && w.requests[f].attempt < |w.attempts| then
      var a := w.attempts[w.requests[f].attempt];
      match a.fate
      case InFlight => None
      case Refused => Some(Abandon(w, f))
      case Landed(doc) =>
        match Conclude(k.configs[f], doc, a.now)
        case Err(_) => Some(Abandon(w, f))
        case Ok(deadline) =>
          match NextRenew(w.fences[f], Grant(deadline))
          case None => None
          case Some(p) => Some(w.(requests := w.requests[f := Idle], fences := w.fences[f := p]))
    else None
  }

  /** A process step that is neither the clock's nor the Lease client's. */
  predicate IsLocal(s: Step) {
    !s.Advance? && s != Renewing(Refuse) && !(s.Renewing? && s.r.Grant?)
  }

  function NextLocal(w: World, f: Id, s: Step): Option<World> {
    if f in w.fences && IsLocal(s) then
      match Next(w.fences[f], s)
      case None => None
      case Some(p) => Some(w.(fences := w.fences[f := p]))
    else None
  }

  ghost predicate CanTick(k: Setup, w: World, clocks: map<Id, int>) {
    && clocks.Keys == w.fences.Keys
    && (forall f <- clocks :: w.fences[f].clock <= clocks[f])
    && (forall f, g :: f in clocks && g in clocks ==> clocks[f] - clocks[g] <= k.skew)
  }

  ghost function NextWorld(k: Setup, w: World, e: Event): Option<World> {
    match e
    case Tick(clocks) =>
      if CanTick(k, w, clocks) then
        Some(w.(fences := map f | f in w.fences :: w.fences[f].(clock := clocks[f])))
      else None
    case Fetch(f) => NextFetch(w, f)
    case Send(f) => NextSend(k, w, f)
    case Land(i, version) => NextLand(w, i, version)
    case Answer(f) => NextAnswer(k, w, f)
    case GiveUp(f) =>
      if f in w.fences && f in w.requests && w.fences[f].renewer.Leasing? then Some(Abandon(w, f)) else None
    case Local(f, s) => NextLocal(w, f, s)
    case Restart(f) =>
      if f in w.fences && f in w.requests && f in k.maxAge then
        Some(w.(fences := w.fences[f := Boot(w.fences[f].clock, k.maxAge[f])], requests := w.requests[f := Idle]))
      else None
  }

  ghost function Run(k: Setup, w: World, events: seq<Event>): Option<World> {
    if events == [] then Some(w)
    else
      match Run(k, w, events[..|events| - 1])
      case None => None
      case Some(v) => NextWorld(k, v, events[|events| - 1])
  }

  ghost predicate Reachable(k: Setup, w: World) {
    exists start, events :: Init(k, start) && Run(k, start, events) == Some(w)
  }

  /** A fence that could let bytes through: it holds, or is about to publish, an
      authority deadline that its own clock has not reached. */
  predicate LiveDeadline(p: Process, d: int) {
    Holds(p, d) && p.clock < d
  }

  ghost predicate Live(w: World, f: Id) {
    f in w.fences && exists d :: LiveDeadline(w.fences[f], d)
  }
}
