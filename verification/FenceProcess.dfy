/** One fence process as interleaved atomic steps of its goroutines: the accept
    loop, one proxy per connection, the renewal loop, one watchdog per authority
    deadline, and whoever runs `trip`. Every critical section is a function of
    `FenceProxy`; `Grant` and `Refuse` are the outcomes of talking to the Lease. */
module FenceProcess {
  import opened Outcomes
  import opened FenceProxy

  datatype Acceptor =
    | NotStarted
    | Accepting
    | Checking(conn: Conn, host: string)
    | Admitted(conn: Conn)
    | Rejecting(conn: Conn)
    | AcceptDone

  /** Where one proxy goroutine is; the deferred calls run from `ClosingUpstream` on. */
  datatype Stage =
    | Spawned | Begun | Dialing | Copying
    | ClosingUpstream | Reporting | Leaving | ClosingClient | Finished

  datatype CloseResult = AuthorityExpired | UpstreamDialFailed | TunnelClosed

  datatype Tunnel = Tunnel(stage: Stage, id: nat, deadline: Option<int>, upstreamOpen: bool, dialed: bool,
                           result: CloseResult)

  /** Chunks one copying goroutine has read, and has written to the other side; it holds the
      chunk it has read and not written yet. */
  datatype Flow = Flow(read: nat, delivered: nat)

  datatype Traffic = Traffic(toSigner: Flow, toClient: Flow)

  datatype Receipt = Receipt(conn: Conn, id: nat, result: CloseResult)

  datatype Alarm = Armed | Fired | Expired | Retired

  datatype Watchdog = Watchdog(deadline: int, alarm: Alarm)

  datatype Renewer =
    | Quiet
    | Leasing
    | Granted(deadline: int)
    | Listened(deadline: int)
    | Arming(version: nat, deadline: int)
    | Failed
    | Ended

  /** The one `trip` call that passed the fenced check. */
  datatype Closer = Untripped | ClosingListener(rest: set<Conn>) | ClosingConnections(rest: set<Conn>) | Tripped

  datatype Process = Process(
    clock: int,
    f: Fields,
    acceptor: Acceptor,
    hosts: map<Conn, string>,
    open: set<Conn>,
    tunnels: map<Conn, Tunnel>,
    traffic: map<Conn, Traffic>,
    receipts: seq<Receipt>,
    nextID: nat,
    renewer: Renewer,
    watchdogs: map<nat, Watchdog>,
    closer: Closer,
    listenerOpen: bool)

  function Boot(clock: int, maxConnectionAge: int): Process {
    Process(clock, Fresh(maxConnectionAge), NotStarted, map[], {}, map[], map[], [], 0, Quiet, map[], Untripped, false)
  }

  datatype Tripper = Outside | RenewLoop | ByWatchdog(version: nat)

  datatype AcceptStep = Accept(c: Conn, host: string) | AcceptFails | CheckSource | Admission | Reject

  datatype TunnelStep = Begin | Bound(read: int) | Dial(ok: bool) | EndCopy | Unwind

  datatype Direction = ToSigner | ToClient

  datatype MoveStep = Read(d: Direction) | Deliver(d: Direction)

  datatype TripStep = Trip(caller: Tripper) | CloseListener | CloseConnection(c: Conn) | FinishTrip

  /** Start-up and the renewal loop; `Grant` and `Refuse` end one acquisition. */
  datatype RenewStep =
    | Observe(uid: string, ip: string) | ObserveFails
    | Grant(deadline: int) | Refuse
    | StartListener(ok: bool) | Announce | Arm

  datatype WatchdogStep = Fire | Check | Dismiss

  datatype Step =
    | Advance(to: int)
    | Admitting(a: AcceptStep)
    | Tunneling(c: Conn, t: TunnelStep)
    | Moving(c: Conn, m: MoveStep)
    | Closing(x: TripStep)
    | Renewing(r: RenewStep)
    | Watching(v: nat, w: WatchdogStep)

  function Spawn(): Tunnel {
    Tunnel(Spawned, 0, None, false, false, AuthorityExpired)
  }

  function Tripping(p: Process): Process {
    if p.f.fenced then p else p.(f := Fence(p.f), closer := ClosingListener(p.f.connections))
  }

  function NextAccept(p: Process, a: AcceptStep): Option<Process> {
    match a
    case Accept(c, host) =>
      if p.acceptor.Accepting? && p.listenerOpen && c !in p.hosts then
        Some(p.(acceptor := Checking(c, host), hosts := p.hosts[c := host], open := p.open + {c}))
      else None
    case AcceptFails =>
      if p.acceptor.Accepting? then Some(p.(acceptor := AcceptDone)) else None
    case CheckSource =>
      if p.acceptor.Checking? then
        var (f, ok) := Admit(p.f, p.acceptor.host);
        Some(p.(f := f, acceptor := if ok then Admitted(p.acceptor.conn) else Rejecting(p.acceptor.conn)))
      else None
    case Admission =>
      if p.acceptor.Admitted? then
        var c := p.acceptor.conn;
        (match Enter(p.f, c)
         case None => Some(p.(acceptor := Rejecting(c)))
         case Some(f) => Some(p.(f := f, acceptor := Accepting, tunnels := p.tunnels[c := Spawn()])))
      else None
    case Reject =>
      if p.acceptor.Rejecting? then
        Some(p.(acceptor := Accepting, open := p.open - {p.acceptor.conn}))
      else None
  }

  /** One step of a proxy goroutine on its own tunnel. */
  function Progress(t: Tunnel, s: TunnelStep, f: Fields, clock: int, freshId: nat): Option<Tunnel> {
    match (s, t.stage)
    case (Begin, Spawned) => Some(t.(stage := Begun, id := freshId))
    case (Bound(read), Begun) =>
      if read > clock then None
      else (
        match ConnectionDeadline(f, read)
        case None => Some(t.(stage := Reporting))
        case Some(d) => Some(t.(stage := Dialing, deadline := Some(d))))
    case (Dial(ok), Dialing) =>
      if ok then Some(t.(stage := Copying, upstreamOpen := true, dialed := true, result := TunnelClosed))
      else Some(t.(stage := Reporting, result := UpstreamDialFailed))
    case (EndCopy, Copying) => Some(t.(stage := ClosingUpstream))
    case (Unwind, ClosingUpstream) => Some(t.(stage := Reporting, upstreamOpen := false))
    case (Unwind, Reporting) => Some(t.(stage := Leaving))
    case (Unwind, Leaving) => Some(t.(stage := ClosingClient))
    case (Unwind, ClosingClient) => Some(t.(stage := Finished))
    case _ => None
  }

  /** The same step on the process: ids are handed out once, a receipt is written
      when leaving `Reporting`, the map entry goes before the client socket closes. */
  function NextTunnel(p: Process, c: Conn, s: TunnelStep): Option<Process> {
    if c !in p.tunnels then None
    else
      var t := p.tunnels[c];
      match Progress(t, s, p.f, p.clock, p.nextID + 1)
      case None => None
      case Some(next) =>
        Some(p.(
          tunnels := p.tunnels[c := next],
          nextID := if t.stage.Spawned? then p.nextID + 1 else p.nextID,
          receipts := if t.stage.Reporting? then p.receipts + [Receipt(c, t.id, t.result)] else p.receipts,
          f := if t.stage.Leaving? then Leave(p.f, c) else p.f,
          open := if t.stage.ClosingClient? then p.open - {c} else p.open))
  }

  const STILL := Traffic(Flow(0, 0), Flow(0, 0))

  function TrafficOf(p: Process, c: Conn): Traffic {
    if c in p.traffic then p.traffic[c] else STILL
  }

  /** One chunk read, or the chunk in hand written: reading needs the one socket open,
      writing the other. */
  function Moved(t: Traffic, m: MoveStep, upstreamOpen: bool, clientOpen: bool): Option<Traffic> {
    match m
    case Read(ToSigner) =>
      if clientOpen && t.toSigner.read == t.toSigner.delivered then
        Some(t.(toSigner := t.toSigner.(read := t.toSigner.read + 1)))
      else None
    case Deliver(ToSigner) =>
      if upstreamOpen && t.toSigner.read > t.toSigner.delivered then
        Some(t.(toSigner := t.toSigner.(delivered := t.toSigner.delivered + 1)))
      else None
    case Read(ToClient) =>
      if upstreamOpen && t.toClient.read == t.toClient.delivered then
        Some(t.(toClient := t.toClient.(read := t.toClient.read + 1)))
      else None
    case Deliver(ToClient) =>
      if clientOpen && t.toClient.read > t.toClient.delivered then
        Some(t.(toClient := t.toClient.(delivered := t.toClient.delivered + 1)))
      else None
  }

  /** The copying goroutines start once the upstream is reached and go on, each for itself, as
      long as their sockets and the shared I/O deadline let them. */
  predicate Copies(p: Process, c: Conn) {
    && c in p.tunnels && p.tunnels[c].dialed
    && p.tunnels[c].deadline.Some? && p.clock < p.tunnels[c].deadline.value
  }

  function NextMove(p: Process, c: Conn, m: MoveStep): Option<Process> {
    if !Copies(p, c) then None
    else
      match Moved(TrafficOf(p, c), m, p.tunnels[c].upstreamOpen, c in p.open)
      case None => None
      case Some(t) => Some(p.(traffic := p.traffic[c := t]))
  }

  function NextTrip(p: Process, x: TripStep): Option<Process> {
    match x
    case Trip(caller) =>
      if p.acceptor.NotStarted? then None
      else (
        match caller
        case Outside => Some(Tripping(p))
        case RenewLoop =>
          if p.renewer.Failed? || p.renewer.Quiet? then Some(Tripping(p).(renewer := Ended)) else None
        case ByWatchdog(v) =>
          if v in p.watchdogs && p.watchdogs[v].alarm.Expired? then
            Some(Tripping(p).(watchdogs := p.watchdogs[v := p.watchdogs[v].(alarm := Retired)]))
          else None)
    case CloseListener =>
      if p.closer.ClosingListener? then
        Some(p.(closer := ClosingConnections(p.closer.rest), listenerOpen := false))
      else None
    case CloseConnection(c) =>
      if p.closer.ClosingConnections? && c in p.closer.rest then
        Some(p.(closer := ClosingConnections(p.closer.rest - {c}), open := p.open - {c}))
      else None
    case FinishTrip =>
      if p.closer == ClosingConnections({}) then Some(p.(closer := Tripped)) else None
  }

  function NextRenew(p: Process, r: RenewStep): Option<Process> {
    match r
    case Observe(uid, ip) =>
      if p.renewer.Quiet? && uid != "" && ip != "" then (
        match Pin(p.f, uid, ip)
        case None => Some(p.(renewer := Failed))
        case Some(f) => Some(p.(f := f, renewer := Leasing)))
      else None
    case ObserveFails => if p.renewer.Quiet? then Some(p.(renewer := Failed)) else None
    case Grant(d) => if p.renewer.Leasing? then Some(p.(renewer := Granted(d))) else None
    case Refuse => if p.renewer.Leasing? then Some(p.(renewer := Failed)) else None
    case StartListener(ok) =>
      if p.renewer.Granted? && p.acceptor.NotStarted? then (
        match Listen(p.f, p.renewer.deadline, p.clock)
        case None => Some(p.(renewer := Failed))
        case Some(f) =>
          if ok then Some(p.(f := f, listenerOpen := true, renewer := Listened(p.renewer.deadline)))
          else Some(p.(renewer := Failed)))
      else None
    case Announce =>
      if p.renewer.Listened? || (p.renewer.Granted? && !p.acceptor.NotStarted?) then
        var d := p.renewer.deadline;
        Some(p.(f := Publish(p.f, d), renewer := Arming(p.f.deadlineVersion + 1, d)))
      else None
    case Arm =>
      if p.renewer.Arming? then
        Some(p.(watchdogs := p.watchdogs[p.renewer.version := Watchdog(p.renewer.deadline, Armed)],
                renewer := Quiet,
                acceptor := if p.acceptor.NotStarted? then Accepting else p.acceptor))
      else None
  }

  function NextWatchdog(p: Process, v: nat, w: WatchdogStep): Option<Process> {
    if v !in p.watchdogs then None
    else
      var dog := p.watchdogs[v];
      match w
      case Fire =>
        if dog.alarm.Armed? && p.clock >= dog.deadline then
          Some(p.(watchdogs := p.watchdogs[v := dog.(alarm := Fired)]))
        else None
      case Check =>
        if dog.alarm.Fired? then
          Some(p.(watchdogs := p.watchdogs[v := dog.(alarm := if Lapsed(p.f, v, p.clock) then Expired else Retired)]))
        else None
      case Dismiss =>
        if dog.alarm.Armed? && p.closer.Tripped? then
          Some(p.(watchdogs := p.watchdogs[v := dog.(alarm := Retired)]))
        else None
  }

  function Next(p: Process, s: Step): Option<Process> {
    match s
    case Advance(to) => if to >= p.clock then Some(p.(clock := to)) else None
    case Admitting(a) => NextAccept(p, a)
    case Tunneling(c, t) => NextTunnel(p, c, t)
    case Moving(c, m) => NextMove(p, c, m)
    case Closing(x) => NextTrip(p, x)
    case Renewing(r) => NextRenew(p, r)
    case Watching(v, w) => NextWatchdog(p, v, w)
  }

  /** A whole run, the last step outermost. */
  function Execute(p: Process, steps: seq<Step>): Option<Process> {
    if steps == [] then Some(p)
    else
      match Execute(p, steps[..|steps| - 1])
      case None => None
      case Some(q) => Next(q, steps[|steps| - 1])
  }

  /** Some chunk can be read from, or written to, either side of the tunnel. */
  predicate CanMove(p: Process, c: Conn) {
    || NextMove(p, c, Read(ToSigner)).Some?
    || NextMove(p, c, Deliver(ToSigner)).Some?
    || NextMove(p, c, Read(ToClient)).Some?
    || NextMove(p, c, Deliver(ToClient)).Some?
  }

  /** A deadline the process relies on or is about to. */
  predicate Holds(p: Process, d: int) {
    || p.f.authorityDeadline == Some(d)
    || (p.renewer.Granted? && p.renewer.deadline == d)
    || (p.renewer.Listened? && p.renewer.deadline == d)
    || (p.renewer.Arming? && p.renewer.deadline == d)
  }

  /** What the renewal loop and what `trip` may change at all. */
  lemma RenewingFrame(p: Process, r: RenewStep)
    requires NextRenew(p, r).Some?
    ensures var q := NextRenew(p, r).value;
      q == p.(f := q.f, renewer := q.renewer, listenerOpen := q.listenerOpen, watchdogs := q.watchdogs,
               acceptor := q.acceptor)
  {
  }

  lemma ClosingFrame(p: Process, x: TripStep)
    requires NextTrip(p, x).Some?
    ensures var q := NextTrip(p, x).value;
      q == p.(f := q.f, closer := q.closer, renewer := q.renewer, watchdogs := q.watchdogs, open := q.open,
              listenerOpen := q.listenerOpen)
  {
    if x.Trip? {
      TripFrame(p, x.caller);
    }
  }

  lemma TripFrame(p: Process, caller: Tripper)
    requires NextTrip(p, Trip(caller)).Some?
    ensures var q := NextTrip(p, Trip(caller)).value;
      q == p.(f := if p.f.fenced then p.f else Fence(p.f), closer := q.closer, renewer := q.renewer,
               watchdogs := q.watchdogs)
  {
  }
}
