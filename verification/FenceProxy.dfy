/** The proxy's shared fields and its critical sections. Every method of the class
    is one region held under the proxy's mutex (or, for `Listen`, the part of
    start-up that runs before any other goroutine exists), so a method is an atomic
    step; each is tied to a function on the field values. */
module FenceProxy {
  import opened Outcomes

  /** An accepted downstream connection. */
  type Conn = nat

  datatype Fields = Fields(
    fenced: bool,
    listening: bool,
    connections: set<Conn>,
    downstreamIP: string,
    clientUID: string,
    clientIP: string,
    maxConnectionAge: int,
    authorityDeadline: Option<int>,
    deadlineVersion: nat)

  function Fresh(maxConnectionAge: int): Fields {
    Fields(false, false, {}, "", "", "", maxConnectionAge, None, 0)
  }

  /** The first identity is remembered; a later different one is refused. */
  function Pin(p: Fields, uid: string, ip: string): Option<Fields> {
    if p.clientUID == "" then Some(p.(clientUID := uid, clientIP := ip))
    else if p.clientUID != uid || p.clientIP != ip then None
    else Some(p)
  }

  /** Start-up: no listener without remaining authority, and no connection older than it. */
  function Listen(p: Fields, deadline: int, now: int): Option<Fields> {
    var limit := deadline - now;
    if limit <= 0 then None
    else if p.maxConnectionAge <= 0 || p.maxConnectionAge > limit then
      Some(p.(listening := true, maxConnectionAge := limit))
    else Some(p.(listening := true))
  }

  function Publish(p: Fields, deadline: int): Fields {
    p.(authorityDeadline := Some(deadline), deadlineVersion := p.deadlineVersion + 1)
  }

  /** What a fired watchdog for one version decides. */
  predicate Lapsed(p: Fields, version: nat, now: int) {
    !p.fenced && p.deadlineVersion == version && (p.authorityDeadline.None? || now >= p.authorityDeadline.value)
  }

  function Admit(p: Fields, host: string): (r: (Fields, bool)) {
    if host == "" || p.fenced || p.clientIP == "" || host != p.clientIP then (p, false)
    else if p.downstreamIP == "" then (p.(downstreamIP := host), true)
    else (p, p.downstreamIP == host)
  }

  function Enter(p: Fields, c: Conn): Option<Fields> {
    if p.fenced then None else Some(p.(connections := p.connections + {c}))
  }

  function Leave(p: Fields, c: Conn): Fields {
    p.(connections := p.connections - {c})
  }

  /** The I/O deadline of a tunnel opened at `now`, if it may open at all. */
  function ConnectionDeadline(p: Fields, now: int): Option<int> {
    if p.authorityDeadline.None? then None
    else
      var aged := now + p.maxConnectionAge;
      var deadline := if p.authorityDeadline.value < aged then p.authorityDeadline.value else aged;
      if now < deadline then Some(deadline) else None
  }

  function Fence(p: Fields): Fields {
    p.(fenced := true)
  }

  /** A tunnel's deadline is never past the authority in force nor past its own age. */
  lemma ConnectionDeadlineIsBounded(p: Fields, now: int)
    ensures ConnectionDeadline(p, now).Some? <==>
              p.authorityDeadline.Some? && now < p.authorityDeadline.value && p.maxConnectionAge > 0
    ensures ConnectionDeadline(p, now).Some? ==>
              var d := ConnectionDeadline(p, now).value;
              && now < d <= p.authorityDeadline.value && d <= now + p.maxConnectionAge
              && (d == p.authorityDeadline.value || d == now + p.maxConnectionAge)
  {
  }

  /** Listening starts only with authority ahead, and no connection may outlive it. */
  lemma ListeningIsWithinAuthority(p: Fields, deadline: int, now: int)
    ensures Listen(p, deadline, now).Some? <==> now < deadline
    ensures Listen(p, deadline, now).Some? ==>
              var q := Listen(p, deadline, now).value;
              && q.listening && 0 < q.maxConnectionAge && now + q.maxConnectionAge <= deadline
              && (0 < p.maxConnectionAge <= deadline - now ==> q == p.(listening := true))
              && (!(0 < p.maxConnectionAge <= deadline - now) ==> q.maxConnectionAge == deadline - now)
              && q == p.(listening := true, maxConnectionAge := q.maxConnectionAge)
  {
  }

  class Proxy {
    var fenced: bool
    var listening: bool
    var connections: set<Conn>
    var downstreamIP: string
    var clientUID: string
    var clientIP: string
    var maxConnectionAge: int
    var authorityDeadline: Option<int>
    var deadlineVersion: nat

    ghost function View(): Fields
      reads this
    {
      Fields(fenced, listening, connections, downstreamIP, clientUID, clientIP, maxConnectionAge,
             authorityDeadline, deadlineVersion)
    }

    constructor (maxAge: int)
      ensures View() == Fresh(maxAge)
      ensures !fenced && !listening && connections == {} && downstreamIP == clientUID == clientIP == ""
      ensures maxConnectionAge == maxAge && authorityDeadline == None
    {
      fenced, listening, connections := false, false, {};
      downstreamIP, clientUID, clientIP := "", "", "";
      maxConnectionAge, authorityDeadline, deadlineVersion := maxAge, None, 0;
    }

    method PinIdentity(uid: string, ip: string) returns (ok: bool)
      modifies this
      ensures Pin(old(View()), uid, ip) == if ok then Some(View()) else None
      ensures ok <==> old(clientUID) == "" || (uid == old(clientUID) && ip == old(clientIP))
      ensures View() == if ok then old(View()).(clientUID := uid, clientIP := ip) else old(View())
    {
      if clientUID == "" {
        clientUID, clientIP := uid, ip;
      } else if clientUID != uid || clientIP != ip {
        return false;
      }
      ok := true;
    }

    /** `bound` is whether the address could be listened on; start-up fails if not, with the
        connection age already capped. */
    method StartListening(deadline: int, now: int, bound: bool) returns (ok: bool)
      modifies this
      ensures ok <==> now < deadline && bound
      ensures View() == match Listen(old(View()), deadline, now)
        case None => old(View())
        case Some(f) => if bound then f else old(View()).(maxConnectionAge := f.maxConnectionAge)
      ensures now < deadline ==>
        && View() == old(View()).(listening := bound || old(listening), maxConnectionAge := maxConnectionAge)
        && maxConnectionAge <= deadline - now
        && maxConnectionAge == (if 0 < old(maxConnectionAge) < deadline - now then old(maxConnectionAge)
                                else deadline - now)
    {
      var leaseLimit := deadline - now;
      if leaseLimit <= 0 {
        return false;
      }
      if maxConnectionAge <= 0 || maxConnectionAge > leaseLimit {
        maxConnectionAge := leaseLimit;
      }
      if !bound {
        return false;
      }
      listening := true;
      ok := true;
    }

    method SetAuthorityDeadline(deadline: int) returns (version: nat)
      modifies this
      ensures View() == Publish(old(View()), deadline)
      ensures version == old(deadlineVersion) + 1
      ensures View() == old(View()).(authorityDeadline := Some(deadline), deadlineVersion := version)
    {
      authorityDeadline := Some(deadline);
      deadlineVersion := deadlineVersion + 1;
      version := deadlineVersion;
    }

    method CheckWatchdog(version: nat, now: int) returns (expired: bool)
      ensures expired == Lapsed(View(), version, now)
      ensures expired <==>
        !fenced && version == deadlineVersion && !(authorityDeadline.Some? && now < authorityDeadline.value)
    {
      expired := !fenced && deadlineVersion == version
                 && (authorityDeadline.None? || !(now < authorityDeadline.value));
    }

    method AdmitSource(host: string) returns (ok: bool)
      modifies this
      ensures (View(), ok) == Admit(old(View()), host)
      ensures ok <==> host != "" && !old(fenced) && host == old(clientIP) && old(downstreamIP) in {"", host}
      ensures View() == if ok then old(View()).(downstreamIP := host) else old(View())
    {
      if host == "" {
        return false;
      }
      if fenced {
        return false;
      }
      if clientIP == "" || host != clientIP {
        return false;
      }
      if downstreamIP == "" {
        downstreamIP := host;
        return true;
      }
      ok := downstreamIP == host;
    }

    method Register(connection: Conn) returns (ok: bool)
      modifies this
      ensures Enter(old(View()), connection) == if ok then Some(View()) else None
      ensures ok <==> !old(fenced)
      ensures View() == old(View()).(connections := old(connections) + if ok then {connection} else {})
    {
      if fenced {
        return false;
      }
      connections := connections + {connection};
      ok := true;
    }

    method Deregister(connection: Conn)
      modifies this
      ensures View() == Leave(old(View()), connection)
      ensures View() == old(View()).(connections := old(connections) - {connection})
    {
      connections := connections - {connection};
    }

    method TunnelDeadline(now: int) returns (deadline: int, valid: bool)
      ensures valid <==> ConnectionDeadline(View(), now).Some?
      ensures valid ==> deadline == ConnectionDeadline(View(), now).value
      ensures valid <==> authorityDeadline.Some? && now < authorityDeadline.value && 0 < maxConnectionAge
      ensures valid ==> deadline <= authorityDeadline.value && deadline <= now + maxConnectionAge
                        && deadline in {authorityDeadline.value, now + maxConnectionAge}
    {
      if authorityDeadline.None? {  // the zero time: before every clock reading
        return now, false;
      }
      deadline := now + maxConnectionAge;
      if authorityDeadline.value < deadline {
        deadline := authorityDeadline.value;
      }
      valid := now < deadline;
    }

    /** The critical section of `trip`: only the first caller gets the connections
        to close, each of them exactly once. */
    method Trip() returns (first: bool, toClose: seq<Conn>)
      modifies this
      ensures View() == Fence(old(View()))
      ensures View() == old(View()).(fenced := true)
      ensures first == !old(fenced)
      ensures multiset(toClose) == if first then multiset(old(connections)) else multiset{}
    {
      toClose := [];
      if fenced {
        return false, toClose;
      }
      fenced := true;
      var rest := connections;
      while rest != {}
        invariant rest <= connections
        invariant multiset(toClose) + multiset(rest) == multiset(connections)
        decreases rest
      {
        var connection :| connection in rest;
        toClose := toClose + [connection];
        rest := rest - {connection};
      }
      first := true;
    }

    method Healthy() returns (ok: bool)
      ensures ok <==> !fenced && listening
    {
      ok := !fenced && listening;
    }
  }
}
