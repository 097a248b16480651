/** When renewals keep ahead of the deadlines they replace. A renewal makes three
    requests in a row (Pod GET, Lease GET, Lease PATCH), each within the timeout; the
    clock is read between the second and the third. Ticks are on time; a tick that
    comes while a renewal runs waits, one at most. */
module RenewalTiming {
  import opened LeaseClient

  /** One renewal, with the instants at which its parts end. */
  datatype Renewal = Renewal(start: int, podDone: int, read: int, done: int)

  predicate InTime(c: Config, r: Renewal) {
    && r.start <= r.podDone <= r.start + c.timeout
    && r.podDone <= r.read <= r.podDone + c.timeout
    && r.read <= r.done <= r.read + c.timeout
  }

  /** The first acquisition, the creation of the ticker, and the renewals of the loop. */
  datatype Schedule = Schedule(first: Renewal, created: int, later: seq<Renewal>)

  /** The first tick after t of a ticker created at `created`. */
  function NextTick(created: int, poll: int, t: int): int
    requires poll > 0
  {
    t + poll - (t - created) % poll
  }

  /** When the loop takes up the tick after the one that began renewal r. */
  function NextStart(created: int, poll: int, r: Renewal): int
    requires poll > 0
  {
    var tick := NextTick(created, poll, r.start);
    if tick < r.done then r.done else tick
  }

  predicate Legal(c: Config, listenDelay: int, s: Schedule)
    requires c.poll > 0
  {
    && InTime(c, s.first)
    && s.first.done <= s.created <= s.first.done + listenDelay
    && (forall i :: 0 <= i < |s.later| ==> InTime(c, s.later[i]))
    && (|s.later| > 0 ==> s.later[0].start == s.created + c.poll)
    && (forall i :: 0 < i < |s.later| ==> s.later[i].start == NextStart(s.created, c.poll, s.later[i - 1]))
  }

  /** The authority deadline a renewal gives. */
  function DeadlineOf(c: Config, duration: int, r: Renewal): int {
    r.read + duration - c.margin
  }

  ghost predicate SteadyRenewalsKeepUp(c: Config, listenDelay: int, duration: int)
    requires c.poll > 0
  {
    forall s, i :: Legal(c, listenDelay, s) && 0 < i < |s.later| ==>
                     s.later[i].done < DeadlineOf(c, duration, s.later[i - 1])
  }

  ghost predicate FirstRenewalKeepsUp(c: Config, listenDelay: int, duration: int)
    requires c.poll > 0
  {
    forall s :: Legal(c, listenDelay, s) && |s.later| > 0 ==>
                  s.later[0].done < DeadlineOf(c, duration, s.first)
  }

  function Max(a: int, b: int): int {
    if a < b then b else a
  }

  lemma TickIsSoon(created: int, poll: int, t: int)
    requires poll > 0
    ensures t < NextTick(created, poll, t) <= t + poll
    ensures NextTick(created, poll, t) == created + ((t - created) / poll + 1) * poll
  {
  }

  lemma TickAfterTick(created: int, poll: int)
    requires poll > 0
    ensures NextTick(created, poll, created + poll) == created + 2 * poll
  {
    assert poll % poll == 0;
  }

  /** Requests that take no time except, in order, the given three. */
  function Slow(start: int, pod: int, get: int, patch: int): Renewal {
    Renewal(start, start + pod, start + pod + get, start + pod + get + patch)
  }

  /** The renewals of the loop beat the previous deadline in every schedule exactly
      when the duration covers the margin, three requests, and the longer of a polling
      interval and one more request. */
  lemma SteadyExactly(c: Config, listenDelay: int, duration: int)
    requires ValidConfig(c) && listenDelay >= 0
    ensures SteadyRenewalsKeepUp(c, listenDelay, duration) <==>
        duration > Max(c.poll, c.timeout) + 3 * c.timeout + c.margin
  {
    if duration > Max(c.poll, c.timeout) + 3 * c.timeout + c.margin {
      forall s, i | Legal(c, listenDelay, s) && 0 < i < |s.later|
        ensures s.later[i].done < DeadlineOf(c, duration, s.later[i - 1])
      {
        TickIsSoon(s.created, c.poll, s.later[i - 1].start);
        assert InTime(c, s.later[i - 1]) && InTime(c, s.later[i]);
      }
    } else {
      var first := Slow(0, 0, 0, 0);
      var one := Slow(c.poll, 0, 0, c.timeout);
      TickAfterTick(0, c.poll);
      var two := Slow(NextStart(0, c.poll, one), c.timeout, c.timeout, c.timeout);
      var s := Schedule(first, 0, [one, two]);
      assert Legal(c, listenDelay, s);
      assert s.later[1].done >= DeadlineOf(c, duration, s.later[0]);
    }
  }

  /** The first renewal beats the first deadline in every schedule exactly when the
      duration also covers one more request and the delay of starting to listen: its
      ticker starts only after the first patch and the listener. */
  lemma FirstExactly(c: Config, listenDelay: int, duration: int)
    requires ValidConfig(c) && listenDelay >= 0
    ensures FirstRenewalKeepsUp(c, listenDelay, duration) <==>
              duration > c.poll + 4 * c.timeout + listenDelay + c.margin
  {
    if duration > c.poll + 4 * c.timeout + listenDelay + c.margin {
    } else {
      var first := Slow(0, 0, 0, c.timeout);
      var one := Slow(c.timeout + listenDelay + c.poll, c.timeout, c.timeout, c.timeout);
      var s := Schedule(first, c.timeout + listenDelay, [one]);
      assert Legal(c, listenDelay, s);
      assert s.later[0].done >= DeadlineOf(c, duration, s.first);
    }
  }

  /** What `ValidDuration` is for: with a timeout of at most a polling interval it is
      exactly the condition under which the loop's renewals never trip by being late. */
  lemma ValidDurationMeansNoLateRenewal(c: Config, listenDelay: int, duration: int)
    requires ValidConfig(c) && listenDelay >= 0
    ensures c.timeout <= c.poll ==> (ValidDuration(c, duration) <==> SteadyRenewalsKeepUp(c, listenDelay, duration))
    ensures c.timeout > c.poll ==>
              !SteadyRenewalsKeepUp(c, listenDelay, c.poll + 3 * c.timeout + c.margin + 1)
              && ValidDuration(c, c.poll + 3 * c.timeout + c.margin + 1)
  {
    SteadyExactly(c, listenDelay, duration);
    SteadyExactly(c, listenDelay, c.poll + 3 * c.timeout + c.margin + 1);
  }
}
