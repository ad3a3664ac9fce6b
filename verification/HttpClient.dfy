/**
 The HTTP client of a probe: the redirect loop, the choice of transport by host, and the retry
 of a round trip over the GOST backend.
 */
module HttpClient {
  import opened Wrappers
  import opened GostFallback

  datatype Url = Url(scheme: string, host: string, path: string)

  /** What a backend makes of a request: an error, a redirect, or a final response. */
  datatype Outcome = Failure(error: Error) | Redirect(location: Url) | Final

  datatype Backend = Standard | Gost

  datatype Route = WithServerName | Nameless

  /** One use of a backend: in which round trip, by which transport, for which URL, and how it went. */
  datatype Attempt = Attempt(trip: nat, route: Route, backend: Backend, url: Url, outcome: Outcome)

  const MAX_REDIRECTS := 10

  /** An attempt after which the GOST backend is used; `incompatible` classifies errors for that backend. */
  predicate Retried(a: Attempt, incompatible: Error -> bool) {
    a.backend.Standard? && a.outcome.Failure? && a.url.scheme == "https" && incompatible(a.outcome.error)
  }

  /** After an incompatible standard attempt the same request goes to GOST; otherwise the next round trip begins. */
  predicate Follows(a: Attempt, b: Attempt, incompatible: Error -> bool) {
    if Retried(a, incompatible) then b.backend.Gost? && b.trip == a.trip && b.url == a.url && b.route == a.route
    else b.backend.Standard? && b.trip == a.trip + 1
  }

  ghost predicate Disciplined(log: seq<Attempt>, incompatible: Error -> bool) {
    && (log != [] ==> log[0].backend.Standard? && log[0].trip == 0 && !Retried(log[|log| - 1], incompatible))
    && forall i :: 0 < i < |log| ==> Follows(log[i - 1], log[i], incompatible)
  }

  function TripsOf(log: seq<Attempt>): nat {
    if log == [] then 0 else log[|log| - 1].trip + 1
  }

  /** The attempts of one round trip. */
  ghost predicate OneTrip(a: seq<Attempt>, trip: nat, url: Url, incompatible: Error -> bool) {
    && 1 <= |a| <= 2 && a[0].backend.Standard? && a[0].trip == trip && a[0].url == url
    && (Retried(a[0], incompatible) <==> |a| == 2)
    && (|a| == 2 ==> a[1].backend.Gost? && a[1].trip == trip && a[1].url == url && a[1].route == a[0].route)
  }

  lemma DisciplinedAppend(log: seq<Attempt>, a: seq<Attempt>, url: Url, incompatible: Error -> bool)
    requires Disciplined(log, incompatible) && OneTrip(a, TripsOf(log), url, incompatible)
    ensures Disciplined(log + a, incompatible) && TripsOf(log + a) == TripsOf(log) + 1
  {
  }

  /** At most two attempts per round trip. */
  lemma {:induction false} AttemptsPerTrip(log: seq<Attempt>, n: nat, incompatible: Error -> bool)
    requires Disciplined(log, incompatible) && 0 < n <= |log|
    ensures n <= 2 * log[n - 1].trip + if log[n - 1].backend.Gost? then 2 else 1
  {
    if 1 < n {
      AttemptsPerTrip(log, n - 1, incompatible);
    }
  }

  /** GOST runs only right after the standard backend, and no backend runs twice in one round trip. */
  lemma {:induction false} BackendsPerTrip(log: seq<Attempt>, i: nat, j: nat, incompatible: Error -> bool)
    requires Disciplined(log, incompatible) && i < j < |log|
    ensures log[i].trip <= log[j].trip
    ensures log[i].trip == log[j].trip <==> j == i + 1 && log[i].backend.Standard? && log[j].backend.Gost?
  {
    assert Follows(log[j - 1], log[j], incompatible);
    if i + 1 < j {
      BackendsPerTrip(log, i, j - 1, incompatible);
      assert Follows(log[j - 2], log[j - 1], incompatible);
    }
  }

  class Client {
    /** Whether a transport without a TLS server name exists (it does not for HTTP/3). */
    const hasNameless: bool
    const follow: bool
    /** What the network makes of the n-th attempt. */
    const serve: (nat, Backend, Url) -> Outcome
    /** ShouldTryGOST where the GOST backend exists; nothing is incompatible where it does not. */
    const incompatible: Error -> bool
    var firstHost: string
    var log: seq<Attempt>
    var trips: nat
    var redirects: nat

    constructor (hasNameless: bool, follow: bool, serve: (nat, Backend, Url) -> Outcome, incompatible: Error -> bool)
      ensures Valid() && this.incompatible == incompatible
      ensures log == [] && trips == 0 && redirects == 0 && firstHost == ""
      ensures this.hasNameless == hasNameless && this.follow == follow && this.serve == serve
    {
      this.hasNameless, this.follow, this.serve := hasNameless, follow, serve;
      this.incompatible := incompatible;
      firstHost, log, trips, redirects := "", [], 0, 0;
    }

    ghost predicate Valid()
      reads this
    {
      && Disciplined(log, incompatible) && trips == TripsOf(log) && (log == [] ==> firstHost == "")
      && (log != [] && log[0].url.host != "" ==> firstHost == log[0].url.host && RoutedByHost(log, hasNameless))
    }

    /** autoTLSRoundTripper.RoundTrip: the standard backend, then possibly GOST. */
    method Fetch(url: Url, route: Route) returns (o: Outcome, ghost made: seq<Attempt>)
      modifies this`log
      ensures OneTrip(made, trips, url, incompatible) && made[0].route == route
      ensures log == old(log) + made && o == made[|made| - 1].outcome
      ensures forall i :: |old(log)| <= i < |log| ==> log[i].outcome == serve(i, log[i].backend, url)
    {
      o := serve(|log|, Standard, url);
      var first := Attempt(trips, route, Standard, url, o);
      log, made := log + [first], [first];
      if Retried(first, incompatible) {
        o := serve(|log|, Gost, url);
        var second := Attempt(trips, route, Gost, url, o);
        log, made := log + [second], made + [second];
      }
    }

    /** transport.RoundTrip: choose the transport by host, then fetch. */
    method RoundTrip(url: Url) returns (o: Outcome, ghost made: seq<Attempt>)
      requires Valid()
      modifies this`firstHost, this`log, this`trips
      ensures Valid() && trips == old(trips) + 1
      ensures OneTrip(made, old(trips), url, incompatible) && log == old(log) + made && o == made[|made| - 1].outcome
      ensures forall i :: |old(log)| <= i < |log| ==> log[i].outcome == serve(i, log[i].backend, log[i].url)
    {
      if firstHost == "" {
        firstHost := url.host;
      }
      var route := if firstHost != url.host && hasNameless then Nameless else WithServerName;
      o, made := Fetch(url, route);
      DisciplinedAppend(old(log), made, url, incompatible);
      trips := trips + 1;
    }

    /**
     The whole exchange, for every redirect graph (a cycle included): at most eleven round trips and
     twenty-two attempts. `errored` says that the last response is a redirect that was not followed.
     */
    method Do(url: Url) returns (o: Outcome, errored: bool)
      requires Valid() && log == [] && redirects == 0
      modifies this
      ensures Valid() && log != [] && log[0].url == url && o == log[|log| - 1].outcome
      ensures Served(log, serve) && Redirected(log)
      ensures 1 <= trips <= MAX_REDIRECTS + 1 && |log| <= 2 * trips
      ensures !follow ==> trips == 1
      ensures redirects == if errored then trips else trips - 1
      ensures errored <==> o.Redirect?
      ensures errored ==> !follow || trips == MAX_REDIRECTS + 1
    {
      var next := url;
      errored := false;
      while true
        invariant Valid() && redirects == trips <= MAX_REDIRECTS
        invariant Served(log, serve) && Redirected(log)
        invariant log != [] ==> log[0].url == url && log[|log| - 1].outcome == Redirect(next)
        invariant log == [] ==> next == url
        invariant 0 < trips ==> follow
        decreases MAX_REDIRECTS - trips
      {
        ghost var made;
        ghost var was := log;
        o, made := RoundTrip(next);
        RedirectedAppend(was, made, next, incompatible);
        AttemptsPerTrip(log, |log|, incompatible);
        if !o.Redirect? {
          return;
        }
        redirects := trips;
        if redirects > MAX_REDIRECTS || !follow {
          errored := true;
          return;
        }
        next := o.location;
      }
    }
  }

  /** Every attempt gets what the network makes of a request to its URL. */
  ghost predicate Served(log: seq<Attempt>, serve: (nat, Backend, Url) -> Outcome) {
    forall i :: 0 <= i < |log| ==> log[i].outcome == serve(i, log[i].backend, log[i].url)
  }

  lemma RedirectedAppend(log: seq<Attempt>, a: seq<Attempt>, url: Url, incompatible: Error -> bool)
    requires Redirected(log) && OneTrip(a, TripsOf(log), url, incompatible)
    requires log != [] ==> log[|log| - 1].outcome == Redirect(url)
    ensures Redirected(log + a)
  {
  }

  /** Every round trip after the first requests the location that the one before was redirected to. */
  ghost predicate Redirected(log: seq<Attempt>) {
    forall i :: 0 < i < |log| && log[i].trip != log[i - 1].trip ==> log[i - 1].outcome == Redirect(log[i].url)
  }

  /** The transport with the server name serves exactly the requests to the first host, if there is another one. */
  ghost predicate RoutedByHost(log: seq<Attempt>, hasNameless: bool) {
    forall i :: 0 <= i < |log| ==>
      (log[i].route.WithServerName? <==> !hasNameless || log[i].url.host == log[0].url.host)
  }
}
