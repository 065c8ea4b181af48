/**
 pkg/http/wellknown.go: the cached openid-configuration, its singleflight fetch, and the copies
 that keep the overrides applied to an answer out of the cache.
 */
module WellKnownCache {
  import opened Common
  import Runs

  /** oidcConfigCacheTTL, in nanoseconds. */
  const TTL: int := 300_000_000_000

  datatype Value = Text(text: string) | Flag(flag: bool) | Texts(texts: seq<string>)

  type Doc = map<string, Value>

  /** What the overrides depend on: the snapshot's two fields. */
  datatype Overrides = Overrides(disableRegistration: bool, scopes: seq<string>)

  function Overridden(doc: Doc, o: Overrides): Doc {
    var d := if o.disableRegistration
             then (doc - {"registration_endpoint"})["require_request_uri_registration" := Flag(false)]
             else doc;
    if o.scopes != [] then d["scopes_supported" := Texts(o.scopes)] else d
  }

  /** The overrides replace or remove what they are about, whatever the server said, and leave all else alone. */
  lemma OverriddenAt(doc: Doc, o: Overrides, key: string)
    ensures var d := Overridden(doc, o);
            if key == "scopes_supported" && o.scopes != [] then key in d && d[key] == Texts(o.scopes)
            else if key == "registration_endpoint" && o.disableRegistration then key !in d
            else if key == "require_request_uri_registration" && o.disableRegistration then key in d && d[key] == Flag(false)
            else (key in d <==> key in doc) && (key in d ==> d[key] == doc[key])
    ensures Overridden(Overridden(doc, o), o) == Overridden(doc, o)
  {
    var d := Overridden(doc, o);
    var e := Overridden(d, o);
    assert e.Keys == d.Keys;
  }

  function ProtectedResource(doc: Doc, serverURL: string): Doc {
    var d: Doc := map["authorization_servers" := Texts([serverURL])];
    var e := if "scopes_supported" in doc then d["scopes_supported" := doc["scopes_supported"]] else d;
    e["bearer_methods_supported" := Texts(["header"])]
  }

  /** The protected resource metadata names this server and the header, takes over the scopes, and says nothing else. */
  lemma ProtectedResourceAt(doc: Doc, serverURL: string, key: string)
    ensures var d := ProtectedResource(doc, serverURL);
            && (key in d <==> key == "authorization_servers" || key == "bearer_methods_supported"
                              || (key == "scopes_supported" && key in doc))
            && (key == "authorization_servers" ==> d[key] == Texts([serverURL]))
            && (key == "bearer_methods_supported" ==> d[key] == Texts(["header"]))
            && (key == "scopes_supported" && key in doc ==> d[key] == doc[key])
  {
  }

  // ---------------------------------------------------------------- the handler object

  /** A mutable map[string]interface{}. */
  class Metadata {
    var fields: Doc

    constructor (fields: Doc)
      ensures this.fields == fields
    {
      this.fields := fields;
    }
  }

  method CopyMap(src: Metadata) returns (dst: Metadata)
    ensures fresh(dst) && dst.fields == src.fields
  {
    dst := new Metadata(map[]);
    var rest := src.fields.Keys;
    while rest != {}
      invariant fresh(dst) && dst != src && src.fields == old(src.fields)
      invariant rest <= src.fields.Keys && dst.fields.Keys == src.fields.Keys - rest
      invariant forall k :: k in dst.fields ==> dst.fields[k] == src.fields[k]
      decreases rest
    {
      var k :| k in rest;
      rest := rest - {k};
      dst.fields := dst.fields[k := src.fields[k]];
    }
  }

  method ApplyConfigOverrides(m: Metadata, o: Overrides)
    modifies m
    ensures m.fields == Overridden(old(m.fields), o)
  {
    if o.disableRegistration {
      m.fields := m.fields - {"registration_endpoint"};
      m.fields := m.fields["require_request_uri_registration" := Flag(false)];
    }
    if o.scopes != [] {
      m.fields := m.fields["scopes_supported" := Texts(o.scopes)];
    }
  }

  datatype Endpoint = AuthorizationServer | Resource(serverURL: string)

  function Generated(endpoint: Endpoint, doc: Doc): Doc {
    match endpoint
    case AuthorizationServer => doc
    case Resource(serverURL) => ProtectedResource(doc, serverURL)
  }

  /** The outcome of the upstream request: nothing stands for 404 or an empty body. */
  type Upstream = Result<Option<Doc>, string>

  class WellKnown {
    var cache: Metadata?
    var cacheTime: int
    var cacheURL: string

    constructor ()
      ensures cache == null
    {
      cache, cacheTime, cacheURL := null, 0, "";
    }

    /** What the cache says; None when it is empty. */
    function Abs(): Option<(Doc, int, string)>
      reads this, cache
    {
      if cache == null then None else Some((cache.fields, cacheTime, cacheURL))
    }

    predicate Usable(authURL: string, now: int)
      reads this, cache
    {
      cache != null && cacheURL == authURL && now - cacheTime < TTL
    }

    /** One caller alone. The object it gets is never the cached one. */
    method FetchOpenIDConfiguration(authURL: string, now: int, fetched: int, upstream: Upstream)
      returns (r: Result<Metadata?, string>)
      modifies this
      ensures old(Usable(authURL, now)) ==>
                Abs() == old(Abs()) && r.Ok? && r.value != null && r.value.fields == old(Abs()).value.0
      ensures !old(Usable(authURL, now)) ==>
                match upstream
                case Err(e) => r == Err(e) && Abs() == old(Abs())
                case Ok(None) => r == Ok(null) && Abs() == old(Abs())
                case Ok(Some(doc)) => r.Ok? && r.value != null && r.value.fields == doc && Abs() == Some((doc, fetched, authURL))
      ensures r.Ok? && r.value != null ==> fresh(r.value) && r.value != cache
      ensures cache == old(cache) || fresh(cache)
    {
      if cache != null && cacheURL == authURL && now - cacheTime < TTL {
        var hit := CopyMap(cache);
        return Ok(hit);
      }
      if upstream.Err? { return Err(upstream.error); }
      if upstream.value.None? { return Ok(null); }
      var config := new Metadata(upstream.value.value);
      cache := CopyMap(config);
      cacheTime, cacheURL := fetched, authURL;
      var mine := CopyMap(config);
      return Ok(mine);
    }

    /**
     The fallback of ServeHTTP: what is sent has the overrides, and what is cached never does,
     even though the authorization server metadata is the very map that was fetched.
     */
    method ServeGenerated(endpoint: Endpoint, authURL: string, now: int, fetched: int, upstream: Upstream, o: Overrides)
      returns (r: Result<Metadata?, string>)
      modifies this
      ensures Abs() == if old(Usable(authURL, now)) || upstream.Err? || upstream.value.None? then old(Abs())
                       else Some((upstream.value.value, fetched, authURL))
      ensures r.Ok? && r.value != null <==> old(Usable(authURL, now)) || (upstream.Ok? && upstream.value.Some?)
      ensures !old(Usable(authURL, now)) ==> (upstream.Err? ==> r == Err(upstream.error)) && (upstream == Ok(None) ==> r == Ok(null))
      ensures r.Ok? && r.value != null ==>
                && Abs().Some? && Abs().value.2 == authURL
                && r.value.fields == Overridden(Generated(endpoint, Abs().value.0), o)
    {
      var config := FetchOpenIDConfiguration(authURL, now, fetched, upstream);
      if config.Err? || config.value == null { return config; }
      var m: Metadata := config.value;
      if endpoint.Resource? {
        m := new Metadata(ProtectedResource(m.fields, endpoint.serverURL));
      }
      ApplyConfigOverrides(m, o);
      return Ok(m);
    }
  }

  // ---------------------------------------------------------------- requests, fetches and URL changes interleaved

  /** `flight` is the flight that stored the map. */
  datatype Cached = Cached(ref: nat, at: int, url: string, flight: nat)

  /** A map a flight has fetched and, at this time, put into the cache. */
  datatype Kept = Kept(ref: nat, storedAt: int)

  /** A singleflight call: its function fetches, stores in the cache and returns. */
  datatype Flight =
    | Fetching(url: string)
    | Fetched(url: string, ref: nat)
    | Stored(url: string, kept: Kept)
    | Done(url: string, result: Option<Kept>, at: int)

  /** `url` and `start` are the authorization URL a request has read, and when. */
  datatype Pc =
    | Idle
    | Started(url: string, start: int)
    | Missed(url: string, start: int)
    | Waiting(url: string, start: int, flight: nat)
    | Owning(ref: nat)

  datatype Source = FromCache(flight: nat, storedAt: int, readAt: int) | FromFlight(flight: nat)

  /** What request t got for the URL it had read at `start`; no document stands for an error, a 404 or an empty body. */
  datatype Answer = Answer(t: nat, url: string, start: int, doc: Option<Doc>, source: Source)

  /** A document that came in: which flight asked for it, where and when. */
  datatype Fetch = Fetch(flight: nat, url: string, doc: Doc, at: int)

  /** `heap` holds every map made so far; `fetches` and `answers` record what came in and what went out. */
  datatype State = State(
    now: int,
    url: string,
    heap: seq<Doc>,
    cache: Option<Cached>,
    flights: seq<Flight>,
    threads: map<nat, Pc>,
    fetches: seq<Fetch>,
    answers: seq<Answer>)

  datatype Action =
    | Tick(to: int) | SetUrl(url: string)
    | Call(t: nat) | ReadCache(t: nat) | Join(t: nat, flight: nat) | Take(t: nat)
    | Mutate(t: nat, doc: Doc) | Leave(t: nat)
    | Fetches(f: nat, doc: Doc) | Fails(f: nat) | Stores(f: nat) | Finishes(f: nat)

  function Go(s: State, t: nat, pc: Pc): State {
    s.(threads := s.threads[t := pc])
  }

  /** A request gets its own copy of a map, and an answer is on record. */
  function Copies(s: State, t: nat, ref: nat, answer: Answer): State
    requires ref < |s.heap|
  {
    Go(s, t, Owning(|s.heap|)).(heap := s.heap + [s.heap[ref]], answers := s.answers + [answer])
  }

  predicate Fresh(s: State, url: string) {
    s.cache.Some? && s.cache.value.url == url && s.now - s.cache.value.at < TTL
  }

  ghost predicate NoFlight(s: State, url: string) {
    forall f :: 0 <= f < |s.flights| && s.flights[f].url == url ==> s.flights[f].Done?
  }

  ghost function RequestStep(s: State, a: Action, pc: Pc): Option<State> {
    match a
    case Call(t) =>
      if pc == Idle then Some(Go(s, t, Started(s.url, s.now))) else None
    case ReadCache(t) =>
      if !pc.Started? then None
      else if Fresh(s, pc.url) && s.cache.value.ref < |s.heap| then
        Some(Copies(s, t, s.cache.value.ref,
                    Answer(t, pc.url, pc.start, Some(s.heap[s.cache.value.ref]),
                           FromCache(s.cache.value.flight, s.cache.value.at, s.now))))
      else Some(Go(s, t, Missed(pc.url, pc.start)))
    case Join(t, f) =>
      if !pc.Missed? then None
      else if NoFlight(s, pc.url) then
        if f == |s.flights| then
          Some(Go(s, t, Waiting(pc.url, pc.start, f)).(flights := s.flights + [Fetching(pc.url)]))
        else None
      else if f < |s.flights| && s.flights[f].url == pc.url && !s.flights[f].Done? then
        Some(Go(s, t, Waiting(pc.url, pc.start, f)))
      else None
    case Take(t) =>
      if !pc.Waiting? || pc.flight >= |s.flights| || !s.flights[pc.flight].Done? then None
      else
        var result := s.flights[pc.flight].result;
        if result.None? then
          Some(Go(s, t, Idle).(answers := s.answers + [Answer(t, pc.url, pc.start, None, FromFlight(pc.flight))]))
        else if result.value.ref >= |s.heap| then None
        else
          Some(Copies(s, t, result.value.ref,
                      Answer(t, pc.url, pc.start, Some(s.heap[result.value.ref]), FromFlight(pc.flight))))
    case Mutate(t, doc) =>
      if pc.Owning? && pc.ref < |s.heap| then Some(s.(heap := s.heap[pc.ref := doc])) else None
    case Leave(t) =>
      if pc.Owning? then Some(Go(s, t, Idle)) else None
    case _ => None
  }

  ghost function FlightStep(s: State, a: Action, f: nat): Option<State>
    requires f < |s.flights|
  {
    var flight := s.flights[f];
    match a
    case Fetches(_, doc) =>
      if !flight.Fetching? then None
      else Some(s.(heap := s.heap + [doc], flights := s.flights[f := Fetched(flight.url, |s.heap|)],
                   fetches := s.fetches + [Fetch(f, flight.url, doc, s.now)]))
    case Fails(_) =>
      if flight.Fetching? then Some(s.(flights := s.flights[f := Done(flight.url, None, s.now)])) else None
    case Stores(_) =>
      if !flight.Fetched? || flight.ref >= |s.heap| then None
      else Some(s.(heap := s.heap + [s.heap[flight.ref]], cache := Some(Cached(|s.heap|, s.now, flight.url, f)),
                   flights := s.flights[f := Stored(flight.url, Kept(flight.ref, s.now))]))
    case Finishes(_) =>
      if flight.Stored? then Some(s.(flights := s.flights[f := Done(flight.url, Some(flight.kept), s.now)])) else None
    case _ => None
  }

  predicate OfRequest(a: Action) {
    a.Call? || a.ReadCache? || a.Join? || a.Take? || a.Mutate? || a.Leave?
  }

  ghost function Step(s: State, a: Action): Option<State> {
    if a.Tick? then (if s.now < a.to then Some(s.(now := a.to)) else None)
    else if a.SetUrl? then Some(s.(url := a.url))
    else if OfRequest(a) then (if a.t in s.threads then RequestStep(s, a, s.threads[a.t]) else None)
    else if a.f < |s.flights| then FlightStep(s, a, a.f)
    else None
  }

  ghost function Run(s: State, actions: seq<Action>): Option<State> {
    Runs.Run(Step, s, actions)
  }

  function Handler(now: int, url: string, ids: set<nat>): State {
    State(now, url, [], None, [], map t | t in ids :: Idle, [], [])
  }

  // ---------------------------------------------------------------- what every step keeps

  function RefOf(flight: Flight): Option<nat> {
    match flight
    case Fetching(_) => None
    case Fetched(_, ref) => Some(ref)
    case Stored(_, kept) => Some(kept.ref)
    case Done(_, result, _) => if result.Some? then Some(result.value.ref) else None
  }

  /** When a flight stored its document; None if it has not, or had none. */
  function StoredAt(flight: Flight): Option<int> {
    match flight
    case Stored(_, kept) => Some(kept.storedAt)
    case Done(_, Some(kept), _) => Some(kept.storedAt)
    case _ => None
  }

  /** The maps that no request may touch. */
  ghost predicate Shared(s: State, ref: nat) {
    || (s.cache.Some? && s.cache.value.ref == ref)
    || exists f :: 0 <= f < |s.flights| && RefOf(s.flights[f]) == Some(ref)
  }

  /** No request owns the cached map, a flight's map or another request's map. */
  ghost predicate Separate(s: State) {
    && (forall t :: t in s.threads && s.threads[t].Owning? ==> s.threads[t].ref < |s.heap| && !Shared(s, s.threads[t].ref))
    && (forall t, u :: t in s.threads && u in s.threads && t != u && s.threads[t].Owning? && s.threads[u].Owning? ==>
          s.threads[t].ref != s.threads[u].ref)
  }

  /** This flight's own fetch was for this URL, brought this document, and was no later than `latest`. */
  ghost predicate FetchedBy(s: State, flight: nat, url: string, doc: Doc, latest: int) {
    exists k :: 0 <= k < |s.fetches| && s.fetches[k].flight == flight && s.fetches[k].url == url && s.fetches[k].doc == doc
                && s.fetches[k].at <= latest
  }

  ghost predicate StoredBy(s: State, flight: nat, at: int) {
    flight < |s.flights| && StoredAt(s.flights[flight]) == Some(at)
  }

  /** A flight has at most one fetch, and none while it is still fetching. */
  ghost predicate FetchesTrue(s: State) {
    && (forall k :: 0 <= k < |s.fetches| ==> s.fetches[k].flight < |s.flights| && !s.flights[s.fetches[k].flight].Fetching?)
    && (forall k, l :: 0 <= k < l < |s.fetches| ==> s.fetches[k].flight != s.fetches[l].flight)
  }

  ghost predicate CacheTrue(s: State) {
    s.cache.Some? ==>
      && s.cache.value.ref < |s.heap| && StoredBy(s, s.cache.value.flight, s.cache.value.at)
      && FetchedBy(s, s.cache.value.flight, s.cache.value.url, s.heap[s.cache.value.ref], s.cache.value.at)
  }

  ghost predicate FlightTrue(s: State, f: nat)
    requires f < |s.flights|
  {
    var flight := s.flights[f];
    && (RefOf(flight).Some? ==>
          && RefOf(flight).value < |s.heap|
          && FetchedBy(s, f, flight.url, s.heap[RefOf(flight).value], if StoredAt(flight).Some? then StoredAt(flight).value else s.now))
    && (StoredAt(flight).Some? ==> StoredAt(flight).value <= if flight.Done? then flight.at else s.now)
    && (flight.Done? ==> flight.at <= s.now)
  }

  ghost predicate FlightsTrue(s: State) {
    && (forall f :: 0 <= f < |s.flights| ==> FlightTrue(s, f))
    && (forall f, g :: 0 <= f < g < |s.flights| && s.flights[f].url == s.flights[g].url ==>
          s.flights[f].Done? || s.flights[g].Done?)
  }

  /** A request waits for a flight for its own URL that was under way after the request began. */
  ghost predicate WaitTrue(s: State, pc: Pc) {
    match pc
    case Started(_, start) => start <= s.now
    case Missed(_, start) => start <= s.now
    case Waiting(url, start, f) =>
      && start <= s.now && f < |s.flights| && s.flights[f].url == url && (s.flights[f].Done? ==> s.flights[f].at >= start)
    case _ => true
  }

  ghost predicate AnswerTrue(s: State, a: Answer) {
    match a.source
    case FromCache(f, storedAt, readAt) =>
      && a.start <= readAt && readAt - storedAt < TTL && a.doc.Some?
      && StoredBy(s, f, storedAt) && FetchedBy(s, f, a.url, a.doc.value, storedAt)
    case FromFlight(f) =>
      && f < |s.flights| && s.flights[f].Done? && s.flights[f].at >= a.start && s.flights[f].url == a.url
      && (a.doc.Some? <==> s.flights[f].result.Some?)
      && (a.doc.Some? ==>
            && s.flights[f].result.value.storedAt <= s.flights[f].at
            && FetchedBy(s, f, a.url, a.doc.value, s.flights[f].result.value.storedAt))
  }

  ghost predicate Inv(s: State) {
    && Separate(s) && FetchesTrue(s) && CacheTrue(s) && FlightsTrue(s)
    && (forall t :: t in s.threads ==> WaitTrue(s, s.threads[t]))
    && (forall i :: 0 <= i < |s.answers| ==> AnswerTrue(s, s.answers[i]))
  }

  /** Time and records only grow, and no map that is shared changes. */
  ghost predicate Grows(s: State, next: State) {
    && s.now <= next.now
    && s.fetches <= next.fetches
    && |s.heap| <= |next.heap| && |s.flights| <= |next.flights|
    && (forall f :: 0 <= f < |s.flights| ==> FlightMoves(s.flights[f], next.flights[f], next.now))
    && (forall ref :: 0 <= ref < |s.heap| && Shared(s, ref) ==> next.heap[ref] == s.heap[ref])
  }

  predicate FlightMoves(was: Flight, now: Flight, time: int) {
    && now.url == was.url
    && (if was.Done? then now == was else now.Done? ==> now.at == time)
    && (StoredAt(was).Some? ==> StoredAt(now) == StoredAt(was))
  }

  lemma StepGrows(s: State, a: Action)
    requires Inv(s) && Step(s, a).Some?
    ensures Grows(s, Step(s, a).value)
  {
  }

  lemma FetchedByStays(s: State, next: State, flight: nat, url: string, doc: Doc, latest: int, later: int)
    requires s.fetches <= next.fetches && latest <= later && FetchedBy(s, flight, url, doc, latest)
    ensures FetchedBy(next, flight, url, doc, later)
  {
    var k :| 0 <= k < |s.fetches| && s.fetches[k].flight == flight && s.fetches[k].url == url && s.fetches[k].doc == doc
             && s.fetches[k].at <= latest;
    assert next.fetches[k] == s.fetches[k];
  }

  lemma AnswersStay(s: State, next: State, a: Answer)
    requires Grows(s, next) && AnswerTrue(s, a)
    ensures AnswerTrue(next, a)
  {
    if a.source.FromCache? {
      FetchedByStays(s, next, a.source.flight, a.url, a.doc.value, a.source.storedAt, a.source.storedAt);
    } else {
      assert FlightMoves(s.flights[a.source.flight], next.flights[a.source.flight], next.now);
      if a.doc.Some? {
        var storedAt := s.flights[a.source.flight].result.value.storedAt;
        FetchedByStays(s, next, a.source.flight, a.url, a.doc.value, storedAt, storedAt);
      }
    }
  }

  lemma WaitsStay(s: State, next: State, pc: Pc)
    requires Grows(s, next) && WaitTrue(s, pc)
    ensures WaitTrue(next, pc)
  {
    if pc.Waiting? {
      assert FlightMoves(s.flights[pc.flight], next.flights[pc.flight], next.now);
    }
  }

  lemma FlightStays(s: State, next: State, f: nat)
    requires Grows(s, next) && f < |s.flights| && FlightTrue(s, f) && next.flights[f] == s.flights[f]
    ensures FlightTrue(next, f)
  {
    var flight := s.flights[f];
    if RefOf(flight).Some? {
      assert Shared(s, RefOf(flight).value);
      var stored := StoredAt(flight);
      var latest, later := if stored.Some? then stored.value else s.now, if stored.Some? then stored.value else next.now;
      FetchedByStays(s, next, f, flight.url, s.heap[RefOf(flight).value], latest, later);
    }
  }

  lemma ThreadsLeaveEachOther(s: State, a: Action)
    requires Step(s, a).Some?
    ensures var next := Step(s, a).value;
            if OfRequest(a) then a.t in next.threads && next.threads == s.threads[a.t := next.threads[a.t]]
            else next.threads == s.threads
    ensures s.answers <= Step(s, a).value.answers
  {
  }

  lemma SharedWasSharedOrNew(s: State, a: Action, ref: nat)
    requires Inv(s) && Step(s, a).Some? && Shared(Step(s, a).value, ref)
    ensures Shared(s, ref) || (ref == |s.heap| && !OfRequest(a))
  {
  }

  lemma OwnedRefs(s: State, a: Action)
    requires Inv(s) && OfRequest(a) && Step(s, a).Some?
    ensures var next := Step(s, a).value;
            |s.heap| <= |next.heap| && a.t in next.threads
            && (next.threads[a.t].Owning? ==>
                  (next.threads[a.t] == s.threads[a.t] || next.threads[a.t].ref == |s.heap| < |next.heap|))
  {
  }

  lemma StepKeepsSeparate(s: State, a: Action)
    requires Inv(s) && Step(s, a).Some?
    ensures Separate(Step(s, a).value)
  {
    var next := Step(s, a).value;
    StepGrows(s, a);
    ThreadsLeaveEachOther(s, a);
    if OfRequest(a) {
      OwnedRefs(s, a);
    }
    forall f | 0 <= f < |s.flights| && RefOf(s.flights[f]).Some? ensures RefOf(s.flights[f]).value < |s.heap| {
      assert FlightTrue(s, f);
    }
    forall t | t in next.threads && next.threads[t].Owning?
      ensures next.threads[t].ref < |next.heap| && !Shared(next, next.threads[t].ref)
    {
      if Shared(next, next.threads[t].ref) {
        SharedWasSharedOrNew(s, a, next.threads[t].ref);
      }
    }
  }

  lemma StepKeepsCache(s: State, a: Action)
    requires Inv(s) && Step(s, a).Some?
    ensures CacheTrue(Step(s, a).value)
  {
    var next := Step(s, a).value;
    StepGrows(s, a);
    if a.Stores? {
      assert FlightTrue(s, a.f);
      var flight := s.flights[a.f];
      FetchedByStays(s, next, a.f, flight.url, s.heap[flight.ref], s.now, s.now);
    } else if s.cache.Some? {
      assert Shared(s, s.cache.value.ref);
      var c := s.cache.value;
      FetchedByStays(s, next, c.flight, c.url, s.heap[c.ref], c.at, c.at);
    }
  }

  lemma StepKeepsFetches(s: State, a: Action)
    requires Inv(s) && Step(s, a).Some?
    ensures FetchesTrue(Step(s, a).value)
  {
    var next := Step(s, a).value;
    assert next.fetches == s.fetches || (a.Fetches? && |next.fetches| == |s.fetches| + 1 && next.fetches[|s.fetches|].flight == a.f);
    forall k | 0 <= k < |s.fetches| ensures s.fetches[k].flight < |next.flights| && !next.flights[s.fetches[k].flight].Fetching? {
      var f := s.fetches[k].flight;
      assert !s.flights[f].Fetching?;
    }
  }

  lemma StepKeepsFlights(s: State, a: Action)
    requires Inv(s) && Step(s, a).Some?
    ensures FlightsTrue(Step(s, a).value)
  {
    var next := Step(s, a).value;
    StepGrows(s, a);
    forall f | 0 <= f < |next.flights| ensures FlightTrue(next, f) {
      if f == |s.flights| {
      } else if next.flights[f] == s.flights[f] {
        FlightStays(s, next, f);
      } else {
        MovedFlightIsTrue(s, a);
      }
    }
  }

  lemma MovedFlightIsTrue(s: State, a: Action)
    requires Inv(s) && Step(s, a).Some? && (a.Fetches? || a.Fails? || a.Stores? || a.Finishes?) && a.f < |s.flights|
    ensures FlightTrue(Step(s, a).value, a.f)
  {
    var next, flight := Step(s, a).value, s.flights[a.f];
    assert FlightTrue(s, a.f);
    if a.Fetches? {
      assert next.fetches[|s.fetches|] == Fetch(a.f, flight.url, a.doc, s.now);
    } else if RefOf(flight).Some? {
      var latest := if StoredAt(flight).Some? then StoredAt(flight).value else s.now;
      FetchedByStays(s, next, a.f, flight.url, s.heap[RefOf(flight).value], latest, latest);
    }
  }

  lemma OwnWaitIsTrue(s: State, a: Action)
    requires Inv(s) && OfRequest(a) && Step(s, a).Some?
    ensures WaitTrue(Step(s, a).value, Step(s, a).value.threads[a.t])
  {
    assert WaitTrue(s, s.threads[a.t]);
  }

  lemma NewAnswerIsTrue(s: State, a: Action)
    requires Inv(s) && Step(s, a).Some? && |Step(s, a).value.answers| > |s.answers|
    ensures |Step(s, a).value.answers| == |s.answers| + 1 && AnswerTrue(Step(s, a).value, Step(s, a).value.answers[|s.answers|])
  {
    var next := Step(s, a).value;
    assert WaitTrue(s, s.threads[a.t]);
    if a.ReadCache? {
      var c := s.cache.value;
      FetchedByStays(s, next, c.flight, c.url, s.heap[c.ref], c.at, c.at);
    } else {
      var f := s.threads[a.t].flight;
      assert FlightTrue(s, f);
      if s.flights[f].result.Some? {
        var kept := s.flights[f].result.value;
        FetchedByStays(s, next, f, s.flights[f].url, s.heap[kept.ref], kept.storedAt, kept.storedAt);
      }
    }
  }

  lemma StepKeepsWaits(s: State, a: Action)
    requires Inv(s) && Step(s, a).Some?
    ensures var next := Step(s, a).value; forall t :: t in next.threads ==> WaitTrue(next, next.threads[t])
  {
    var next := Step(s, a).value;
    StepGrows(s, a);
    ThreadsLeaveEachOther(s, a);
    if OfRequest(a) {
      OwnWaitIsTrue(s, a);
    }
    forall t | t in s.threads ensures WaitTrue(next, s.threads[t]) {
      WaitsStay(s, next, s.threads[t]);
    }
  }

  lemma StepKeepsAnswers(s: State, a: Action)
    requires Inv(s) && Step(s, a).Some?
    ensures var next := Step(s, a).value; forall i :: 0 <= i < |next.answers| ==> AnswerTrue(next, next.answers[i])
  {
    var next := Step(s, a).value;
    StepGrows(s, a);
    ThreadsLeaveEachOther(s, a);
    if |next.answers| > |s.answers| {
      NewAnswerIsTrue(s, a);
    }
    forall i | 0 <= i < |s.answers| ensures AnswerTrue(next, s.answers[i]) {
      AnswersStay(s, next, s.answers[i]);
    }
  }

  lemma {:induction false} StepKeepsInv(s: State, a: Action)
    requires Inv(s) && Step(s, a).Some?
    ensures Inv(Step(s, a).value)
  {
    StepKeepsSeparate(s, a);
    StepKeepsFetches(s, a);
    StepKeepsCache(s, a);
    StepKeepsFlights(s, a);
    StepKeepsWaits(s, a);
    StepKeepsAnswers(s, a);
  }

  lemma {:induction false} RunKeepsInv(s: State, actions: seq<Action>)
    requires Inv(s) && Run(s, actions).Some?
    ensures Inv(Run(s, actions).value)
  {
    if actions != [] {
      RunKeepsInv(s, actions[..|actions| - 1]);
      StepKeepsInv(Run(s, actions[..|actions| - 1]).value, actions[|actions| - 1]);
    }
  }

  /**
   However requests, fetches and changes of the authorization URL interleave, and whatever requests
   do to the maps they were given: every document answered is, unaltered, what one flight fetched for the URL
   that its request read, and a flight fetches and stores once. From the cache that is the flight that
   stored it less than TTL before it was read, and had fetched it by then; otherwise it is a flight that
   fetched it before it stored it, stored it before it ended, and ended after the request began. No
   document comes from such a flight without one.
   */
  lemma AnswersAreTrue(now: int, url: string, ids: set<nat>, actions: seq<Action>, i: nat)
    requires Run(Handler(now, url, ids), actions).Some?
    requires i < |Run(Handler(now, url, ids), actions).value.answers|
    ensures var s := Run(Handler(now, url, ids), actions).value;
            var a := s.answers[i];
            && (forall k, l :: 0 <= k < l < |s.fetches| ==> s.fetches[k].flight != s.fetches[l].flight)
            && match a.source
               case FromCache(f, storedAt, readAt) =>
                 && a.start <= readAt && readAt - storedAt < 5 * 60 * 1_000_000_000 && a.doc.Some?
                 && StoredBy(s, f, storedAt) && FetchedBy(s, f, a.url, a.doc.value, storedAt)
               case FromFlight(f) =>
                 && f < |s.flights| && s.flights[f].Done? && s.flights[f].at >= a.start && s.flights[f].url == a.url
                 && (a.doc.Some? <==> s.flights[f].result.Some?)
                 && (a.doc.Some? ==>
                       && s.flights[f].result.value.storedAt <= s.flights[f].at
                       && FetchedBy(s, f, a.url, a.doc.value, s.flights[f].result.value.storedAt))
  {
    RunKeepsInv(Handler(now, url, ids), actions);
    assert AnswerTrue(Run(Handler(now, url, ids), actions).value, Run(Handler(now, url, ids), actions).value.answers[i]);
  }

  /** The cache holds what the flight that stored it fetched, however its readers' copies were changed; and no URL is fetched twice at once. */
  lemma CacheIsUntouched(now: int, url: string, ids: set<nat>, actions: seq<Action>)
    requires Run(Handler(now, url, ids), actions).Some?
    ensures var s := Run(Handler(now, url, ids), actions).value;
            && (s.cache.Some? ==>
                  var c := s.cache.value;
                  && c.ref < |s.heap| && StoredBy(s, c.flight, c.at) && FetchedBy(s, c.flight, c.url, s.heap[c.ref], c.at)
                  && (forall t :: t in s.threads && s.threads[t].Owning? ==> s.threads[t].ref != c.ref))
            && (forall f, g :: 0 <= f < g < |s.flights| && s.flights[f].url == s.flights[g].url ==>
                  s.flights[f].Done? || s.flights[g].Done?)
  {
    RunKeepsInv(Handler(now, url, ids), actions);
    var s := Run(Handler(now, url, ids), actions).value;
    if s.cache.Some? {
      assert Shared(s, s.cache.value.ref);
    }
  }

  // ---------------------------------------------------------------- every request is answered, about the URL of its time

  datatype Asked = Asked(url: string, start: int)

  /** The authorization URL and the time after these actions. */
  function UrlAfter(url: string, actions: seq<Action>): string {
    if actions == [] then url
    else
      var a := actions[|actions| - 1];
      if a.SetUrl? then a.url else UrlAfter(url, actions[..|actions| - 1])
  }

  function TimeAfter(now: int, actions: seq<Action>): int {
    if actions == [] then now
    else
      var a := actions[|actions| - 1];
      if a.Tick? then a.to else TimeAfter(now, actions[..|actions| - 1])
  }

  /** What each call of a request handler is about: the authorization URL at that moment. */
  function Requests(now: int, url: string, actions: seq<Action>, t: nat): seq<Asked> {
    if actions == [] then []
    else
      var front, a := actions[..|actions| - 1], actions[|actions| - 1];
      Requests(now, url, front, t) + if a == Call(t) then [Asked(UrlAfter(url, front), TimeAfter(now, front))] else []
  }

  function Underway(pc: Pc): seq<Asked> {
    match pc
    case Started(url, start) => [Asked(url, start)]
    case Missed(url, start) => [Asked(url, start)]
    case Waiting(url, start, _) => [Asked(url, start)]
    case _ => []
  }

  function Answered(answers: seq<Answer>, t: nat): seq<Asked> {
    if answers == [] then []
    else
      var last := answers[|answers| - 1];
      Answered(answers[..|answers| - 1], t) + if last.t == t then [Asked(last.url, last.start)] else []
  }

  lemma AnsweredNext(answers: seq<Answer>, last: Answer, t: nat)
    ensures Answered(answers + [last], t) == Answered(answers, t) + if last.t == t then [Asked(last.url, last.start)] else []
  {
    assert (answers + [last])[..|answers|] == answers;
  }

  /** A request's step answers it, or takes it up, or goes on with it. */
  ghost predicate Serves(s: State, next: State, t: nat, request: seq<Asked>) {
    && t in s.threads && t in next.threads && next.threads == s.threads[t := next.threads[t]]
    && (|| (next.answers == s.answers && Underway(next.threads[t]) == Underway(s.threads[t]) + request)
        || (exists answer :: next.answers == s.answers + [answer] && answer.t == t
              && [Asked(answer.url, answer.start)] == Underway(s.threads[t]) && Underway(next.threads[t]) == [] && request == []))
  }

  lemma RequestStepServes(s: State, a: Action)
    requires OfRequest(a) && Step(s, a).Some?
    ensures Serves(s, Step(s, a).value, a.t, if a.Call? then [Asked(s.url, s.now)] else [])
  {
    var next := Step(s, a).value;
    if next.answers != s.answers {
      var last := next.answers[|s.answers|];
      assert next.answers == s.answers + [last];
    }
  }

  lemma ServesOwn(s: State, next: State, t: nat, request: seq<Asked>)
    requires Serves(s, next, t, request)
    ensures Answered(next.answers, t) + Underway(next.threads[t]) == Answered(s.answers, t) + Underway(s.threads[t]) + request
  {
    var answered, underway := Answered(s.answers, t), Underway(s.threads[t]);
    if next.answers == s.answers {
      assert answered + (underway + request) == answered + underway + request;
    } else {
      var answer :| next.answers == s.answers + [answer] && answer.t == t && [Asked(answer.url, answer.start)] == underway;
      AnsweredNext(s.answers, answer, t);
    }
  }

  lemma ServesOther(s: State, next: State, t: nat, request: seq<Asked>, u: nat)
    requires Serves(s, next, t, request) && u != t && u in s.threads
    ensures u in next.threads && next.threads[u] == s.threads[u] && Answered(next.answers, u) == Answered(s.answers, u)
  {
    if next.answers != s.answers {
      var answer :| next.answers == s.answers + [answer] && answer.t == t;
      AnsweredNext(s.answers, answer, u);
    }
  }

  lemma OtherSteps(s: State, a: Action)
    requires Step(s, a).Some?
    ensures var next := Step(s, a).value;
            && next.now == (if a.Tick? then a.to else s.now) && next.url == (if a.SetUrl? then a.url else s.url)
            && (!OfRequest(a) ==> next.threads == s.threads && next.answers == s.answers)
  {
  }

  /**
   In every run each call of a request is answered once, in order, and about the authorization URL
   at the moment of the call, whatever it is changed to before the answer.
   */
  lemma {:induction false} EveryRequestIsAnswered(now: int, url: string, ids: set<nat>, actions: seq<Action>, t: nat)
    requires t in ids && Run(Handler(now, url, ids), actions).Some?
    ensures var s := Run(Handler(now, url, ids), actions).value;
            && s.url == UrlAfter(url, actions) && s.now == TimeAfter(now, actions) && t in s.threads
            && Requests(now, url, actions, t) == Answered(s.answers, t) + Underway(s.threads[t])
  {
    if actions != [] {
      var front, a := actions[..|actions| - 1], actions[|actions| - 1];
      EveryRequestIsAnswered(now, url, ids, front, t);
      var s := Run(Handler(now, url, ids), front).value;
      OtherSteps(s, a);
      if OfRequest(a) {
        RequestStepServes(s, a);
        var request := if a.Call? then [Asked(s.url, s.now)] else [];
        if a.t == t {
          ServesOwn(s, Step(s, a).value, t, request);
        } else {
          ServesOther(s, Step(s, a).value, a.t, request, t);
        }
      }
    }
  }

  // ---------------------------------------------------------------- one request alone

  /** What the cache has for this URL and moment. */
  predicate Hits(s: State) {
    s.cache.Some? && s.cache.value.url == s.url && s.now - s.cache.value.at < 5 * 60 * 1_000_000_000
  }

  /**
   A request with nobody in between, step by step, does what the method does: it answers from a
   usable cache, and otherwise fetches, stores what it got, if that is a document, and answers with it.
   */
  lemma RequestAlone(s: State, t: nat, upstream: Option<Doc>) returns (acts: seq<Action>, next: State)
    requires t in s.threads && s.threads[t] == Idle && NoFlight(s, s.url)
    requires s.cache.Some? ==> s.cache.value.ref < |s.heap|
    ensures Run(s, acts) == Some(next) && next.threads == s.threads && next.url == s.url && next.now == s.now
    ensures Hits(s) ==>
              && next.cache == s.cache && next.flights == s.flights && next.fetches == s.fetches
              && next.answers == s.answers + [Answer(t, s.url, s.now, Some(s.heap[s.cache.value.ref]),
                                                     FromCache(s.cache.value.flight, s.cache.value.at, s.now))]
    ensures !Hits(s) ==> next.answers == s.answers + [Answer(t, s.url, s.now, upstream, FromFlight(|s.flights|))]
    ensures !Hits(s) && upstream.None? ==> next.cache == s.cache && next.fetches == s.fetches
    ensures !Hits(s) && upstream.Some? ==>
              && next.cache.Some? && next.cache.value.at == s.now && next.cache.value.url == s.url
              && next.cache.value.ref < |next.heap| && next.heap[next.cache.value.ref] == upstream.value
              && next.fetches == s.fetches + [Fetch(|s.flights|, s.url, upstream.value, s.now)]
  {
    var started := Go(s, t, Started(s.url, s.now));
    acts := Then(s, [], s, Call(t), started);
    if Hits(s) {
      var c := s.cache.value;
      var owning := Copies(started, t, c.ref,
                           Answer(t, s.url, s.now, Some(s.heap[c.ref]), FromCache(c.flight, c.at, s.now)));
      acts := Then(s, acts, started, ReadCache(t), owning);
      next := Go(owning, t, Idle);
      acts := Then(s, acts, owning, Leave(t), next);
      assert next.threads == s.threads;
    } else {
      var missed := Go(s, t, Missed(s.url, s.now));
      assert started.threads[t := Missed(s.url, s.now)] == missed.threads;
      acts := Then(s, acts, started, ReadCache(t), missed);
      var rest;
      rest, next := MissAlone(missed, t, s.url, s.now, upstream);
      Runs.Append(Step, s, acts, rest);
      acts := acts + rest;
      assert next.threads == s.threads;
    }
  }

  lemma Then(s: State, acts: seq<Action>, now: State, a: Action, next: State) returns (longer: seq<Action>)
    requires Run(s, acts) == Some(now) && Step(now, a) == Some(next)
    ensures Run(s, longer) == Some(next)
  {
    Runs.Next(Step, s, acts, now, a);
    longer := acts + [a];
  }

  lemma MissAlone(s: State, t: nat, url: string, start: int, upstream: Option<Doc>) returns (acts: seq<Action>, next: State)
    requires t in s.threads && s.threads[t] == Missed(url, start) && NoFlight(s, url)
    ensures Run(s, acts) == Some(next) && next.threads == s.threads[t := Idle] && next.url == s.url && next.now == s.now
    ensures next.answers == s.answers + [Answer(t, url, start, upstream, FromFlight(|s.flights|))]
    ensures upstream.None? ==> next.cache == s.cache && next.fetches == s.fetches
    ensures upstream.Some? ==>
              && next.cache.Some? && next.cache.value.at == s.now && next.cache.value.url == url
              && next.cache.value.ref < |next.heap| && next.heap[next.cache.value.ref] == upstream.value
              && next.fetches == s.fetches + [Fetch(|s.flights|, url, upstream.value, s.now)]
  {
    var f := |s.flights|;
    var waiting := Go(s, t, Waiting(url, start, f)).(flights := s.flights + [Fetching(url)]);
    acts := Then(s, [], s, Join(t, f), waiting);
    if upstream.None? {
      var done := waiting.(flights := s.flights + [Done(url, None, s.now)]);
      assert waiting.flights[f := Done(url, None, s.now)] == done.flights;
      acts := Then(s, acts, waiting, Fails(f), done);
      next := Go(done, t, Idle).(answers := s.answers + [Answer(t, url, start, None, FromFlight(f))]);
      acts := Then(s, acts, done, Take(t), next);
      assert next.threads == s.threads[t := Idle];
    } else {
      var rest, done := FlightAlone(waiting, f, url, upstream.value);
      Runs.Append(Step, s, acts, rest);
      acts := acts + rest;
      var owning := Copies(done, t, |s.heap|, Answer(t, url, start, upstream, FromFlight(f)));
      acts := Then(s, acts, done, Take(t), owning);
      next := Go(owning, t, Idle);
      acts := Then(s, acts, owning, Leave(t), next);
      assert next.threads == s.threads[t := Idle];
    }
  }

  lemma FlightAlone(s: State, f: nat, url: string, doc: Doc) returns (acts: seq<Action>, next: State)
    requires f < |s.flights| && s.flights[f] == Fetching(url)
    ensures Run(s, acts) == Some(next)
    ensures next == s.(heap := s.heap + [doc] + [doc], cache := Some(Cached(|s.heap| + 1, s.now, url, f)),
                       flights := s.flights[f := Done(url, Some(Kept(|s.heap|, s.now)), s.now)],
                       fetches := s.fetches + [Fetch(f, url, doc, s.now)])
  {
    var ref := |s.heap|;
    var fetched := s.(heap := s.heap + [doc], flights := s.flights[f := Fetched(url, ref)],
                      fetches := s.fetches + [Fetch(f, url, doc, s.now)]);
    acts := Then(s, [], s, Fetches(f, doc), fetched);
    var stored := fetched.(heap := s.heap + [doc] + [doc], cache := Some(Cached(ref + 1, s.now, url, f)),
                           flights := s.flights[f := Stored(url, Kept(ref, s.now))]);
    assert fetched.flights[f := Stored(url, Kept(ref, s.now))] == stored.flights;
    acts := Then(s, acts, fetched, Stores(f), stored);
    next := stored.(flights := s.flights[f := Done(url, Some(Kept(ref, s.now)), s.now)]);
    assert stored.flights[f := Done(url, Some(Kept(ref, s.now)), s.now)] == next.flights;
    acts := Then(s, acts, stored, Finishes(f), next);
  }

  // ---------------------------------------------------------------- nobody waits for ever

  function FlightRank(flight: Flight): nat {
    match flight
    case Fetching(_) => 3
    case Fetched(_, _) => 2
    case Stored(_, _) => 1
    case Done(_, _, _) => 0
  }

  function Rank(s: State, pc: Pc): nat {
    match pc
    case Started(_, _) => 6
    case Missed(_, _) => 5
    case Waiting(_, _, f) => 1 + if f < |s.flights| then FlightRank(s.flights[f]) else 0
    case _ => 0
  }

  /** The step that a request needs next, its own or its flight's. */
  lemma GoesOn(s: State, t: nat) returns (a: Action)
    requires Inv(s) && t in s.threads && Underway(s.threads[t]) != []
    ensures Step(s, a).Some?
    ensures var next := Step(s, a).value;
            t in next.threads && Rank(next, next.threads[t]) < Rank(s, s.threads[t])
  {
    assert WaitTrue(s, s.threads[t]);
    match s.threads[t] {
      case Started(_, _) => a := ReadCache(t);
      case Missed(url, _) =>
        if NoFlight(s, url) {
          a := Join(t, |s.flights|);
        } else {
          var f :| 0 <= f < |s.flights| && s.flights[f].url == url && !s.flights[f].Done?;
          a := Join(t, f);
        }
      case Waiting(_, _, f) =>
        assert FlightTrue(s, f);
        match s.flights[f] {
          case Fetching(_) => a := Fails(f);
          case Fetched(_, _) => a := Stores(f);
          case Stored(_, _) => a := Finishes(f);
          case Done(_, _, _) => a := Take(t);
        }
      case _ =>
    }
  }

  /** From every state a request can be in there are steps that bring it to its answer. */
  lemma {:induction false} RequestFinishes(s: State, t: nat) returns (acts: seq<Action>, next: State)
    requires Inv(s) && t in s.threads
    ensures Run(s, acts) == Some(next) && t in next.threads && Underway(next.threads[t]) == []
    decreases Rank(s, s.threads[t])
  {
    if Underway(s.threads[t]) == [] {
      acts, next := [], s;
    } else {
      var a := GoesOn(s, t);
      StepKeepsInv(s, a);
      var after := Step(s, a).value;
      var first := Then(s, [], s, a, after);
      var rest;
      rest, next := RequestFinishes(after, t);
      Runs.Append(Step, s, first, rest);
      acts := first + rest;
    }
  }
}
