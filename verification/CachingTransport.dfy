// http_cache.py CachingTransport: conditional GETs on behalf of a caller who asked for none.
// A request is two steps, before and after the upstream call, so requests interleave.
module CachingTransport {
  import opened Wrappers
  import opened HttpCache

  datatype Request = Request(get: bool, url: string, ifNoneMatch: Option<string>, ifModifiedSince: Option<string>)

  // What the origin serves, and what crosses the wire; `textual` is the content-type check.
  datatype Response = Response(status: nat, etag: Option<string>, lastModified: Option<string>,
                               textual: bool, body: Bytes)

  // A request under way: as sent upstream, whether the caller made it conditional, and the page found.
  datatype Flight = Flight(sent: Request, callerConditional: bool, cached: Option<Row>)

  datatype Answer = Answer(status: nat, body: Bytes)

  // Python truth of an optional string: an empty one counts as absent.
  function Given(x: Option<string>): Option<string> {
    if x == Some("") then None else x
  }

  function Or(x: Option<string>, y: Option<string>): Option<string> {
    if Given(x).Some? then x else y
  }

  function ValidDate(httpDate: string -> bool, x: Option<string>): Option<string> {
    if Given(x).Some? && httpDate(x.value) then x else None
  }

  function Departed(rows: Table, request: Request): Flight {
    if !request.get then Flight(request, false, None)
    else if Given(request.ifNoneMatch).Some? || Given(request.ifModifiedSince).Some? then Flight(request, true, None)
    else
      match Find(rows, request.url)
      case None => Flight(request, false, None)
      case Some(row) =>
        Flight(request.(ifNoneMatch := Or(row.etag, request.ifNoneMatch),
                        ifModifiedSince := Or(row.lastModified, request.ifModifiedSince)), false, Some(row))
  }

  predicate Replays(flight: Flight, reply: Response) {
    flight.cached.Some? && reply.status == 304
  }

  predicate Storable(httpDate: string -> bool, reply: Response) {
    && (Given(reply.etag).Some? || ValidDate(httpDate, reply.lastModified).Some?)
    && reply.textual
    && |reply.body| <= MAX_BODY_BYTES
  }

  // A full answer to a GET that may be stored.
  predicate IsStored(httpDate: string -> bool, flight: Flight, reply: Response) {
    !Replays(flight, reply) && flight.sent.get && reply.status == 200 && Storable(httpDate, reply)
  }

  // What is stored: the full answer to a GET of at most 4 MiB, with a tag or a sound date.
  lemma IsStoredIff(httpDate: string -> bool, flight: Flight, reply: Response)
    ensures IsStored(httpDate, flight, reply) <==>
      && flight.sent.get && reply.status == 200 && reply.textual && |reply.body| <= 4194304
      && (|| (reply.etag.Some? && reply.etag.value != "")
          || (reply.lastModified.Some? && reply.lastModified.value != "" && httpDate(reply.lastModified.value)))
  {}

  function TableAfter(rows: Table, maxBytes: int, httpDate: string -> bool, flight: Flight, reply: Response, now: real)
    : Table
  {
    var url := flight.sent.url;
    if Replays(flight, reply) then
      Touched(rows, url, Or(reply.etag, flight.cached.value.etag),
              Or(ValidDate(httpDate, reply.lastModified), flight.cached.value.lastModified), now)
    else if IsStored(httpDate, flight, reply) then
      Evict(Upsert(rows, Row(url, reply.etag, ValidDate(httpDate, reply.lastModified), reply.body, now)), maxBytes)
    else rows
  }

  function AnswerTo(rows: Table, flight: Flight, reply: Response): Answer {
    if Replays(flight, reply) then
      match Find(rows, flight.sent.url)
      case Some(row) => Answer(200, row.body)
      case None => Answer(200, flight.cached.value.body)
    else Answer(reply.status, reply.body)
  }

  class CachingTransport {
    const cache: ConditionalCache
    const httpDate: string -> bool

    constructor (cache: ConditionalCache, httpDate: string -> bool)
      ensures this.cache == cache && this.httpDate == httpDate
    {
      this.cache, this.httpDate := cache, httpDate;
    }

    // Up to the upstream call: look the page up and add its validators to the request.
    method Depart(request: Request) returns (flight: Flight)
      requires OneRowPerUrl(cache.rows)
      ensures flight == Departed(cache.rows, request)
    {
      var callerConditional := Given(request.ifNoneMatch).Some? || Given(request.ifModifiedSince).Some?;
      var sent := request;
      var cached := None;
      if request.get && !callerConditional {
        cached := cache.Get(request.url);
        if cached.Some? {
          if Given(cached.value.etag).Some? {
            sent := sent.(ifNoneMatch := cached.value.etag);
          }
          if Given(cached.value.lastModified).Some? {
            sent := sent.(ifModifiedSince := cached.value.lastModified);
          }
        }
      }
      flight := Flight(sent, request.get && callerConditional, cached);
    }

    // From the upstream reply on: replay a 304, store a 200, pass the rest through.
    method Arrive(flight: Flight, reply: Response, now: real) returns (answer: Answer)
      requires OneRowPerUrl(cache.rows)
      modifies cache
      ensures OneRowPerUrl(cache.rows)
      ensures cache.rows == TableAfter(old(cache.rows), cache.maxBytes, httpDate, flight, reply, now)
      ensures answer == AnswerTo(old(cache.rows), flight, reply)
      ensures cache.stored == old(cache.stored)
        + if IsStored(httpDate, flight, reply) then 1 else 0
      ensures cache.revalidated == old(cache.revalidated)
        + if Replays(flight, reply) && Find(old(cache.rows), flight.sent.url).Some? then 1 else 0
    {
      if flight.cached.Some? && reply.status == 304 {
        var held := flight.cached.value;
        TouchedRow(cache.rows, flight.sent.url, Or(reply.etag, held.etag),
                   Or(ValidDate(httpDate, reply.lastModified), held.lastModified), now);
        var page := cache.Touch(flight.sent.url, Or(reply.etag, held.etag),
                                Or(ValidDate(httpDate, reply.lastModified), held.lastModified), now);
        answer := Answer(200, if page.Some? then page.value.body else held.body);
        return;
      }
      if flight.sent.get && reply.status == 200 {
        Store(flight.sent.url, reply, now);
      }
      answer := Answer(reply.status, reply.body);
    }

    method Store(url: string, reply: Response, now: real)
      requires OneRowPerUrl(cache.rows)
      modifies cache
      ensures OneRowPerUrl(cache.rows)
      ensures cache.rows ==
        if Storable(httpDate, reply)
        then
          var row := Row(url, reply.etag, ValidDate(httpDate, reply.lastModified), reply.body, now);
          Evict(Upsert(old(cache.rows), row), cache.maxBytes)
        else old(cache.rows)
      ensures cache.stored == old(cache.stored) + if Storable(httpDate, reply) then 1 else 0
      ensures cache.revalidated == old(cache.revalidated)
    {
      var lastModified := ValidDate(httpDate, reply.lastModified);
      if Given(reply.etag).None? && lastModified.None? {
        return;
      }
      if !reply.textual || |reply.body| > MAX_BODY_BYTES {
        return;
      }
      cache.Put(Row(url, reply.etag, lastModified, reply.body, now));
    }
  }

  // A touched page keeps its body.
  lemma TouchedRow(rows: Table, url: string, etag: Option<string>, lastModified: Option<string>, now: real)
    requires OneRowPerUrl(rows)
    ensures Find(rows, url).None? ==> Touched(rows, url, etag, lastModified, now) == rows
    ensures Find(rows, url).Some? ==>
      Find(Touched(rows, url, etag, lastModified, now), url) ==
        Some(Row(url, etag, lastModified, Find(rows, url).value.body, now))
  {
    if Find(rows, url).Some? {
      UpsertRows(rows, Row(url, etag, lastModified, Find(rows, url).value.body, now));
    }
  }

  // ---- The origin: what it serves at each moment, and what it may answer ----

  type Origin = (string, nat) -> Response

  // Entity tags compare weakly (section 8.8.3.2 of RFC 9110).
  function Opaque(tag: string): string {
    if |tag| >= 2 && tag[..2] == "W/" then tag[2..] else tag
  }

  predicate SameTag(a: Option<string>, b: Option<string>) {
    Given(a).Some? && Given(b).Some? && Opaque(a.value) == Opaque(b.value)
  }

  // The validators name this representation: If-None-Match alone decides when it is there
  // (section 13.1.3 of RFC 9110).
  predicate Names(etag: Option<string>, lastModified: Option<string>, rep: Response) {
    && rep.status == 200
    && (if Given(etag).Some? then SameTag(etag, rep.etag)
        else Given(lastModified).Some? && rep.lastModified == lastModified)
  }

  // Every validator of the reply is the representation's own.
  predicate Repeats(reply: Response, rep: Response) {
    && (reply.etag == None || reply.etag == rep.etag)
    && (reply.lastModified == None || reply.lastModified == rep.lastModified)
  }

  // The representation itself, or a 304 that may repeat its validators (section 15.4.5 of RFC 9110).
  predicate Permitted(rep: Response, sent: Request, reply: Response) {
    || reply == rep
    || (reply.status == 304 && sent.get && Names(sent.ifNoneMatch, sent.ifModifiedSince, rep) &&
        Repeats(reply, rep))
  }

  // The validator that would name one of them names the other: entity tags decide where both
  // have one, and dates only where one of them has none.
  predicate SharedValidator(a: Response, b: Response) {
    if Given(a.etag).Some? && Given(b.etag).Some? then SameTag(a.etag, b.etag)
    else Given(a.lastModified).Some? && a.lastModified == b.lastModified
  }

  // One validator never stands for two bodies.
  predicate Consistent(a: Response, b: Response) {
    a.status == 200 && b.status == 200 && SharedValidator(a, b) ==> a.body == b.body
  }

  ghost predicate Honest(origin: Origin) {
    && (forall url: string, t: nat, u: nat :: Consistent(origin(url, t), origin(url, u)))
    && (forall url: string, t: nat :: origin(url, t).status != 304)
  }

  // ---- Runs ----

  datatype State = State(rows: Table, flights: map<nat, Flight>)

  datatype Step =
    | Begin(id: nat, request: Request)
    | Complete(id: nat, moment: nat, reply: Response, now: real)

  // The configuration a run fixes.
  datatype World = World(origin: Origin, httpDate: string -> bool, maxBytes: int)

  ghost predicate Enabled(w: World, s: State, step: Step) {
    match step
    case Begin(id, _) => id !in s.flights
    case Complete(id, moment, reply, _) =>
      id in s.flights && Permitted(w.origin(s.flights[id].sent.url, moment), s.flights[id].sent, reply)
  }

  ghost function Next(w: World, s: State, step: Step): State
    requires Enabled(w, s, step)
  {
    match step
    case Begin(id, request) => State(s.rows, s.flights[id := Departed(s.rows, request)])
    case Complete(id, _, reply, now) =>
      State(TableAfter(s.rows, w.maxBytes, w.httpDate, s.flights[id], reply, now), s.flights - {id})
  }

  // The caller gets the status and the body a direct fetch gets at the moment the origin
  // answered; a caller who sent its own validators, or no GET, gets the reply as it came.
  ghost predicate Right(w: World, s: State, step: Step)
    requires Enabled(w, s, step)
  {
    step.Complete? ==>
      var flight := s.flights[step.id];
      var rep := w.origin(flight.sent.url, step.moment);
      AnswerTo(s.rows, flight, step.reply) ==
        if flight.sent.get && !flight.callerConditional then Answer(rep.status, rep.body)
        else Answer(step.reply.status, step.reply.body)
  }

  // When a 304 arrives, the page it was asked about is still the stored one, or no page is.
  ghost predicate Undisturbed(s: State, step: Step)
    requires step.Complete? ==> step.id in s.flights
  {
    step.Complete? && Replays(s.flights[step.id], step.reply) ==>
      var flight := s.flights[step.id];
      var row := Find(s.rows, flight.sent.url);
      row.None? || row.value.body == flight.cached.value.body
  }

  ghost predicate Runs(w: World, s: State, steps: seq<Step>)
    decreases |steps|
  {
    steps == [] || (Enabled(w, s, steps[0]) && Runs(w, Next(w, s, steps[0]), steps[1..]))
  }

  ghost predicate AllRight(w: World, s: State, steps: seq<Step>)
    requires Runs(w, s, steps)
    decreases |steps|
  {
    steps == [] || (Right(w, s, steps[0]) && AllRight(w, Next(w, s, steps[0]), steps[1..]))
  }

  ghost predicate AllUndisturbed(w: World, s: State, steps: seq<Step>)
    requires Runs(w, s, steps)
    decreases |steps|
  {
    steps == [] || (Undisturbed(s, steps[0]) && AllUndisturbed(w, Next(w, s, steps[0]), steps[1..]))
  }

  // A row's validators name only representations with the row's body.
  ghost predicate Truthful(origin: Origin, row: Row) {
    forall t: nat :: Names(row.etag, row.lastModified, origin(row.url, t)) ==> origin(row.url, t).body == row.body
  }

  ghost predicate FlightInv(origin: Origin, flight: Flight) {
    if flight.cached.None? then
      flight.callerConditional || !flight.sent.get
      || (Given(flight.sent.ifNoneMatch).None? && Given(flight.sent.ifModifiedSince).None?)
    else
      && flight.sent.get && !flight.callerConditional
      && Truthful(origin, flight.cached.value) && flight.cached.value.url == flight.sent.url
      && Given(flight.sent.ifNoneMatch) == Given(flight.cached.value.etag)
      && Given(flight.sent.ifModifiedSince) == Given(flight.cached.value.lastModified)
  }

  ghost predicate Inv(w: World, s: State) {
    && OneRowPerUrl(s.rows)
    && (forall row :: row in s.rows ==> Truthful(w.origin, row))
    && (forall id :: id in s.flights ==> FlightInv(w.origin, s.flights[id]))
  }

  // A 304 vouches for the page whose validators were sent.
  lemma ReplyVouches(w: World, flight: Flight, moment: nat, reply: Response)
    requires Honest(w.origin) && FlightInv(w.origin, flight)
    requires Permitted(w.origin(flight.sent.url, moment), flight.sent, reply) && Replays(flight, reply)
    ensures var rep := w.origin(flight.sent.url, moment);
      && Names(flight.sent.ifNoneMatch, flight.sent.ifModifiedSince, rep)
      && rep.body == flight.cached.value.body
      && Repeats(reply, rep)
  {
    var rep := w.origin(flight.sent.url, moment);
    assert rep.status != 304;
    assert Names(flight.cached.value.etag, flight.cached.value.lastModified, rep);
  }

  // A full answer is the origin's own, unless the caller asked conditionally.
  lemma DepartedInv(w: World, s: State, request: Request)
    requires Inv(w, s)
    ensures FlightInv(w.origin, Departed(s.rows, request))
  {}

  lemma StepRightIff(w: World, s: State, step: Step)
    requires Honest(w.origin) && Inv(w, s) && Enabled(w, s, step)
    ensures Right(w, s, step) <==> Undisturbed(s, step)
  {
    if step.Complete? {
      var flight := s.flights[step.id];
      assert FlightInv(w.origin, flight);
      if Replays(flight, step.reply) {
        ReplyVouches(w, flight, step.moment, step.reply);
      }
    }
  }

  // The validators a 304 leaves on the row: the origin's, or failing that the ones sent.
  lemma TouchedTruthful(w: World, flight: Flight, moment: nat, reply: Response, now: real)
    requires Honest(w.origin) && FlightInv(w.origin, flight)
    requires Permitted(w.origin(flight.sent.url, moment), flight.sent, reply) && Replays(flight, reply)
    ensures Truthful(w.origin, Row(flight.sent.url, Or(reply.etag, flight.cached.value.etag),
                       Or(ValidDate(w.httpDate, reply.lastModified), flight.cached.value.lastModified),
                       flight.cached.value.body, now))
  {
    ReplyVouches(w, flight, moment, reply);
    var held := flight.cached.value;
    var rep := w.origin(flight.sent.url, moment);
    var etag := Or(reply.etag, held.etag);
    var lastModified := Or(ValidDate(w.httpDate, reply.lastModified), held.lastModified);
    forall t: nat | Names(etag, lastModified, w.origin(flight.sent.url, t))
      ensures w.origin(flight.sent.url, t).body == held.body
    {
      var other := w.origin(flight.sent.url, t);
      assert Consistent(other, rep);
      assert Names(held.etag, held.lastModified, other) ==> other.body == held.body;
    }
  }

  lemma StoredTruthful(w: World, url: string, moment: nat, now: real)
    requires Honest(w.origin) && w.origin(url, moment).status == 200
    ensures var rep := w.origin(url, moment);
      Truthful(w.origin, Row(url, rep.etag, ValidDate(w.httpDate, rep.lastModified), rep.body, now))
  {
    var rep := w.origin(url, moment);
    forall t: nat | Names(rep.etag, ValidDate(w.httpDate, rep.lastModified), w.origin(url, t))
      ensures w.origin(url, t).body == rep.body
    {
      assert Consistent(w.origin(url, t), rep);
    }
  }

  lemma TableKeepsInv(w: World, s: State, step: Step)
    requires Honest(w.origin) && Inv(w, s) && Enabled(w, s, step) && step.Complete? && Undisturbed(s, step)
    ensures var rows := Next(w, s, step).rows;
      OneRowPerUrl(rows) && forall row :: row in rows ==> Truthful(w.origin, row)
  {
    var flight := s.flights[step.id];
    var url := flight.sent.url;
    assert FlightInv(w.origin, flight);
    if Replays(flight, step.reply) {
      var found := Find(s.rows, url);
      if found.Some? {
        var held := flight.cached.value;
        var row := Row(url, Or(step.reply.etag, held.etag),
                       Or(ValidDate(w.httpDate, step.reply.lastModified), held.lastModified),
                       found.value.body, step.now);
        TouchedTruthful(w, flight, step.moment, step.reply, step.now);
        UpsertRows(s.rows, row);
        assert Next(w, s, step).rows == Upsert(s.rows, row);
      }
    } else if IsStored(w.httpDate, flight, step.reply) {
      var row := Row(url, step.reply.etag, ValidDate(w.httpDate, step.reply.lastModified), step.reply.body, step.now);
      StoredTruthful(w, url, step.moment, step.now);
      UpsertRows(s.rows, row);
      EvictProperties(Upsert(s.rows, row), w.maxBytes);
    }
  }

  lemma StepKeepsInv(w: World, s: State, step: Step)
    requires Honest(w.origin) && Inv(w, s) && Enabled(w, s, step) && Undisturbed(s, step)
    ensures Inv(w, Next(w, s, step))
  {
    if step.Complete? {
      TableKeepsInv(w, s, step);
    } else {
      DepartedInv(w, s, step.request);
    }
  }

  // Over every run, with requests interleaved at will: every caller is answered as by a
  // direct fetch if and only if no 304 arrives to find another body stored under its url.
  lemma {:induction false} RefinesDirectFetchIff(w: World, s: State, steps: seq<Step>)
    requires Honest(w.origin) && Inv(w, s) && Runs(w, s, steps)
    ensures AllRight(w, s, steps) <==> AllUndisturbed(w, s, steps)
    decreases |steps|
  {
    if steps != [] {
      StepRightIff(w, s, steps[0]);
      if Undisturbed(s, steps[0]) {
        StepKeepsInv(w, s, steps[0]);
        RefinesDirectFetchIff(w, Next(w, s, steps[0]), steps[1..]);
      }
    }
  }

  // ---- Requests for one url, one at a time ----

  ghost predicate Alone(s: State, step: Step) {
    step.Begin? && step.request.get ==>
      forall id :: id in s.flights && s.flights[id].sent.get ==> s.flights[id].sent.url != step.request.url
  }

  ghost predicate OneAtATime(w: World, s: State, steps: seq<Step>)
    requires Runs(w, s, steps)
    decreases |steps|
  {
    steps == [] || (Alone(s, steps[0]) && OneAtATime(w, Next(w, s, steps[0]), steps[1..]))
  }

  ghost predicate Undisturbing(rows: Table, flight: Flight) {
    flight.cached.Some? ==>
      && flight.sent.get
      && (Find(rows, flight.sent.url).None? || Find(rows, flight.sent.url).value.body == flight.cached.value.body)
  }

  ghost predicate Separate(s: State) {
    && OneRowPerUrl(s.rows)
    && (forall id :: id in s.flights ==> Undisturbing(s.rows, s.flights[id]))
    && (forall a, b :: a in s.flights && b in s.flights && a != b && s.flights[a].sent.get && s.flights[b].sent.get
          ==> s.flights[a].sent.url != s.flights[b].sent.url)
  }

  // A completion leaves every other url's row as it was, or evicts it.
  lemma OtherRows(w: World, s: State, step: Step, url: string)
    requires OneRowPerUrl(s.rows) && Enabled(w, s, step) && step.Complete? && s.flights[step.id].sent.url != url
    ensures OneRowPerUrl(Next(w, s, step).rows)
    ensures Find(Next(w, s, step).rows, url).None? || Find(Next(w, s, step).rows, url) == Find(s.rows, url)
  {
    var rows := Next(w, s, step).rows;
    CompletionRows(w, s, step);
    var found := Find(rows, url);
    if found.Some? {
      assert found.value in s.rows;
      FindRow(s.rows, found.value);
    }
  }

  lemma CompletionRows(w: World, s: State, step: Step)
    requires OneRowPerUrl(s.rows) && Enabled(w, s, step) && step.Complete?
    ensures OneRowPerUrl(Next(w, s, step).rows)
    ensures forall row :: row in Next(w, s, step).rows && row.url != s.flights[step.id].sent.url ==> row in s.rows
  {
    var flight := s.flights[step.id];
    var url := flight.sent.url;
    var reply := step.reply;
    if Replays(flight, reply) {
      if Find(s.rows, url).Some? {
        UpsertRows(s.rows, Row(url, Or(reply.etag, flight.cached.value.etag),
                               Or(ValidDate(w.httpDate, reply.lastModified), flight.cached.value.lastModified),
                               Find(s.rows, url).value.body, step.now));
      }
    } else if IsStored(w.httpDate, flight, reply) {
      var row := Row(url, reply.etag, ValidDate(w.httpDate, reply.lastModified), reply.body, step.now);
      UpsertRows(s.rows, row);
      EvictProperties(Upsert(s.rows, row), w.maxBytes);
    }
  }

  lemma StepKeepsSeparate(w: World, s: State, step: Step)
    requires Separate(s) && Enabled(w, s, step) && Alone(s, step)
    ensures Separate(Next(w, s, step)) && Undisturbed(s, step)
  {
    var n := Next(w, s, step);
    if step.Complete? {
      CompletionRows(w, s, step);
      assert Undisturbing(s.rows, s.flights[step.id]);
      forall id | id in n.flights ensures Undisturbing(n.rows, n.flights[id]) {
        var flight := s.flights[id];
        assert Undisturbing(s.rows, flight);
        if flight.cached.Some? {
          if s.flights[step.id].sent.get {
            OtherRows(w, s, step, flight.sent.url);
          } else {
            assert !Replays(s.flights[step.id], step.reply);
          }
        }
      }
    }
  }

  // With one GET per url under way at a time, every caller is answered as by a direct fetch.
  lemma {:induction false} RefinesDirectFetch(w: World, s: State, steps: seq<Step>)
    requires Honest(w.origin) && Inv(w, s) && Separate(s) && Runs(w, s, steps) && OneAtATime(w, s, steps)
    ensures AllRight(w, s, steps)
    decreases |steps|
  {
    if steps != [] {
      StepKeepsSeparate(w, s, steps[0]);
      StepRightIff(w, s, steps[0]);
      StepKeepsInv(w, s, steps[0]);
      RefinesDirectFetch(w, Next(w, s, steps[0]), steps[1..]);
    }
  }

  // ---- What the cache is for ----

  // A full answer to a plain GET that may be stored and fits the budget is in the table
  // afterwards, for as long as nothing younger needs the room.
  lemma StoredIsFound(w: World, s: State, step: Step)
    requires OneRowPerUrl(s.rows) && Enabled(w, s, step) && step.Complete?
    requires IsStored(w.httpDate, s.flights[step.id], step.reply) && |step.reply.body| <= w.maxBytes
    requires forall row :: row in s.rows ==> row.fetchedAt < step.now
    ensures Find(Next(w, s, step).rows, s.flights[step.id].sent.url) ==
      Some(Row(s.flights[step.id].sent.url, step.reply.etag, ValidDate(w.httpDate, step.reply.lastModified),
               step.reply.body, step.now))
  {
    var row := Row(s.flights[step.id].sent.url, step.reply.etag, ValidDate(w.httpDate, step.reply.lastModified),
                   step.reply.body, step.now);
    UpsertRows(s.rows, row);
    YoungestStays(Upsert(s.rows, row), w.maxBytes, row);
    EvictProperties(Upsert(s.rows, row), w.maxBytes);
    FindRow(Evict(Upsert(s.rows, row), w.maxBytes), row);
  }

  lemma {:induction false} YoungestStays(rows: Table, maxBytes: int, row: Row)
    requires OneRowPerUrl(rows) && row in rows && |row.body| <= maxBytes
    requires forall other :: other in rows && other != row ==> other.fetchedAt < row.fetchedAt
    ensures row in Evict(rows, maxBytes)
    decreases |rows|
  {
    if Total(rows) > maxBytes {
      var i := Oldest(rows);
      WithoutRows(rows, i);
      TotalWithout(rows, i);
      if rows[i] == row {
        OldestIsAlone(rows, i);
      }
      YoungestStays(Without(rows, i), maxBytes, row);
    }
  }

  // If the youngest row is the oldest, there is no other.
  lemma OldestIsAlone(rows: Table, i: nat)
    requires OneRowPerUrl(rows) && i < |rows| && forall j :: 0 <= j < |rows| ==> rows[i].fetchedAt <= rows[j].fetchedAt
    requires forall other :: other in rows && other != rows[i] ==> other.fetchedAt < rows[i].fetchedAt
    ensures Total(rows) == |rows[i].body|
  {
    var first, last := rows[0], rows[|rows| - 1];
    assert first in rows && last in rows;
    assert |rows| == 1;
    assert rows[1..] == [];
  }

  // A plain GET of a page in the table goes out with that page's validators, and a 304 to it is
  // answered 200 with the stored body, so the body does not cross the wire again.
  lemma FoundIsRevalidated(w: World, s: State, id: nat, url: string, page: Row, moment: nat, reply: Response, now: real)
    requires Find(s.rows, url) == Some(page) && id !in s.flights && reply.status == 304
    ensures var t := Next(w, s, Begin(id, Plain(url)));
      && id in t.flights && t.flights[id].sent.url == url && t.flights[id].sent.get
      && (Given(page.etag).Some? ==> t.flights[id].sent.ifNoneMatch == page.etag)
      && (Given(page.lastModified).Some? ==> t.flights[id].sent.ifModifiedSince == page.lastModified)
      && AnswerTo(t.rows, t.flights[id], reply) == Answer(200, page.body)
  {}

  // A caller's own condition goes out as it is, and its 304 comes back as it is.
  lemma CallerConditionPasses(w: World, s: State, id: nat, request: Request, reply: Response)
    requires id !in s.flights && request.get
    requires Given(request.ifNoneMatch).Some? || Given(request.ifModifiedSince).Some?
    ensures var t := Next(w, s, Begin(id, request));
      && id in t.flights && t.flights[id].sent == request
      && AnswerTo(t.rows, t.flights[id], reply) == Answer(reply.status, reply.body)
  {}

  // ---- The budget ----

  lemma {:induction false} SameSizeUpsert(rows: Table, row: Row)
    requires Find(rows, row.url).Some? && |Find(rows, row.url).value.body| == |row.body|
    ensures Total(Upsert(rows, row)) == Total(rows)
  {
    if rows[0].url != row.url {
      SameSizeUpsert(rows[1..], row);
    }
  }

  function Larger(a: int, b: int): int {
    if a > b then a else b
  }

  // A step that stores a page.
  ghost predicate Puts(w: World, s: State, step: Step)
    requires Enabled(w, s, step)
  {
    step.Complete? &&
      var flight := s.flights[step.id];
      IsStored(w.httpDate, flight, step.reply)
  }

  ghost predicate EverPuts(w: World, s: State, steps: seq<Step>)
    requires Runs(w, s, steps)
    decreases |steps|
  {
    steps != [] && (Puts(w, s, steps[0]) || EverPuts(w, Next(w, s, steps[0]), steps[1..]))
  }

  // In every run the stored bodies never outgrow the budget, or what the database held when it
  // was opened, and from the first page stored on they fit the budget.
  lemma {:induction false} BudgetKept(w: World, s: State, steps: seq<Step>)
    requires OneRowPerUrl(s.rows) && Runs(w, s, steps)
    ensures Total(Replay(w, s, steps).rows) <= Larger(Total(s.rows), Larger(w.maxBytes, 0))
    ensures EverPuts(w, s, steps) ==> Total(Replay(w, s, steps).rows) <= Larger(w.maxBytes, 0)
    decreases |steps|
  {
    if steps != [] {
      var step := steps[0];
      if step.Complete? {
        StepKeepsBudget(w, s, step);
      }
      BudgetKept(w, Next(w, s, step), steps[1..]);
    }
  }

  lemma StepKeepsBudget(w: World, s: State, step: Step)
    requires OneRowPerUrl(s.rows) && Enabled(w, s, step) && step.Complete?
    ensures OneRowPerUrl(Next(w, s, step).rows)
    ensures if Puts(w, s, step) then Total(Next(w, s, step).rows) <= Larger(w.maxBytes, 0)
            else Total(Next(w, s, step).rows) == Total(s.rows)
  {
    CompletionRows(w, s, step);
    var flight := s.flights[step.id];
    var reply := step.reply;
    if Replays(flight, reply) {
      var found := Find(s.rows, flight.sent.url);
      if found.Some? {
        SameSizeUpsert(s.rows, Row(flight.sent.url, Or(reply.etag, flight.cached.value.etag),
                                   Or(ValidDate(w.httpDate, reply.lastModified), flight.cached.value.lastModified),
                                   found.value.body, step.now));
      }
    } else if IsStored(w.httpDate, flight, reply) {
      var row := Row(flight.sent.url, reply.etag, ValidDate(w.httpDate, reply.lastModified), reply.body, step.now);
      UpsertRows(s.rows, row);
      EvictProperties(Upsert(s.rows, row), w.maxBytes);
    }
  }

  // Two overlapping GETs of one page can leave the table answering wrongly ever after: the
  // 304 for the first version arrives when the second is stored, and pins the first one's
  // validator on the second one's body.
  const FIRST := Response(200, Some("a"), None, true, [1])
  const SECOND := Response(200, Some("b"), None, true, [2])
  const UNCHANGED := Response(304, None, None, true, [])

  function Flipping(url: string, t: nat): Response {
    if t == 1 then SECOND else FIRST
  }

  ghost function Replay(w: World, s: State, steps: seq<Step>): State
    requires Runs(w, s, steps)
    decreases |steps|
  {
    if steps == [] then s else Replay(w, Next(w, s, steps[0]), steps[1..])
  }

  lemma RunsCons(w: World, s: State, step: Step, t: State, rest: seq<Step>)
    requires Enabled(w, s, step) && Next(w, s, step) == t && Runs(w, t, rest)
    ensures Runs(w, s, [step] + rest) && Replay(w, s, [step] + rest) == Replay(w, t, rest)
    ensures OneAtATime(w, s, [step] + rest) <==> Alone(s, step) && OneAtATime(w, t, rest)
    ensures AllRight(w, s, [step] + rest) <==> Right(w, s, step) && AllRight(w, t, rest)
  {
    assert ([step] + rest)[1..] == rest;
  }

  const FLIPPING := World(Flipping, _ => true, 1000)
  const GET := Request(true, "/", None, None)
  const PAGE := Row("/", Some("a"), None, [1], 0.0)
  const NEWER := Row("/", Some("b"), None, [2], 1.0)
  const MIXED := Row("/", Some("a"), None, [2], 2.0)
  const OVERLAP := [Begin(0, GET)]
    + ([Begin(1, GET)] + ([Complete(1, 1, SECOND, 1.0)] + ([Complete(0, 0, UNCHANGED, 2.0)] + [])))
  const LATER := [Begin(2, GET)] + ([Complete(2, 2, UNCHANGED, 3.0)] + [])

  function Asking(page: Row): Flight {
    Flight(GET.(ifNoneMatch := Some("a")), false, Some(page))
  }

  lemma OverlapRun()
    ensures Runs(FLIPPING, State([PAGE], map[]), OVERLAP)
    ensures Replay(FLIPPING, State([PAGE], map[]), OVERLAP) == State([MIXED], map[])
  {
    var w := FLIPPING;
    var s0, s1 := State([PAGE], map[]), State([PAGE], map[0 := Asking(PAGE)]);
    var s2, s3 := State([PAGE], map[0 := Asking(PAGE), 1 := Asking(PAGE)]), State([NEWER], map[0 := Asking(PAGE)]);
    var s4 := State([MIXED], map[]);
    assert Departed([PAGE], GET) == Asking(PAGE);
    assert Next(w, s0, Begin(0, GET)) == s1;
    assert Next(w, s1, Begin(1, GET)) == s2;
    assert Total([NEWER]) == 1 by { assert [NEWER][1..] == []; }
    assert Next(w, s2, Complete(1, 1, SECOND, 1.0)) == s3;
    assert Next(w, s3, Complete(0, 0, UNCHANGED, 2.0)) == s4;
    RunsCons(w, s3, Complete(0, 0, UNCHANGED, 2.0), s4, []);
    RunsCons(w, s2, Complete(1, 1, SECOND, 1.0), s3, [Complete(0, 0, UNCHANGED, 2.0)] + []);
    RunsCons(w, s1, Begin(1, GET), s2, [Complete(1, 1, SECOND, 1.0)] + ([Complete(0, 0, UNCHANGED, 2.0)] + []));
    RunsCons(w, s0, Begin(0, GET), s1, [Begin(1, GET)]
      + ([Complete(1, 1, SECOND, 1.0)] + ([Complete(0, 0, UNCHANGED, 2.0)] + [])));
  }

  lemma LaterRun()
    ensures Runs(FLIPPING, State([MIXED], map[]), LATER)
    ensures OneAtATime(FLIPPING, State([MIXED], map[]), LATER) && !AllRight(FLIPPING, State([MIXED], map[]), LATER)
  {
    var w := FLIPPING;
    var s4, s5 := State([MIXED], map[]), State([MIXED], map[2 := Asking(MIXED)]);
    assert Departed([MIXED], GET) == Asking(MIXED);
    assert Next(w, s4, Begin(2, GET)) == s5;
    assert AnswerTo([MIXED], Asking(MIXED), UNCHANGED) == Answer(200, [2]);
    assert FIRST.body[0] != [2 as bv8][0];
    assert !Right(w, s5, Complete(2, 2, UNCHANGED, 3.0));
    RunsCons(w, s5, Complete(2, 2, UNCHANGED, 3.0), Next(w, s5, Complete(2, 2, UNCHANGED, 3.0)), []);
    RunsCons(w, s4, Begin(2, GET), s5, [Complete(2, 2, UNCHANGED, 3.0)] + []);
  }

  lemma OverlapPoisons()
    ensures var s := State([PAGE], map[]);
      && Honest(Flipping) && Inv(FLIPPING, s) && Separate(s)
      && Runs(FLIPPING, s, OVERLAP)
      // Once it is over, a GET that is alone on the wire is still answered wrongly.
      && var t := Replay(FLIPPING, s, OVERLAP);
        && t.flights == map[] && Runs(FLIPPING, t, LATER)
        && OneAtATime(FLIPPING, t, LATER) && !AllRight(FLIPPING, t, LATER)
  {
    OverlapRun();
    LaterRun();
  }

  function Plain(url: string): Request {
    Request(true, url, None, None)
  }

  // The hypothesis on origins is needed: where a page's own validator comes to name another
  // body, storing the page and asking again, one request at a time, is answered wrongly.
  lemma ReusedValidatorMisleads(w: World, url: string, t: nat, u: nat) returns (steps: seq<Step>)
    requires w.origin(url, t).status == 200 && Storable(w.httpDate, w.origin(url, t))
    requires |w.origin(url, t).body| <= w.maxBytes
    requires Names(w.origin(url, t).etag, ValidDate(w.httpDate, w.origin(url, t).lastModified), w.origin(url, u))
    requires w.origin(url, t).body != w.origin(url, u).body
    ensures Runs(w, State([], map[]), steps) && OneAtATime(w, State([], map[]), steps)
    ensures !AllRight(w, State([], map[]), steps)
  {
    var rep := w.origin(url, t);
    var row := Row(url, rep.etag, ValidDate(w.httpDate, rep.lastModified), rep.body, 0.0);
    var s0, s1, s2 := State([], map[]), State([], map[0 := Flight(Plain(url), false, None)]), State([row], map[]);
    var asking := Departed([row], Plain(url));
    var s3 := State([row], map[1 := asking]);
    var answer := Complete(1, u, UNCHANGED, 1.0);
    assert Next(w, s0, Begin(0, Plain(url))) == s1;
    assert Total([row]) == |rep.body| by { assert [row][1..] == []; }
    assert Next(w, s1, Complete(0, t, rep, 0.0)) == s2;
    assert Next(w, s2, Begin(1, Plain(url))) == s3;
    NamedAgain(w, url, row, u);
    RunsCons(w, s3, answer, Next(w, s3, answer), []);
    RunsCons(w, s2, Begin(1, Plain(url)), s3, [answer] + []);
    RunsCons(w, s1, Complete(0, t, rep, 0.0), s2, [Begin(1, Plain(url))] + ([answer] + []));
    steps := [Complete(0, t, rep, 0.0)] + ([Begin(1, Plain(url))] + ([answer] + []));
    RunsCons(w, s0, Begin(0, Plain(url)), s1, steps);
    steps := [Begin(0, Plain(url))] + steps;
  }

  lemma NamedAgain(w: World, url: string, row: Row, u: nat)
    requires row.url == url && Names(row.etag, row.lastModified, w.origin(url, u)) && row.body != w.origin(url, u).body
    ensures var s := State([row], map[1 := Departed([row], Plain(url))]);
      var answer := Complete(1, u, UNCHANGED, 1.0);
      Enabled(w, s, answer) && !Right(w, s, answer)
  {
    assert Find([row], url) == Some(row);
  }
}
