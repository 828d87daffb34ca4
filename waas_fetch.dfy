/** The paginated fetch of WAAS firewall audit events in `main` of the
    report generator: pages of 100 events are requested at increasing
    offsets until an empty page arrives; HTTP 429 triggers a linear backoff
    of up to five retries; any other failure ends the fetch with the events
    gathered so far. The HTTP client and `time.sleep` are replaced by a
    given sequence of responses and a log of the requested delays. */
module WaasFetch {

  const PageSize: nat := 100
  const MaxAttempts: nat := 5
  const StatusOk: int := 200
  const StatusTooManyRequests: int := 429

  /** One audit event as the console returns it (the fields the report
      reads). */
  datatype RawEvent = RawEvent(
    time: string,
    url: string,
    kind: string,
    httpMethod: string,
    urlPath: string,
    subnet: string,
    imageName: string)

  /** The status code of a response and, for a 200, the decoded page. */
  datatype Response = Response(status: int, page: seq<RawEvent>)

  datatype Outcome = Completed | Failed(status: int)

  /** Where the loop is: about to request a page, about to make retry number
      `attempt` after a 429, or finished. */
  datatype Phase = Paging | Retrying(attempt: nat) | Done(outcome: Outcome)

  /** The loop's state: `offset` and `events` are the script's variables;
      `requests` logs the offset of every request made, `sleeps` the delay of
      every `time.sleep`. */
  datatype Session = Session(phase: Phase, offset: nat, events: seq<RawEvent>, requests: seq<nat>, sleeps: seq<nat>)

  function Start(): Session {
    Session(Paging, 0, [], [], [])
  }

  /** The phase at the head of the retry loop for `attempt`: past the last
      attempt the loop is left and paging resumes. */
  function AttemptPhase(attempt: nat): Phase {
    if attempt <= MaxAttempts then Retrying(attempt) else Paging
  }

  /** The phase after retry number `attempt` failed to return 200. */
  function AfterFailedRetry(attempt: nat): Phase {
    AttemptPhase(attempt + 1)
  }

  /** One request of the loop and what its response does to the state:
      once the loop has ended nothing changes; otherwise exactly one request
      is made, at the current offset, and the events and delays only grow. */
  function Step(s: Session, r: Response): (t: Session)
    ensures s.phase.Done? ==> t == s
    ensures !s.phase.Done? ==> t.requests == s.requests + [s.offset]
    ensures s.events <= t.events && s.sleeps <= t.sleeps
  {
    match s.phase
    case Done(_) => s
    case Paging =>
      var sent := s.(requests := s.requests + [s.offset]);
      if r.status == StatusOk then
        if r.page == [] then sent.(phase := Done(Completed))
        else sent.(events := s.events + r.page, offset := s.offset + PageSize)
      else if r.status == StatusTooManyRequests then sent.(phase := Retrying(1))
      else sent.(phase := Done(Failed(r.status)))
    case Retrying(attempt) =>
      var sent := s.(requests := s.requests + [s.offset], sleeps := s.sleeps + [attempt * 2]);
      if r.status == StatusOk then sent.(phase := Paging)
      else sent.(phase := AfterFailedRetry(attempt))
  }

  /** The state after the loop has consumed every response of `rs`. */
  function Run(s: Session, rs: seq<Response>): (t: Session)
    ensures s.events <= t.events && s.requests <= t.requests && s.sleeps <= t.sleeps
    ensures |t.requests| <= |s.requests| + |rs|
    decreases |rs|
  {
    if rs == [] then s else Run(Step(s, rs[0]), rs[1..])
  }

  // ---------------------------------------------------------------------
  // The loop as written
  // ---------------------------------------------------------------------

  /** The `while True` loop of `main`; `responses` are the replies to its
      requests, in order. When they run out the loop is cut short and the
      state reached so far is returned. */
  method FetchEvents(responses: seq<Response>) returns (session: Session)
    ensures session == Run(Start(), responses)
  {
    var offset: nat := 0;
    var events: seq<RawEvent> := [];
    var requests: seq<nat> := [];
    var sleeps: seq<nat> := [];
    var next := 0;
    while next < |responses|
      invariant next <= |responses|
      invariant Run(Session(Paging, offset, events, requests, sleeps), responses[next..]) == Run(Start(), responses)
      decreases |responses| - next
    {
      ghost var before := Session(Paging, offset, events, requests, sleeps);
      RunFrom(before, responses, next);
      var response := responses[next];
      next := next + 1;
      requests := requests + [offset];
      if response.status == StatusOk {
        if response.page == [] {
          session := Session(Done(Completed), offset, events, requests, sleeps);
          DoneIsFinal(session, responses[next..]);
          return;
        }
        events := events + response.page;
        offset := offset + PageSize;
      } else if response.status == StatusTooManyRequests {
        var phase;
        phase, next, requests, sleeps := RetryAfterRateLimit(responses, next, offset, events, requests, sleeps);
        if phase != Paging {
          return Session(phase, offset, events, requests, sleeps);
        }
      } else {
        session := Session(Done(Failed(response.status)), offset, events, requests, sleeps);
        DoneIsFinal(session, responses[next..]);
        return;
      }
    }
    session := Session(Paging, offset, events, requests, sleeps);
  }

  /** The `for attempt in range(1, 6)` loop after a 429: sleep `2·attempt`
      seconds, repeat the request, and stop at the first 200. It ends in
      `Paging`, unless the responses run out first. */
  method RetryAfterRateLimit(responses: seq<Response>, from: nat, offset: nat, events: seq<RawEvent>,
                             requestsBefore: seq<nat>, sleepsBefore: seq<nat>)
    returns (phase: Phase, next: nat, requests: seq<nat>, sleeps: seq<nat>)
    requires from <= |responses|
    ensures from <= next <= |responses|
    ensures phase == Paging || (phase.Retrying? && next == |responses|)
    ensures Run(Session(phase, offset, events, requests, sleeps), responses[next..])
         == Run(Session(Retrying(1), offset, events, requestsBefore, sleepsBefore), responses[from..])
  {
    next, requests, sleeps := from, requestsBefore, sleepsBefore;
    phase := Paging;
    for attempt := 1 to MaxAttempts + 1
      invariant from <= next <= |responses|
      invariant phase == Paging
      invariant Run(Session(AttemptPhase(attempt), offset, events, requests, sleeps), responses[next..])
             == Run(Session(Retrying(1), offset, events, requestsBefore, sleepsBefore), responses[from..])
    {
      if next == |responses| {
        phase := Retrying(attempt);
        return;
      }
      ghost var before := Session(Retrying(attempt), offset, events, requests, sleeps);
      RunFrom(before, responses, next);
      sleeps := sleeps + [attempt * 2];
      var response := responses[next];
      next := next + 1;
      requests := requests + [offset];
      if response.status == StatusOk {
        return;
      }
    }
  }

  /** Consuming the responses from index `i` on is one step, then the rest. */
  lemma RunFrom(s: Session, rs: seq<Response>, i: nat)
    requires i < |rs|
    ensures Run(s, rs[i..]) == Run(Step(s, rs[i]), rs[i + 1..])
  {
    assert rs[i..][1..] == rs[i + 1..];
  }

  // ---------------------------------------------------------------------
  // Properties of the loop
  // ---------------------------------------------------------------------

  /** A finished fetch ignores whatever would come after. */
  lemma {:induction false} DoneIsFinal(s: Session, rs: seq<Response>)
    requires s.phase.Done?
    ensures Run(s, rs) == s
    decreases |rs|
  {
    if rs != [] {
      DoneIsFinal(s, rs[1..]);
    }
  }

  /** Consuming `a + b` is consuming `a`, then `b`. */
  lemma {:induction false} RunAppend(s: Session, a: seq<Response>, b: seq<Response>)
    ensures Run(s, a + b) == Run(Run(s, a), b)
    decreases |a|
  {
    if a == [] {
      assert a + b == b;
    } else {
      assert (a + b)[0] == a[0];
      assert (a + b)[1..] == a[1..] + b;
      RunAppend(Step(s, a[0]), a[1..], b);
    }
  }

  /** A response is taken into `all_events` exactly when it answers a page
      request (not a retry) with 200 and a non-empty page. */
  predicate Accepts(s: Session, r: Response) {
    s.phase == Paging && r.status == StatusOk && r.page != []
  }

  /** The pages the loop takes into `all_events`, in order. */
  function AcceptedPages(s: Session, rs: seq<Response>): seq<seq<RawEvent>>
    decreases |rs|
  {
    if rs == [] then []
    else (if Accepts(s, rs[0]) then [rs[0].page] else []) + AcceptedPages(Step(s, rs[0]), rs[1..])
  }

  function Concat(pages: seq<seq<RawEvent>>): seq<RawEvent>
    decreases |pages|
  {
    if pages == [] then [] else pages[0] + Concat(pages[1..])
  }

  lemma {:induction false} ConcatAppend(a: seq<seq<RawEvent>>, b: seq<seq<RawEvent>>)
    ensures Concat(a + b) == Concat(a) + Concat(b)
    decreases |a|
  {
    if a == [] {
      assert a + b == b;
    } else {
      assert (a + b)[1..] == a[1..] + b;
      ConcatAppend(a[1..], b);
    }
  }

  /** `offset` moves only by one page size per accepted page, and the
      events are exactly the accepted pages, in order; every accepted page
      is non-empty and came with status 200. */
  lemma {:induction false} RunAccumulatesPages(s: Session, rs: seq<Response>)
    ensures var t := Run(s, rs);
      var pages := AcceptedPages(s, rs);
      && t.events == s.events + Concat(pages)
      && t.offset == s.offset + PageSize * |pages|
      && (forall i :: 0 <= i < |pages| ==> pages[i] != [])
    decreases |rs|
  {
    if rs != [] {
      var next := Step(s, rs[0]);
      RunAccumulatesPages(next, rs[1..]);
      var head := if Accepts(s, rs[0]) then [rs[0].page] else [];
      ConcatAppend(head, AcceptedPages(next, rs[1..]));
      if Accepts(s, rs[0]) {
        assert Concat(head) == rs[0].page by {
          assert head[1..] == [];
        }
      }
    }
  }

  /** Every request asks for the offset of the page after the events held,
      and the offset is always a whole number of pages. */
  predicate Consistent(s: Session) {
    && s.offset % PageSize == 0
    && s.offset <= PageSize * |s.events|
    && (forall i :: 0 <= i < |s.requests| ==> s.requests[i] % PageSize == 0 && s.requests[i] <= s.offset)
    && (forall i :: 0 <= i < |s.sleeps| ==> 2 <= s.sleeps[i] <= 2 * MaxAttempts)
    && (s.phase.Retrying? ==> 1 <= s.phase.attempt <= MaxAttempts)
  }

  /** Every step keeps the state consistent. */
  lemma StepConsistent(s: Session, r: Response)
    requires Consistent(s)
    ensures Consistent(Step(s, r))
  {
  }

  lemma {:induction false} RunConsistent(s: Session, rs: seq<Response>)
    requires Consistent(s)
    ensures Consistent(Run(s, rs))
    decreases |rs|
  {
    if rs != [] {
      StepConsistent(s, rs[0]);
      RunConsistent(Step(s, rs[0]), rs[1..]);
    }
  }

  /** From the start, whatever the responses. */
  lemma FetchConsistent(rs: seq<Response>)
    ensures Consistent(Run(Start(), rs))
  {
    RunConsistent(Start(), rs);
  }

  /** A status other than 200 or 429 on a page request ends the fetch at
      once, keeping the events gathered so far and retrying nothing. */
  lemma HardFailureStops(s: Session, rs: seq<Response>)
    requires s.phase == Paging && rs != []
    requires rs[0].status != StatusOk && rs[0].status != StatusTooManyRequests
    ensures Run(s, rs) == s.(phase := Done(Failed(rs[0].status)), requests := s.requests + [s.offset])
  {
    DoneIsFinal(Step(s, rs[0]), rs[1..]);
  }

  /** The first empty page ends the fetch normally. */
  lemma EmptyPageCompletes(s: Session, rs: seq<Response>)
    requires s.phase == Paging && rs != []
    requires rs[0].status == StatusOk && rs[0].page == []
    ensures Run(s, rs) == s.(phase := Done(Completed), requests := s.requests + [s.offset])
  {
    DoneIsFinal(Step(s, rs[0]), rs[1..]);
  }

  /** The delays of the first `k` retries: 2, 4, ..., 2k seconds. */
  function Backoff(k: nat): (r: seq<nat>)
    ensures |r| == k
    ensures forall i :: 0 <= i < k ==> r[i] == 2 * (i + 1)
  {
    seq(k, i => 2 * (i + 1))
  }

  function Repeat(x: nat, k: nat): (r: seq<nat>)
    ensures |r| == k
    ensures forall i :: 0 <= i < k ==> r[i] == x
  {
    seq(k, i => x)
  }

  /** From retry number `attempt` on: retries that fail until one returns
      200 or the fifth fails bring the loop back to requesting the same
      offset, having slept 2·attempt, ..., seconds. */
  lemma {:induction false} RetriesFrom(s: Session, attempt: nat, rs: seq<Response>)
    requires s.phase == Retrying(attempt) && 1 <= attempt <= MaxAttempts
    requires 1 <= |rs| <= MaxAttempts + 1 - attempt
    requires forall i :: 0 <= i < |rs| - 1 ==> rs[i].status != StatusOk
    requires rs[|rs| - 1].status == StatusOk || attempt + |rs| - 1 == MaxAttempts
    ensures Run(s, rs) == s.(phase := Paging, requests := s.requests + Repeat(s.offset, |rs|),
                             sleeps := s.sleeps + seq(|rs|, i => 2 * (attempt + i)))
    decreases |rs|
  {
    var t := Step(s, rs[0]);
    if |rs| == 1 {
      assert t.phase == Paging;
      assert Run(t, rs[1..]) == t;
      assert Repeat(s.offset, 1) == [s.offset];
      assert seq(1, i => 2 * (attempt + i)) == [attempt * 2];
    } else {
      assert t.phase == Retrying(attempt + 1);
      RetriesFrom(t, attempt + 1, rs[1..]);
      assert [s.offset] + Repeat(s.offset, |rs| - 1) == Repeat(s.offset, |rs|);
      assert [attempt * 2] + seq(|rs| - 1, i => 2 * (attempt + 1 + i)) == seq(|rs|, i => 2 * (attempt + i));
    }
  }

  /** A 429 on a page request starts a round of `k` retries, 1 <= k <= 5,
      that ends at the first 200 or after the fifth: the round sleeps 2, 4,
      ..., 2k seconds, leaves `offset` and the events unchanged, and returns
      to requesting the same offset; a successful retry's page is not kept. */
  lemma RateLimitedRound(s: Session, rs: seq<Response>, k: nat)
    requires s.phase == Paging && 1 <= k <= MaxAttempts && |rs| == k + 1
    requires rs[0].status == StatusTooManyRequests
    requires forall i :: 1 <= i < k ==> rs[i].status != StatusOk
    requires rs[k].status == StatusOk || k == MaxAttempts
    ensures Run(s, rs) == s.(requests := s.requests + Repeat(s.offset, k + 1), sleeps := s.sleeps + Backoff(k))
  {
    var t := Step(s, rs[0]);
    RetriesFrom(t, 1, rs[1..]);
    assert [s.offset] + Repeat(s.offset, k) == Repeat(s.offset, k + 1);
    assert seq(k, i => 2 * (1 + i)) == Backoff(k);
  }

  /** The longest round: five failed retries, 30 seconds of sleep in all. */
  lemma ExhaustedRetriesSleep()
    ensures Backoff(MaxAttempts) == [2, 4, 6, 8, 10]
  {
  }

  // ---------------------------------------------------------------------
  // A well-behaved server
  // ---------------------------------------------------------------------

  /** The responses of a server that holds `data` and answers every request
      with 200 and the next at most 100 events, then an empty page. */
  function ServedPages(data: seq<RawEvent>): seq<Response>
    decreases |data|
  {
    if data == [] then [Response(StatusOk, [])]
    else
      var k := if |data| < PageSize then |data| else PageSize;
      [Response(StatusOk, data[..k])] + ServedPages(data[k..])
  }

  /** The offsets `from`, `from + 100`, ..., `count` of them. */
  function OffsetsFrom(from: nat, count: nat): seq<nat>
    decreases count
  {
    if count == 0 then [] else [from] + OffsetsFrom(from + PageSize, count - 1)
  }

  /** The `i`-th of those offsets is `from + 100 i`. */
  lemma {:induction false} OffsetsFromMeaning(from: nat, count: nat)
    ensures |OffsetsFrom(from, count)| == count
    ensures forall i :: 0 <= i < count ==> OffsetsFrom(from, count)[i] == from + PageSize * i
    decreases count
  {
    if count > 0 {
      OffsetsFromMeaning(from + PageSize, count - 1);
    }
  }

  /** Against such a server the fetch completes with every event, in order,
      and never sleeps. */
  lemma {:induction false} ServedPagesFetchAll(s: Session, data: seq<RawEvent>)
    requires s.phase == Paging
    ensures var u := Run(s, ServedPages(data));
      && u.phase == Done(Completed)
      && u.offset == s.offset + PageSize * PagesFor(|data|)
      && u.events == s.events + data
      && u.sleeps == s.sleeps
    decreases |data|
  {
    if data == [] {
      EmptyPageCompletes(s, ServedPages(data));
    } else {
      var k := if |data| < PageSize then |data| else PageSize;
      var t := Session(Paging, s.offset + PageSize, s.events + data[..k], s.requests + [s.offset], s.sleeps);
      ServedFirstPage(s, data, k);
      ServedPagesFetchAll(t, data[k..]);
      PagesForStep(|data|, k);
      assert data[..k] + data[k..] == data;
    }
  }

  /** ... after ceil(N / 100) + 1 requests, at offsets 0, 100, 200, .... */
  lemma {:induction false} ServedPagesRequests(s: Session, data: seq<RawEvent>)
    requires s.phase == Paging
    ensures Run(s, ServedPages(data)).requests == s.requests + OffsetsFrom(s.offset, PagesFor(|data|) + 1)
    decreases |data|
  {
    if data == [] {
      EmptyPageCompletes(s, ServedPages(data));
    } else {
      var k := if |data| < PageSize then |data| else PageSize;
      var t := Session(Paging, s.offset + PageSize, s.events + data[..k], s.requests + [s.offset], s.sleeps);
      ServedFirstPage(s, data, k);
      ServedPagesRequests(t, data[k..]);
      PagesForStep(|data|, k);
      assert (s.requests + [s.offset]) + OffsetsFrom(t.offset, PagesFor(|data[k..]|) + 1)
          == s.requests + OffsetsFrom(s.offset, PagesFor(|data|) + 1);
    }
  }

  /** The first response of such a server is accepted as a whole page. */
  lemma ServedFirstPage(s: Session, data: seq<RawEvent>, k: nat)
    requires s.phase == Paging && data != [] && k == (if |data| < PageSize then |data| else PageSize)
    ensures Run(s, ServedPages(data))
         == Run(Session(Paging, s.offset + PageSize, s.events + data[..k], s.requests + [s.offset], s.sleeps),
                ServedPages(data[k..]))
  {
    var rs := ServedPages(data);
    assert rs[1..] == ServedPages(data[k..]);
  }

  /** The number of non-empty pages `n` events fill: ceil(n / 100). */
  function PagesFor(n: nat): nat {
    (n + PageSize - 1) / PageSize
  }

  lemma PagesForStep(n: nat, k: nat)
    requires n > 0 && k == (if n < PageSize then n else PageSize)
    ensures PagesFor(n - k) + 1 == PagesFor(n)
  {
  }

  /** From the start, a well-behaved server holding `data` yields exactly
      `data`, ends normally, takes ceil(N/100) + 1 requests and never makes
      the loop sleep. */
  lemma FetchFromStart(data: seq<RawEvent>)
    ensures var t := Run(Start(), ServedPages(data));
      && t.phase == Done(Completed)
      && t.events == data
      && |t.requests| == PagesFor(|data|) + 1
      && t.sleeps == []
  {
    ServedPagesFetchAll(Start(), data);
    ServedPagesRequests(Start(), data);
    OffsetsFromMeaning(0, PagesFor(|data|) + 1);
  }
}
