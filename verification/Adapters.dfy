/**
 One call of a provider adapter (internal/provider/gemini, openai and wan): the Gemini adapter
 makes one HTTP exchange for each image asked for, in order, the other two make a single one;
 each exchange is retried by the adapter's own HTTP client. The first exchange that fails fails
 the call.
 */
module Adapters {
  import opened GoStrings
  import opened Jobs
  import opened Providers
  import opened Retry

  // No adapter allows so many retries that the client's jitter would overflow.
  type RetryLimit = n: nat | n <= 35

  // perImage: one exchange for each image asked for; refusesEmpty: an answer without images is a fault.
  datatype Adapter = Adapter(perImage: bool, retries: RetryLimit, refusesEmpty: bool)

  const GEMINI := Adapter(true, 1, true)
  const OPENAI := Adapter(false, 2, false)
  const WAN := Adapter(false, 1, true)

  datatype Batch = Batch(images: seq<Image>, tokens: int, requestID: string)

  datatype Parsed = Parsed(batch: Batch) | ParseError(fault: Fault)

  // What one exchange meets: its HTTP attempts, what a failure's cause holds, and the parsed body.
  datatype Round = Round(http: Env, deadline: bool, parsed: Parsed)

  // What one call meets: whether there are credentials, whether the body can be built, the exchanges.
  datatype Upstream = Upstream(credentials: bool, builds: bool, rounds: nat -> Round)

  datatype Outcome = Made(reply: Reply) | Faulted(fault: Fault)

  // How many exchanges a call for so many images is meant to make.
  function Rounds(a: Adapter, asked: int): int {
    if !a.perImage then 1 else if asked == 0 then 1 else asked
  }

  predicate Starts(a: Adapter, asked: int, up: Upstream) {
    up.credentials && (a.perImage ==> 1 <= Rounds(a, asked) <= 4) && up.builds
  }

  function Exchange(a: Adapter, round: Round): (Result, nat) {
    Attempts(round.http, 0, a.retries)
  }

  // Why an exchange fails, if it does.
  function RoundFault(a: Adapter, round: Round): Option<Fault> {
    var r := Exchange(a, round).0;
    if !r.Response? then ClientFault(r, round.deadline)
    else if r.status != 200 then Some(UpstreamFault("upstream_http_error"))
    else if round.parsed.ParseError? then Some(round.parsed.fault)
    else if a.refusesEmpty && round.parsed.batch.images == [] then Some(UpstreamFault("empty_response"))
    else None
  }

  // The jitter never panics, so an exchange without a fault has a batch.
  lemma {:induction false} SoundRound(a: Adapter, round: Round)
    ensures !Exchange(a, round).0.Panicked?
    ensures RoundFault(a, round).None? ==> round.parsed.Parsed? && (a.refusesEmpty ==> round.parsed.batch.images != [])
    ensures Exchange(a, round).1 <= a.retries + 1
  {
    PanicsExactly(round.http, a.retries);
    SentIsBounded(round.http, 0, a.retries);
  }

  // The images of the first n exchanges, in order.
  function ImagesOf(rounds: nat -> Round, n: nat): seq<Image> {
    if n == 0 then []
    else ImagesOf(rounds, n - 1) + if rounds(n - 1).parsed.Parsed? then rounds(n - 1).parsed.batch.images else []
  }

  function TokensOf(rounds: nat -> Round, n: nat): int {
    if n == 0 then 0
    else TokensOf(rounds, n - 1) + if rounds(n - 1).parsed.Parsed? then rounds(n - 1).parsed.batch.tokens else 0
  }

  // The last non-empty request id.
  function RequestIDOf(rounds: nat -> Round, n: nat): string {
    if n == 0 then ""
    else if rounds(n - 1).parsed.Parsed? && rounds(n - 1).parsed.batch.requestID != ""
    then rounds(n - 1).parsed.batch.requestID
    else RequestIDOf(rounds, n - 1)
  }

  // The HTTP requests of the first n exchanges.
  function SentBy(a: Adapter, rounds: nat -> Round, n: nat): nat {
    if n == 0 then 0 else SentBy(a, rounds, n - 1) + Exchange(a, rounds(n - 1)).1
  }

  // The first exchange that fails from the k-th on, or n.
  function FirstFailing(a: Adapter, rounds: nat -> Round, k: nat, n: nat): (f: nat)
    requires k <= n
    ensures k <= f <= n
    ensures f < n ==> RoundFault(a, rounds(f)).Some?
    ensures forall i :: k <= i < f ==> RoundFault(a, rounds(i)).None?
    decreases n - k
  {
    if k == n || RoundFault(a, rounds(k)).Some? then k else FirstFailing(a, rounds, k + 1, n)
  }

  // What a call answers, and how many HTTP requests it has made by then.
  function CallOf(a: Adapter, asked: int, up: Upstream): (Outcome, nat) {
    if !up.credentials then (Faulted(Fault(true, InvalidRequest, "upstream_credentials", false)), 0)
    else if a.perImage && !(1 <= Rounds(a, asked) <= 4) then (Faulted(Fault(true, Validation, "invalid_n", false)), 0)
    else if !up.builds then (Faulted(Fault(true, Validation, "build_request", false)), 0)
    else
      var n: nat := Rounds(a, asked);
      var f := FirstFailing(a, up.rounds, 0, n);
      if f < n then (Faulted(RoundFault(a, up.rounds(f)).value), SentBy(a, up.rounds, f + 1))
      else (Made(Reply(ImagesOf(up.rounds, n), TokensOf(up.rounds, n), RequestIDOf(up.rounds, n), "", "", "")),
            SentBy(a, up.rounds, n))
  }

  lemma {:induction false} SentByIsBounded(a: Adapter, rounds: nat -> Round, n: nat)
    ensures SentBy(a, rounds, n) <= n * (a.retries + 1)
  {
    hide Exchange;
    if n > 0 {
      SentByIsBounded(a, rounds, n - 1);
      SoundRound(a, rounds(n - 1));
      assert n * (a.retries + 1) == (n - 1) * (a.retries + 1) + (a.retries + 1);
    }
  }

  // The most HTTP requests a call for so many images may make.
  function Budget(a: Adapter, asked: int): nat {
    if a.perImage && !(1 <= Rounds(a, asked) <= 4) then 0 else Rounds(a, asked) * (a.retries + 1)
  }

  lemma Product(m: nat, n: nat, r: nat)
    requires m <= n
    ensures m * r <= n * r
  {
  }

  /** A call makes at most one request more than its client's retries for each exchange it is meant to make. */
  lemma {:induction false} CallWithinBudget(a: Adapter, asked: int, up: Upstream)
    ensures CallOf(a, asked, up).1 <= Budget(a, asked)
  {
    hide RoundFault, SentBy, ImagesOf, TokensOf, RequestIDOf;
    if Starts(a, asked, up) {
      var n: nat := Rounds(a, asked);
      var f := FirstFailing(a, up.rounds, 0, n);
      SentByIsBounded(a, up.rounds, if f < n then f + 1 else n);
      Product(if f < n then f + 1 else n, n, a.retries + 1);
    }
  }

  // Every image asked for is there when an adapter that refuses empty answers succeeds.
  lemma {:induction false} EnoughImages(a: Adapter, rounds: nat -> Round, n: nat)
    requires a.refusesEmpty && forall i :: 0 <= i < n ==> RoundFault(a, rounds(i)).None?
    ensures |ImagesOf(rounds, n)| >= n
  {
    hide RoundFault;
    if n > 0 {
      EnoughImages(a, rounds, n - 1);
      SoundRound(a, rounds(n - 1));
    }
  }

  /**
   A call that starts succeeds exactly when every exchange does, and then has at least one image
   for each if the adapter refuses empty answers; one that does not start makes no request and
   its fault is final.
   */
  lemma {:induction false} CallSucceedsExactly(a: Adapter, asked: int, up: Upstream)
    ensures CallOf(a, asked, up).0.Made? <==>
              Starts(a, asked, up) && forall k :: 0 <= k < Rounds(a, asked) ==> RoundFault(a, up.rounds(k)).None?
    ensures CallOf(a, asked, up).0.Made? && a.refusesEmpty ==> |CallOf(a, asked, up).0.reply.images| >= Rounds(a, asked)
    ensures !Starts(a, asked, up) ==>
              CallOf(a, asked, up).1 == 0 && CallOf(a, asked, up).0.Faulted?
                && !IsRetriable(CallOf(a, asked, up).0.fault)
  {
    hide RoundFault, SentBy, ImagesOf, TokensOf, RequestIDOf;
    if Starts(a, asked, up) && a.refusesEmpty {
      var n: nat := Rounds(a, asked);
      if FirstFailing(a, up.rounds, 0, n) == n {
        EnoughImages(a, up.rounds, n);
      }
    }
  }

  method RunRound(a: Adapter, round: Round) returns (fault: Option<Fault>, sent: nat)
    ensures fault == RoundFault(a, round) && sent == Exchange(a, round).1
  {
    hide Attempts;
    var r, slept;
    r, sent, slept := Do(round.http, a.retries);
    if !r.Response? {
      return ClientFault(r, round.deadline), sent;
    }
    if r.status != 200 {
      return Some(UpstreamFault("upstream_http_error")), sent;
    }
    match round.parsed {
      case ParseError(f) =>
        return Some(f), sent;
      case Parsed(batch) =>
        if a.refusesEmpty && |batch.images| == 0 {
          return Some(UpstreamFault("empty_response")), sent;
        }
        return None, sent;
    }
  }

  /**
   The rounds of the Gemini adapter: all the images in order, or the first failing round's fault
   and no further request.
   */
  method GeneratePerImage(a: Adapter, asked: int, up: Upstream) returns (out: Outcome, sent: nat)
    requires a.perImage
    ensures (out, sent) == CallOf(a, asked, up)
  {
    hide RoundFault, Exchange;
    if !up.credentials {
      return Faulted(Fault(true, InvalidRequest, "upstream_credentials", false)), 0;
    }
    var n := asked;
    if n == 0 {
      n := 1;
    }
    if n < 1 || n > 4 {
      return Faulted(Fault(true, Validation, "invalid_n", false)), 0;
    }
    var images, tokens, requestID := [], 0, "";
    sent := 0;
    for k := 0 to n
      invariant k > 0 ==> up.builds
      invariant FirstFailing(a, up.rounds, 0, n) == FirstFailing(a, up.rounds, k, n)
      invariant images == ImagesOf(up.rounds, k)
      invariant tokens == TokensOf(up.rounds, k) && requestID == RequestIDOf(up.rounds, k)
      invariant sent == SentBy(a, up.rounds, k)
    {
      if !up.builds {
        return Faulted(Fault(true, Validation, "build_request", false)), 0;
      }
      var fault, more := RunRound(a, up.rounds(k));
      sent := sent + more;
      if fault.Some? {
        return Faulted(fault.value), sent;
      }
      SoundRound(a, up.rounds(k));
      var batch := up.rounds(k).parsed.batch;
      images := images + batch.images;
      tokens := tokens + batch.tokens;
      if batch.requestID != "" {
        requestID := batch.requestID;
      }
    }
    return Made(Reply(images, tokens, requestID, "", "", "")), sent;
  }

  // The single exchange of the other two adapters.
  method GenerateOnce(a: Adapter, asked: int, up: Upstream) returns (out: Outcome, sent: nat)
    requires !a.perImage
    ensures (out, sent) == CallOf(a, asked, up)
  {
    hide RoundFault, Exchange;
    if !up.credentials {
      return Faulted(Fault(true, InvalidRequest, "upstream_credentials", false)), 0;
    }
    if !up.builds {
      return Faulted(Fault(true, Validation, "build_request", false)), 0;
    }
    OneRound(a, up.rounds);
    var fault;
    fault, sent := RunRound(a, up.rounds(0));
    if fault.Some? {
      return Faulted(fault.value), sent;
    }
    SoundRound(a, up.rounds(0));
    var batch := up.rounds(0).parsed.batch;
    return Made(Reply(batch.images, batch.tokens, batch.requestID, "", "", "")), sent;
  }

  lemma OneRound(a: Adapter, rounds: nat -> Round)
    ensures FirstFailing(a, rounds, 0, 1) == if RoundFault(a, rounds(0)).Some? then 0 else 1
    ensures SentBy(a, rounds, 1) == Exchange(a, rounds(0)).1
    ensures rounds(0).parsed.Parsed? ==>
              var b := rounds(0).parsed.batch;
              ImagesOf(rounds, 1) == b.images && TokensOf(rounds, 1) == b.tokens
                && RequestIDOf(rounds, 1) == b.requestID
  {
    hide RoundFault, Exchange;
    assert SentBy(a, rounds, 0) == 0 && TokensOf(rounds, 0) == 0 && RequestIDOf(rounds, 0) == ""
           && ImagesOf(rounds, 0) == [];
  }

  method Generate(a: Adapter, asked: int, up: Upstream) returns (out: Outcome, sent: nat)
    ensures (out, sent) == CallOf(a, asked, up)
  {
    hide CallOf;
    if a.perImage {
      out, sent := GeneratePerImage(a, asked, up);
    } else {
      out, sent := GenerateOnce(a, asked, up);
    }
  }
}
