/**
 What the image providers share (pkg/provider, pkg/errors): replies, faults, and which faults
 let a fallback go on.
 */
module Providers {
  import opened GoStrings
  import opened Jobs
  import opened Retry

  datatype ModelInfo = ModelInfo(id: string, upstreamModel: string)

  datatype Reply = Reply(images: seq<Image>, tokensUsed: int, requestID: string,
                         effectiveProvider: string, effectiveModel: string, effectiveUpstream: string)

  datatype FaultKind = InvalidRequest | Validation | Upstream | Internal | OtherKind

  // api: the chain holds an APIErr, of this kind and code; deadline: it holds context.DeadlineExceeded.
  datatype Fault = Fault(api: bool, kind: FaultKind, code: string, deadline: bool)

  predicate IsRetriable(f: Fault) {
    !f.deadline && f.api && f.kind == Upstream && f.code != "upstream_timeout"
  }

  function UpstreamFault(code: string): Fault {
    Fault(true, Upstream, code, false)
  }

  // The fault a call of the HTTP client ends with, if it is not an answer; deadline says what its cause holds.
  function ClientFault(r: Result, deadline: bool): Option<Fault> {
    match r
    case Response(_, _) => None
    case Cancelled => Some(Fault(true, Upstream, "context_cancelled", deadline))
    case Timeout => Some(Fault(true, Upstream, "upstream_timeout", false))
    case BuildFailed => Some(Fault(true, Internal, "build_request_failed", deadline))
    case ReadFailed => Some(Fault(true, Upstream, "read_error", deadline))
    case Exhausted => Some(Fault(true, Upstream, "exhausted_retries", deadline))
    case Panicked => None
  }

  const VENDORS := ["gemini/", "openai/", "wan/"]

  // s without the first of the prefixes, from the k-th on, that it has.
  function WithoutPrefix(s: string, prefixes: seq<string>, k: nat): string
    requires k <= |prefixes|
    decreases |prefixes| - k
  {
    if k == |prefixes| then s
    else if HasPrefix(s, prefixes[k]) then TrimPrefix(s, prefixes[k])
    else WithoutPrefix(s, prefixes, k + 1)
  }

  // The id a request's model is normalised to: the trimmed id without a vendor prefix.
  function NormalizeModelID(model: string): string {
    WithoutPrefix(TrimSpace(model), VENDORS, 0)
  }
}
