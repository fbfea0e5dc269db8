/**
 The ordered fallback over models (internal/provider/xiangyun/xiangyun.go). The registry, the
 4K rewrite, the wire-name map, the registered adapters and what the network does to the call
 for each entry are given by a world; the registry does not change during one call.
 */
module Fallback {
  import opened GoStrings
  import Adapters
  import opened Jobs
  import opened Providers

  // What a provider answers: a reply (perhaps none) or a fault.
  datatype Answer = Replied(reply: Option<Reply>) | Refused(fault: Fault)

  datatype Request = Request(model: string, imageSize: string, responseFormat: string, n: int)

  // adapters: the adapter registered under a provider's name; upstreams(i): what its call for entry i meets.
  datatype World = World(find: string -> Option<(string, ModelInfo)>, rewrite4K: (string, string) -> string,
                         wireName: (seq<string>, string) -> string,
                         adapters: string -> Adapters.Adapter, upstreams: nat -> Adapters.Upstream)

  // One call of a provider, for entry at.
  datatype Call = Call(at: nat, provider: string, request: Request)

  datatype Outcome = Delivered(reply: Reply) | Faulted(fault: Fault)

  const NO_BACKEND := Fault(true, InvalidRequest, "xiangyun_no_backend", false)
  const NOT_REGISTERED := Fault(true, Internal, "xiangyun_backend", false)

  predicate Renderable(images: seq<Image>) {
    images != [] && forall i :: 0 <= i < |images| ==>
              TrimSpace(images[i].url) != "" || TrimSpace(images[i].b64JSON) != ""
  }

  method ResponseHasRenderableImages(reply: Option<Reply>) returns (ok: bool)
    ensures ok <==> reply.Some? && Renderable(reply.value.images)
  {
    hide TrimSpace;
    if reply.None? || |reply.value.images| == 0 {
      return false;
    }
    var images := reply.value.images;
    for i := 0 to |images|
      invariant forall k :: 0 <= k < i ==> TrimSpace(images[k].url) != "" || TrimSpace(images[k].b64JSON) != ""
    {
      if TrimSpace(images[i].url) == "" && TrimSpace(images[i].b64JSON) == "" {
        return false;
      }
    }
    return true;
  }

  // One call of Generate: the configured models and the request.
  datatype Chain = Chain(world: World, models: seq<string>, request: Request)
  {
    function Entry(i: nat): string
      requires i < |models|
    {
      TrimSpace(models[i])
    }

    // Blank entries and the fallback itself are skipped.
    predicate Eligible(i: nat)
      requires i < |models|
    {
      Entry(i) != "" && !HasPrefix(ToLower(Entry(i)), "xiangyun/")
    }

    // The catalog id after the 4K rewrite.
    function Routed(i: nat): string
      requires i < |models|
    {
      if HasPrefix(ToLower(Entry(i)), "gemini/") then
        var alt := world.rewrite4K(TrimPrefix(Entry(i), "gemini/"), request.imageSize);
        if alt != "" then alt else Entry(i)
      else Entry(i)
    }

    // The provider and model of an entry, unless there is none but the fallback itself.
    function Backend(i: nat): Option<(string, ModelInfo)>
      requires i < |models|
    {
      var found := world.find(Routed(i));
      if found.Some? && found.value.0 != "xiangyun" then found else None
    }

    predicate Tried(i: nat)
      requires i < |models|
    {
      Eligible(i) && Backend(i).Some?
    }

    function CallAt(i: nat): Call
      requires i < |models| && Backend(i).Some?
    {
      var (name, info) := Backend(i).value;
      Call(i, name, request.(model := Wire(i),
                             responseFormat := if name == "openai" then "url" else request.responseFormat))
    }

    function Wire(i: nat): string
      requires i < |models| && Backend(i).Some?
    {
      var info := Backend(i).value.1;
      world.wireName([info.id, NormalizeModelID(Routed(i)), info.upstreamModel], info.upstreamModel)
    }

    // What the call for entry i comes to, and the HTTP requests it makes.
    function Made(i: nat): (Adapters.Outcome, nat)
      requires i < |models| && Backend(i).Some?
    {
      Adapters.CallOf(world.adapters(Backend(i).value.0), request.n, world.upstreams(i))
    }

    function AnswerAt(i: nat): Answer
      requires i < |models| && Backend(i).Some?
    {
      match Made(i).0
      case Made(reply) => Replied(Some(reply))
      case Faulted(fault) => Refused(fault)
    }

    // Whether the provider of entry i delivers images in every slot.
    predicate Delivers(i: nat)
      requires i < |models| && Backend(i).Some?
    {
      var answer := AnswerAt(i);
      answer.Replied? && answer.reply.Some? && Renderable(answer.reply.value.images)
    }

    // What is delivered: the reply, labelled with the model that made it.
    function Labelled(i: nat): Reply
      requires i < |models| && Backend(i).Some? && Delivers(i)
    {
      var r := AnswerAt(i).reply.value;
      r.(effectiveProvider := if r.effectiveProvider == "" then Backend(i).value.0 else r.effectiveProvider,
         effectiveModel := if r.effectiveModel == "" then Backend(i).value.1.id else r.effectiveModel,
         effectiveUpstream := if r.effectiveUpstream == "" then Wire(i) else r.effectiveUpstream)
    }

    // Why an eligible entry does not deliver.
    function FaultAt(i: nat): Fault
      requires i < |models|
    {
      if Backend(i).None? then NOT_REGISTERED
      else
        match AnswerAt(i)
        case Refused(fault) => fault
        case Replied(reply) =>
          if reply.None? || reply.value.images == [] then UpstreamFault("empty_response")
          else UpstreamFault("empty_image_slots")
    }

    // An entry that ends the call: it delivers, or its fault must not be retried elsewhere.
    predicate Decisive(i: nat)
      requires i < |models|
    {
      Tried(i) && (Delivers(i) || !IsRetriable(FaultAt(i)))
    }

    // The calls of the first n entries when none of them is skipped by a decision.
    function Calls(n: nat): seq<Call>
      requires n <= |models|
    {
      if n == 0 then [] else Calls(n - 1) + if Tried(n - 1) then [CallAt(n - 1)] else []
    }

    // The HTTP requests behind these calls.
    function Requests(n: nat): nat
      requires n <= |models|
    {
      if n == 0 then 0 else Requests(n - 1) + if Tried(n - 1) then Made(n - 1).1 else 0
    }

    // What they may come to: for each call, one more than the retries for each exchange.
    function Budget(n: nat): nat
      requires n <= |models|
    {
      if n == 0 then 0
      else
        Budget(n - 1) +
        if Tried(n - 1) then Adapters.Budget(world.adapters(Backend(n - 1).value.0), request.n) else 0
    }

    // The fault of the last eligible entry among the first n.
    function LastFault(n: nat): Option<Fault>
      requires n <= |models|
    {
      if n == 0 then None
      else if Eligible(n - 1) then Some(FaultAt(n - 1))
      else LastFault(n - 1)
    }

    // The first decisive entry, or the number of entries.
    function FirstDecisive(n: nat): (d: nat)
      requires n <= |models|
      ensures n <= d <= |models|
      ensures d < |models| ==> Decisive(d)
      decreases |models| - n
    {
      if n == |models| || Decisive(n) then n else FirstDecisive(n + 1)
    }

    // The outcome when entry d is the first decisive one (or there is none).
    function OutcomeAt(d: nat): Outcome
      requires d <= |models| && (d < |models| ==> Decisive(d))
    {
      if d < |models| then
        if Delivers(d) then Delivered(Labelled(d)) else Outcome.Faulted(FaultAt(d))
      else if LastFault(d).Some? then Outcome.Faulted(LastFault(d).value)
      else Outcome.Faulted(NO_BACKEND)
    }
  }

  // The entry's catalog id, after the 4K rewrite.
  method Route(c: Chain, i: nat) returns (skip: bool, id: string)
    requires i < |c.models|
    ensures skip <==> !c.Eligible(i)
    ensures !skip ==> id == c.Routed(i)
  {
    hide TrimSpace, ToLower;
    id := TrimSpace(c.models[i]);
    if id == "" || HasPrefix(ToLower(id), "xiangyun/") {
      return true, id;
    }
    if HasPrefix(ToLower(id), "gemini/") {
      var norm := TrimPrefix(id, "gemini/");
      var alt := c.world.rewrite4K(norm, c.request.imageSize);
      if alt != "" {
        id := alt;
      }
    }
    return false, id;
  }

  // Calls the entry's provider: a reply to deliver, or a fault.
  method Try(c: Chain, i: nat, name: string, info: ModelInfo, wire: string)
    returns (reply: Option<Reply>, fault: Fault, sent: nat)
    requires i < |c.models| && c.Backend(i) == Some((name, info)) && wire == c.Wire(i)
    ensures reply.Some? <==> c.Delivers(i)
    ensures reply.Some? ==> reply.value == c.Labelled(i)
    ensures reply.None? ==> fault == c.FaultAt(i)
    ensures sent == c.Made(i).1
  {
    hide Renderable, Chain.Backend, Chain.Wire, Adapters.CallOf;
    fault := UpstreamFault("");
    var got;
    got, sent := Adapters.Generate(c.world.adapters(name), c.request.n, c.world.upstreams(i));
    match got {
      case Faulted(f) =>
        return None, f, sent;
      case Made(resp) =>
        var ok := ResponseHasRenderableImages(Some(resp));
        if ok {
          var out := resp;
          if out.effectiveProvider == "" {
            out := out.(effectiveProvider := name);
          }
          if out.effectiveModel == "" {
            out := out.(effectiveModel := info.id);
          }
          if out.effectiveUpstream == "" {
            out := out.(effectiveUpstream := wire);
          }
          return Some(out), fault, sent;
        }
        if |resp.images| == 0 {
          return None, UpstreamFault("empty_response"), sent;
        }
        return None, UpstreamFault("empty_image_slots"), sent;
    }
  }

  lemma {:induction false} FirstDecisiveIsFirst(c: Chain, n: nat)
    requires n <= |c.models|
    ensures forall k :: n <= k < c.FirstDecisive(n) ==> !c.Decisive(k)
    decreases |c.models| - n
  {
    hide Chain.Decisive;
    if n < |c.models| && !c.Decisive(n) {
      FirstDecisiveIsFirst(c, n + 1);
    }
  }

  /**
   The call decides as the first decisive entry: exactly the registered eligible entries up to
   it are called, once each and in order. Without a decisive entry it reports the last eligible
   entry's fault, and that there is no backend exactly when no entry is eligible.
   */
  method Generate(c: Chain) returns (out: Outcome, calls: seq<Call>, sent: nat)
    ensures var d := c.FirstDecisive(0);
            var n := if d < |c.models| then d + 1 else d;
            && out == c.OutcomeAt(d) && calls == c.Calls(n) && sent == c.Requests(n)
            && forall k :: 0 <= k < d ==> !c.Decisive(k)
  {
    hide Chain.Eligible, Chain.Routed, Chain.Delivers, Chain.Labelled, Chain.Wire, Chain.Made, IsRetriable;
    FirstDecisiveIsFirst(c, 0);
    calls, sent := [], 0;
    var lastErr: Option<Fault> := None;
    for i := 0 to |c.models|
      invariant c.FirstDecisive(0) == c.FirstDecisive(i)
      invariant calls == c.Calls(i) && lastErr == c.LastFault(i) && sent == c.Requests(i)
    {
      var skip, id := Route(c, i);
      if skip {
        continue;
      }
      var found := c.world.find(id);
      if found.None? || found.value.0 == "xiangyun" {
        lastErr := Some(NOT_REGISTERED);
        continue;
      }
      var (name, info) := found.value;
      var wire := MakeWire(c, i, id, info);
      var format := c.request.responseFormat;
      if name == "openai" {
        format := "url";
      }
      calls := calls + [Call(i, name, c.request.(model := wire, responseFormat := format))];
      var reply, fault, more := Try(c, i, name, info, wire);
      sent := sent + more;
      if reply.Some? {
        return Delivered(reply.value), calls, sent;
      }
      lastErr := Some(fault);
      if !IsRetriable(fault) {
        return Outcome.Faulted(fault), calls, sent;
      }
    }
    if lastErr.None? {
      return Outcome.Faulted(NO_BACKEND), calls, sent;
    }
    return Outcome.Faulted(lastErr.value), calls, sent;
  }

  method MakeWire(c: Chain, i: nat, id: string, info: ModelInfo) returns (wire: string)
    requires i < |c.models| && id == c.Routed(i) && c.Backend(i).Some? && c.Backend(i).value.1 == info
    ensures wire == c.Wire(i)
  {
    hide Chain.Routed, TrimSpace;
    var normalised := TrimSpace(id);
    for k := 0 to |VENDORS|
      invariant WithoutPrefix(normalised, VENDORS, 0) == WithoutPrefix(normalised, VENDORS, k)
    {
      if HasPrefix(normalised, VENDORS[k]) {
        normalised := TrimPrefix(normalised, VENDORS[k]);
        return c.world.wireName([info.id, normalised, info.upstreamModel], info.upstreamModel);
      }
    }
    return c.world.wireName([info.id, normalised, info.upstreamModel], info.upstreamModel);
  }

  // The fault reported is that of the last eligible entry, and there is none exactly when no entry is eligible.
  lemma {:induction false} LastFaultIsLast(c: Chain, n: nat)
    requires n <= |c.models|
    ensures c.LastFault(n).None? <==> forall i :: 0 <= i < n ==> !c.Eligible(i)
    ensures c.LastFault(n).Some? ==>
              exists i :: 0 <= i < n && c.Eligible(i) && c.LastFault(n) == Some(c.FaultAt(i))
                && forall k :: i < k < n ==> !c.Eligible(k)
  {
    hide Chain.Eligible, Chain.FaultAt, Chain.Backend, Chain.AnswerAt, IsRetriable, Renderable;
    if n > 0 {
      LastFaultStep(c, n);
      hide Chain.LastFault;
      if c.Eligible(n - 1) {
        assert c.LastFault(n) == Some(c.FaultAt(n - 1));
      } else {
        LastFaultIsLast(c, n - 1);
      }
    }
  }

  lemma LastFaultStep(c: Chain, n: nat)
    requires 0 < n <= |c.models|
    ensures c.LastFault(n) == if c.Eligible(n - 1) then Some(c.FaultAt(n - 1)) else c.LastFault(n - 1)
  {
    hide Chain.Eligible, Chain.FaultAt;
  }

  /** Without any eligible entry nothing is called and the call says so; with one, it never does on its own account. */
  lemma {:induction false} NoBackendExactly(c: Chain)
    ensures (forall i :: 0 <= i < |c.models| ==> !c.Eligible(i)) ==>
              c.OutcomeAt(c.FirstDecisive(0)) == Outcome.Faulted(NO_BACKEND) && c.Calls(|c.models|) == []
    ensures (exists i :: 0 <= i < |c.models| && c.Eligible(i)) && c.OutcomeAt(c.FirstDecisive(0)).Faulted? ==>
              exists i :: 0 <= i < |c.models| && c.Eligible(i) && c.OutcomeAt(c.FirstDecisive(0)).fault == c.FaultAt(i)
  {
    hide Chain.Eligible, Chain.FaultAt, Chain.Delivers, IsRetriable;
    LastFaultIsLast(c, |c.models|);
    if forall i :: 0 <= i < |c.models| ==> !c.Eligible(i) {
      NoCalls(c, |c.models|);
    }
  }

  lemma {:induction false} NoCalls(c: Chain, n: nat)
    requires n <= |c.models| && forall i :: 0 <= i < n ==> !c.Tried(i)
    ensures c.Calls(n) == []
  {
    hide Chain.Tried;
    if n > 0 {
      NoCalls(c, n - 1);
    }
  }

  /** The calls are those of the tried entries, in order and once each, and never of the fallback itself. */
  lemma {:induction false} CallsAreOfTriedEntries(c: Chain, n: nat)
    requires n <= |c.models|
    ensures forall k :: 0 <= k < |c.Calls(n)| ==>
              var call := c.Calls(n)[k];
              call.at < n && c.Tried(call.at) && call == c.CallAt(call.at) && call.provider != "xiangyun"
    ensures forall j, k :: 0 <= j < k < |c.Calls(n)| ==> c.Calls(n)[j].at < c.Calls(n)[k].at
    ensures forall i :: 0 <= i < n && c.Tried(i) ==> c.CallAt(i) in c.Calls(n)
  {
    hide Chain.Eligible, Chain.Wire, Chain.Calls;
    CallsNext(c, n);
    if n > 0 {
      CallsAreOfTriedEntries(c, n - 1);
    }
  }

  lemma CallsNext(c: Chain, n: nat)
    requires n <= |c.models|
    ensures n == 0 ==> c.Calls(n) == []
    ensures n > 0 ==> c.Calls(n) == c.Calls(n - 1) + if c.Tried(n - 1) then [c.CallAt(n - 1)] else []
  {
    hide Chain.Tried, Chain.Wire;
  }

  /**
   The HTTP requests of the calls for the first n entries are at most the sum, over the tried
   ones, of the exchanges asked for times one more than the retries of the adapter's client.
   */
  lemma {:induction false} RequestsWithinBudget(c: Chain, n: nat)
    requires n <= |c.models|
    ensures c.Requests(n) <= c.Budget(n)
  {
    hide Chain.Backend, Chain.Eligible, Adapters.CallOf, Adapters.Budget;
    if n > 0 {
      RequestsWithinBudget(c, n - 1);
      if c.Tried(n - 1) {
        Adapters.CallWithinBudget(c.world.adapters(c.Backend(n - 1).value.0), c.request.n, c.world.upstreams(n - 1));
      }
    }
  }
}
