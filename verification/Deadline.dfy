/** Deadlines handed down a chain of calls: each service reduces its inbound deadline by the time it
    has spent and passes the rest on (frontik/balancing_client.py). Times are in milliseconds. */
module Deadline {
  import opened Common

  /** int(x): towards zero. */
  function Truncate(x: real): int {
    if x >= 0.0 then x.Floor else -((-x).Floor)
  }

  /** f'{x:.0f}': to the nearest integer, halves to the even one. */
  function Round(x: real): int {
    var f := x.Floor;
    var rest := x - f as real;
    if rest < 0.5 || (rest == 0.5 && f % 2 == 0) then f else f + 1
  }

  /** The inbound X-Deadline-Timeout-MS and X-Outer-Timeout-MS headers. */
  datatype Inbound = Inbound(deadline: Option<int>, outer: Option<int>)

  /** The inbound limit that applies: the deadline, or else a positive outer timeout. */
  function Limit(inbound: Inbound): Option<int> {
    if inbound.deadline.Some? then inbound.deadline
    else if inbound.outer.Some? && inbound.outer.value > 0 then inbound.outer
    else None
  }

  datatype Outbound = Sent(deadline: int, outer: int, timeout: real) | OutOfRequestTime

  function Modify(decrease: bool, inbound: Inbound, spent: real, timeout: real): Outbound {
    var outer := Round(timeout);
    if decrease && Limit(inbound).Some? then
      var left := Truncate(Limit(inbound).value as real - spent);
      var deadline := if left as real <= timeout then left as real else timeout;
      if deadline <= 0.0 then OutOfRequestTime else Sent(Round(deadline), outer, deadline)
    else Sent(outer, outer, timeout)
  }

  /** The request being modified. */
  class RequestBuilder {
    var requestTimeout: real
    var outerHeader: Option<int>
    var deadlineHeader: Option<int>

    constructor (timeout: real)
      ensures requestTimeout == timeout && outerHeader == None && deadlineHeader == None
    {
      requestTimeout, outerHeader, deadlineHeader := timeout, None, None;
    }

    /** raised: OutOfRequestTime; the outer header is already set then. */
    method ModifyRequest(decrease: bool, inbound: Inbound, spent: real) returns (raised: bool)
      modifies this
      ensures outerHeader == Some(Round(old(requestTimeout)))
      ensures match Modify(decrease, inbound, spent, old(requestTimeout))
              case OutOfRequestTime =>
                raised && requestTimeout == old(requestTimeout) && deadlineHeader == old(deadlineHeader)
              case Sent(deadline, _, timeout) =>
                !raised && requestTimeout == timeout && deadlineHeader == Some(deadline)
    {
      var timeout := requestTimeout;
      outerHeader := Some(Round(timeout));
      if decrease && (inbound.deadline.Some? || (inbound.outer.Some? && inbound.outer.value > 0)) {
        var header := if inbound.deadline.Some? then inbound.deadline.value else inbound.outer.value;
        var left := Truncate(header as real - spent) as real;
        var deadline := if left <= timeout then left else timeout;
        if deadline <= 0.0 {
          return true;
        }
        deadlineHeader := Some(Round(deadline));
        requestTimeout := deadline;
      } else {
        deadlineHeader := Some(Round(timeout));
      }
      return false;
    }
  }

  /******* One hop *******/

  lemma RoundIsMonotone(x: real, n: int)
    ensures x <= n as real ==> Round(x) <= n
    ensures x >= n as real ==> Round(x) >= n
  {
    if x <= n as real {
      assert x.Floor <= n;
    }
    if x >= n as real {
      assert x.Floor >= n;
    }
  }

  function Min(a: int, b: int): int {
    if a <= b then a else b
  }

  /** With an inbound limit, a hop raises exactly when less than a whole millisecond is left or the
      request has no timeout; otherwise the header it sends is the smaller of the whole
      milliseconds left and the rounded timeout, and neither the header nor the client's own timeout
      exceeds what is left. */
  lemma HopKeepsBudget(inbound: Inbound, spent: real, timeout: real)
    requires Limit(inbound).Some?
    ensures var left := Limit(inbound).value as real - spent;
            match Modify(true, inbound, spent, timeout)
            case OutOfRequestTime => left < 1.0 || timeout <= 0.0
            case Sent(deadline, outer, reduced) =>
              && left >= 1.0 && timeout > 0.0
              && deadline == Min(Truncate(left), Round(timeout)) && deadline >= 0
              && deadline as real <= left
              && reduced <= left && reduced <= timeout
  {
    var left := Limit(inbound).value as real - spent;
    var whole := Truncate(left);
    RoundIsMonotone(whole as real, whole);
    RoundIsMonotone(timeout, whole);
    RoundIsMonotone(timeout, 0);
  }

  /** The same told from the headers alone: a deadline limits the hop whatever the outer timeout says,
      a positive outer timeout does if there is no deadline, and in every other case, or with the
      option off, both headers carry the request's own timeout, which stays as it is. */
  lemma HopOnHeaders(decrease: bool, deadline: Option<int>, outer: Option<int>, spent: real, timeout: real)
    ensures var out := Modify(decrease, Inbound(deadline, outer), spent, timeout);
            && (decrease && deadline.Some? ==> Limited(out, deadline.value as real - spent, timeout))
            && (decrease && deadline.None? && outer.Some? && outer.value > 0 ==>
                  Limited(out, outer.value as real - spent, timeout))
            && (!decrease || (deadline.None? && (outer.None? || outer.value <= 0)) ==>
                  out == Sent(Round(timeout), Round(timeout), timeout))
            && (out.Sent? ==> out.outer == Round(timeout))
  {
    if decrease && Limit(Inbound(deadline, outer)).Some? {
      HopKeepsBudget(Inbound(deadline, outer), spent, timeout);
    }
  }

  /** A hop with so much left. */
  predicate Limited(out: Outbound, left: real, timeout: real) {
    match out
    case OutOfRequestTime => left < 1.0 || timeout <= 0.0
    case Sent(deadline, _, reduced) =>
      && left >= 1.0 && timeout > 0.0 && deadline == Min(Truncate(left), Round(timeout))
      && reduced == (if Truncate(left) as real <= timeout then Truncate(left) as real else timeout)
  }

  /** Rounding and truncation, told by their distance: the nearest integer, the even one of two, and
      the next integer towards zero. */
  lemma RoundsToNearest(x: real)
    ensures -0.5 <= x - Round(x) as real <= 0.5
    ensures x - Round(x) as real == 0.5 || x - Round(x) as real == -0.5 ==> Round(x) % 2 == 0
    ensures x >= 0.0 ==> 0.0 <= x - Truncate(x) as real < 1.0
    ensures x <= 0.0 ==> 0.0 <= Truncate(x) as real - x < 1.0
  {
  }

  /******* Chains *******/

  /** One service of the chain: the time it had spent when it made its call, and the call's own
      timeout. */
  datatype Hop = Hop(spent: real, timeout: real)

  function Spent(hops: seq<Hop>): real {
    if hops == [] then 0.0 else Spent(hops[..|hops| - 1]) + hops[|hops| - 1].spent
  }

  /** What reaches the end of the chain, if every service on the way sends. */
  function Chain(first: Inbound, hops: seq<Hop>): Outbound
    requires hops != []
  {
    var n := |hops| - 1;
    if n == 0 then Modify(true, first, hops[0].spent, hops[0].timeout)
    else
      match Chain(first, hops[..n])
      case OutOfRequestTime => OutOfRequestTime
      case Sent(deadline, outer, _) =>
        Modify(true, Inbound(Some(deadline), Some(outer)), hops[n].spent, hops[n].timeout)
  }

  /** Over any number of hops, truncation and rounding never add time: the deadline sent on and the
      client's timeout are at most the first limit less everything spent, and a chain that has less
      than a millisecond left does not send. */
  lemma {:induction false} DeadlineBudget(first: Inbound, hops: seq<Hop>)
    requires hops != [] && Limit(first).Some?
    ensures var left := Limit(first).value as real - Spent(hops);
            && (Chain(first, hops).Sent? ==>
                  Chain(first, hops).deadline as real <= left && Chain(first, hops).timeout <= left)
            && (left < 1.0 ==> Chain(first, hops).OutOfRequestTime?)
  {
    var n := |hops| - 1;
    if n == 0 {
      HopKeepsBudget(first, hops[0].spent, hops[0].timeout);
      assert hops[..0] == [];
      assert Spent(hops) == Spent(hops[..0]) + hops[0].spent;
    } else {
      DeadlineBudget(first, hops[..n]);
      match Chain(first, hops[..n])
      case OutOfRequestTime =>
      case Sent(deadline, outer, _) =>
        HopKeepsBudget(Inbound(Some(deadline), Some(outer)), hops[n].spent, hops[n].timeout);
    }
  }
}
