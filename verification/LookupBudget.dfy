/** The token bucket in front of account lookups (`spend_lookup` in src/infrastructure/accounts.rs),
    with reals for floating-point seconds and tokens. */
module LookupBudget {
  const LIMIT: real := 550.0

  /** `tokens` were left when the clock was last reset, at `refreshed`. */
  datatype Budget = Budget(tokens: real, refreshed: real)

  /** A call reads the time gone by at `read` and resets the clock at `reset`, a little later. */
  datatype Call = Call(read: real, reset: real)

  function Rate(seconds: real): real {
    seconds * LIMIT / 60.0
  }

  function Refilled(budget: Budget, call: Call): real {
    var tokens := budget.tokens + Rate(call.read - budget.refreshed);
    if tokens < LIMIT then tokens else LIMIT
  }

  predicate Granted(budget: Budget, call: Call) {
    Refilled(budget, call) >= 1.0
  }

  function After(budget: Budget, call: Call): Budget {
    Budget(if Granted(budget, call) then Refilled(budget, call) - 1.0 else Refilled(budget, call), call.reset)
  }

  function Initial(now: real): Budget {
    Budget(LIMIT, now)
  }

  function Run(budget: Budget, calls: seq<Call>): Budget
    decreases |calls|
  {
    if calls == [] then budget else Run(After(budget, calls[0]), calls[1..])
  }

  function Grants(budget: Budget, calls: seq<Call>): nat
    decreases |calls|
  {
    if calls == [] then 0
    else (if Granted(budget, calls[0]) then 1 else 0) + Grants(After(budget, calls[0]), calls[1..])
  }

  /** Calls one after the other, none before `from` or after `until`. */
  predicate Between(from: real, calls: seq<Call>, until: real)
    decreases |calls|
  {
    if calls == [] then from <= until
    else from <= calls[0].read <= calls[0].reset && Between(calls[0].reset, calls[1..], until)
  }

  predicate Balanced(budget: Budget) {
    0.0 <= budget.tokens <= LIMIT
  }

  lemma RateGrows(a: real, b: real)
    requires a <= b
    ensures Rate(a) <= Rate(b) && Rate(b) == Rate(a) + Rate(b - a)
  {
  }

  /** The balance stays between nothing and the limit. */
  lemma {:induction false} BalanceStays(budget: Budget, calls: seq<Call>, until: real)
    requires Balanced(budget) && Between(budget.refreshed, calls, until)
    ensures Balanced(Run(budget, calls)) && budget.refreshed <= Run(budget, calls).refreshed <= until
    decreases |calls|
  {
    if calls != [] {
      RateGrows(0.0, calls[0].read - budget.refreshed);
      BalanceStays(After(budget, calls[0]), calls[1..], until);
    }
  }

  /** What is granted was there or has flowed in since. */
  lemma {:induction false} GrantsAreCovered(budget: Budget, calls: seq<Call>, until: real)
    requires Balanced(budget) && Between(budget.refreshed, calls, until)
    ensures Grants(budget, calls) as real <= budget.tokens + Rate(until - budget.refreshed)
    decreases |calls|
  {
    UntilLast(budget.refreshed, calls, until);
    RateGrows(0.0, until - budget.refreshed);
    if calls != [] {
      var after := After(budget, calls[0]);
      BalanceStays(budget, [calls[0]], calls[0].reset);
      GrantsAreCovered(after, calls[1..], until);
      UntilLast(calls[0].reset, calls[1..], until);
      RateGrows(calls[0].read - budget.refreshed, calls[0].reset - budget.refreshed);
      RateGrows(calls[0].reset - budget.refreshed, until - budget.refreshed);
    }
  }

  lemma {:induction false} UntilLast(from: real, calls: seq<Call>, until: real)
    requires Between(from, calls, until)
    ensures from <= until
    decreases |calls|
  {
    if calls != [] {
      UntilLast(calls[0].reset, calls[1..], until);
    }
  }

  /** In every run, any `seconds` grant at most 550 lookups and 550 a minute: after any calls at
      all, those that fall between `from` and `from + seconds`. */
  lemma WindowBound(start: real, earlier: seq<Call>, window: seq<Call>, from: real, seconds: real)
    requires Between(start, earlier, from) && Between(from, window, from + seconds)
    ensures Grants(Run(Initial(start), earlier), window) as real <= LIMIT + LIMIT * seconds / 60.0
  {
    var budget := Run(Initial(start), earlier);
    BalanceStays(Initial(start), earlier, from);
    UntilLast(from, window, from + seconds);
    RateGrows(0.0, seconds);
    if window != [] {
      var first, after := window[0], After(budget, window[0]);
      RateGrows(0.0, first.read - budget.refreshed);
      UntilLast(first.reset, window[1..], from + seconds);
      GrantsAreCovered(after, window[1..], from + seconds);
      RateGrows(from + seconds - first.reset, seconds);
    }
  }

  /** Nobody is refused for long: sixty 550ths of a second after any call the next is granted. */
  lemma GrantedAgainSoon(budget: Budget, call: Call)
    requires Balanced(budget) && call.read - budget.refreshed >= 60.0 / LIMIT
    ensures Granted(budget, call)
  {
    RateGrows(60.0 / LIMIT, call.read - budget.refreshed);
  }

  /** The budget under its lock. */
  class Bucket {
    var budget: Budget

    constructor (now: real)
      ensures budget == Initial(now)
    {
      budget := Initial(now);
    }

    method Spend(call: Call) returns (granted: bool)
      requires Balanced(budget) && budget.refreshed <= call.read <= call.reset
      modifies this
      ensures budget == After(old(budget), call) && Balanced(budget)
      ensures granted == Granted(old(budget), call)
    {
      RateGrows(0.0, call.read - budget.refreshed);
      var tokens := budget.tokens + (call.read - budget.refreshed) * LIMIT / 60.0;
      if tokens > LIMIT {
        tokens := LIMIT;
      }
      budget := Budget(tokens, call.reset);
      granted := tokens >= 1.0;
      if granted {
        budget := budget.(tokens := tokens - 1.0);
      }
    }
  }
}
