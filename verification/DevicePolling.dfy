/** Waiting for a device sign-in (`wait_for_device` in crates/client/src/accounts.rs), against
    section 3.5 of RFC 8628. Times are in milliseconds. */
module DevicePolling {
  const SECOND := 1000
  const DEVICE_MAX_WAIT := 600 * SECOND

  datatype Answer = Pending | SlowDown | Approved | Retryable | Refused

  /** How a poll goes: how late the sleep before it wakes, how long it takes, what it hears. */
  datatype Reply = Reply(late: nat, took: nat, answer: Answer)

  /** A poll and the time it was scheduled for. */
  datatype Poll = Poll(at: int, answer: Answer)

  datatype Ending = SignedIn | Failed | Expired

  function AtLeastOne(n: nat): nat {
    if n < 1 then 1 else n
  }

  function Lifetime(expiresIn: nat): int {
    if AtLeastOne(expiresIn) * SECOND < DEVICE_MAX_WAIT then AtLeastOne(expiresIn) * SECOND else DEVICE_MAX_WAIT
  }

  /** How often the first `n` polls were told to slow down. */
  function SlowDowns(polls: seq<Poll>, n: nat): nat
    requires n <= |polls|
  {
    if n == 0 then 0 else SlowDowns(polls, n - 1) + if polls[n - 1].answer.SlowDown? then 1 else 0
  }

  lemma {:induction false} SlowDownsOf(polls: seq<Poll>, more: seq<Poll>, n: nat)
    requires n <= |polls|
    ensures SlowDowns(polls + more, n) == SlowDowns(polls, n)
  {
    if n > 0 {
      SlowDownsOf(polls, more, n - 1);
    }
  }

  /** 0 + 1 + ... + (k - 1). */
  function Triangle(k: nat): nat {
    if k == 0 then 0 else Triangle(k - 1) + k - 1
  }

  lemma {:induction false} TriangleFormula(k: nat)
    ensures Triangle(k) == k * (k - 1) / 2
  {
    if k > 0 {
      TriangleFormula(k - 1);
      assert k * (k - 1) == (k - 1) * (k - 2) + 2 * (k - 1);
      assert ((k - 1) * (k - 2) + 2 * (k - 1)) / 2 == (k - 1) * (k - 2) / 2 + (k - 1);
    }
  }

  /** The time `n` polls with `k` slow_downs take at least. */
  function Needed(interval: nat, n: nat, k: nat): nat {
    Total(interval, n) + 5 * Triangle(k)
  }

  function Total(interval: nat, n: nat): nat {
    if n == 0 then 0 else Total(interval, n - 1) + interval
  }

  lemma {:induction false} NeededFormula(interval: nat, n: nat, k: nat)
    ensures Needed(interval, n, k) == n * interval + 5 * (k * (k - 1) / 2)
    decreases n
  {
    TriangleFormula(k);
    if n > 0 {
      NeededFormula(interval, n - 1, k);
    }
  }

  function LastPoll(start: int, polls: seq<Poll>): int {
    if polls == [] then start else polls[|polls| - 1].at
  }

  /** When the client is done with its first `n` polls. */
  function Ready(start: int, peer: nat -> Reply, polls: seq<Poll>, n: nat): int
    requires n <= |polls|
  {
    if n == 0 then start else polls[n - 1].at + peer(n - 1).late + peer(n - 1).took
  }

  /** Poll `i` is scheduled the interval, and five seconds more for every slow_down so far, after
      the client was done with the one before it, and hears what the peer says to it. */
  predicate Scheduled(start: int, interval: nat, peer: nat -> Reply, polls: seq<Poll>, i: nat)
    requires i < |polls|
  {
    && polls[i].at == Ready(start, peer, polls, i) + (interval + 5 * SlowDowns(polls, i)) * SECOND
    && polls[i].answer == peer(i).answer
  }

  predicate Waits(a: Answer) {
    a.Pending? || a.SlowDown? || a.Retryable?
  }

  predicate AllScheduled(start: int, interval: nat, peer: nat -> Reply, polls: seq<Poll>) {
    forall i :: 0 <= i < |polls| ==> Scheduled(start, interval, peer, polls, i)
  }

  /** Every poll is within the lifetime, and together they are no more than fit into it. */
  predicate WithinLifetime(start: int, interval: nat, lifetime: int, polls: seq<Poll>) {
    && (forall i :: 0 <= i < |polls| ==> polls[i].at <= start + lifetime)
    && Needed(interval, |polls|, SlowDowns(polls, |polls|)) * SECOND <= LastPoll(start, polls) - start <= lifetime
  }

  /** The gap to the poll before is at least the interval and what the slow_downs have added. */
  lemma GapIsLongEnough(start: int, interval: nat, peer: nat -> Reply, polls: seq<Poll>, i: nat)
    requires i < |polls| && Scheduled(start, interval, peer, polls, i)
    ensures (if i == 0 then start else polls[i - 1].at) + (interval + 5 * SlowDowns(polls, i)) * SECOND <= polls[i].at
  {
  }

  lemma ScheduledStill(start: int, interval: nat, peer: nat -> Reply, polls: seq<Poll>, poll: Poll, i: nat)
    requires i <= |polls|
    requires if i < |polls| then Scheduled(start, interval, peer, polls, i)
             else poll.at == Ready(start, peer, polls, i) + (interval + 5 * SlowDowns(polls, i)) * SECOND
                  && poll.answer == peer(i).answer
    ensures Scheduled(start, interval, peer, polls + [poll], i)
  {
    SlowDownsOf(polls, [poll], i);
    var longer := polls + [poll];
    assert i > 0 ==> longer[i - 1] == polls[i - 1];
    assert longer[i] == if i < |polls| then polls[i] else poll;
  }

  lemma AllScheduledStill(start: int, interval: nat, peer: nat -> Reply, polls: seq<Poll>, poll: Poll)
    requires AllScheduled(start, interval, peer, polls) && poll.answer == peer(|polls|).answer
    requires poll.at == Ready(start, peer, polls, |polls|) + (interval + 5 * SlowDowns(polls, |polls|)) * SECOND
    ensures AllScheduled(start, interval, peer, polls + [poll])
  {
    forall i | 0 <= i <= |polls| ensures Scheduled(start, interval, peer, polls + [poll], i) {
      ScheduledStill(start, interval, peer, polls, poll, i);
    }
  }

  /** One more poll takes its interval, and a slow_down on top needs no more than that left. */
  lemma NeededGrows(interval: nat, n: nat, k: nat)
    ensures Needed(interval, n + 1, k) <= Needed(interval, n + 1, k + 1) == Needed(interval, n, k) + interval + 5 * k
  {
  }

  lemma SlowDownsGrow(polls: seq<Poll>, poll: Poll)
    ensures SlowDowns(polls + [poll], |polls| + 1) == SlowDowns(polls, |polls|) + if poll.answer.SlowDown? then 1 else 0
  {
    SlowDownsOf(polls, [poll], |polls|);
  }

  lemma LifetimeHolds(start: int, interval: nat, lifetime: int, polls: seq<Poll>, poll: Poll)
    requires WithinLifetime(start, interval, lifetime, polls)
    requires LastPoll(start, polls) + (interval + 5 * SlowDowns(polls, |polls|)) * SECOND <= poll.at <= start + lifetime
    ensures WithinLifetime(start, interval, lifetime, polls + [poll])
  {
    var longer, n, k := polls + [poll], |polls|, SlowDowns(polls, |polls|);
    SlowDownsGrow(polls, poll);
    NeededGrows(interval, n, k);
    assert Needed(interval, n + 1, SlowDowns(longer, n + 1)) * SECOND <= LastPoll(start, longer) - start;
  }

  /** One more poll, on time. */
  lemma PollKeeps(start: int, interval: nat, lifetime: int, peer: nat -> Reply, polls: seq<Poll>, poll: Poll)
    requires AllScheduled(start, interval, peer, polls) && WithinLifetime(start, interval, lifetime, polls)
    requires LastPoll(start, polls) <= Ready(start, peer, polls, |polls|) && poll.answer == peer(|polls|).answer
    requires poll.at == Ready(start, peer, polls, |polls|) + (interval + 5 * SlowDowns(polls, |polls|)) * SECOND
    requires poll.at <= start + lifetime
    ensures var longer, n, reply := polls + [poll], |polls| + 1, peer(|polls|);
            && AllScheduled(start, interval, peer, longer) && WithinLifetime(start, interval, lifetime, longer)
            && SlowDowns(longer, n) == SlowDowns(polls, |polls|) + (if reply.answer.SlowDown? then 1 else 0)
            && LastPoll(start, longer) <= Ready(start, peer, longer, n) == poll.at + reply.late + reply.took
  {
    AllScheduledStill(start, interval, peer, polls, poll);
    LifetimeHolds(start, interval, lifetime, polls, poll);
    SlowDownsGrow(polls, poll);
  }

  /** Polls until approved, refused or out of time, whatever the peer does: it always ends; every
      poll is scheduled exactly as asked and within the code's lifetime, ten minutes at most; that
      bounds how many polls and slow_downs there can be; and it gives up only when the next poll
      would come too late. */
  method WaitForDevice(start: int, expiresIn: nat, interval: nat, peer: nat -> Reply)
    returns (ending: Ending, polls: seq<Poll>)
    ensures Lifetime(expiresIn) <= DEVICE_MAX_WAIT
    ensures AllScheduled(start, AtLeastOne(interval), peer, polls)
    ensures WithinLifetime(start, AtLeastOne(interval), Lifetime(expiresIn), polls)
    ensures forall i :: 0 <= i < |polls| - 1 ==> Waits(polls[i].answer)
    ensures ending.Expired? <==> polls == [] || Waits(polls[|polls| - 1].answer)
    ensures ending.SignedIn? <==> polls != [] && polls[|polls| - 1].answer.Approved?
    ensures ending.Expired? ==>
              Ready(start, peer, polls, |polls|) + (AtLeastOne(interval) + 5 * SlowDowns(polls, |polls|)) * SECOND
              > start + Lifetime(expiresIn)
  {
    var deadline := start + Lifetime(expiresIn);
    var now, wait := start, AtLeastOne(interval);
    polls := [];
    while true
      invariant wait == AtLeastOne(interval) + 5 * SlowDowns(polls, |polls|)
      invariant LastPoll(start, polls) <= now == Ready(start, peer, polls, |polls|)
      invariant forall i :: 0 <= i < |polls| ==> Waits(polls[i].answer)
      invariant AllScheduled(start, AtLeastOne(interval), peer, polls)
      invariant WithinLifetime(start, AtLeastOne(interval), Lifetime(expiresIn), polls)
      decreases deadline - now
    {
      var next := now + wait * SECOND;
      if next > deadline {
        return Expired, polls;
      }
      var reply := peer(|polls|);
      PollKeeps(start, AtLeastOne(interval), Lifetime(expiresIn), peer, polls, Poll(next, reply.answer));
      polls := polls + [Poll(next, reply.answer)];
      now := next + reply.late + reply.took;
      match reply.answer
      case SlowDown => wait := wait + 5;
      case Approved => return SignedIn, polls;
      case Refused => return Failed, polls;
      case _ =>
    }
  }
}
