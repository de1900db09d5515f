/** Whether a sign-in outlived a sign-out (`order` and the cutoff branch of `admit` in
    src/application/accounts.rs, the decision cache of src/infrastructure/accounts.rs). Instants
    are real seconds; a token only carries the whole second it was issued in. */
module Cutoff {
  import opened Results

  const DECISIONS_KEPT: real := 1800.0
  const MAX_DECISIONS := 10_000

  datatype Order = Before | After | SameSecond

  function OrderOf(issued: int, cutoff: real): Order {
    if issued as real + 1.0 <= cutoff then Before
    else if issued as real > cutoff then After
    else SameSecond
  }

  /** For a token issued at `t` and stamped with its second: `Before` and `After` are certain, and
      what is left is exactly the cutoff's own second, where both can be true. */
  lemma OrderIsCertain(t: real, cutoff: real)
    ensures OrderOf(t.Floor, cutoff).Before? ==> t < cutoff
    ensures OrderOf(t.Floor, cutoff).After? ==> cutoff < t
    ensures OrderOf(t.Floor, cutoff).SameSecond? <==> t.Floor as real <= cutoff < t.Floor as real + 1.0
    ensures OrderOf(t.Floor, cutoff).SameSecond? <==> cutoff.Floor == t.Floor
  {
  }

  lemma FloorIs(x: real, n: int)
    requires n as real <= x < n as real + 1.0
    ensures x.Floor == n
  {
  }

  /** Within the cutoff's second the stamp cannot tell: tokens of either side carry it. */
  lemma SameSecondIsUndecided(second: int, cutoff: real)
    requires second as real < cutoff < second as real + 1.0
    ensures var earlier, later := second as real, (cutoff + second as real + 1.0) / 2.0;
            && earlier < cutoff < later
            && earlier.Floor == later.Floor == second && OrderOf(second, cutoff).SameSecond?
  {
    FloorIs(second as real, second);
    FloorIs((cutoff + second as real + 1.0) / 2.0, second);
  }

  // ---------------------------------------------------------------- the rising cutoff

  /** `revoke_sessions_before`: the cutoff only rises. */
  function Revoked(cutoff: Option<real>, at: real): Option<real> {
    if cutoff.None? || cutoff.value < at then Some(at) else cutoff
  }

  function RevokedBy(cutoff: Option<real>, revocations: seq<real>): (latest: Option<real>)
    ensures cutoff.Some? ==> latest.Some?
    decreases |revocations|
  {
    if revocations == [] then cutoff else RevokedBy(Revoked(cutoff, revocations[0]), revocations[1..])
  }

  /** Whether `admit` turns a token away; `live` is what Accounts says of it. A token without an
      issue time does not survive any cutoff. */
  predicate Refused(issued: Option<int>, cutoff: Option<real>, live: bool) {
    cutoff.Some? &&
    (issued.None? || match OrderOf(issued.value, cutoff.value)
                     case Before => true
                     case After => false
                     case SameSecond => !live)
  }

  lemma {:induction false} CutoffOnlyRises(cutoff: Option<real>, revocations: seq<real>)
    requires cutoff.Some?
    ensures RevokedBy(cutoff, revocations).Some? && cutoff.value <= RevokedBy(cutoff, revocations).value
    ensures forall i :: 0 <= i < |revocations| ==> revocations[i] <= RevokedBy(cutoff, revocations).value
    decreases |revocations|
  {
    if revocations != [] {
      CutoffOnlyRises(Revoked(cutoff, revocations[0]), revocations[1..]);
    }
  }

  /** A token issued before a cutoff's second is refused, whatever Accounts says, and remains so
      through every later revocation. */
  lemma RefusedForever(issued: int, cutoff: real, revocations: seq<real>, live: bool)
    requires OrderOf(issued, cutoff).Before?
    ensures Refused(Some(issued), RevokedBy(Some(cutoff), revocations), live)
  {
    CutoffOnlyRises(Some(cutoff), revocations);
  }

  /** A sign-in really newer than every revocation so far is never refused while Accounts calls it
      live, and one really older by a second is always refused. */
  lemma RefusedExactlyWhenOld(t: real, first: real, revocations: seq<real>, live: bool)
    ensures var cutoff := RevokedBy(Some(first), revocations).value;
            && (t >= cutoff && live ==> !Refused(Some(t.Floor), Some(cutoff), live))
            && (t + 1.0 <= cutoff ==> Refused(Some(t.Floor), Some(cutoff), live))
  {
    CutoffOnlyRises(Some(first), revocations);
  }

  // ---------------------------------------------------------------- the decision cache

  /** The cache key hashes the cutoff with the token; equal keys are equal pairs. */
  datatype Key = Key(cutoff: real, token: string)

  datatype Decision = Decision(at: real, live: bool)

  /** An answer of Silicon Accounts, asked because of this key. */
  datatype Asked = Asked(key: Key, at: real, live: bool)

  predicate Fresh(cache: map<Key, Decision>, key: Key, now: real) {
    key in cache && now - cache[key].at < DECISIONS_KEPT
  }

  class Decisions {
    var cache: map<Key, Decision>
    ghost var asked: set<Asked>

    constructor ()
      ensures Valid() && cache == map[]
    {
      cache, asked := map[], {};
    }

    ghost predicate Valid()
      reads this
    {
      forall key :: key in cache ==> Asked(key, cache[key].at, cache[key].live) in asked
    }

    /** Answers other requests store while this one waits for its own. */
    method Meanwhile(others: seq<Asked>)
      requires Valid()
      modifies this
      ensures Valid() && asked == old(asked) + (set a | a in others)
    {
      for i := 0 to |others|
        invariant Valid() && asked == old(asked) + (set a | a in others[..i])
      {
        assert others[..i + 1] == others[..i] + [others[i]];
        asked := asked + {others[i]};
        cache := cache[others[i].key := Decision(others[i].at, others[i].live)];
      }
      assert others[..|others|] == others;
    }

    /** The answer for this token and this cutoff: one given within the last thirty minutes for
        the same pair, or a new one, asked for outside the lock while `others` come in between. If
        asking fails so does this, and nothing is stored. No answer for another cutoff is ever
        used. */
    method SignInLive(token: string, cutoff: real, now: real, introspection: Option<bool>, others: seq<Asked>)
      returns (live: Option<bool>)
      requires Valid()
      modifies this
      ensures Valid() && old(asked) <= asked
      ensures live.Some? ==> exists at :: now - DECISIONS_KEPT < at && Asked(Key(cutoff, token), at, live.value) in asked
      ensures live.None? <==> !Fresh(old(cache), Key(cutoff, token), now) && introspection.None?
      ensures Fresh(old(cache), Key(cutoff, token), now) ==>
                live == Some(old(cache)[Key(cutoff, token)].live) && asked == old(asked)
      ensures !Fresh(old(cache), Key(cutoff, token), now) ==>
                && live == introspection
                && (live.Some? ==> Key(cutoff, token) in cache && cache[Key(cutoff, token)] == Decision(now, live.value))
                && asked == old(asked) + (set a | a in others)
                            + (if live.Some? then {Asked(Key(cutoff, token), now, live.value)} else {})
    {
      var key := Key(cutoff, token);
      if |cache| > MAX_DECISIONS {
        cache := map k | k in cache && now - cache[k].at < DECISIONS_KEPT :: cache[k];
      }
      if Fresh(cache, key, now) {
        assert Asked(key, cache[key].at, cache[key].live) in asked;
        return Some(cache[key].live);
      }
      Meanwhile(others);
      if introspection.None? {
        return None;
      }
      asked := asked + {Asked(key, now, introspection.value)};
      cache := cache[key := Decision(now, introspection.value)];
      return introspection;
    }
  }
}
