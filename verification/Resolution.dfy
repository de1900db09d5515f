/** Finding the accounts a response names (`render_accounts` in src/api/render.rs): from the cache,
    and for a bounded number of the others from the directory. */
module Resolution {
  import opened Basics
  import opened Results
  import opened R = Render

  const MAX_RENDER_LOOKUPS := 20

  /** What the directory answers for a uuid that is not cached. */
  datatype Answer = Found(account: Account) | Gone(stored: Option<Account>) | Unavailable

  // ---------------------------------------------------------------- which uuids are asked for

  /** A listing of a set, in any order. */
  predicate Lists(list: seq<string>, ids: set<string>) {
    && (forall i :: 0 <= i < |list| ==> list[i] in ids)
    && (forall i, j :: 0 <= i < j < |list| ==> list[i] != list[j])
    && (forall id :: id in ids ==> id in list)
  }

  /** The old ids whose account is not cached. */
  function Waiting(used: map<string, string>, cache: Accounts): set<string> {
    set old_ | old_ in used && used[old_] !in cache
  }

  /** The entries to look up: the uuids a response names, and then the account of every old id it
      names, which may be one of those again. */
  function Entries(named: seq<string>, olds: seq<string>, used: map<string, string>): (entries: seq<string>)
    requires forall i :: 0 <= i < |olds| ==> olds[i] in used
    ensures |entries| == |named| + |olds|
    ensures forall i :: 0 <= i < |named| ==> entries[i] == named[i]
    ensures forall i :: 0 <= i < |olds| ==> entries[|named| + i] == used[olds[i]]
  {
    named + seq(|olds|, i requires 0 <= i < |olds| => used[olds[i]])
  }

  function Asked(named: seq<string>, olds: seq<string>, used: map<string, string>): seq<string>
    requires forall i :: 0 <= i < |olds| ==> olds[i] in used
  {
    var entries := Entries(named, olds, used);
    entries[..Min(|entries|, MAX_RENDER_LOOKUPS)]
  }

  /** Every account that is missing is asked for. */
  predicate AllAsked(missing: set<string>, named: seq<string>, olds: seq<string>, used: map<string, string>)
    requires forall i :: 0 <= i < |olds| ==> olds[i] in used
  {
    forall id :: id in missing ==> id in Asked(named, olds, used)
  }

  /** The missing accounts: named themselves, or behind an old id. */
  function Missing(uuids: set<string>, used: map<string, string>, cache: Accounts): set<string> {
    (uuids - cache.Keys) + (set old_ | old_ in Waiting(used, cache) :: used[old_])
  }

  /** The old ids of one account. */
  function OldIds(used: map<string, string>, cache: Accounts, id: string): set<string> {
    set old_ | old_ in Waiting(used, cache) && used[old_] == id
  }

  /** Named accounts fit, and an account only old ids name fits even if its own come last. */
  predicate FitsInAnyOrder(uuids: set<string>, used: map<string, string>, cache: Accounts) {
    && |uuids - cache.Keys| <= MAX_RENDER_LOOKUPS
    && forall id :: id in Missing(uuids, used, cache) && id !in uuids - cache.Keys ==>
         |uuids - cache.Keys| + |Waiting(used, cache)| - |OldIds(used, cache, id)| < MAX_RENDER_LOOKUPS
  }

  lemma {:induction false} ListedSize(list: seq<string>, ids: set<string>)
    requires forall i :: 0 <= i < |list| ==> list[i] in ids
    requires forall i, j :: 0 <= i < j < |list| ==> list[i] != list[j]
    ensures |list| <= |ids| && ((forall id :: id in ids ==> id in list) ==> |list| == |ids|)
  {
    if list == [] {
      if forall id :: id in ids ==> id in list {
        assert ids == {};
      }
    } else {
      var n := |list| - 1;
      assert forall id :: id in ids - {list[n]} && id in list ==> id in list[..n];
      ListedSize(list[..n], ids - {list[n]});
    }
  }

  /** In any order, the entries that fit bring every missing account with them. */
  lemma FittingIsAsked(
    uuids: set<string>, used: map<string, string>, cache: Accounts, named: seq<string>, olds: seq<string>, id: string)
    requires FitsInAnyOrder(uuids, used, cache) && id in Missing(uuids, used, cache)
    requires Lists(named, uuids - cache.Keys) && Lists(olds, Waiting(used, cache))
    ensures id in Asked(named, olds, used)
  {
    var entries, asked := Entries(named, olds, used), Asked(named, olds, used);
    ListedSize(named, uuids - cache.Keys);
    if id in uuids - cache.Keys {
      var i :| 0 <= i < |named| && named[i] == id;
      assert asked[i] == id;
    } else if id !in asked {
      ListedSize(olds, Waiting(used, cache));
      LateIsCrowdedOut(uuids, used, cache, named, olds, id);
    }
  }

  /** An account that is not asked for comes after twenty other entries. */
  lemma LateIsCrowdedOut(
    uuids: set<string>, used: map<string, string>, cache: Accounts, named: seq<string>, olds: seq<string>, id: string)
    requires Lists(named, uuids - cache.Keys) && Lists(olds, Waiting(used, cache))
    requires |named| == |uuids - cache.Keys| <= MAX_RENDER_LOOKUPS && |olds| == |Waiting(used, cache)|
    requires id in Missing(uuids, used, cache) && id !in uuids - cache.Keys && id !in Asked(named, olds, used)
    ensures |named| + |Waiting(used, cache)| - |OldIds(used, cache, id)| >= MAX_RENDER_LOOKUPS
  {
    var entries := Entries(named, olds, used);
    var old_ :| old_ in Waiting(used, cache) && used[old_] == id;
    var k :| 0 <= k < |olds| && olds[k] == old_;
    assert entries[|named| + k] == id;
    assert |entries| > MAX_RENDER_LOOKUPS;
    EarlyAreOthers(used, cache, named, olds, id);
    ListedSize(olds[..MAX_RENDER_LOOKUPS - |named|], Waiting(used, cache) - OldIds(used, cache, id));
    SubsetLeaves(Waiting(used, cache), OldIds(used, cache, id));
  }

  /** The old ids that are asked for lead to other accounts than one that is not. */
  lemma EarlyAreOthers(used: map<string, string>, cache: Accounts, named: seq<string>, olds: seq<string>, id: string)
    requires Lists(olds, Waiting(used, cache)) && |named| <= MAX_RENDER_LOOKUPS <= |named| + |olds|
    requires id !in Asked(named, olds, used)
    ensures var early := olds[..MAX_RENDER_LOOKUPS - |named|];
            forall i :: 0 <= i < |early| ==> early[i] in Waiting(used, cache) - OldIds(used, cache, id)
  {
    var asked := Asked(named, olds, used);
    forall i | 0 <= i < MAX_RENDER_LOOKUPS - |named| ensures olds[i] in Waiting(used, cache) - OldIds(used, cache, id) {
      assert asked[|named| + i] == used[olds[i]];
    }
  }

  lemma SubsetLeaves<T>(all: set<T>, some: set<T>)
    requires some <= all
    ensures |all - some| == |all| - |some|
  {
    assert all == (all - some) + some;
  }

  lemma {:induction false} Listing(ids: set<string>) returns (list: seq<string>)
    ensures Lists(list, ids) && |list| == |ids|
  {
    if ids == {} {
      list := [];
    } else {
      var id :| id in ids;
      var rest := Listing(ids - {id});
      list := rest + [id];
    }
  }

  lemma Joined(first: seq<string>, a: set<string>, second: seq<string>, b: set<string>)
    requires Lists(first, a) && Lists(second, b) && a !! b
    ensures Lists(first + second, a + b)
  {
  }

  /** If more accounts are named than fit, the one listed after the twentieth is missed. */
  lemma TooManyNamed(missing: set<string>, named: seq<string>, olds: seq<string>, used: map<string, string>)
    requires forall i :: 0 <= i < |olds| ==> olds[i] in used
    requires |named| > MAX_RENDER_LOOKUPS && forall i, j :: 0 <= i < j < |named| ==> named[i] != named[j]
    requires named[MAX_RENDER_LOOKUPS] in missing
    ensures !AllAsked(missing, named, olds, used)
  {
    var asked := Asked(named, olds, used);
    assert forall i :: 0 <= i < |asked| ==> asked[i] == named[i];
  }

  /** An account whose old ids come after twenty other entries is missed. */
  lemma OwnComeLast(missing: set<string>, named: seq<string>, first: seq<string>, last: seq<string>, used: map<string, string>, id: string)
    requires forall i :: 0 <= i < |first + last| ==> (first + last)[i] in used
    requires |named| + |first| >= MAX_RENDER_LOOKUPS && id in missing && id !in named
    requires forall i :: 0 <= i < |first| ==> first[i] in used && used[first[i]] != id
    ensures !AllAsked(missing, named, first + last, used)
  {
    var entries, asked := Entries(named, first + last, used), Asked(named, first + last, used);
    forall i | 0 <= i < |asked| ensures asked[i] != id {
      if i < |named| {
        assert asked[i] == named[i];
      } else {
        assert asked[i] == used[(first + last)[i - |named|]] == used[first[i - |named|]];
      }
    }
  }

  /** An order of the old ids with those of one account last. */
  lemma OwnLast(used: map<string, string>, cache: Accounts, id: string) returns (first: seq<string>, last: seq<string>)
    ensures Lists(first + last, Waiting(used, cache))
    ensures |first| == |Waiting(used, cache)| - |OldIds(used, cache, id)|
    ensures forall i :: 0 <= i < |first| ==> first[i] in used && used[first[i]] != id
  {
    var all, own := Waiting(used, cache), OldIds(used, cache, id);
    SubsetLeaves(all, own);
    first := Listing(all - own);
    last := Listing(own);
    Joined(first, all - own, last, own);
    assert (all - own) + own == all;
  }

  lemma SomeOrderMisses(uuids: set<string>, used: map<string, string>, cache: Accounts)
    returns (named: seq<string>, olds: seq<string>)
    requires !FitsInAnyOrder(uuids, used, cache)
    ensures Lists(named, uuids - cache.Keys) && Lists(olds, Waiting(used, cache))
    ensures !AllAsked(Missing(uuids, used, cache), named, olds, used)
  {
    named := Listing(uuids - cache.Keys);
    if |uuids - cache.Keys| > MAX_RENDER_LOOKUPS {
      olds := Listing(Waiting(used, cache));
      TooManyNamed(Missing(uuids, used, cache), named, olds, used);
    } else {
      var id :| id in Missing(uuids, used, cache) && id !in uuids - cache.Keys
                && |uuids - cache.Keys| + |Waiting(used, cache)| - |OldIds(used, cache, id)| >= MAX_RENDER_LOOKUPS;
      var first, last := OwnLast(used, cache, id);
      olds := first + last;
      OwnComeLast(Missing(uuids, used, cache), named, first, last, used, id);
    }
  }

  /** Whatever order the entries come in, every missing account is asked for: exactly when the named
      ones are at most twenty and no account known only by old ids can be crowded out by the other
      entries, repeated ones included. */
  lemma AskedInEveryOrder(uuids: set<string>, used: map<string, string>, cache: Accounts)
    ensures FitsInAnyOrder(uuids, used, cache) <==>
            forall named, olds :: Lists(named, uuids - cache.Keys) && Lists(olds, Waiting(used, cache)) ==>
              AllAsked(Missing(uuids, used, cache), named, olds, used)
  {
    if FitsInAnyOrder(uuids, used, cache) {
      forall named, olds | Lists(named, uuids - cache.Keys) && Lists(olds, Waiting(used, cache))
        ensures AllAsked(Missing(uuids, used, cache), named, olds, used)
      {
        forall id | id in Missing(uuids, used, cache) ensures id in Asked(named, olds, used) {
          FittingIsAsked(uuids, used, cache, named, olds, id);
        }
      }
    } else {
      var named, olds := SomeOrderMisses(uuids, used, cache);
    }
  }

  // ---------------------------------------------------------------- an account crowded out by repeats

  /** Account keys of different lengths. */
  function Legacy(i: nat): string {
    seq(i + 3, _ => 'a')
  }

  function OldId(i: nat): string {
    "c:" + Legacy(i)
  }

  /** Fifteen accounts. */
  function Fifteen(): set<string> {
    set i: nat | i < 15 :: Legacy(i)
  }

  /** Six old ids: five of them of accounts named anyway, the last of an account of its own. */
  function SixLinks(): map<string, string> {
    map old_ | old_ in (set i: nat | i < 6 :: OldId(i)) :: if |old_| < 10 then old_[2..] else "bbb"
  }

  lemma FifteenAre()
    ensures |Fifteen()| == 15 && "bbb" !in Fifteen()
  {
    var list := seq(15, i requires 0 <= i < 15 => Legacy(i));
    forall i, j | 0 <= i < j < 15 ensures list[i] != list[j] {
      assert |list[i]| == i + 3 && |list[j]| == j + 3;
    }
    forall id | id in Fifteen() ensures id in list {
      var i: nat :| i < 15 && id == Legacy(i);
      assert list[i] == id;
    }
    ListedSize(list, Fifteen());
    assert forall i: nat :: |Legacy(i)| > 0 ==> Legacy(i)[0] == 'a';
  }

  lemma LinkAt(i: nat)
    requires i < 6
    ensures |OldId(i)| == i + 5 && OldId(i) in SixLinks()
    ensures SixLinks()[OldId(i)] == if i < 5 then Legacy(i) else "bbb"
    ensures Legacy(i) != "bbb"
  {
    assert OldId(i)[2..] == Legacy(i);
    assert Legacy(i)[0] == 'a';
  }

  /** Which of the six an old id is. */
  lemma LinkIs(old_: string) returns (i: nat)
    requires old_ in SixLinks()
    ensures i < 6 && old_ == OldId(i)
  {
    i :| i < 6 && old_ == OldId(i);
  }

  lemma SixAre()
    ensures |SixLinks().Keys| == 6
  {
    var list := seq(6, i requires 0 <= i < 6 => OldId(i));
    forall i | 0 <= i < 6 ensures list[i] in SixLinks() && |list[i]| == i + 5 {
      LinkAt(i);
    }
    forall id | id in SixLinks().Keys ensures id in list {
      var i := LinkIs(id);
      assert list[i] == id;
    }
    ListedSize(list, SixLinks().Keys);
  }

  lemma LastIsAlone()
    ensures OldIds(SixLinks(), map[], "bbb") == {OldId(5)}
  {
    LinkAt(5);
    forall old_ | old_ in SixLinks() && SixLinks()[old_] == "bbb" ensures old_ == OldId(5) {
      var i := LinkIs(old_);
      LinkAt(i);
    }
  }

  lemma SixteenAre()
    ensures Missing(Fifteen(), SixLinks(), map[]) == Fifteen() + {"bbb"}
  {
    forall old_ | old_ in SixLinks() ensures SixLinks()[old_] in Fifteen() + {"bbb"} {
      var i := LinkIs(old_);
      LinkAt(i);
    }
    LinkAt(5);
    assert OldId(5) in Waiting(SixLinks(), map[]);
  }

  /** Twenty accounts could be asked for and only sixteen are missing, and yet one of them can be
      missed: five entries repeat others and count towards the twenty. */
  lemma RepeatsCrowdOut()
    ensures |Missing(Fifteen(), SixLinks(), map[])| == 16 && !FitsInAnyOrder(Fifteen(), SixLinks(), map[])
  {
    FifteenAre();
    SixAre();
    LastIsAlone();
    SixteenAre();
    var none: Accounts := map[];
    assert Fifteen() - none.Keys == Fifteen();
    assert Waiting(SixLinks(), none) == SixLinks().Keys;
    assert "bbb" in Missing(Fifteen(), SixLinks(), none);
  }

  // ---------------------------------------------------------------- asking, and rendering

  /** What the directory, or the record of a deleted account, has on a uuid. */
  function AnswerFor(directory: map<string, Answer>, id: string): Option<Account> {
    if id !in directory then None
    else match directory[id]
      case Found(account) => Some(account)
      case Gone(stored) => stored
      case Unavailable => None
  }

  function Held(accounts: Accounts, id: string): Option<Account> {
    if id in accounts then Some(accounts[id]) else None
  }

  /** Of the uuids: the cached accounts, and the answers for those that were asked for. */
  ghost predicate Resolved(
    uuids: set<string>, cache: Accounts, asked: set<string>, directory: map<string, Answer>, accounts: Accounts)
  {
    && accounts.Keys <= uuids
    && forall id :: id in uuids ==>
         Held(accounts, id) == if id in cache then Some(cache[id]) else if id in asked then AnswerFor(directory, id) else None
  }

  lemma ResolvedStep(
    uuids: set<string>, cache: Accounts, asked: set<string>, directory: map<string, Answer>, accounts: Accounts, id: string)
    requires Resolved(uuids, cache, asked, directory, accounts) && id in uuids && id !in cache
    ensures var answer := AnswerFor(directory, id);
            Resolved(uuids, cache, asked + {id}, directory, if answer.Some? then accounts[id := answer.value] else accounts)
  {
    assert Held(accounts, id) == if id in asked then AnswerFor(directory, id) else None;
    var answer := AnswerFor(directory, id);
    var after := if answer.Some? then accounts[id := answer.value] else accounts;
    forall x | x in uuids
      ensures Held(after, x) ==
              if x in cache then Some(cache[x]) else if x in asked + {id} then AnswerFor(directory, x) else None
    {
      if x != id {
        assert Held(after, x) == Held(accounts, x);
      }
    }
  }

  /** A listing in whatever order a set comes. */
  method List(ids: set<string>) returns (list: seq<string>)
    ensures Lists(list, ids)
  {
    list := [];
    var left := ids;
    while left != {}
      invariant left <= ids && Lists(list, ids - left)
      decreases |left|
    {
      var id :| id in left;
      list, left := list + [id], left - {id};
    }
  }

  function Elements(list: seq<string>): set<string> {
    set id | id in list
  }

  /** The cached accounts, and the answers for the first `MAX_RENDER_LOOKUPS` entries that are not
      cached: those of the named uuids, then those of the old ids. */
  method AskDirectory(uuids: set<string>, used: map<string, string>, cache: Accounts, directory: map<string, Answer>)
    returns (accounts: Accounts, named: seq<string>, olds: seq<string>)
    ensures Lists(named, uuids - cache.Keys) && Lists(olds, Waiting(used, cache))
    ensures Resolved(uuids + used.Values, cache, Elements(Asked(named, olds, used)), directory, accounts)
  {
    accounts := map id | id in uuids + used.Values && id in cache :: cache[id];
    named := List(uuids - cache.Keys);
    olds := List(Waiting(used, cache));
    var entries := Asked(named, olds, used);
    AskedAreWanted(uuids, used, cache, named, olds);
    for i := 0 to |entries|
      invariant Resolved(uuids + used.Values, cache, Elements(entries[..i]), directory, accounts)
    {
      var id := entries[i];
      assert Elements(entries[..i + 1]) == Elements(entries[..i]) + {id};
      ResolvedStep(uuids + used.Values, cache, Elements(entries[..i]), directory, accounts, id);
      if AnswerFor(directory, id).Some? {
        accounts := accounts[id := AnswerFor(directory, id).value];
      }
    }
    assert entries[..|entries|] == entries;
  }

  lemma AskedAreWanted(
    uuids: set<string>, used: map<string, string>, cache: Accounts, named: seq<string>, olds: seq<string>)
    requires Lists(named, uuids - cache.Keys) && Lists(olds, Waiting(used, cache))
    ensures forall i :: 0 <= i < |Asked(named, olds, used)| ==>
              Asked(named, olds, used)[i] in uuids + used.Values && Asked(named, olds, used)[i] !in cache
  {
    var asked := Asked(named, olds, used);
    forall i | 0 <= i < |asked| ensures asked[i] in uuids + used.Values && asked[i] !in cache {
      if i < |named| {
        assert asked[i] == named[i];
      } else {
        assert asked[i] == used[olds[i - |named|]] && olds[i - |named|] in Waiting(used, cache);
      }
    }
  }

  /** The uuids a response needs: the ones it names, and what its old ids are linked to. */
  ghost predicate Wanted(value: Tree, links: map<string, string>, id: string) {
    || (Names(value, id) && IsAccountUuid(id))
    || exists old_ :: Linked(value, links, old_) && links[old_] == id
  }

  /** An id from before the identity re-key that is linked to an account. */
  ghost predicate Linked(value: Tree, links: map<string, string>, id: string) {
    Names(value, id) && ':' in id && id in links
  }

  /** Everything cached is used, nothing else is invented, and a linked old id shows the
      account it is linked to. */
  ghost predicate ResolvedFor(value: Tree, links: map<string, string>, cache: Accounts, accounts: Accounts) {
    && (forall id :: id in accounts ==> Wanted(value, links, id) || Linked(value, links, id))
    && (forall id :: Wanted(value, links, id) && id in cache ==> id in accounts && accounts[id] == cache[id])
    && (forall id :: Linked(value, links, id) ==> (id in accounts <==> links[id] in accounts))
    && (forall id :: Linked(value, links, id) && id in accounts ==> accounts[id] == accounts[links[id]])
  }

  /** The old ids a response names that lead to an account, with those accounts. */
  ghost predicate UsedLinks(value: Tree, links: map<string, string>, used: map<string, string>) {
    && (forall id :: id in used <==> Linked(value, links, id))
    && forall id :: id in used ==> id in links && used[id] == links[id]
  }

  /** What was looked up for a response: the uuids it names, the old ids it names with their
      accounts, and the order the missing ones were listed in. */
  datatype Lookup = Lookup(uuids: set<string>, used: map<string, string>, named: seq<string>, olds: seq<string>)

  ghost predicate LookedUp(value: Tree, links: map<string, string>, cache: Accounts, l: Lookup) {
    && (forall id :: id in l.uuids <==> Names(value, id) && IsAccountUuid(id))
    && UsedLinks(value, links, l.used)
    && Lists(l.named, l.uuids - cache.Keys) && Lists(l.olds, Waiting(l.used, cache))
  }

  /** The cached accounts and the answers to what was asked, for every uuid the response needs. */
  ghost predicate HeldFor(value: Tree, links: map<string, string>, cache: Accounts, directory: map<string, Answer>, l: Lookup, accounts: Accounts)
    requires forall i :: 0 <= i < |l.olds| ==> l.olds[i] in l.used
  {
    forall id :: Wanted(value, links, id) ==>
      Held(accounts, id) == if id in cache then Some(cache[id])
                            else if id in Asked(l.named, l.olds, l.used) then AnswerFor(directory, id) else None
  }

  /** The lookups for a response that needs some uuid. */
  method LookUp(
    value: Tree, links: map<string, string>, cache: Accounts, directory: map<string, Answer>,
    uuids: set<string>, used: map<string, string>)
    returns (accounts: Accounts, l: Lookup)
    requires forall id :: id in links ==> IsAccountUuid(links[id])
    requires forall id :: id in uuids <==> Names(value, id) && IsAccountUuid(id)
    requires UsedLinks(value, links, used) && forall id :: Wanted(value, links, id) <==> id in uuids + used.Values
    ensures LookedUp(value, links, cache, l) && HeldFor(value, links, cache, directory, l, accounts)
    ensures ResolvedFor(value, links, cache, accounts)
  {
    var known, named, olds := AskDirectory(uuids, used, cache, directory);
    accounts := known + map id | id in used && used[id] in known :: known[used[id]];
    KnownAreHeld(uuids + used.Values, cache, Elements(Asked(named, olds, used)), directory, known);
    LinkedResolve(value, links, cache, known, used, accounts);
    l := Lookup(uuids, used, named, olds);
  }

  /** `render_accounts`. The links go from ids that contain a colon to account uuids. A response
      that needs no uuid at all is returned as it is; any other is rendered with exactly the cached
      accounts and the answers to what is asked. */
  method RenderAccounts(value: Tree, links: map<string, string>, cache: Accounts, directory: map<string, Answer>)
    returns (after: Tree, accounts: Accounts, l: Lookup)
    requires forall id :: id in links ==> IsAccountUuid(links[id])
    ensures LookedUp(value, links, cache, l) && HeldFor(value, links, cache, directory, l, accounts)
    ensures ResolvedFor(value, links, cache, accounts)
    ensures after == if exists id :: Wanted(value, links, id) then R.Render(value, accounts) else value
  {
    var keys := CollectKeys(value);
    var used := map id | id in keys && ':' in id && id in links :: links[id];
    var uuids := set id | id in keys && IsAccountUuid(id);
    WantedUuids(value, links, keys, used);
    if uuids + used.Values == {} {
      NoLinks(used);
      return value, map[], Lookup(uuids, used, [], []);
    }
    var id :| id in uuids + used.Values;
    assert Wanted(value, links, id);
    accounts, l := LookUp(value, links, cache, directory, uuids, used);
    var lookups;
    after, lookups := RenderVisit(value, accounts);
  }

  lemma NoLinks(used: map<string, string>)
    requires used.Values == {}
    ensures used.Keys == {}
  {
    forall id | id in used ensures used[id] in used.Values {}
  }

  lemma KnownAreHeld(
    uuids: set<string>, cache: Accounts, asked: set<string>, directory: map<string, Answer>, accounts: Accounts)
    requires Resolved(uuids, cache, asked, directory, accounts)
    ensures accounts.Keys <= uuids && forall id :: id in uuids && id in cache ==> id in accounts && accounts[id] == cache[id]
  {
    forall id | id in uuids && id in cache ensures id in accounts && accounts[id] == cache[id] {
      assert Held(accounts, id) == Some(cache[id]);
    }
  }

  lemma WantedUuids(value: Tree, links: map<string, string>, keys: set<string>, used: map<string, string>)
    requires forall id :: id in keys <==> Names(value, id)
    requires used == map id | id in keys && ':' in id && id in links :: links[id]
    ensures forall id :: Wanted(value, links, id) <==> id in (set id | id in keys && IsAccountUuid(id)) + used.Values
  {
    forall id | Wanted(value, links, id) ensures id in (set id | id in keys && IsAccountUuid(id)) + used.Values {
      if !(Names(value, id) && IsAccountUuid(id)) {
        var old_ :| Linked(value, links, old_) && links[old_] == id;
        assert used[old_] == id;
      }
    }
    forall id | id in used.Values ensures Wanted(value, links, id) {
      var old_ :| old_ in used && used[old_] == id;
      assert Linked(value, links, old_);
    }
  }

  lemma UuidsHaveNoColon(id: string)
    requires IsAccountUuid(id)
    ensures ':' !in id
  {
  }

  lemma LinkedResolve(value: Tree, links: map<string, string>, cache: Accounts, known: Accounts, used: map<string, string>, accounts: Accounts)
    requires forall id :: id in links ==> IsAccountUuid(links[id])
    requires forall id :: id in used <==> Linked(value, links, id)
    requires forall id :: id in used ==> id in links && used[id] == links[id]
    requires forall id :: id in known ==> Wanted(value, links, id)
    requires forall id :: Wanted(value, links, id) && id in cache ==> id in known && known[id] == cache[id]
    requires accounts == known + map id | id in used && used[id] in known :: known[used[id]]
    ensures ResolvedFor(value, links, cache, accounts)
    ensures forall id :: Wanted(value, links, id) ==> Held(accounts, id) == Held(known, id)
  {
    forall id | Wanted(value, links, id) ensures id !in used && ':' !in id { UuidsHaveNoColon(id); }
    forall id | Linked(value, links, id) ensures id in links && Wanted(value, links, links[id]) {}
  }
}
