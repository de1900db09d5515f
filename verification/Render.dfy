/** The public shape of JSON responses (src/api/render.rs): one walk collects the account keys
    a response names, a second walk rewrites them in place.

    `Render` says what the result is, member by member; `RenderVisit` is the source's walk,
    which changes an object while it is still walking it. */
module Render {
  import opened Basics
  import opened Identifiers
  import opened Results

  datatype Party = Actor | Member

  datatype End = Sender | Recipient

  datatype Profile = Uuid | DisplayName | PfpUrl | Deleted | Legacy

  /** Member names, sorted by what the renderer does with them. */
  datatype Key =
    | Id | Type                  // of a reference
    | Extra(profile: Profile)    // what rendering adds to a reference
    | BareId(party: Party)       // actor_id, member_id
    | BareUuid(party: Party)     // actor_uuid, member_uuid
    | Address(end: End)          // sender_id, recipient_id
    | UserContent(name: string)  // belongs to users, never to the contract
    | Other(name: string)

  const USER_CONTENT := ["metadata", "message", "text", "attachments", "voice", "gif", "voice_transcript"]

  function KeyOf(name: string): Key {
    match name
    case "id" => Id
    case "type" => Type
    case "uuid" => Extra(Uuid)
    case "display_name" => Extra(DisplayName)
    case "pfp_url" => Extra(PfpUrl)
    case "deleted" => Extra(Deleted)
    case "legacy" => Extra(Legacy)
    case "actor_id" => BareId(Actor)
    case "member_id" => BareId(Member)
    case "actor_uuid" => BareUuid(Actor)
    case "member_uuid" => BareUuid(Member)
    case "sender_id" => Address(Sender)
    case "recipient_id" => Address(Recipient)
    case _ => if name in USER_CONTENT then UserContent(name) else Other(name)
  }

  /** A JSON value whose object members carry classified names. */
  datatype Tree =
    | Null
    | Bool(b: bool)
    | Number(n: int)
    | Str(s: string)
    | Arr(items: seq<Tree>)
    | Obj(fields: Fields)

  type Fields = map<Key, Tree>

  datatype Account = Account(uuid: string, id: Option<string>, displayName: Option<string>, pfpUrl: Option<string>, deleted: bool)
  {
    function DisplayId(): string {
      match id
      case Some(public) => public
      case None => uuid
    }
  }

  type Accounts = map<string, Account>

  predicate IsAlphanumeric(c: char) {
    '0' <= c <= '9' || 'a' <= c <= 'z' || 'A' <= c <= 'Z'
  }

  /** A legacy alphanumeric key of 3 to 64 characters or a canonical UUID. */
  predicate IsAccountUuid(key: string) {
    || (3 <= |key| <= 64 && forall i :: 0 <= i < |key| ==> IsAlphanumeric(key[i]))
    || CanonicalUuid(key)
  }

  predicate IsReference(fields: Fields) {
    && |fields| == 2
    && Id in fields && fields[Id].Str?
    && Type in fields && (fields[Type] == Str("carbon") || fields[Type] == Str("silicon"))
  }

  /** The index of the last `@`, or none. */
  function LastAt(s: string): (at: Option<nat>)
    ensures at.Some? ==> at.value < |s| && s[at.value] == '@' && forall i :: at.value < i < |s| ==> s[i] != '@'
    ensures at.None? ==> forall i :: 0 <= i < |s| ==> s[i] != '@'
  {
    LastAtBefore(s, |s|)
  }

  function LastAtBefore(s: string, n: nat): (at: Option<nat>)
    requires n <= |s|
    ensures at.Some? ==> at.value < n && s[at.value] == '@' && forall i :: at.value < i < n ==> s[i] != '@'
    ensures at.None? ==> forall i :: 0 <= i < n ==> s[i] != '@'
  {
    if n == 0 then None else if s[n - 1] == '@' then Some(n - 1) else LastAtBefore(s, n - 1)
  }

  /** What follows the last `@`: the storage key of an address `isi@key`, or all of it. */
  function Base(address: string): string {
    var at := LastAt(address);
    if at.Some? then address[at.value + 1..] else address
  }

  /** The routing prefix of an address, up to and including the last `@`. */
  function Prefix(address: string): string {
    var at := LastAt(address);
    if at.Some? then address[..at.value + 1] else ""
  }

  // ---------------------------------------------------------------- what is rendered

  /** A member the walk descends into. */
  predicate IsContract(key: Key) {
    !key.BareId? && !key.Address? && !key.UserContent?
  }

  function RenderId(value: Tree, accounts: Accounts): Tree {
    if value.Str? && value.s in accounts then Str(accounts[value.s].DisplayId()) else value
  }

  function RenderAddress(value: Tree, accounts: Accounts): Tree {
    if value.Str? && Base(value.s) in accounts
    then Str(Prefix(value.s) + accounts[Base(value.s)].DisplayId()) else value
  }

  /** What rendering adds to a reference with this storage key. */
  function Extras(key: string, accounts: Accounts): (extras: Fields)
    ensures Extra(Uuid) in extras || Extra(Legacy) in extras
    ensures forall k :: k in extras ==> k.Extra? && (extras[k].Str? || extras[k].Bool?)
  {
    if key in accounts then
      var account := accounts[key];
      map[Extra(Uuid) := Str(account.uuid)]
      + (if account.displayName.Some? then map[Extra(DisplayName) := Str(account.displayName.value)] else map[])
      + (if account.pfpUrl.Some? then map[Extra(PfpUrl) := Str(account.pfpUrl.value)] else map[])
      + (if account.deleted then map[Extra(Deleted) := Bool(true)] else map[])
    else if !IsAccountUuid(key) then map[Extra(Legacy) := Bool(true)]
    else map[Extra(Uuid) := Str(key)]
  }

  function RenderReference(fields: Fields, accounts: Accounts): Fields
    requires IsReference(fields)
  {
    fields[Id := RenderId(fields[Id], accounts)] + Extras(fields[Id].s, accounts)
  }

  /** The uuid a bare id field resolves to. */
  function UuidAt(fields: Fields, field: Key, accounts: Accounts): Option<Tree> {
    if field in fields && fields[field].Str? && fields[field].s in accounts
    then Some(Str(accounts[fields[field].s].uuid)) else None
  }

  /** The `<name>_uuid` members that bare id fields add next to themselves (or overwrite). */
  function SiblingAt(fields: Fields, key: Key, accounts: Accounts): Option<Tree> {
    match key
    case BareUuid(party) => UuidAt(fields, BareId(party), accounts)
    case _ => None
  }

  function Siblings(fields: Fields, accounts: Accounts): set<Key> {
    set key | key in {BareUuid(Actor), BareUuid(Member)} && SiblingAt(fields, key, accounts).Some?
  }

  function Render(value: Tree, accounts: Accounts): Tree
    decreases value, 0
  {
    match value
    case Arr(items) => Arr(seq(|items|, i requires 0 <= i < |items| => Render(items[i], accounts)))
    case Obj(fields) =>
      if IsReference(fields) then Obj(RenderReference(fields, accounts))
      else Obj(map key | key in fields.Keys + Siblings(fields, accounts) ::
                 match SiblingAt(fields, key, accounts)
                 case Some(uuid) => uuid
                 case None => RenderMember(key, fields[key], accounts))
    case _ => value
  }

  function RenderMember(key: Key, item: Tree, accounts: Accounts): Tree
    decreases item, 1
  {
    match key
    case BareId(_) => RenderId(item, accounts)
    case Address(_) => RenderAddress(item, accounts)
    case UserContent(_) => item
    case _ => Render(item, accounts)
  }

  lemma KeyCases(key: Key)
    ensures key.BareId? ==> key == BareId(Actor) || key == BareId(Member)
    ensures key.BareUuid? ==> key == BareUuid(Actor) || key == BareUuid(Member)
    ensures key.Address? ==> key == Address(Sender) || key == Address(Recipient)
  {
    match key
    case BareId(party) => match party { case Actor => case Member => }
    case BareUuid(party) => match party { case Actor => case Member => }
    case Address(end) => match end { case Sender => case Recipient => }
    case _ =>
  }

  /** What rendering puts at one member of an object that is not a reference. */
  ghost predicate MemberIs(fields: Fields, accounts: Accounts, after: Fields, key: Key) {
    match SiblingAt(fields, key, accounts)
    case Some(uuid) => key in after && after[key] == uuid
    case None => (key in after <==> key in fields) && (key in fields ==> after[key] == RenderMember(key, fields[key], accounts))
  }

  lemma RenderedMembers(fields: Fields, accounts: Accounts, after: Fields)
    requires !IsReference(fields)
    ensures Render(Obj(fields), accounts) == Obj(after) <==> forall key :: MemberIs(fields, accounts, after, key)
  {
    var rendered := Render(Obj(fields), accounts).fields;
    forall key ensures MemberIs(fields, accounts, rendered, key) {
      KeyCases(key);
    }
    if forall key :: MemberIs(fields, accounts, after, key) {
      forall key ensures (key in after <==> key in rendered) && (key in after ==> after[key] == rendered[key]) {
        assert MemberIs(fields, accounts, after, key) && MemberIs(fields, accounts, rendered, key);
      }
      assert after == rendered;
    }
  }

  /** A member next to a bare id field that names it. */
  predicate IsSibling(fields: Fields, key: Key) {
    key.BareUuid? && BareId(key.party) in fields && fields[BareId(key.party)].Str?
  }

  /** Some account slot of `value` holds the storage key `id`. */
  ghost predicate Names(value: Tree, id: string)
    decreases value, 0
  {
    match value
    case Arr(items) => exists i :: 0 <= i < |items| && Names(items[i], id)
    case Obj(fields) =>
      if IsReference(fields) then fields[Id].s == id
      else exists key :: key in fields && MemberNames(key, fields[key], id)
    case _ => false
  }

  ghost predicate MembersName(fields: Fields, id: string)
  {
    exists key :: key in fields && MemberNames(key, fields[key], id)
  }

  ghost predicate MemberNames(key: Key, item: Tree, id: string)
    decreases item, 1
  {
    match key
    case BareId(_) => item == Str(id)
    case Address(_) => item.Str? && Base(item.s) == id
    case UserContent(_) => false
    case _ => Names(item, id)
  }

  ghost predicate Agree(a: Accounts, b: Accounts, id: string) {
    (id in a <==> id in b) && (id in a ==> a[id] == b[id])
  }

  /** The result depends only on the accounts of the keys the response names. */
  lemma {:induction false} RenderNeedsOnlyNamed(value: Tree, a: Accounts, b: Accounts)
    requires forall id :: Names(value, id) ==> Agree(a, b, id)
    ensures Render(value, a) == Render(value, b)
    decreases value, 0
  {
    match value
    case Arr(items) =>
      forall i | 0 <= i < |items| ensures Render(items[i], a) == Render(items[i], b) {
        forall id | Names(items[i], id) ensures Names(value, id) {}
        RenderNeedsOnlyNamed(items[i], a, b);
      }
      assert Render(value, a).items == Render(value, b).items;
    case Obj(fields) =>
      if IsReference(fields) {
        assert Names(value, fields[Id].s);
        assert Agree(a, b, fields[Id].s);
      } else {
        forall key | key in fields
          ensures RenderMember(key, fields[key], a) == RenderMember(key, fields[key], b)
        {
          forall id | MemberNames(key, fields[key], id) ensures Names(value, id) {}
          MemberNeedsOnlyNamed(key, fields[key], a, b);
        }
        UuidNeedsOnlyNamed(fields, BareId(Actor), a, b);
        UuidNeedsOnlyNamed(fields, BareId(Member), a, b);
        var after := Render(value, a).fields;
        RenderedMembers(fields, a, after);
        forall key ensures MemberIs(fields, b, after, key) {
          KeyCases(key);
          assert MemberIs(fields, a, after, key);
        }
        RenderedMembers(fields, b, after);
      }
    case _ =>
  }

  lemma {:induction false} MemberNeedsOnlyNamed(key: Key, item: Tree, a: Accounts, b: Accounts)
    requires forall id :: MemberNames(key, item, id) ==> Agree(a, b, id)
    ensures RenderMember(key, item, a) == RenderMember(key, item, b)
    decreases item, 1
  {
    match key
    case BareId(_) => if item.Str? { assert MemberNames(key, item, item.s); }
    case Address(_) => if item.Str? { assert MemberNames(key, item, Base(item.s)); }
    case UserContent(_) =>
    case _ =>
      forall id | Names(item, id) ensures MemberNames(key, item, id) {}
      RenderNeedsOnlyNamed(item, a, b);
  }

  lemma UuidNeedsOnlyNamed(fields: Fields, field: Key, a: Accounts, b: Accounts)
    requires field.BareId? && !IsReference(fields)
    requires forall id :: Names(Obj(fields), id) ==> Agree(a, b, id)
    ensures UuidAt(fields, field, a) == UuidAt(fields, field, b)
  {
    if field in fields && fields[field].Str? {
      assert MemberNames(field, fields[field], fields[field].s);
      assert Names(Obj(fields), fields[field].s);
    }
  }

  // ---------------------------------------------------------------- what is not touched

  /** `after` differs from `before` only in account slots and what is added beside them:
      user content and every other value are the same, and no member disappears. */
  ghost predicate OnlySlotsDiffer(before: Tree, after: Tree)
    decreases before, 0
  {
    match before
    case Arr(items) =>
      after.Arr? && |after.items| == |items| && forall i :: 0 <= i < |items| ==> OnlySlotsDiffer(items[i], after.items[i])
    case Obj(fields) =>
      && after.Obj?
      && fields.Keys <= after.fields.Keys
      && if IsReference(fields) then
           && after.fields[Type] == fields[Type] && after.fields[Id].Str?
           && (forall key :: key in after.fields && key !in fields ==> key.Extra?)
         else
           && (forall key :: key in after.fields && key !in fields ==> IsSibling(fields, key) && after.fields[key].Str?)
           && (forall key :: key in fields && !IsSibling(fields, key) ==> MemberDiffers(key, fields[key], after.fields[key]))
    case _ => after == before
  }

  ghost predicate MemberDiffers(key: Key, before: Tree, after: Tree)
    decreases before, 1
  {
    match key
    case BareId(_) => if before.Str? then after.Str? else after == before
    case Address(_) => if before.Str? then after.Str? && Prefix(before.s) <= after.s else after == before
    case UserContent(_) => after == before
    case _ => OnlySlotsDiffer(before, after)
  }

  lemma {:induction false} RenderTouchesOnlySlots(value: Tree, accounts: Accounts)
    ensures OnlySlotsDiffer(value, Render(value, accounts))
    decreases value, 0
  {
    match value
    case Arr(items) =>
      forall i | 0 <= i < |items| { RenderTouchesOnlySlots(items[i], accounts); }
    case Obj(fields) =>
      if IsReference(fields) {
        ReferenceKeeps(fields, accounts);
      } else {
        forall key | key in fields ensures MemberDiffers(key, fields[key], RenderMember(key, fields[key], accounts)) {
          MemberTouchesOnlySlots(key, fields[key], accounts);
        }
        var after := Render(value, accounts).fields;
        RenderedMembers(fields, accounts, after);
        MembersTouchOnlySlots(fields, accounts, after);
      }
    case _ =>
  }

  lemma MembersTouchOnlySlots(fields: Fields, accounts: Accounts, after: Fields)
    requires forall key :: MemberIs(fields, accounts, after, key)
    requires forall key :: key in fields ==> MemberDiffers(key, fields[key], RenderMember(key, fields[key], accounts))
    ensures fields.Keys <= after.Keys
    ensures forall key :: key in after && key !in fields ==> IsSibling(fields, key) && after[key].Str?
    ensures forall key :: key in fields && !IsSibling(fields, key) ==> MemberDiffers(key, fields[key], after[key])
  {
    forall key | key in fields ensures key in after { assert MemberIs(fields, accounts, after, key); }
    forall key | key in after && key !in fields ensures IsSibling(fields, key) && after[key].Str? {
      assert MemberIs(fields, accounts, after, key);
    }
    forall key | key in fields && !IsSibling(fields, key) ensures MemberDiffers(key, fields[key], after[key]) {
      assert MemberIs(fields, accounts, after, key);
    }
  }

  lemma {:induction false} MemberTouchesOnlySlots(key: Key, item: Tree, accounts: Accounts)
    ensures MemberDiffers(key, item, RenderMember(key, item, accounts))
    decreases item, 1
  {
    if IsContract(key) {
      RenderTouchesOnlySlots(item, accounts);
    }
  }

  lemma ReferenceKeeps(fields: Fields, accounts: Accounts)
    requires IsReference(fields)
    ensures var after := RenderReference(fields, accounts);
            && fields.Keys <= after.Keys && after[Type] == fields[Type] && after[Id].Str?
            && (forall key :: key in after && key !in fields ==> key.Extra?)
            && |after| > 2
  {
    var after, extras := RenderReference(fields, accounts), Extras(fields[Id].s, accounts);
    assert after[Type] == fields[Type] && after[Id].Str?;
    ThreeKeys(after, Id, Type, if Extra(Uuid) in extras then Extra(Uuid) else Extra(Legacy));
  }

  lemma ThreeKeys<T>(m: map<T, Tree>, a: T, b: T, c: T)
    requires a in m && b in m && c in m && a != b && a != c && b != c
    ensures |m| > 2
  {
    assert |m.Keys| == |m|;
    assert |m.Keys - {a}| == |m| - 1;
    assert b in m.Keys - {a};
    assert |m.Keys - {a} - {b}| == |m| - 2;
    assert c in m.Keys - {a} - {b};
  }

  // ---------------------------------------------------------------- rendering twice

  lemma LastAtIs(s: string, at: nat)
    requires at < |s| && s[at] == '@' && forall i :: at < i < |s| ==> s[i] != '@'
    ensures LastAt(s) == Some(at)
  {
  }

  /** Appending to a routing prefix leaves the parts of what was appended as they are. */
  lemma PrefixThenBase(prefix: string, rest: string)
    requires prefix == "" || prefix[|prefix| - 1] == '@'
    ensures Base(prefix + rest) == Base(rest) && Prefix(prefix + rest) == prefix + Prefix(rest)
  {
    if LastAt(rest).Some? {
      AddressInside(prefix, rest, LastAt(rest).value);
    } else if prefix != "" {
      assert (prefix + rest)[|prefix|..] == rest;
      LastAtIs(prefix + rest, |prefix| - 1);
    } else {
      assert prefix + rest == rest;
    }
  }

  lemma CutInside<T>(a: seq<T>, b: seq<T>, n: nat)
    requires n <= |b|
    ensures (a + b)[|a| + n..] == b[n..] && (a + b)[..|a| + n] == a + b[..n]
  {
  }

  lemma AddressInside(prefix: string, rest: string, at: nat)
    requires LastAt(rest) == Some(at)
    ensures Base(prefix + rest) == Base(rest) && Prefix(prefix + rest) == prefix + Prefix(rest)
  {
    CutInside(prefix, rest, at + 1);
    LastAtIs(prefix + rest, |prefix| + at);
  }

  lemma SplitAddress(address: string)
    ensures address == Prefix(address) + Base(address) && '@' !in Base(address)
    ensures Prefix(address) == "" || Prefix(address)[|Prefix(address)| - 1] == '@'
  {
  }

  /** The id an account is shown under means the same account when it is looked up again,
      as a bare id and as the base of an address. */
  ghost predicate StableAt(accounts: Accounts, key: string)
    requires key in accounts
  {
    var id := accounts[key].DisplayId();
    && (id in accounts ==> accounts[id].DisplayId() == id && accounts[id].uuid == accounts[key].uuid)
    && ('@' !in key && Base(id) in accounts ==> accounts[Base(id)].DisplayId() == Base(id))
  }

  ghost predicate Stable(accounts: Accounts) {
    forall key :: key in accounts ==> StableAt(accounts, key)
  }

  /** The condition is met when display ids hold no `@` and a display id that is also a lookup
      key belongs to the same account. */
  lemma PlainIdsAreStable(accounts: Accounts)
    requires forall key :: key in accounts ==> '@' !in accounts[key].DisplayId()
    requires forall key :: key in accounts && accounts[key].DisplayId() in accounts ==> accounts[accounts[key].DisplayId()] == accounts[key]
    ensures Stable(accounts)
  {
    forall key | key in accounts ensures StableAt(accounts, key) {
      var id := accounts[key].DisplayId();
      assert LastAt(id).None?;
    }
  }

  lemma AddressOfStableId(prefix: string, id: string, accounts: Accounts)
    requires prefix == "" || prefix[|prefix| - 1] == '@'
    ensures RenderAddress(Str(prefix + id), accounts) == Str(prefix + id)
       <==> (Base(id) in accounts ==> accounts[Base(id)].DisplayId() == Base(id))
  {
    PrefixThenBase(prefix, id);
    SplitAddress(id);
    if Base(id) in accounts {
      Regroup(prefix, Prefix(id), Base(id));
      SamePrefix(prefix + Prefix(id), accounts[Base(id)].DisplayId(), Base(id));
    }
  }

  lemma SamePrefix(prefix: string, a: string, b: string)
    ensures prefix + a == prefix + b <==> a == b
  {
    if prefix + a == prefix + b {
      assert a == (prefix + a)[|prefix|..] && b == (prefix + b)[|prefix|..];
    }
  }

  lemma AddressTwice(value: Tree, accounts: Accounts)
    requires Stable(accounts)
    ensures RenderAddress(RenderAddress(value, accounts), accounts) == RenderAddress(value, accounts)
  {
    if value.Str? && Base(value.s) in accounts {
      SplitAddress(value.s);
      var key := Base(value.s);
      assert StableAt(accounts, key);
      AddressOfStableId(Prefix(value.s), accounts[key].DisplayId(), accounts);
    }
  }

  lemma IdTwice(value: Tree, accounts: Accounts)
    requires Stable(accounts)
    ensures RenderId(RenderId(value, accounts), accounts) == RenderId(value, accounts)
  {
    if value.Str? && value.s in accounts {
      assert StableAt(accounts, value.s);
    }
  }

  lemma KeepsTag(value: Tree, accounts: Accounts)
    ensures Render(value, accounts).Str? <==> value.Str?
    ensures !value.Arr? && !value.Obj? ==> Render(value, accounts) == value
  {
  }

  /** An object that was not a reference does not turn into one. */
  lemma StaysPlain(fields: Fields, accounts: Accounts, after: Fields)
    requires !IsReference(fields) && forall key :: MemberIs(fields, accounts, after, key)
    ensures !IsReference(after)
  {
    assert MemberIs(fields, accounts, after, Id) && MemberIs(fields, accounts, after, Type);
    if Id in fields && Type in fields {
      KeepsTag(fields[Id], accounts);
      KeepsTag(fields[Type], accounts);
      if |after| == 2 {
        forall key | key in fields ensures key in after { assert MemberIs(fields, accounts, after, key); }
        SameSize(fields, after, Id, Type);
      }
    }
  }

  lemma SameSize<T>(small: map<T, Tree>, large: map<T, Tree>, a: T, b: T)
    requires small.Keys <= large.Keys && |large| == 2 && a in small && b in small && a != b
    ensures |small| == 2
  {
    assert |small.Keys| == |small| && |large.Keys| == |large|;
    assert |large.Keys - {a}| == 1 && |large.Keys - {a} - {b}| == 0;
    assert small.Keys - {a} - {b} <= large.Keys - {a} - {b};
    assert |small.Keys - {a} - {b}| == 0;
    assert |small.Keys - {a}| == 1;
  }

  lemma ReferenceTwice(fields: Fields, accounts: Accounts)
    requires IsReference(fields)
    ensures Render(Obj(RenderReference(fields, accounts)), accounts) == Obj(RenderReference(fields, accounts))
  {
    ReferenceKeeps(fields, accounts);
    ReferenceIsFlat(fields, accounts);
    FlatObject(RenderReference(fields, accounts), accounts);
  }

  lemma ReferenceIsFlat(fields: Fields, accounts: Accounts)
    requires IsReference(fields)
    ensures IsFlat(RenderReference(fields, accounts))
  {
    OnlyTags(fields);
  }

  /** Only scalar members that are not slots. */
  ghost predicate IsFlat(fields: Fields) {
    forall key :: key in fields ==> IsContract(key) && (fields[key].Str? || fields[key].Bool?)
  }

  lemma FlatObject(fields: Fields, accounts: Accounts)
    requires IsFlat(fields) && |fields| > 2
    ensures Render(Obj(fields), accounts) == Obj(fields)
  {
    forall key ensures MemberIs(fields, accounts, fields, key) {
      if key in fields {
        KeepsTag(fields[key], accounts);
      }
    }
    RenderedMembers(fields, accounts, fields);
  }

  lemma OnlyTags(fields: Fields)
    requires IsReference(fields)
    ensures forall key :: key in fields ==> key == Id || key == Type
  {
    OnlyTwo(fields, Id, Type);
  }

  lemma OnlyTwo<T>(m: map<T, Tree>, a: T, b: T)
    requires |m| == 2 && a in m && b in m && a != b
    ensures forall key :: key in m ==> key == a || key == b
  {
    forall key | key in m && key != a && key != b ensures false {
      ThreeKeys(m, a, b, key);
    }
  }

  lemma UuidTwice(fields: Fields, after: Fields, field: Key, accounts: Accounts)
    requires Stable(accounts)
    requires field in after <==> field in fields
    requires field in fields ==> after[field] == RenderId(fields[field], accounts)
    ensures UuidAt(after, field, accounts).Some? ==> UuidAt(after, field, accounts) == UuidAt(fields, field, accounts)
  {
    if field in fields && fields[field].Str? && fields[field].s in accounts {
      assert StableAt(accounts, fields[field].s);
    }
  }

  lemma {:induction false} MemberTwice(key: Key, item: Tree, accounts: Accounts)
    requires Stable(accounts)
    ensures RenderMember(key, RenderMember(key, item, accounts), accounts) == RenderMember(key, item, accounts)
    decreases item, 1
  {
    match key
    case BareId(_) => IdTwice(item, accounts);
    case Address(_) => AddressTwice(item, accounts);
    case UserContent(_) =>
    case _ => RenderTwice(item, accounts);
  }

  lemma {:induction false} RenderTwice(value: Tree, accounts: Accounts)
    requires Stable(accounts)
    ensures Render(Render(value, accounts), accounts) == Render(value, accounts)
    decreases value, 0
  {
    match value
    case Arr(items) =>
      forall i | 0 <= i < |items| { RenderTwice(items[i], accounts); }
      assert Render(Render(value, accounts), accounts).items == Render(value, accounts).items;
    case Obj(fields) =>
      if IsReference(fields) {
        ReferenceTwice(fields, accounts);
      } else {
        forall key | key in fields
          ensures RenderMember(key, RenderMember(key, fields[key], accounts), accounts) == RenderMember(key, fields[key], accounts)
        {
          MemberTwice(key, fields[key], accounts);
        }
        var after := Render(value, accounts).fields;
        RenderedMembers(fields, accounts, after);
        StaysPlain(fields, accounts, after);
        ObjectTwice(fields, accounts, after);
        RenderedMembers(after, accounts, after);
      }
    case _ =>
  }

  lemma ObjectTwice(fields: Fields, accounts: Accounts, after: Fields)
    requires Stable(accounts) && forall key :: MemberIs(fields, accounts, after, key)
    requires forall key :: key in fields ==>
      RenderMember(key, RenderMember(key, fields[key], accounts), accounts) == RenderMember(key, fields[key], accounts)
    ensures forall key :: MemberIs(after, accounts, after, key)
  {
    assert MemberIs(fields, accounts, after, BareId(Actor)) && MemberIs(fields, accounts, after, BareId(Member));
    UuidTwice(fields, after, BareId(Actor), accounts);
    UuidTwice(fields, after, BareId(Member), accounts);
    forall key ensures MemberIs(after, accounts, after, key) {
      KeyCases(key);
      assert MemberIs(fields, accounts, after, key);
    }
  }

  /** Rendering every response twice is rendering it once if and only if the accounts are
      stable. */
  lemma IdempotentExactlyWhenStable(accounts: Accounts)
    ensures (forall value :: Render(Render(value, accounts), accounts) == Render(value, accounts)) <==> Stable(accounts)
  {
    if Stable(accounts) {
      forall value ensures Render(Render(value, accounts), accounts) == Render(value, accounts) {
        RenderTwice(value, accounts);
      }
    } else {
      var key :| key in accounts && !StableAt(accounts, key);
      UnstableShows(accounts, key);
    }
  }

  lemma UnstableShows(accounts: Accounts, key: string)
    requires key in accounts && !StableAt(accounts, key)
    ensures exists value :: Render(Render(value, accounts), accounts) != Render(value, accounts)
  {
    var id := accounts[key].DisplayId();
    if id in accounts && !(accounts[id].DisplayId() == id && accounts[id].uuid == accounts[key].uuid) {
      var value := Obj(map[BareId(Actor) := Str(key)]);
      BareIdShows(accounts, key);
      assert Render(Render(value, accounts), accounts) != Render(value, accounts);
    } else {
      var value := Obj(map[Address(Sender) := Str(key)]);
      AddressShows(accounts, key);
      assert Render(Render(value, accounts), accounts) != Render(value, accounts);
    }
  }

  lemma NotReference(fields: Fields, field: Key)
    requires field in fields && !IsContract(field)
    ensures !IsReference(fields)
  {
    if IsReference(fields) {
      OnlyTags(fields);
    }
  }

  lemma BareIdShows(accounts: Accounts, key: string)
    requires key in accounts
    requires var id := accounts[key].DisplayId();
             id in accounts && !(accounts[id].DisplayId() == id && accounts[id].uuid == accounts[key].uuid)
    ensures var value := Obj(map[BareId(Actor) := Str(key)]);
            Render(Render(value, accounts), accounts) != Render(value, accounts)
  {
    var fields: Fields := map[BareId(Actor) := Str(key)];
    var id := accounts[key].DisplayId();
    NotReference(fields, BareId(Actor));
    var once := Render(Obj(fields), accounts).fields;
    RenderedMembers(fields, accounts, once);
    assert MemberIs(fields, accounts, once, BareId(Actor)) && MemberIs(fields, accounts, once, BareUuid(Actor));
    assert once[BareId(Actor)] == Str(id) && once[BareUuid(Actor)] == Str(accounts[key].uuid);
    NotReference(once, BareId(Actor));
    var twice := Render(Obj(once), accounts).fields;
    RenderedMembers(once, accounts, twice);
    assert MemberIs(once, accounts, twice, BareId(Actor)) && MemberIs(once, accounts, twice, BareUuid(Actor));
  }

  lemma AddressShows(accounts: Accounts, key: string)
    requires key in accounts && '@' !in key
    requires var id := accounts[key].DisplayId();
             Base(id) in accounts && accounts[Base(id)].DisplayId() != Base(id)
    ensures var value := Obj(map[Address(Sender) := Str(key)]);
            Render(Render(value, accounts), accounts) != Render(value, accounts)
  {
    var fields: Fields := map[Address(Sender) := Str(key)];
    var id := accounts[key].DisplayId();
    NotReference(fields, Address(Sender));
    assert LastAt(key).None?;
    var once := Render(Obj(fields), accounts).fields;
    RenderedMembers(fields, accounts, once);
    assert MemberIs(fields, accounts, once, Address(Sender));
    assert "" + id == id;
    NotReference(once, Address(Sender));
    var twice := Render(Obj(once), accounts).fields;
    RenderedMembers(once, accounts, twice);
    assert MemberIs(once, accounts, twice, Address(Sender));
    AddressOfStableId("", id, accounts);
  }

  // ---------------------------------------------------------------- the two walks

  /** The first walk: the storage keys of every account slot outside user content. */
  method CollectKeys(value: Tree) returns (keys: set<string>)
    ensures forall id :: id in keys <==> Names(value, id)
    decreases value, 0
  {
    keys := {};
    match value
    case Arr(items) =>
      for i := 0 to |items|
        invariant forall id :: id in keys <==> exists k :: 0 <= k < i && Names(items[k], id)
      {
        var more := CollectKeys(items[i]);
        keys := keys + more;
      }
    case Obj(fields) =>
      if IsReference(fields) {
        return {fields[Id].s};
      }
      var todo := fields.Keys;
      while todo != {}
        invariant todo <= fields.Keys
        invariant forall id :: id in keys <==> exists key :: key in fields && key !in todo && MemberNames(key, fields[key], id)
        decreases |todo|
      {
        var key :| key in todo;
        var more := CollectMember(key, fields[key]);
        keys := keys + more;
        todo := todo - {key};
      }
    case _ =>
  }

  method CollectMember(key: Key, item: Tree) returns (keys: set<string>)
    ensures forall id :: id in keys <==> MemberNames(key, item, id)
    decreases item, 1
  {
    match key
    case BareId(_) => keys := if item.Str? then {item.s} else {};
    case Address(_) => keys := if item.Str? then {Base(item.s)} else {};
    case UserContent(_) => keys := {};
    case _ => keys := CollectKeys(item);
  }

  /** `Slot::Field`: one bare id of an object is rewritten and its uuid put next to it. */
  function FieldSlot(before: Fields, party: Party, accounts: Accounts): Fields {
    match UuidAt(before, BareId(party), accounts)
    case Some(uuid) => before[BareId(party) := RenderId(before[BareId(party)], accounts)][BareUuid(party) := uuid]
    case None => before
  }

  /** `Slot::Address`: the account part of one routing address is rewritten. */
  function AddressSlot(before: Fields, field: Key, accounts: Accounts): Fields {
    if field in before then before[field := RenderAddress(before[field], accounts)] else before
  }

  /** The storage key in a slot of an object. */
  function SlotKey(before: Fields, field: Key): set<string> {
    if field in before && before[field].Str?
    then {if field.BareId? then before[field].s else Base(before[field].s)} else {}
  }

  lemma FieldSlotMember(before: Fields, party: Party, accounts: Accounts, key: Key)
    ensures var after := FieldSlot(before, party, accounts);
            if key == BareUuid(party) && UuidAt(before, BareId(party), accounts).Some?
            then key in after && after[key] == UuidAt(before, BareId(party), accounts).value
            else (key in after <==> key in before)
                 && (key in before ==> after[key] == (if key == BareId(party) then RenderId(before[key], accounts) else before[key]))
  {
    if UuidAt(before, BareId(party), accounts).None? {
      assert FieldSlot(before, party, accounts) == before;
    }
  }

  /** The slots of an object rewritten one after the other. */
  function RenderSlots(fields: Fields, accounts: Accounts): Fields {
    var first := FieldSlot(fields, Actor, accounts);
    var second := FieldSlot(first, Member, accounts);
    var third := AddressSlot(second, Address(Sender), accounts);
    AddressSlot(third, Address(Recipient), accounts)
  }

  /** What each slot looks up by the time its turn comes. */
  function SlotLookups(fields: Fields, accounts: Accounts): set<string> {
    var first := FieldSlot(fields, Actor, accounts);
    var second := FieldSlot(first, Member, accounts);
    var third := AddressSlot(second, Address(Sender), accounts);
    SlotKey(fields, BareId(Actor)) + SlotKey(first, BareId(Member)) + SlotKey(second, Address(Sender)) + SlotKey(third, Address(Recipient))
  }

  /** An object after its slots were rewritten and before its other members are walked. */
  ghost predicate SlotDoneAt(fields: Fields, accounts: Accounts, obj: Fields, key: Key) {
    match SiblingAt(fields, key, accounts)
    case Some(uuid) => key in obj && obj[key] == uuid
    case None =>
      && (key in obj <==> key in fields)
      && (key in fields ==> obj[key] == (if IsContract(key) then fields[key] else RenderMember(key, fields[key], accounts)))
  }

  lemma SlotDone(fields: Fields, accounts: Accounts, key: Key)
    ensures SlotDoneAt(fields, accounts, RenderSlots(fields, accounts), key)
  {
    KeyCases(key);
    var first := FieldSlot(fields, Actor, accounts);
    FieldSlotMember(fields, Actor, accounts, key);
    FieldSlotMember(fields, Actor, accounts, BareId(Member));
    assert UuidAt(first, BareId(Member), accounts) == UuidAt(fields, BareId(Member), accounts);
    FieldSlotMember(first, Member, accounts, key);
  }

  /** No slot looks up what an earlier slot wrote. */
  lemma SlotLookupsAreNames(fields: Fields, accounts: Accounts, id: string)
    requires id in SlotLookups(fields, accounts)
    ensures MembersName(fields, id)
  {
    var first := FieldSlot(fields, Actor, accounts);
    var second := FieldSlot(first, Member, accounts);
    var third := AddressSlot(second, Address(Sender), accounts);
    if id in SlotKey(fields, BareId(Actor)) {
      SlotKeyIsName(fields, BareId(Actor), id);
    } else if id in SlotKey(first, BareId(Member)) {
      FieldSlotMember(fields, Actor, accounts, BareId(Member));
      SlotKeyIsName(fields, BareId(Member), id);
    } else if id in SlotKey(second, Address(Sender)) {
      FieldSlotMember(fields, Actor, accounts, Address(Sender));
      FieldSlotMember(first, Member, accounts, Address(Sender));
      SlotKeyIsName(fields, Address(Sender), id);
    } else {
      FieldSlotMember(fields, Actor, accounts, Address(Recipient));
      FieldSlotMember(first, Member, accounts, Address(Recipient));
      SlotKeyIsName(fields, Address(Recipient), id);
    }
  }

  lemma SlotKeyIsName(fields: Fields, field: Key, id: string)
    requires (field.BareId? || field.Address?) && id in SlotKey(fields, field)
    ensures field in fields && MemberNames(field, fields[field], id)
  {
  }

  /** The second walk. It rewrites the slots of an object first, which adds members to it, and
      then walks the members the object has by then; `lookups` are the keys it looked up. */
  method RenderVisit(value: Tree, accounts: Accounts) returns (after: Tree, lookups: set<string>)
    ensures after == Render(value, accounts)
    ensures forall id :: id in lookups ==> Names(value, id)
    decreases value, 1
  {
    match value
    case Arr(items) =>
      var done: seq<Tree> := [];
      lookups := {};
      for i := 0 to |items|
        invariant |done| == i && forall k :: 0 <= k < i ==> done[k] == Render(items[k], accounts)
        invariant forall id :: id in lookups ==> Names(value, id)
      {
        var item, more := RenderVisit(items[i], accounts);
        done, lookups := done + [item], lookups + more;
      }
      assert done == Render(value, accounts).items;
      return Arr(done), lookups;
    case Obj(fields) =>
      if IsReference(fields) {
        return Obj(RenderReference(fields, accounts)), {fields[Id].s};
      }
      var obj, more := RenderMembers(fields, accounts);
      return Obj(obj), more;
    case _ =>
      return value, {};
  }

  method RenderMembers(fields: Fields, accounts: Accounts) returns (obj: Fields, lookups: set<string>)
    requires !IsReference(fields)
    ensures Obj(obj) == Render(Obj(fields), accounts)
    ensures forall id :: id in lookups ==> MembersName(fields, id)
    decreases Obj(fields), 0
  {
    obj, lookups := RenderSlots(fields, accounts), SlotLookups(fields, accounts);
    forall id | id in lookups ensures MembersName(fields, id) {
      SlotLookupsAreNames(fields, accounts, id);
    }
    ghost var walked := RenderSlots(fields, accounts);
    var todo := obj.Keys;
    while todo != {}
      invariant todo <= obj.Keys == walked.Keys
      invariant forall key :: key in todo ==> obj[key] == walked[key]
      invariant forall key :: key in obj && key !in todo ==> Walked(key, walked[key], obj[key], accounts)
      invariant forall id :: id in lookups ==> MembersName(fields, id)
      decreases |todo|
    {
      var key :| key in todo;
      // A scalar child has no slots: the walk returns from it at once.
      if IsContract(key) && (obj[key].Arr? || obj[key].Obj?) {
        CompoundIsOriginal(fields, accounts, key);
        var child, more := RenderVisit(fields[key], accounts);
        ChildNames(fields, key, more);
        obj, lookups := obj[key := child], lookups + more;
      } else {
        KeepsTag(obj[key], accounts);
      }
      todo := todo - {key};
    }
    WalkDone(fields, accounts, obj);
  }

  /** What the walk descends into was there before any slot was rewritten. */
  lemma CompoundIsOriginal(fields: Fields, accounts: Accounts, key: Key)
    requires var slots := RenderSlots(fields, accounts);
             key in slots && IsContract(key) && (slots[key].Arr? || slots[key].Obj?)
    ensures key in fields && fields[key] == RenderSlots(fields, accounts)[key]
  {
    SlotDone(fields, accounts, key);
  }

  lemma ChildNames(fields: Fields, key: Key, ids: set<string>)
    requires key in fields && IsContract(key) && forall id :: id in ids ==> Names(fields[key], id)
    ensures forall id :: id in ids ==> MembersName(fields, id)
  {
    forall id | id in ids ensures MembersName(fields, id) {
      assert MemberNames(key, fields[key], id);
    }
  }

  ghost predicate Walked(key: Key, before: Tree, after: Tree, accounts: Accounts) {
    after == if IsContract(key) then Render(before, accounts) else before
  }

  lemma WalkDone(fields: Fields, accounts: Accounts, obj: Fields)
    requires !IsReference(fields) && obj.Keys == RenderSlots(fields, accounts).Keys
    requires forall key :: key in obj ==> Walked(key, RenderSlots(fields, accounts)[key], obj[key], accounts)
    ensures Render(Obj(fields), accounts) == Obj(obj)
  {
    forall key ensures MemberIs(fields, accounts, obj, key) {
      SlotDone(fields, accounts, key);
      if SiblingAt(fields, key, accounts).Some? {
        KeepsTag(SiblingAt(fields, key, accounts).value, accounts);
      }
    }
    RenderedMembers(fields, accounts, obj);
  }

  // ---------------------------------------------------------------- the early return

  /** Some reference outside user content. */
  ghost predicate HasReference(value: Tree) {
    match value
    case Arr(items) => exists i :: 0 <= i < |items| && HasReference(items[i])
    case Obj(fields) =>
      IsReference(fields) || exists key :: key in fields && IsContract(key) && HasReference(fields[key])
    case _ => false
  }

  /** Returning early skips the `legacy` mark: on a response that names no uuid and no linked
      id, that is what rendering would have produced exactly when it holds no reference. */
  lemma {:induction false} EarlyReturnIsRendering(value: Tree)
    ensures Render(value, map[]) == value <==> !HasReference(value)
  {
    match value
    case Arr(items) =>
      forall i | 0 <= i < |items| ensures Render(items[i], map[]) == items[i] <==> !HasReference(items[i]) {
        EarlyReturnIsRendering(items[i]);
      }
      assert Render(value, map[]) == value <==> Render(value, map[]).items == items;
      if !HasReference(value) {
        assert Render(value, map[]).items == items;
      }
    case Obj(fields) =>
      if IsReference(fields) {
        ReferenceKeeps(fields, map[]);
      } else {
        forall key | key in fields && IsContract(key)
          ensures Render(fields[key], map[]) == fields[key] <==> !HasReference(fields[key])
        {
          EarlyReturnIsRendering(fields[key]);
        }
        UnchangedMembers(fields);
      }
    case _ =>
  }

  lemma UnchangedMembers(fields: Fields)
    requires !IsReference(fields)
    ensures Render(Obj(fields), map[]) == Obj(fields)
       <==> forall key :: key in fields && IsContract(key) ==> Render(fields[key], map[]) == fields[key]
  {
    RenderedMembers(fields, map[], fields);
    if forall key :: MemberIs(fields, map[], fields, key) {
      forall key | key in fields && IsContract(key) ensures Render(fields[key], map[]) == fields[key] {
        assert MemberIs(fields, map[], fields, key);
      }
    } else {
      var key :| !MemberIs(fields, map[], fields, key);
    }
  }
}
