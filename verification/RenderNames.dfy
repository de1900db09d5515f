/** Responses under their real member names. `Render` works on trees whose member names are
    classified; here the classification is shown to lose nothing, and what rendering promises is
    said of the names themselves. */
module RenderNames {
  import opened R = Render
  import J = JsonTrees

  // ---------------------------------------------------------------- there and back

  /** `name` recovers what `class` was given, so no two names fall into one class. */
  ghost predicate Recovers(class_: string -> Key, name: Key -> string) {
    forall n :: name(class_(n)) == n
  }

  /** A response with its member names classified. */
  function Parse(value: J.Json, class_: string -> Key, name: Key -> string): Tree
    requires Recovers(class_, name)
  {
    match value
    case Null => Null
    case Bool(b) => Bool(b)
    case Number(n) => Number(n)
    case Str(s) => Str(s)
    case Arr(items) => Arr(seq(|items|, i requires 0 <= i < |items| => Parse(items[i], class_, name)))
    case Obj(fields) =>
      Obj(map key | key in (set n | n in fields :: class_(n)) :: Parse(fields[name(key)], class_, name))
  }

  /** Every member, at every depth, is classified as its name is. */
  ghost predicate Named(value: Tree, class_: string -> Key, name: Key -> string) {
    match value
    case Arr(items) => forall i :: 0 <= i < |items| ==> Named(items[i], class_, name)
    case Obj(fields) => forall key :: key in fields ==> class_(name(key)) == key && Named(fields[key], class_, name)
    case _ => true
  }

  function Unparse(value: Tree, class_: string -> Key, name: Key -> string): J.Json
    requires Named(value, class_, name)
  {
    match value
    case Null => J.Null
    case Bool(b) => J.Bool(b)
    case Number(n) => J.Number(n)
    case Str(s) => J.Str(s)
    case Arr(items) => J.Arr(seq(|items|, i requires 0 <= i < |items| => Unparse(items[i], class_, name)))
    case Obj(fields) =>
      J.Obj(map n | n in (set key | key in fields :: name(key)) :: Unparse(fields[class_(n)], class_, name))
  }

  lemma {:induction false} ParseIsNamed(value: J.Json, class_: string -> Key, name: Key -> string)
    requires Recovers(class_, name)
    ensures Named(Parse(value, class_, name), class_, name)
  {
    match value
    case Arr(items) =>
      forall i | 0 <= i < |items| ensures Named(Parse(items[i], class_, name), class_, name) {
        ParseIsNamed(items[i], class_, name);
      }
      assert Named(Arr(Parse(value, class_, name).items), class_, name);
    case Obj(fields) =>
      var parsed := Parse(value, class_, name).fields;
      forall key | key in parsed ensures class_(name(key)) == key && Named(parsed[key], class_, name) {
        var n := ParsedMember(fields, class_, name, key);
        ParseIsNamed(fields[n], class_, name);
      }
    case _ =>
  }

  /** The member a class comes from. */
  lemma ParsedMember(fields: map<string, J.Json>, class_: string -> Key, name: Key -> string, key: Key) returns (n: string)
    requires Recovers(class_, name) && key in Parse(J.Obj(fields), class_, name).fields
    ensures n == name(key) && n in fields && class_(n) == key
    ensures Parse(J.Obj(fields), class_, name).fields[key] == Parse(fields[n], class_, name)
  {
    n :| n in fields && class_(n) == key;
    assert name(class_(n)) == n;
  }

  lemma MemberParsed(fields: map<string, J.Json>, class_: string -> Key, name: Key -> string, n: string)
    requires Recovers(class_, name) && n in fields
    ensures var parsed := Parse(J.Obj(fields), class_, name).fields;
            class_(n) in parsed && parsed[class_(n)] == Parse(fields[n], class_, name) && name(class_(n)) == n
  {
  }

  /** Reading a response into classes and writing it out again gives the same response. */
  lemma {:induction false} ParseLosesNothing(value: J.Json, class_: string -> Key, name: Key -> string)
    requires Recovers(class_, name)
    ensures Named(Parse(value, class_, name), class_, name)
    ensures Unparse(Parse(value, class_, name), class_, name) == value
  {
    ParseIsNamed(value, class_, name);
    match value
    case Arr(items) =>
      forall i | 0 <= i < |items| { ParseLosesNothing(items[i], class_, name); }
      assert Unparse(Parse(value, class_, name), class_, name).items == items;
    case Obj(fields) =>
      forall n | n in fields
        ensures Named(Parse(fields[n], class_, name), class_, name)
        ensures Unparse(Parse(fields[n], class_, name), class_, name) == fields[n]
      {
        ParseLosesNothing(fields[n], class_, name);
      }
      FieldsComeBack(fields, class_, name);
    case _ =>
  }

  lemma UnparsedMember(fields: Fields, class_: string -> Key, name: Key -> string, key: Key)
    requires Named(Obj(fields), class_, name) && key in fields
    ensures var written := Unparse(Obj(fields), class_, name).fields;
            name(key) in written && written[name(key)] == Unparse(fields[key], class_, name)
  {
  }

  lemma FieldsComeBack(fields: map<string, J.Json>, class_: string -> Key, name: Key -> string)
    requires Recovers(class_, name) && Named(Parse(J.Obj(fields), class_, name), class_, name)
    requires forall n :: n in fields ==>
               Named(Parse(fields[n], class_, name), class_, name) && Unparse(Parse(fields[n], class_, name), class_, name) == fields[n]
    ensures Unparse(Parse(J.Obj(fields), class_, name), class_, name) == J.Obj(fields)
  {
    var parsed := Parse(J.Obj(fields), class_, name).fields;
    var back := Unparse(Obj(parsed), class_, name).fields;
    forall n | n in fields ensures n in back && back[n] == fields[n] {
      MemberParsed(fields, class_, name, n);
      UnparsedMember(parsed, class_, name, class_(n));
    }
    forall n | n in back ensures n in fields {
      var key :| key in parsed && name(key) == n;
      var m := ParsedMember(fields, class_, name, key);
    }
    assert back == fields;
  }

  // ---------------------------------------------------------------- rendering, name by name

  /** The members the contract speaks of are classified as their names are. */
  ghost predicate ContractNamed(class_: string -> Key, name: Key -> string) {
    forall key: Key :: !key.UserContent? && !key.Other? ==> class_(name(key)) == key
  }

  /** Rendering adds no member under a name that belongs to another class. */
  lemma {:induction false} RenderKeepsNames(value: Tree, accounts: Accounts, class_: string -> Key, name: Key -> string)
    requires ContractNamed(class_, name) && Named(value, class_, name)
    ensures Named(R.Render(value, accounts), class_, name)
    decreases value, 1
  {
    match value
    case Arr(items) =>
      forall i | 0 <= i < |items| ensures Named(R.Render(items[i], accounts), class_, name) {
        RenderKeepsNames(items[i], accounts, class_, name);
      }
      assert Named(Arr(R.Render(value, accounts).items), class_, name);
    case Obj(fields) =>
      if IsReference(fields) {
        ReferenceKeepsNames(fields, accounts, class_, name);
      } else {
        var after := R.Render(value, accounts).fields;
        RenderedMembers(fields, accounts, after);
        forall key | key in after ensures class_(name(key)) == key && Named(after[key], class_, name) {
          assert MemberIs(fields, accounts, after, key);
          if SiblingAt(fields, key, accounts).None? {
            MemberKeepsNames(key, fields[key], accounts, class_, name);
          }
        }
      }
    case _ =>
  }

  lemma {:induction false} MemberKeepsNames(key: Key, item: Tree, accounts: Accounts, class_: string -> Key, name: Key -> string)
    requires ContractNamed(class_, name) && Named(item, class_, name)
    ensures Named(RenderMember(key, item, accounts), class_, name)
    decreases item, 2
  {
    if IsContract(key) {
      RenderKeepsNames(item, accounts, class_, name);
    }
  }

  lemma ReferenceKeepsNames(fields: Fields, accounts: Accounts, class_: string -> Key, name: Key -> string)
    requires IsReference(fields) && ContractNamed(class_, name) && Named(Obj(fields), class_, name)
    ensures Named(Obj(RenderReference(fields, accounts)), class_, name)
  {
    var after, extras := RenderReference(fields, accounts), Extras(fields[Id].s, accounts);
    forall key | key in after ensures class_(name(key)) == key && Named(after[key], class_, name) {
      assert key in extras || key == Id || key in fields;
    }
  }

  /** A response rendered, under its own names. */
  function RenderNamed(value: J.Json, accounts: Accounts, class_: string -> Key, name: Key -> string): J.Json
    requires Recovers(class_, name) && ContractNamed(class_, name)
  {
    ParseIsNamed(value, class_, name);
    RenderKeepsNames(Parse(value, class_, name), accounts, class_, name);
    Unparse(R.Render(Parse(value, class_, name), accounts), class_, name)
  }

  lemma ContentIsNoReference(fields: Fields, key: Key)
    requires key in fields && key.UserContent?
    ensures !IsReference(fields)
  {
    if IsReference(fields) {
      ThreeKeys(fields, Id, Type, key);
    }
  }

  lemma RenderedAt(fields: Fields, accounts: Accounts, key: Key)
    requires key in fields && !IsReference(fields) && (key.UserContent? || key.Other?)
    ensures var after := R.Render(Obj(fields), accounts);
            && after.Obj? && key in after.fields
            && after.fields[key] == if key.UserContent? then fields[key] else R.Render(fields[key], accounts)
  {
    var after := R.Render(Obj(fields), accounts).fields;
    RenderedMembers(fields, accounts, after);
    assert MemberIs(fields, accounts, after, key);
  }

  lemma WrittenAt(tree: Tree, class_: string -> Key, name: Key -> string, n: string)
    requires Recovers(class_, name) && Named(tree, class_, name) && tree.Obj? && class_(n) in tree.fields
    ensures Named(tree.fields[class_(n)], class_, name)
    ensures var written := Unparse(tree, class_, name);
            written.Obj? && n in written.fields && written.fields[n] == Unparse(tree.fields[class_(n)], class_, name)
  {
    UnparsedMember(tree.fields, class_, name, class_(n));
  }

  /** What becomes of a member in no slot: user content stays, everything else is rendered in turn. */
  lemma PlainMember(fields: map<string, J.Json>, accounts: Accounts, class_: string -> Key, name: Key -> string, n: string)
    requires Recovers(class_, name) && ContractNamed(class_, name) && n in fields
    requires class_(n).UserContent? || (class_(n).Other? && !IsReference(Parse(J.Obj(fields), class_, name).fields))
    ensures var after := RenderNamed(J.Obj(fields), accounts, class_, name);
            && after.Obj? && n in after.fields
            && after.fields[n] == if class_(n).UserContent? then fields[n] else RenderNamed(fields[n], accounts, class_, name)
  {
    var tree := Parse(J.Obj(fields), class_, name);
    MemberParsed(fields, class_, name, n);
    if class_(n).UserContent? {
      ContentIsNoReference(tree.fields, class_(n));
    }
    RenderedAt(tree.fields, accounts, class_(n));
    ParseIsNamed(J.Obj(fields), class_, name);
    RenderKeepsNames(tree, accounts, class_, name);
    WrittenAt(R.Render(tree, accounts), class_, name, n);
    ParseLosesNothing(fields[n], class_, name);
  }

  // ---------------------------------------------------------------- the names themselves

  /** `{"type": "carbon"|"silicon", "id": <storage key>}`, and nothing else. */
  predicate IsNamedReference(fields: map<string, J.Json>) {
    && |fields| == 2
    && "id" in fields && fields["id"].Str?
    && "type" in fields && (fields["type"] == J.Str("carbon") || fields["type"] == J.Str("silicon"))
  }

  /** Some account slot of the response, found by its name, holds the storage key `id`. */
  ghost predicate NamesKey(value: J.Json, id: string)
    decreases value, 0
  {
    match value
    case Arr(items) => exists i :: 0 <= i < |items| && NamesKey(items[i], id)
    case Obj(fields) =>
      if IsNamedReference(fields) then fields["id"].s == id
      else exists n :: n in fields && MemberNamesKey(n, fields[n], id)
    case _ => false
  }

  ghost predicate MemberNamesKey(n: string, item: J.Json, id: string)
    decreases item, 1
  {
    if n == "actor_id" || n == "member_id" then item == J.Str(id)
    else if n == "sender_id" || n == "recipient_id" then item.Str? && Base(item.s) == id
    else if n in USER_CONTENT then false
    else NamesKey(item, id)
  }

  /** The classes are those of the names the source tests for. */
  ghost predicate Sorts(class_: string -> Key) {
    && class_("id") == Id && class_("type") == Type
    && forall n :: SortsName(class_(n), n)
  }

  predicate SortsName(key: Key, n: string) {
    && (key.BareId? <==> n == "actor_id" || n == "member_id")
    && (key.Address? <==> n == "sender_id" || n == "recipient_id")
    && (key.UserContent? <==> n in USER_CONTENT)
  }

  lemma {:induction false} ImageSize(names: set<string>, class_: string -> Key, name: Key -> string)
    requires Recovers(class_, name)
    ensures |set n | n in names :: class_(n)| == |names|
  {
    if names != {} {
      var x :| x in names;
      var rest := names - {x};
      ImageSize(rest, class_, name);
      assert (set n | n in names :: class_(n)) == (set n | n in rest :: class_(n)) + {class_(x)};
      assert forall n :: n in rest ==> name(class_(n)) == n;
    } else {
      assert (set n | n in names :: class_(n)) == {};
    }
  }

  /** The test for a reference, which counts members, is the same on names and on classes. */
  lemma ReferenceByName(fields: map<string, J.Json>, class_: string -> Key, name: Key -> string)
    requires Recovers(class_, name) && Sorts(class_)
    ensures IsNamedReference(fields) <==> IsReference(Parse(J.Obj(fields), class_, name).fields)
  {
    var parsed := Parse(J.Obj(fields), class_, name).fields;
    ImageSize(fields.Keys, class_, name);
    assert parsed.Keys == set n | n in fields.Keys :: class_(n);
    assert |parsed.Keys| == |parsed| && |fields.Keys| == |fields|;
    SameScalar(fields, class_, name, "id");
    SameScalar(fields, class_, name, "type");
  }

  lemma SameScalar(fields: map<string, J.Json>, class_: string -> Key, name: Key -> string, n: string)
    requires Recovers(class_, name)
    ensures var parsed := Parse(J.Obj(fields), class_, name).fields;
            && (class_(n) in parsed <==> n in fields)
            && (n in fields ==> (parsed[class_(n)].Str? <==> fields[n].Str?))
            && (n in fields && fields[n].Str? ==> parsed[class_(n)].s == fields[n].s)
  {
    var parsed := Parse(J.Obj(fields), class_, name).fields;
    if n in fields {
      MemberParsed(fields, class_, name, n);
    } else if class_(n) in parsed {
      var m := ParsedMember(fields, class_, name, class_(n));
    }
  }

  /** The first walk gathers the keys in the members the source names, outside the user content it
      names. */
  lemma {:induction false} NamesByName(value: J.Json, id: string, class_: string -> Key, name: Key -> string)
    requires Recovers(class_, name) && Sorts(class_)
    ensures Names(Parse(value, class_, name), id) <==> NamesKey(value, id)
    decreases value, 1
  {
    match value
    case Arr(items) =>
      forall i | 0 <= i < |items| ensures Names(Parse(items[i], class_, name), id) <==> NamesKey(items[i], id) {
        NamesByName(items[i], id, class_, name);
      }
      var parsed := Parse(value, class_, name).items;
      assert forall i :: 0 <= i < |items| ==> parsed[i] == Parse(items[i], class_, name);
    case Obj(fields) =>
      ReferenceByName(fields, class_, name);
      if IsNamedReference(fields) {
        SameScalar(fields, class_, name, "id");
      } else {
        MembersByName(fields, id, class_, name);
      }
    case _ =>
  }

  lemma {:induction false} MembersByName(fields: map<string, J.Json>, id: string, class_: string -> Key, name: Key -> string)
    requires Recovers(class_, name) && Sorts(class_)
    ensures MembersName(Parse(J.Obj(fields), class_, name).fields, id)
       <==> exists n :: n in fields && MemberNamesKey(n, fields[n], id)
    decreases J.Obj(fields), 0
  {
    var parsed := Parse(J.Obj(fields), class_, name).fields;
    forall n | n in fields
      ensures class_(n) in parsed && (MemberNames(class_(n), parsed[class_(n)], id) <==> MemberNamesKey(n, fields[n], id))
    {
      MemberParsed(fields, class_, name, n);
      MemberByName(n, fields[n], id, class_, name);
    }
    if key :| key in parsed && MemberNames(key, parsed[key], id) {
      var n := ParsedMember(fields, class_, name, key);
    }
  }

  lemma {:induction false} MemberByName(n: string, item: J.Json, id: string, class_: string -> Key, name: Key -> string)
    requires Recovers(class_, name) && Sorts(class_)
    ensures MemberNames(class_(n), Parse(item, class_, name), id) <==> MemberNamesKey(n, item, id)
    decreases item, 2
  {
    assert SortsName(class_(n), n);
    NamesByName(item, id, class_, name);
  }

  // ---------------------------------------------------------------- responses

  /** The name a classified member has. */
  function NameOf(key: Key): string {
    match key
    case Id => "id"
    case Type => "type"
    case Extra(Uuid) => "uuid"
    case Extra(DisplayName) => "display_name"
    case Extra(PfpUrl) => "pfp_url"
    case Extra(Deleted) => "deleted"
    case Extra(Legacy) => "legacy"
    case BareId(Actor) => "actor_id"
    case BareId(Member) => "member_id"
    case BareUuid(Actor) => "actor_uuid"
    case BareUuid(Member) => "member_uuid"
    case Address(Sender) => "sender_id"
    case Address(Recipient) => "recipient_id"
    case UserContent(name) => name
    case Other(name) => name
  }

  /** Classifying a name loses nothing, so no two names are taken for one. */
  lemma NameIsKept(name: string)
    ensures NameOf(KeyOf(name)) == name
  {
  }

  lemma ContractKeyIsKept(key: Key)
    requires !key.UserContent? && !key.Other?
    ensures KeyOf(NameOf(key)) == key
  {
    match key
    case Id =>
    case Type =>
    case Extra(profile) => match profile { case Uuid => case DisplayName => case PfpUrl => case Deleted => case Legacy => }
    case BareId(party) => match party { case Actor => case Member => }
    case BareUuid(party) => match party { case Actor => case Member => }
    case Address(end) => match end { case Sender => case Recipient => }
  }

  lemma NameIsSorted(name: string)
    ensures SortsName(KeyOf(name), name)
  {
  }

  lemma NamesAreClassified()
    ensures Recovers(KeyOf, NameOf) && ContractNamed(KeyOf, NameOf) && Sorts(KeyOf)
  {
    forall n ensures NameOf(KeyOf(n)) == n && SortsName(KeyOf(n), n) {
      NameIsKept(n);
      NameIsSorted(n);
    }
    forall key: Key | !key.UserContent? && !key.Other? ensures KeyOf(NameOf(key)) == key {
      ContractKeyIsKept(key);
    }
  }

  function Classified(response: J.Json): Tree {
    NamesAreClassified();
    Parse(response, KeyOf, NameOf)
  }

  /** A response as it is sent. */
  function Rendered(response: J.Json, accounts: Accounts): J.Json {
    NamesAreClassified();
    RenderNamed(response, accounts, KeyOf, NameOf)
  }

  /** Whatever an object holds under one of the seven names of user content is sent as it is; what
      it holds under a name the contract does not know is rendered in turn, so this reaches every
      depth. */
  lemma UserContentIsUntouched(fields: map<string, J.Json>, accounts: Accounts, n: string)
    requires n in fields
    requires n in USER_CONTENT || (KeyOf(n).Other? && !IsNamedReference(fields))
    ensures var after := Rendered(J.Obj(fields), accounts);
            && after.Obj? && n in after.fields
            && after.fields[n] == if n in USER_CONTENT then fields[n] else Rendered(fields[n], accounts)
  {
    NamesAreClassified();
    assert SortsName(KeyOf(n), n);
    ReferenceByName(fields, KeyOf, NameOf);
    PlainMember(fields, accounts, KeyOf, NameOf, n);
  }

  /** The keys gathered from a response are those in the members the source names. */
  lemma KeysAreThoseNamed(response: J.Json, id: string)
    ensures Names(Classified(response), id) <==> NamesKey(response, id)
  {
    NamesAreClassified();
    NamesByName(response, id, KeyOf, NameOf);
  }

  /** Without accounts to show, and without references, a response is sent as it came. */
  lemma NothingToRender(response: J.Json)
    requires !HasReference(Classified(response))
    ensures Rendered(response, map[]) == response
  {
    NamesAreClassified();
    EarlyReturnIsRendering(Classified(response));
    ParseLosesNothing(response, KeyOf, NameOf);
  }
}
