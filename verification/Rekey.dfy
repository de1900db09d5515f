/** The identity re-key of scripts/accounts_uuid128.py: which mapping files are accepted, and
    what rewriting a JSON column does to the identities it holds. */
module Rekey {
  import opened Identifiers
  import opened JsonTrees
  import opened Results

  type Mapping = map<string, string>

  datatype Kind = Carbon | Silicon

  // ---------------------------------------------------------------- identifiers

  /** Python's `str.isspace` for one character. */
  predicate IsSpace(c: char) {
    || '\t' <= c <= '\r' || '\U{1c}' <= c <= ' ' || c == '\U{85}' || c == '\U{a0}' || c == '\U{1680}'
    || '\U{2000}' <= c <= '\U{200a}' || c == '\U{2028}' || c == '\U{2029}' || c == '\U{202f}'
    || c == '\U{205f}' || c == '\U{3000}'
  }

  predicate ValidSource(id: string) {
    id != "" && forall i :: 0 <= i < |id| ==> !IsSpace(id[i]) && id[i] !in ":,/"
  }

  /** A canonical UUID of version 4 and the RFC 4122 variant. */
  predicate CanonicalUuid4(id: string) {
    CanonicalUuid(id) && id[14] == '4' && id[19] in "89ab"
  }

  // ---------------------------------------------------------------- the mapping file

  ghost predicate Injective(m: Mapping) {
    forall x, y :: x in m && y in m && m[x] == m[y] ==> x == y
  }

  /** No target is a source, so no chain or cycle of renamings starts inside one mapping. */
  ghost predicate Unchained(m: Mapping) {
    forall x :: x in m ==> m[x] !in m
  }

  /** A renaming that merges no ids and settles in one step. */
  ghost predicate IsRenaming(m: Mapping) {
    Injective(m) && Unchained(m)
  }

  /** What `read_mapping` promises of every mapping it returns. */
  ghost predicate ValidMapping(m: Mapping) {
    && m != map[] && IsRenaming(m)
    && (forall x :: x in m ==> ValidSource(x) && CanonicalUuid4(m[x]))
  }

  const HEADER := ["old_uuid", "new_uuid", "kind"]

  /** One CSV record: blank (skipped by the reader), of the wrong width, or three fields. */
  datatype Row = Blank | Malformed | Entry(oldId: string, newId: string, kind: string)

  function KindOf(text: string): Option<Kind> {
    if text == "carbon" then Some(Carbon) else if text == "silicon" then Some(Silicon) else None
  }

  /** A record that passes every check that concerns it alone. */
  predicate ValidEntry(row: Row) {
    row.Entry? && ValidSource(row.oldId) && CanonicalUuid4(row.newId) && KindOf(row.kind).Some? && row.oldId != row.newId
  }

  /** The first complaint about a record by itself. */
  function RowError(row: Row): (error: Option<string>)
    ensures error.None? <==> row.Blank? || ValidEntry(row)
  {
    match row
    case Blank => None
    case Malformed => Some("expected exactly three fields")
    case Entry(oldId, newId, kind) =>
      if !ValidSource(oldId) then Some("invalid source ID")
      else if !CanonicalUuid4(newId) then Some("target must be a canonical lowercase UUIDv4")
      else if KindOf(kind).None? || oldId == newId then Some("invalid kind or identity mapping")
      else None
  }

  ghost predicate EveryRowValid(rows: seq<Row>) {
    forall row :: row in rows ==> row.Blank? || ValidEntry(row)
  }

  ghost predicate NoRepeats(rows: seq<Row>) {
    forall i, j :: 0 <= i < j < |rows| && rows[i].Entry? && rows[j].Entry? ==>
      rows[i].oldId != rows[j].oldId && rows[i].newId != rows[j].newId
  }

  ghost predicate NoChains(rows: seq<Row>) {
    forall r, s :: r in rows && s in rows && r.Entry? && s.Entry? ==> r.oldId != s.newId
  }

  /** The mapping files that are accepted: an exact header and at least one record; every
      record valid; no source or target twice; no target that is also a source. */
  ghost predicate Acceptable(header: seq<string>, rows: seq<Row>) {
    && header == HEADER
    && EveryRowValid(rows) && NoRepeats(rows) && NoChains(rows)
    && exists row :: row in rows && row.Entry?
  }

  ghost function Sources(rows: seq<Row>): set<string> {
    set row | row in rows && row.Entry? :: row.oldId
  }

  /** The mapping and the kinds are exactly the records. */
  ghost predicate Records(rows: seq<Row>, m: Mapping, kinds: map<string, Kind>) {
    && kinds.Keys == m.Keys == Sources(rows)
    && (forall row :: row in rows && row.Entry? ==>
          row.oldId in m && m[row.oldId] == row.newId && KindOf(row.kind) == Some(kinds[row.oldId]))
  }

  lemma RepeatFound(rows: seq<Row>, row: Row, m: Mapping, kinds: map<string, Kind>)
    requires Records(rows, m, kinds) && row.Entry? && (row.oldId in m || row.newId in m.Values)
    ensures !NoRepeats(rows + [row])
  {
    var x :| x in m && (x == row.oldId || m[x] == row.newId);
    var earlier :| earlier in rows && earlier.Entry? && earlier.oldId == x;
    var i :| 0 <= i < |rows| && rows[i] == earlier;
    var all := rows + [row];
    assert all[i] == earlier && all[|rows|] == row;
  }

  lemma ExtendRecords(rows: seq<Row>, row: Row, m: Mapping, kinds: map<string, Kind>)
    requires Records(rows, m, kinds) && NoRepeats(rows) && Injective(m)
    requires ValidEntry(row) && row.oldId !in m && row.newId !in m.Values
    ensures Records(rows + [row], m[row.oldId := row.newId], kinds[row.oldId := KindOf(row.kind).value])
    ensures Injective(m[row.oldId := row.newId]) && NoRepeats(rows + [row])
    ensures m[row.oldId := row.newId].Values == m.Values + {row.newId}
  {
    assert Sources(rows + [row]) == Sources(rows) + {row.oldId};
    var m' := m[row.oldId := row.newId];
    forall y | y in m.Values + {row.newId} ensures y in m'.Values
    {
      if y in m.Values {
        var x :| x in m && m[x] == y;
        assert m'[x] == y;
      } else {
        assert m'[row.oldId] == y;
      }
    }
    forall earlier | earlier in rows && earlier.Entry?
      ensures earlier.oldId != row.oldId && earlier.newId != row.newId
    {
      assert m[earlier.oldId] in m.Values;
    }
  }

  lemma ChainsFound(rows: seq<Row>, m: Mapping, kinds: map<string, Kind>)
    requires Records(rows, m, kinds)
    ensures m.Keys * m.Values == {} <==> NoChains(rows)
    ensures m != map[] <==> exists row :: row in rows && row.Entry?
  {
    forall r, s | r in rows && s in rows && r.Entry? && s.Entry? && r.oldId == s.newId
      ensures r.oldId in m.Keys * m.Values
    {
      assert m[s.oldId] in m.Values;
    }
    forall y | y in m.Keys * m.Values
      ensures !NoChains(rows)
    {
      var x :| x in m && m[x] == y;
      var r :| r in rows && r.Entry? && r.oldId == y;
      var s :| s in rows && s.Entry? && s.oldId == x;
    }
    forall row | row in rows && row.Entry? ensures row.oldId in m {}
    if m != map[] {
      var x :| x in m;
      assert x in Sources(rows);
    }
  }

  lemma AcceptedIsValid(rows: seq<Row>, m: Mapping, kinds: map<string, Kind>)
    requires Records(rows, m, kinds) && EveryRowValid(rows)
    requires Injective(m) && m != map[] && m.Keys * m.Values == {}
    ensures ValidMapping(m)
  {
    forall x | x in m
      ensures ValidSource(x) && CanonicalUuid4(m[x]) && m[x] !in m
    {
      var row :| row in rows && row.Entry? && row.oldId == x;
      assert ValidEntry(row) && m[x] in m.Values;
      assert m[x] !in m.Keys * m.Values;
    }
  }

  lemma SkipBlank(rows: seq<Row>, row: Row, m: Mapping, kinds: map<string, Kind>)
    requires Records(rows, m, kinds) && NoRepeats(rows) && row.Blank?
    ensures Records(rows + [row], m, kinds) && NoRepeats(rows + [row])
  {
    assert Sources(rows + [row]) == Sources(rows);
  }

  method ReadMapping(header: seq<string>, rows: seq<Row>)
    returns (result: Result<(Mapping, map<string, Kind>), string>)
    ensures result.Success? <==> Acceptable(header, rows)
    ensures result.Success? ==> ValidMapping(result.value.0) && Records(rows, result.value.0, result.value.1)
  {
    if header != HEADER {
      return Failure("CSV header must be exactly old_uuid,new_uuid,kind");
    }
    var mapping: Mapping, targets: set<string>, kinds: map<string, Kind> := map[], {}, map[];
    for line := 0 to |rows|
      invariant Records(rows[..line], mapping, kinds)
      invariant targets == mapping.Values && Injective(mapping)
      invariant EveryRowValid(rows[..line]) && NoRepeats(rows[..line])
    {
      var row := rows[line];
      assert rows[..line + 1] == rows[..line] + [row];
      var error := RowError(row);
      if error.Some? {
        assert row in rows;
        return Failure(error.value);
      }
      if row.Blank? {
        SkipBlank(rows[..line], row, mapping, kinds);
        continue;
      }
      if row.oldId in mapping || row.newId in targets {
        RepeatFound(rows[..line], row, mapping, kinds);
        RepeatsExtend(rows, line + 1);
        return Failure("duplicate source or target (merges are forbidden)");
      }
      ExtendRecords(rows[..line], row, mapping, kinds);
      mapping, kinds := mapping[row.oldId := row.newId], kinds[row.oldId := KindOf(row.kind).value];
      targets := targets + {row.newId};
    }
    assert rows[..|rows|] == rows;
    ChainsFound(rows, mapping, kinds);
    if mapping == map[] || mapping.Keys * targets != {} {
      return Failure("mapping is empty or chains/cycles into another source");
    }
    AcceptedIsValid(rows, mapping, kinds);
    return Success((mapping, kinds));
  }

  lemma RepeatsExtend(rows: seq<Row>, n: nat)
    requires n <= |rows| && !NoRepeats(rows[..n])
    ensures !NoRepeats(rows)
  {
    var i, j :| 0 <= i < j < n && rows[..n][i].Entry? && rows[..n][j].Entry? &&
      !(rows[..n][i].oldId != rows[..n][j].oldId && rows[..n][i].newId != rows[..n][j].newId);
    assert rows[..n][i] == rows[i] && rows[..n][j] == rows[j];
  }

  // ---------------------------------------------------------------- rewriting JSON columns

  const IDENTITY_KEYS := {"uuid", "account_uuid", "custodian_uuid", "actor_account", "owner_account",
                          "assigned_by_account", "assigned_to_account", "participant_account", "silicon_account",
                          "allowed_account", "created_by_account", "updated_by_account", "added_by_account",
                          "removed_by_account", "deleted_by_account"}

  /** An object tagged as a carbon or a silicon: by its type, or by its kind if it has no type. */
  predicate Typed(fields: map<string, Json>) {
    var tag := if "type" in fields then fields["type"] else if "kind" in fields then fields["kind"] else Null;
    tag == Str("carbon") || tag == Str("silicon")
  }

  function Lookup(m: Mapping, id: string): string {
    if id in m then m[id] else id
  }

  /** What precedes and follows the first colon. */
  function SplitColon(s: string): (r: (string, string))
    requires ':' in s
    ensures s == r.0 + ":" + r.1 && ':' !in r.0
  {
    if s[0] == ':' then
      assert s == "" + ":" + s[1..];
      ("", s[1..])
    else
      var (app, rest) := SplitColon(s[1..]);
      assert s == [s[0]] + s[1..];
      ([s[0]] + app, rest)
  }

  lemma {:induction false} SplitJoin(app: string, rest: string)
    requires ':' !in app
    ensures ':' in app + ":" + rest && SplitColon(app + ":" + rest) == (app, rest)
  {
    var s := app + ":" + rest;
    assert s[|app|] == ':';
    if app == "" {
      assert s[1..] == rest;
    } else {
      SplitJoin(app[1..], rest);
      assert s[0] == app[0] && s[1..] == app[1..] + ":" + rest;
      assert [app[0]] + app[1..] == app;
    }
  }

  /** How the script reads one member of an object: as an identity, as `app:identity`, or as
      a value to descend into. */
  datatype Position = Identity | Membership | Plain

  function PositionOf(typed: bool, key: string, item: Json): Position {
    if item.Str? && (key in IDENTITY_KEYS || (typed && key == "id")) then Identity
    else if key == "membership_id" && item.Str? && ':' in item.s then Membership
    else Plain
  }

  function Rewrite(value: Json, m: Mapping): Json
    decreases value, 0
  {
    match value
    case Arr(items) => Arr(seq(|items|, i requires 0 <= i < |items| => Rewrite(items[i], m)))
    case Obj(fields) => Obj(map key | key in fields :: RewriteField(Typed(fields), key, fields[key], m))
    case _ => value
  }

  function RewriteField(typed: bool, key: string, item: Json, m: Mapping): Json
    decreases item, 1
  {
    match PositionOf(typed, key, item)
    case Identity => Str(Lookup(m, item.s))
    case Membership =>
      var (app, id) := SplitColon(item.s);
      if id in m then Str(app + ":" + m[id]) else item
    case Plain => Rewrite(item, m)
  }

  /** `id` stands in some identity position of `value`. */
  ghost predicate Mentions(value: Json, id: string)
    decreases value, 0
  {
    match value
    case Arr(items) => exists i :: 0 <= i < |items| && Mentions(items[i], id)
    case Obj(fields) => exists key :: key in fields && FieldMentions(Typed(fields), key, fields[key], id)
    case _ => false
  }

  ghost predicate FieldMentions(typed: bool, key: string, item: Json, id: string)
    decreases item, 1
  {
    match PositionOf(typed, key, item)
    case Identity => item.s == id
    case Membership => SplitColon(item.s).1 == id
    case Plain => Mentions(item, id)
  }

  /** `value` with every identity blanked out: its shape and all of its other content. */
  function Skeleton(value: Json): Json
    decreases value, 0
  {
    match value
    case Arr(items) => Arr(seq(|items|, i requires 0 <= i < |items| => Skeleton(items[i])))
    case Obj(fields) => Obj(map key | key in fields :: FieldSkeleton(Typed(fields), key, fields[key]))
    case _ => value
  }

  function FieldSkeleton(typed: bool, key: string, item: Json): Json
    decreases item, 1
  {
    match PositionOf(typed, key, item)
    case Identity => Str("")
    case Membership => Str(SplitColon(item.s).0 + ":")
    case Plain => Skeleton(item)
  }

  lemma TagsArePlain(typed: bool, item: Json)
    ensures PositionOf(typed, "type", item).Plain? && PositionOf(typed, "kind", item).Plain?
  {
    assert "type"[0] == 't' && "kind"[0] == 'k' && "id"[0] == 'i' && "membership_id"[0] == 'm';
    assert forall key :: key in IDENTITY_KEYS ==> |key| != 4 || key[0] == 'u';
  }

  lemma ScalarsStay(value: Json, m: Mapping)
    ensures Rewrite(value, m).Str? == value.Str?
    ensures value.Str? ==> Rewrite(value, m) == value
  {
  }

  /** Rewriting an object keeps its type tag. */
  lemma TagKept(fields: map<string, Json>, m: Mapping)
    ensures Typed(Rewrite(Obj(fields), m).fields) == Typed(fields)
  {
    var typed := Typed(fields);
    if "type" in fields {
      TagsArePlain(typed, fields["type"]);
      ScalarsStay(fields["type"], m);
      assert Rewrite(Obj(fields), m).fields["type"] == RewriteField(typed, "type", fields["type"], m);
    } else if "kind" in fields {
      TagsArePlain(typed, fields["kind"]);
      ScalarsStay(fields["kind"], m);
      assert Rewrite(Obj(fields), m).fields["kind"] == RewriteField(typed, "kind", fields["kind"], m);
    }
  }

  /** Rewriting never changes how a member is read. */
  lemma PositionKept(typed: bool, key: string, item: Json, m: Mapping)
    ensures PositionOf(typed, key, RewriteField(typed, key, item, m)) == PositionOf(typed, key, item)
    ensures PositionOf(typed, key, item).Membership? ==>
      var (app, id) := SplitColon(item.s);
      SplitColon(RewriteField(typed, key, item, m).s) == (app, Lookup(m, id))
  {
    if PositionOf(typed, key, item).Membership? {
      var (app, id) := SplitColon(item.s);
      SplitJoin(app, Lookup(m, id));
    }
  }

  /** Shape, and every value outside the identity positions, are preserved. */
  lemma {:induction false} RewriteKeepsSkeleton(value: Json, m: Mapping)
    ensures Skeleton(Rewrite(value, m)) == Skeleton(value)
  {
    match value
    case Arr(items) =>
      forall i | 0 <= i < |items| { RewriteKeepsSkeleton(items[i], m); }
      assert Skeleton(Rewrite(value, m)).items == Skeleton(value).items;
    case Obj(fields) =>
      TagKept(fields, m);
      forall key | key in fields
        ensures FieldSkeleton(Typed(fields), key, RewriteField(Typed(fields), key, fields[key], m))
             == FieldSkeleton(Typed(fields), key, fields[key])
      {
        PositionKept(Typed(fields), key, fields[key], m);
        RewriteKeepsSkeleton(fields[key], m);
      }
      assert Skeleton(Rewrite(value, m)).fields == Skeleton(value).fields;
    case _ =>
  }

  /** The identities after rewriting are exactly the images of the identities before. */
  lemma {:induction false} RewriteMovesIdentities(value: Json, m: Mapping, id: string)
    ensures Mentions(Rewrite(value, m), id) <==> exists x :: Mentions(value, x) && Lookup(m, x) == id
  {
    match value
    case Arr(items) =>
      forall i | 0 <= i < |items|
        ensures Mentions(Rewrite(items[i], m), id) <==> exists x :: Mentions(items[i], x) && Lookup(m, x) == id
      {
        RewriteMovesIdentities(items[i], m, id);
      }
      if Mentions(Rewrite(value, m), id) {
        var i :| 0 <= i < |items| && Mentions(Rewrite(items[i], m), id);
        var x :| Mentions(items[i], x) && Lookup(m, x) == id;
        assert Mentions(value, x);
      }
      if x :| Mentions(value, x) && Lookup(m, x) == id {
        var i :| 0 <= i < |items| && Mentions(items[i], x);
        assert Mentions(Rewrite(value, m).items[i], id);
      }
    case Obj(fields) =>
      TagKept(fields, m);
      var typed := Typed(fields);
      forall key | key in fields
        ensures FieldMentions(typed, key, RewriteField(typed, key, fields[key], m), id)
           <==> exists x :: FieldMentions(typed, key, fields[key], x) && Lookup(m, x) == id
      {
        PositionKept(typed, key, fields[key], m);
        RewriteMovesIdentities(fields[key], m, id);
        FieldMoves(typed, key, fields[key], m, id);
      }
      if Mentions(Rewrite(value, m), id) {
        var key :| key in fields && FieldMentions(typed, key, RewriteField(typed, key, fields[key], m), id);
        var x :| FieldMentions(typed, key, fields[key], x) && Lookup(m, x) == id;
        assert Mentions(value, x);
      }
      if x :| Mentions(value, x) && Lookup(m, x) == id {
        var key :| key in fields && FieldMentions(typed, key, fields[key], x);
        assert FieldMentions(typed, key, Rewrite(value, m).fields[key], id);
      }
    case _ =>
  }

  lemma FieldMoves(typed: bool, key: string, item: Json, m: Mapping, id: string)
    requires PositionOf(typed, key, item).Plain? ==>
      (Mentions(Rewrite(item, m), id) <==> exists x :: Mentions(item, x) && Lookup(m, x) == id)
    ensures FieldMentions(typed, key, RewriteField(typed, key, item, m), id)
       <==> exists x :: FieldMentions(typed, key, item, x) && Lookup(m, x) == id
  {
    PositionKept(typed, key, item, m);
    match PositionOf(typed, key, item)
    case Identity =>
      assert FieldMentions(typed, key, item, item.s);
    case Membership =>
      assert FieldMentions(typed, key, item, SplitColon(item.s).1);
    case Plain =>
      if Mentions(Rewrite(item, m), id) {
        var x :| Mentions(item, x) && Lookup(m, x) == id;
        assert FieldMentions(typed, key, item, x);
      }
      if x :| FieldMentions(typed, key, item, x) && Lookup(m, x) == id {
        assert Mentions(item, x);
      }
  }

  /** After rewriting, no source id is left in any identity position. */
  lemma NoSourceRemains(value: Json, m: Mapping, id: string)
    requires IsRenaming(m) && id in m
    ensures !Mentions(Rewrite(value, m), id)
  {
    RewriteMovesIdentities(value, m, id);
  }

  /** Rewriting with `m` and then `k` is rewriting with `n` when they agree on the identities
      the value holds. */
  lemma {:induction false} RewriteComposes(value: Json, m: Mapping, k: Mapping, n: Mapping)
    requires forall x :: Mentions(value, x) ==> Lookup(k, Lookup(m, x)) == Lookup(n, x)
    ensures Rewrite(Rewrite(value, m), k) == Rewrite(value, n)
  {
    match value
    case Arr(items) =>
      forall i | 0 <= i < |items| ensures Rewrite(Rewrite(items[i], m), k) == Rewrite(items[i], n)
      {
        forall x | Mentions(items[i], x) ensures Mentions(value, x) {}
        RewriteComposes(items[i], m, k, n);
      }
      assert Rewrite(Rewrite(value, m), k).items == Rewrite(value, n).items;
    case Obj(fields) =>
      TagKept(fields, m);
      var typed := Typed(fields);
      forall key | key in fields
        ensures RewriteField(typed, key, RewriteField(typed, key, fields[key], m), k) == RewriteField(typed, key, fields[key], n)
      {
        forall x | FieldMentions(typed, key, fields[key], x) ensures Mentions(value, x) {}
        FieldComposes(typed, key, fields[key], m, k, n) by {
          if PositionOf(typed, key, fields[key]).Plain? {
            forall x | Mentions(fields[key], x) ensures FieldMentions(typed, key, fields[key], x) {}
            RewriteComposes(fields[key], m, k, n);
          }
        }
      }
      assert Rewrite(Rewrite(value, m), k).fields == Rewrite(value, n).fields;
    case _ =>
  }

  lemma FieldComposes(typed: bool, key: string, item: Json, m: Mapping, k: Mapping, n: Mapping)
    requires forall x :: FieldMentions(typed, key, item, x) ==> Lookup(k, Lookup(m, x)) == Lookup(n, x)
    requires PositionOf(typed, key, item).Plain? ==> Rewrite(Rewrite(item, m), k) == Rewrite(item, n)
    ensures RewriteField(typed, key, RewriteField(typed, key, item, m), k) == RewriteField(typed, key, item, n)
  {
    PositionKept(typed, key, item, m);
    match PositionOf(typed, key, item)
    case Identity =>
      assert FieldMentions(typed, key, item, item.s);
    case Membership =>
      var (app, id) := SplitColon(item.s);
      assert FieldMentions(typed, key, item, id);
      assert item.s == app + ":" + id;
    case Plain =>
  }

  lemma {:induction false} RewriteWithNothing(value: Json)
    ensures Rewrite(value, map[]) == value
  {
    match value
    case Arr(items) =>
      forall i | 0 <= i < |items| { RewriteWithNothing(items[i]); }
      assert Rewrite(value, map[]).items == items;
    case Obj(fields) =>
      forall key | key in fields ensures RewriteField(Typed(fields), key, fields[key], map[]) == fields[key] {
        RewriteWithNothing(fields[key]);
      }
      assert Rewrite(value, map[]).fields == fields;
    case _ =>
  }

  lemma RewriteIsIdempotent(value: Json, m: Mapping)
    requires IsRenaming(m)
    ensures Rewrite(Rewrite(value, m), m) == Rewrite(value, m)
  {
    RewriteComposes(value, m, m, m);
  }

  /** The mapping that undoes `m`. */
  ghost function Inverse(m: Mapping): (inverse: Mapping)
    requires Injective(m)
    ensures inverse.Keys == m.Values
    ensures forall x :: x in m ==> m[x] in inverse && inverse[m[x]] == x
  {
    map y | y in m.Values :: SourceOf(m, y)
  }

  ghost function SourceOf(m: Mapping, target: string): (source: string)
    requires target in m.Values
    ensures source in m && m[source] == target
  {
    var x :| x in m && m[x] == target; x
  }

  /** Rewriting with the inverse mapping restores the value if and only if the value held no
      target id to begin with. */
  lemma InverseRestores(value: Json, m: Mapping)
    requires IsRenaming(m)
    ensures Rewrite(Rewrite(value, m), Inverse(m)) == value <==> forall id :: id in m.Values ==> !Mentions(value, id)
  {
    var inverse := Inverse(m);
    if forall id :: id in m.Values ==> !Mentions(value, id) {
      RewriteComposes(value, m, inverse, map[]);
      RewriteWithNothing(value);
    }
    if target :| target in m.Values && Mentions(value, target) && Rewrite(Rewrite(value, m), inverse) == value {
      RewriteMovesIdentities(Rewrite(value, m), inverse, target);
      assert false;
    }
  }
}
