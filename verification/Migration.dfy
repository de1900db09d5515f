/** Running an accepted mapping against one application's schema (`migrate` in
    scripts/accounts_uuid128.py), under a ledger that persists between runs. */
module Migration {
  import opened Identifiers
  import opened JsonTrees
  import opened Rekey
  import opened Results

  datatype Account = Account(kind: Option<Kind>, status: string)

  datatype LedgerRow = LedgerRow(newId: string, kind: Kind)

  /** The two switches of the manifest that the checks consult. */
  datatype Manifest = Manifest(allowUnlinkedIam: bool, allowUnknownKind: bool)

  /** The identity-bearing content of one schema: the accounts table, the other identity
      columns and the structured columns the manifest lists, and the ledger. */
  datatype Data = Data(accounts: map<string, Account>,
                       columns: seq<seq<string>>,
                       documents: seq<Json>,
                       ledger: map<string, LedgerRow>)

  // ---------------------------------------------------------------- the checks

  predicate KindMatches(actual: Option<Kind>, expected: Kind, allowUnknown: bool) {
    actual == Some(expected) || (allowUnknown && actual.None?)
  }

  /** `iam:<canonical uuid>:<canonical uuid>`. */
  predicate IsPlaceholder(id: string) {
    && |id| == 77 && id[..4] == "iam:" && id[40] == ':'
    && CanonicalUuid(id[4..40]) && CanonicalUuid(id[41..])
  }

  /** Account keys that may stay as they are. */
  predicate Settled(id: string, account: Account, manifest: Manifest) {
    CanonicalUuid(id) || (manifest.allowUnlinkedIam && account.status == "unlinked" && IsPlaceholder(id))
  }

  predicate LedgerAgrees(d: Data, m: Mapping, kinds: map<string, Kind>)
    requires m.Keys == kinds.Keys
  {
    forall x :: x in m && x in d.ledger ==> d.ledger[x] == LedgerRow(m[x], kinds[x])
  }

  predicate TargetsUnclaimed(d: Data, m: Mapping) {
    forall x :: x in d.ledger && d.ledger[x].newId in m.Values ==> x in m
  }

  predicate Covered(d: Data, manifest: Manifest, m: Mapping) {
    forall id :: id in d.accounts ==> id in m || Settled(id, d.accounts[id], manifest)
  }

  /** What the accounts say about one renaming: its kind fits, and its target is free or is where
      the account went before. */
  predicate AccountAgrees(d: Data, manifest: Manifest, m: Mapping, kinds: map<string, Kind>, x: string)
    requires m.Keys == kinds.Keys && x in m
  {
    && (x in d.accounts ==> KindMatches(d.accounts[x].kind, kinds[x], manifest.allowUnknownKind))
    && (m[x] in d.accounts ==>
          x !in d.accounts && x in d.ledger && KindMatches(d.accounts[m[x]].kind, kinds[x], manifest.allowUnknownKind))
  }

  predicate AccountsAgree(d: Data, manifest: Manifest, m: Mapping, kinds: map<string, Kind>)
    requires m.Keys == kinds.Keys
  {
    forall x :: x in m ==> AccountAgrees(d, manifest, m, kinds, x)
  }

  predicate Accepts(d: Data, manifest: Manifest, m: Mapping, kinds: map<string, Kind>)
    requires m.Keys == kinds.Keys
  {
    LedgerAgrees(d, m, kinds) && TargetsUnclaimed(d, m) && Covered(d, manifest, m) && AccountsAgree(d, manifest, m, kinds)
  }

  // ---------------------------------------------------------------- the effect

  ghost function RenamedKeys(keys: set<string>, m: Mapping): set<string> {
    set id | id in keys :: Lookup(m, id)
  }

  ghost function RowBehind(keys: set<string>, m: Mapping, id: string): (row: string)
    requires id in RenamedKeys(keys, m)
    ensures row in keys && Lookup(m, row) == id
  {
    var row :| row in keys && Lookup(m, row) == id; row
  }

  /** `UPDATE accounts SET uuid = new_uuid`, for a renaming that merges no two rows. */
  ghost function RenameAccounts(accounts: map<string, Account>, m: Mapping): map<string, Account> {
    map id | id in RenamedKeys(accounts.Keys, m) :: accounts[RowBehind(accounts.Keys, m, id)]
  }

  function RenameColumn(column: seq<string>, m: Mapping): seq<string> {
    seq(|column|, i requires 0 <= i < |column| => Lookup(m, column[i]))
  }

  function RenameColumns(columns: seq<seq<string>>, m: Mapping): seq<seq<string>> {
    seq(|columns|, i requires 0 <= i < |columns| => RenameColumn(columns[i], m))
  }

  function RewriteDocuments(documents: seq<Json>, m: Mapping): seq<Json> {
    seq(|documents|, i requires 0 <= i < |documents| => Rewrite(documents[i], m))
  }

  /** `INSERT ... ON CONFLICT (old_uuid) DO NOTHING`. */
  function Recorded(ledger: map<string, LedgerRow>, m: Mapping, kinds: map<string, Kind>): map<string, LedgerRow>
    requires m.Keys == kinds.Keys
  {
    (map x | x in m :: LedgerRow(m[x], kinds[x])) + ledger
  }

  ghost function Migrated(d: Data, m: Mapping, kinds: map<string, Kind>): Data
    requires m.Keys == kinds.Keys
  {
    Data(RenameAccounts(d.accounts, m), RenameColumns(d.columns, m), RewriteDocuments(d.documents, m),
         Recorded(d.ledger, m, kinds))
  }

  // ---------------------------------------------------------------- one run

  /** An accepted run merges no two accounts. */
  lemma NoMerge(d: Data, manifest: Manifest, m: Mapping, kinds: map<string, Kind>, x: string, y: string)
    requires IsRenaming(m) && m.Keys == kinds.Keys && Accepts(d, manifest, m, kinds)
    requires x in d.accounts && y in d.accounts && Lookup(m, x) == Lookup(m, y)
    ensures x == y
  {
  }

  ghost predicate MergesNothing(accounts: map<string, Account>, m: Mapping) {
    forall x, y :: x in accounts && y in accounts && Lookup(m, x) == Lookup(m, y) ==> x == y
  }

  lemma RunMergesNothing(d: Data, manifest: Manifest, m: Mapping, kinds: map<string, Kind>)
    requires IsRenaming(m) && m.Keys == kinds.Keys && Accepts(d, manifest, m, kinds)
    ensures MergesNothing(d.accounts, m)
  {
    forall x, y | x in d.accounts && y in d.accounts && Lookup(m, x) == Lookup(m, y) ensures x == y {
      NoMerge(d, manifest, m, kinds, x, y);
    }
  }

  /** Every account keeps its record under its new key, and there are no others. */
  lemma AccountsKept(d: Data, manifest: Manifest, m: Mapping, kinds: map<string, Kind>)
    requires IsRenaming(m) && m.Keys == kinds.Keys && Accepts(d, manifest, m, kinds)
    ensures forall x :: x in d.accounts ==>
      Lookup(m, x) in RenameAccounts(d.accounts, m) && RenameAccounts(d.accounts, m)[Lookup(m, x)] == d.accounts[x]
    ensures forall id :: id in RenameAccounts(d.accounts, m) ==> exists x :: x in d.accounts && Lookup(m, x) == id
    ensures |RenameAccounts(d.accounts, m)| == |d.accounts|
  {
    forall x | x in d.accounts
      ensures Lookup(m, x) in RenameAccounts(d.accounts, m) && RenameAccounts(d.accounts, m)[Lookup(m, x)] == d.accounts[x]
    {
      assert Lookup(m, x) in RenamedKeys(d.accounts.Keys, m);
      NoMerge(d, manifest, m, kinds, x, RowBehind(d.accounts.Keys, m, Lookup(m, x)));
    }
    forall x, y | x in d.accounts.Keys && y in d.accounts.Keys && Lookup(m, x) == Lookup(m, y) ensures x == y {
      NoMerge(d, manifest, m, kinds, x, y);
    }
    InjectiveImageSize(d.accounts.Keys, m);
    assert RenameAccounts(d.accounts, m).Keys == RenamedKeys(d.accounts.Keys, m);
    assert |d.accounts.Keys| == |d.accounts|;
    assert |RenameAccounts(d.accounts, m).Keys| == |RenameAccounts(d.accounts, m)|;
  }

  lemma {:induction false} InjectiveImageSize(keys: set<string>, m: Mapping)
    requires forall x, y :: x in keys && y in keys && Lookup(m, x) == Lookup(m, y) ==> x == y
    ensures |RenamedKeys(keys, m)| == |keys|
    decreases |keys|
  {
    if keys == {} {
      assert RenamedKeys(keys, m) == {};
    } else {
      var x :| x in keys;
      var rest := keys - {x};
      InjectiveImageSize(rest, m);
      assert RenamedKeys(keys, m) == RenamedKeys(rest, m) + {Lookup(m, x)};
      assert Lookup(m, x) !in RenamedKeys(rest, m);
    }
  }

  lemma AccountsSettled(d: Data, manifest: Manifest, m: Mapping, kinds: map<string, Kind>)
    requires ValidMapping(m) && m.Keys == kinds.Keys && Accepts(d, manifest, m, kinds)
    ensures var accounts := RenameAccounts(d.accounts, m);
            forall id :: id in accounts ==> Settled(id, accounts[id], manifest) && id !in m
  {
    var accounts := RenameAccounts(d.accounts, m);
    forall id | id in accounts ensures Settled(id, accounts[id], manifest) && id !in m {
      var row := RowBehind(d.accounts.Keys, m, id);
      assert accounts[id] == d.accounts[row];
    }
  }

  /** After an accepted run every account key is a canonical UUID or an allowed placeholder,
      and no source id is left in the accounts, the columns or the documents. */
  lemma EverythingSettled(d: Data, manifest: Manifest, m: Mapping, kinds: map<string, Kind>)
    requires ValidMapping(m) && m.Keys == kinds.Keys && Accepts(d, manifest, m, kinds)
    ensures var after := Migrated(d, m, kinds);
            && (forall id :: id in after.accounts ==> Settled(id, after.accounts[id], manifest) && id !in m)
            && NothingRemains(after.columns, m)
            && (forall i, id :: 0 <= i < |after.documents| && id in m ==> !Mentions(after.documents[i], id))
  {
    AccountsSettled(d, manifest, m, kinds);
    ColumnsSettled(d.columns, m);
    forall i, id | 0 <= i < |d.documents| && id in m ensures !Mentions(Rewrite(d.documents[i], m), id) {
      NoSourceRemains(d.documents[i], m, id);
    }
  }

  lemma ColumnsSettled(columns: seq<seq<string>>, m: Mapping)
    requires Unchained(m)
    ensures NothingRemains(RenameColumns(columns, m), m)
  {
    forall c, r | 0 <= c < |columns| && 0 <= r < |columns[c]| ensures RenameColumns(columns, m)[c][r] !in m {
      assert RenameColumns(columns, m)[c] == RenameColumn(columns[c], m);
    }
  }

  /** No source identity is left in an identity column. */
  ghost predicate NothingRemains(columns: seq<seq<string>>, m: Mapping) {
    forall c, r :: 0 <= c < |columns| && 0 <= r < |columns[c]| ==> columns[c][r] !in m
  }

  /** References keep their meaning: a column entry that named an account names the same account
      afterwards, and entries that named different accounts still do. */
  lemma ReferencesFollow(d: Data, manifest: Manifest, m: Mapping, kinds: map<string, Kind>, c: nat, r: nat, id: string)
    requires IsRenaming(m) && m.Keys == kinds.Keys && Accepts(d, manifest, m, kinds)
    requires c < |d.columns| && r < |d.columns[c]| && d.columns[c][r] in d.accounts && id in d.accounts
    ensures var after := Migrated(d, m, kinds);
            && after.columns[c][r] in after.accounts && after.accounts[after.columns[c][r]] == d.accounts[d.columns[c][r]]
            && (after.columns[c][r] == Lookup(m, id) <==> d.columns[c][r] == id)
  {
    AccountsKept(d, manifest, m, kinds);
    EntryRenamed(d.columns, m, c, r);
    if Lookup(m, d.columns[c][r]) == Lookup(m, id) {
      NoMerge(d, manifest, m, kinds, d.columns[c][r], id);
    }
  }

  lemma EntryRenamed(columns: seq<seq<string>>, m: Mapping, c: nat, r: nat)
    requires c < |columns| && r < |columns[c]|
    ensures var after := RenameColumns(columns, m);
            c < |after| && r < |after[c]| && after[c][r] == Lookup(m, columns[c][r])
  {
    assert RenameColumns(columns, m)[c] == RenameColumn(columns[c], m);
  }

  /** A column entry that named no account comes to name one if and only if it is renamed to an
      account that an earlier run has moved there, or is itself where an account is moved to. */
  lemma StrayReferences(d: Data, m: Mapping, kinds: map<string, Kind>, c: nat, r: nat)
    requires IsRenaming(m) && m.Keys == kinds.Keys
    requires c < |d.columns| && r < |d.columns[c]| && d.columns[c][r] !in d.accounts
    ensures var after, entry := Migrated(d, m, kinds), d.columns[c][r];
            after.columns[c][r] in after.accounts <==>
              if entry in m then m[entry] in d.accounts else exists x :: x in m && x in d.accounts && m[x] == entry
  {
    var entry := d.columns[c][r];
    EntryRenamed(d.columns, m, c, r);
    if Lookup(m, entry) in RenamedKeys(d.accounts.Keys, m) {
      var row := RowBehind(d.accounts.Keys, m, Lookup(m, entry));
      assert entry !in m ==> row in m && m[row] == entry;
    }
    if entry in m && m[entry] in d.accounts {
      assert Lookup(m, m[entry]) == m[entry];
    }
    if x :| entry !in m && x in m && x in d.accounts && m[x] == entry {
      assert Lookup(m, x) == entry;
    }
  }

  /** No two ledger entries share a target. */
  ghost predicate LedgerInjective(ledger: map<string, LedgerRow>) {
    forall x, y :: x in ledger && y in ledger && ledger[x].newId == ledger[y].newId ==> x == y
  }

  /** An accepted run records its mapping, changes no earlier entry and shares no target. */
  lemma LedgerExtends(d: Data, manifest: Manifest, m: Mapping, kinds: map<string, Kind>)
    requires IsRenaming(m) && m.Keys == kinds.Keys && Accepts(d, manifest, m, kinds)
    requires LedgerInjective(d.ledger)
    ensures LedgerInjective(Recorded(d.ledger, m, kinds))
    ensures forall x :: x in d.ledger ==> x in Recorded(d.ledger, m, kinds) && Recorded(d.ledger, m, kinds)[x] == d.ledger[x]
    ensures forall x :: x in m ==> Recorded(d.ledger, m, kinds)[x] == LedgerRow(m[x], kinds[x])
  {
    var ledger := Recorded(d.ledger, m, kinds);
    forall x | x in m ensures m[x] in m.Values {}
  }

  /** Repeating an accepted mapping is accepted again and changes nothing at all. */
  lemma RepeatChangesNothing(d: Data, manifest: Manifest, m: Mapping, kinds: map<string, Kind>)
    requires ValidMapping(m) && m.Keys == kinds.Keys && Accepts(d, manifest, m, kinds)
    requires LedgerInjective(d.ledger)
    ensures Accepts(Migrated(d, m, kinds), manifest, m, kinds)
    ensures Migrated(Migrated(d, m, kinds), m, kinds) == Migrated(d, m, kinds)
  {
    RepeatAccepted(d, manifest, m, kinds);
    AccountsSettled(d, manifest, m, kinds);
    SettledRenaming(RenameAccounts(d.accounts, m), m);
    ColumnsFixed(d.columns, m);
    DocumentsFixed(d.documents, m);
    RecordingTwice(d.ledger, m, kinds);
  }

  lemma ColumnsFixed(columns: seq<seq<string>>, m: Mapping)
    requires Unchained(m)
    ensures RenameColumns(RenameColumns(columns, m), m) == RenameColumns(columns, m)
  {
    forall c | 0 <= c < |columns| ensures RenameColumn(RenameColumn(columns[c], m), m) == RenameColumn(columns[c], m) {}
  }

  lemma DocumentsFixed(documents: seq<Json>, m: Mapping)
    requires IsRenaming(m)
    ensures RewriteDocuments(RewriteDocuments(documents, m), m) == RewriteDocuments(documents, m)
  {
    forall i | 0 <= i < |documents| { RewriteIsIdempotent(documents[i], m); }
  }

  lemma RecordingTwice(ledger: map<string, LedgerRow>, m: Mapping, kinds: map<string, Kind>)
    requires m.Keys == kinds.Keys
    ensures Recorded(Recorded(ledger, m, kinds), m, kinds) == Recorded(ledger, m, kinds)
  {
  }

  lemma RepeatAccepted(d: Data, manifest: Manifest, m: Mapping, kinds: map<string, Kind>)
    requires ValidMapping(m) && m.Keys == kinds.Keys && Accepts(d, manifest, m, kinds)
    requires LedgerInjective(d.ledger)
    ensures Accepts(Migrated(d, m, kinds), manifest, m, kinds)
  {
    var after := Migrated(d, m, kinds);
    AccountsSettled(d, manifest, m, kinds);
    LedgerExtends(d, manifest, m, kinds);
    forall x | x in after.ledger && after.ledger[x].newId in m.Values ensures x in m {
      var y :| y in m && m[y] == after.ledger[x].newId;
      assert after.ledger[y].newId == after.ledger[x].newId;
    }
    forall x | x in m && m[x] in after.accounts
      ensures KindMatches(after.accounts[m[x]].kind, kinds[x], manifest.allowUnknownKind)
    {
      KindUnderTarget(d, manifest, m, kinds, x);
    }
  }

  lemma KindUnderTarget(d: Data, manifest: Manifest, m: Mapping, kinds: map<string, Kind>, x: string)
    requires Injective(m) && m.Keys == kinds.Keys && AccountsAgree(d, manifest, m, kinds)
    requires x in m && m[x] in RenameAccounts(d.accounts, m)
    ensures KindMatches(RenameAccounts(d.accounts, m)[m[x]].kind, kinds[x], manifest.allowUnknownKind)
  {
    var row := RowBehind(d.accounts.Keys, m, m[x]);
    assert RenameAccounts(d.accounts, m)[m[x]] == d.accounts[row];
    assert row == x || row == m[x];
  }

  lemma SettledRenaming(accounts: map<string, Account>, m: Mapping)
    requires forall id :: id in accounts ==> id !in m
    ensures RenameAccounts(accounts, m) == accounts
  {
    forall id | id in accounts ensures Lookup(m, id) == id {}
    assert RenamedKeys(accounts.Keys, m) == accounts.Keys;
  }

  /** The ledger fences retired identities: `Directory::admit` refuses every key that is an
      old id in it. */
  predicate Fenced(d: Data) {
    d.accounts.Keys !! d.ledger.Keys
  }

  /** A run keeps every live account outside the fence if and only if none of the accounts it
      renames moves to an id that an earlier run retired. The script does not check this. */
  lemma FenceKept(d: Data, manifest: Manifest, m: Mapping, kinds: map<string, Kind>)
    requires IsRenaming(m) && m.Keys == kinds.Keys && Accepts(d, manifest, m, kinds) && Fenced(d)
    ensures Fenced(Migrated(d, m, kinds)) <==> forall x :: x in m && x in d.accounts ==> m[x] !in d.ledger
  {
    var accounts, ledger := RenameAccounts(d.accounts, m), Recorded(d.ledger, m, kinds);
    if x :| x in m && x in d.accounts && m[x] in d.ledger {
      assert Lookup(m, x) in RenamedKeys(d.accounts.Keys, m);
      assert m[x] in accounts && m[x] in ledger;
    } else {
      forall id | id in accounts ensures id !in ledger {
        FencedRow(d, m, id);
      }
    }
  }

  lemma FencedRow(d: Data, m: Mapping, id: string)
    requires Unchained(m) && Fenced(d) && id in RenamedKeys(d.accounts.Keys, m)
    requires forall x :: x in m && x in d.accounts ==> m[x] !in d.ledger
    ensures id !in d.ledger && id !in m
  {
    var row := RowBehind(d.accounts.Keys, m, id);
  }

  // ---------------------------------------------------------------- sequences of runs

  /** What happens to a schema over its life: runs of the script (which may be dry runs or be
      refused), and new accounts, which the service creates only outside the fence. */
  datatype Event =
    | Run(manifest: Manifest, m: Mapping, kinds: map<string, Kind>, apply: bool)
    | NewAccount(id: string, account: Account)

  ghost predicate Applies(d: Data, e: Event) {
    e.Run? && e.apply && e.m.Keys == e.kinds.Keys && ValidMapping(e.m) && Accepts(d, e.manifest, e.m, e.kinds)
  }

  ghost function Step(d: Data, e: Event): Data {
    match e
    case Run(_, m, kinds, _) => if Applies(d, e) then Migrated(d, m, kinds) else d
    case NewAccount(id, account) =>
      if id in d.accounts || id in d.ledger then d else d.(accounts := d.accounts[id := account])
  }

  ghost function After(d: Data, events: seq<Event>): Data
    decreases |events|
  {
    if events == [] then d else After(Step(d, events[0]), events[1..])
  }

  lemma LedgerStep(d: Data, e: Event)
    requires LedgerInjective(d.ledger)
    ensures LedgerInjective(Step(d, e).ledger)
    ensures forall x :: x in d.ledger ==> x in Step(d, e).ledger && Step(d, e).ledger[x] == d.ledger[x]
  {
    if Applies(d, e) {
      LedgerExtends(d, e.manifest, e.m, e.kinds);
    }
  }

  lemma UuidIsSource(id: string)
    requires CanonicalUuid(id)
    ensures ValidSource(id)
  {
  }

  /** One id renamed to another is a valid mapping. */
  lemma SingleMapping(x: string, y: string)
    requires ValidSource(x) && CanonicalUuid4(y) && x != y
    ensures ValidMapping(map[x := y]) && forall z :: Lookup(map[x := y], z) == if z == x then y else z
  {
    assert x in map[x := y];
  }

  /** The life of a schema in which an identity is retired and a new account joins. */
  function RetiredThenJoined(retired: string, current: string, legacy: string, account: Account, manifest: Manifest): seq<Event> {
    [Run(manifest, map[retired := current], map[retired := Carbon], true), NewAccount(legacy, account)]
  }

  /** Retiring the one identity there is. */
  lemma Retiring(retired: string, current: string, account: Account, manifest: Manifest)
    requires CanonicalUuid4(retired) && CanonicalUuid4(current) && account.kind == Some(Carbon) && retired != current
    ensures var d, m, kinds := Data(map[retired := account], [], [], map[]), map[retired := current], map[retired := Carbon];
            && ValidMapping(m) && Accepts(d, manifest, m, kinds)
            && Migrated(d, m, kinds) == Data(map[current := account], [], [], map[retired := LedgerRow(current, Carbon)])
  {
    var d, m := Data(map[retired := account], [], [], map[]), map[retired := current];
    UuidIsSource(retired);
    SingleMapping(retired, current);
    assert Lookup(m, retired) in RenamedKeys(d.accounts.Keys, m);
    RenamingIsDetermined(d.accounts, m, map[current := account]);
  }

  /** It comes to accounts under the new ids, and the retired one in the ledger. */
  lemma RetiredThenJoinedIs(retired: string, current: string, legacy: string, account: Account, manifest: Manifest)
    requires CanonicalUuid4(retired) && CanonicalUuid4(current) && account.kind == Some(Carbon)
    requires legacy != retired && retired != current && legacy != current
    ensures After(Data(map[retired := account], [], [], map[]), RetiredThenJoined(retired, current, legacy, account, manifest))
         == Data(map[legacy := account, current := account], [], [], map[retired := LedgerRow(current, Carbon)])
  {
    var d0 := Data(map[retired := account], [], [], map[]);
    var d1 := Data(map[current := account], [], [], map[retired := LedgerRow(current, Carbon)]);
    Retiring(retired, current, account, manifest);
    var first, second := Run(manifest, map[retired := current], map[retired := Carbon], true), NewAccount(legacy, account);
    assert Step(d0, first) == d1;
    AfterTwo(d0, first, second);
    assert d1.accounts[legacy := account] == map[legacy := account, current := account];
  }

  lemma AfterTwo(d: Data, first: Event, second: Event)
    ensures After(d, [first, second]) == Step(Step(d, first), second)
  {
    assert [first, second][1..] == [second] && [second][1..] == [];
    assert After(Step(d, first), [second]) == Step(Step(d, first), second);
  }

  /** It does happen: after an identity was retired in favour of another, a valid and accepted run
      can move a legacy account to the retired id, and the account is then refused at sign-in. */
  lemma FenceCanBreak(legacy: string, retired: string, current: string, account: Account, manifest: Manifest)
    requires ValidSource(legacy) && CanonicalUuid4(retired) && CanonicalUuid4(current) && account.kind == Some(Carbon)
    requires legacy != retired && retired != current && legacy != current
    ensures var d := After(Data(map[retired := account], [], [], map[]), RetiredThenJoined(retired, current, legacy, account, manifest));
            var m, kinds := map[legacy := retired], map[legacy := Carbon];
            ValidMapping(m) && Accepts(d, manifest, m, kinds) && Fenced(d) && !Fenced(Migrated(d, m, kinds))
  {
    RetiredThenJoinedIs(retired, current, legacy, account, manifest);
    SingleMapping(legacy, retired);
    BrokenFence(legacy, retired, current, account, manifest);
  }

  lemma BrokenFence(legacy: string, retired: string, current: string, account: Account, manifest: Manifest)
    requires CanonicalUuid(current) && account.kind == Some(Carbon)
    requires legacy != retired && retired != current && legacy != current
    ensures var d := Data(map[legacy := account, current := account], [], [], map[retired := LedgerRow(current, Carbon)]);
            var m, kinds := map[legacy := retired], map[legacy := Carbon];
            Accepts(d, manifest, m, kinds) && Fenced(d) && !Fenced(Migrated(d, m, kinds))
  {
    var d := Data(map[legacy := account, current := account], [], [], map[retired := LedgerRow(current, Carbon)]);
    var m, kinds := map[legacy := retired], map[legacy := Carbon];
    assert d.ledger.Keys == {retired} && d.accounts.Keys == {legacy, current};
    assert m.Values == {retired};
    assert Lookup(m, legacy) in RenamedKeys(d.accounts.Keys, m);
    assert retired in Recorded(d.ledger, m, kinds);
  }

  /** Across any sequence of runs the ledger stays injective and never changes an entry. */
  lemma {:induction false} LedgerOverRuns(d: Data, events: seq<Event>)
    requires LedgerInjective(d.ledger)
    ensures LedgerInjective(After(d, events).ledger)
    ensures forall x :: x in d.ledger ==> x in After(d, events).ledger && After(d, events).ledger[x] == d.ledger[x]
    decreases |events|
  {
    if events != [] {
      var next := Step(d, events[0]);
      LedgerStep(d, events[0]);
      LedgerOverRuns(next, events[1..]);
    }
  }

  /** Where one event moves the account at `id`. */
  ghost function Moved(d: Data, e: Event, id: string): string {
    if Applies(d, e) then Lookup(e.m, id) else id
  }

  /** The account at `id`, followed through the renamings of a sequence of events. */
  ghost function Followed(d: Data, events: seq<Event>, id: string): string
    decreases |events|
  {
    if events == [] then id
    else Followed(Step(d, events[0]), events[1..], Moved(d, events[0], id))
  }

  lemma AccountStep(d: Data, e: Event, x: string, y: string)
    requires x in d.accounts && y in d.accounts
    ensures Moved(d, e, x) in Step(d, e).accounts && Step(d, e).accounts[Moved(d, e, x)] == d.accounts[x]
    ensures Moved(d, e, x) == Moved(d, e, y) ==> x == y
  {
    if Applies(d, e) {
      AccountsKept(d, e.manifest, e.m, e.kinds);
      if Lookup(e.m, x) == Lookup(e.m, y) {
        NoMerge(d, e.manifest, e.m, e.kinds, x, y);
      }
    }
  }

  /** No account is lost, changed or merged with another by any sequence of runs. */
  lemma {:induction false} AccountsOverRuns(d: Data, events: seq<Event>, x: string, y: string)
    requires x in d.accounts && y in d.accounts
    ensures Followed(d, events, x) in After(d, events).accounts
    ensures After(d, events).accounts[Followed(d, events, x)] == d.accounts[x]
    ensures Followed(d, events, x) == Followed(d, events, y) ==> x == y
    decreases |events|
  {
    if events != [] {
      AccountStep(d, events[0], x, y);
      AccountStep(d, events[0], y, x);
      AccountsOverRuns(Step(d, events[0]), events[1..], Moved(d, events[0], x), Moved(d, events[0], y));
    }
  }

  // ---------------------------------------------------------------- the transaction

  /** Why a mapping is refused. */
  datatype Reason = LedgerConflict | TargetTaken | Omits(missing: nat) | AccountConflict

  /** Every mapped id the ledger knows was given the same target and kind. */
  method CheckLedger(d: Data, m: Mapping, kinds: map<string, Kind>) returns (ok: bool)
    requires m.Keys == kinds.Keys
    ensures ok <==> LedgerAgrees(d, m, kinds)
  {
    var left := m.Keys;
    while left != {}
      invariant left <= m.Keys
      invariant forall x :: x in m && x !in left && x in d.ledger ==> d.ledger[x] == LedgerRow(m[x], kinds[x])
      decreases |left|
    {
      var x :| x in left;
      if x in d.ledger && d.ledger[x] != LedgerRow(m[x], kinds[x]) {
        return false;
      }
      left := left - {x};
    }
    return true;
  }

  /** No target belongs to an id that is not in the mapping. */
  method CheckTargets(d: Data, m: Mapping) returns (ok: bool)
    ensures ok <==> TargetsUnclaimed(d, m)
  {
    var left, targets := d.ledger.Keys, m.Values;
    while left != {}
      invariant left <= d.ledger.Keys
      invariant forall x :: x in d.ledger && x !in left && d.ledger[x].newId in targets ==> x in m
      decreases |left|
    {
      var x :| x in left;
      if d.ledger[x].newId in targets && x !in m {
        return false;
      }
      left := left - {x};
    }
    return true;
  }

  /** The accounts that would keep a key they may not keep. */
  function Omitted(d: Data, manifest: Manifest, m: Mapping): set<string> {
    set id | id in d.accounts && id !in m && !Settled(id, d.accounts[id], manifest)
  }

  /** `require_mapping_coverage`: how many accounts the mapping omits, none exactly if it covers all. */
  method CountMissing(d: Data, manifest: Manifest, m: Mapping) returns (missing: nat)
    ensures missing == |Omitted(d, manifest, m)| && (missing == 0 <==> Covered(d, manifest, m))
  {
    missing := 0;
    var left := d.accounts.Keys;
    ghost var omitted, found: set<string> := Omitted(d, manifest, m), {};
    while left != {}
      invariant left <= d.accounts.Keys && found == omitted - left && missing == |found|
      decreases |left|
    {
      var id :| id in left;
      CountOne(omitted, left, id);
      if id !in m && !Settled(id, d.accounts[id], manifest) {
        missing := missing + 1;
      }
      left, found := left - {id}, omitted - (left - {id});
    }
    NoneOmitted(d, manifest, m);
  }

  lemma CountOne<T>(all: set<T>, left: set<T>, x: T)
    requires x in left
    ensures |all - (left - {x})| == |all - left| + if x in all then 1 else 0
  {
    assert all - (left - {x}) == if x in all then (all - left) + {x} else all - left;
  }

  lemma NoneOmitted(d: Data, manifest: Manifest, m: Mapping)
    ensures |Omitted(d, manifest, m)| == 0 <==> Covered(d, manifest, m)
  {
    if Covered(d, manifest, m) {
      assert Omitted(d, manifest, m) == {};
    } else {
      var id :| id in d.accounts && id !in m && !Settled(id, d.accounts[id], manifest);
      assert id in Omitted(d, manifest, m);
    }
  }

  method CheckAccounts(d: Data, manifest: Manifest, m: Mapping, kinds: map<string, Kind>) returns (ok: bool)
    requires m.Keys == kinds.Keys
    ensures ok <==> AccountsAgree(d, manifest, m, kinds)
  {
    var left := m.Keys;
    while left != {}
      invariant left <= m.Keys && forall x :: x in m && x !in left ==> AccountAgrees(d, manifest, m, kinds, x)
      decreases |left|
    {
      var x :| x in left;
      if x in d.accounts && !KindMatches(d.accounts[x].kind, kinds[x], manifest.allowUnknownKind) {
        return false;
      }
      if m[x] in d.accounts
         && (x in d.accounts || x !in d.ledger || !KindMatches(d.accounts[m[x]].kind, kinds[x], manifest.allowUnknownKind)) {
        return false;
      }
      left := left - {x};
    }
    return true;
  }

  class Database {
    var accounts: map<string, Account>
    var columns: seq<seq<string>>
    var documents: seq<Json>
    var ledger: map<string, LedgerRow>

    ghost function Content(): Data
      reads this
    {
      Data(accounts, columns, documents, ledger)
    }

    /** The checks before anything is changed, in the order of the script. What passes them all is
        exactly what `Accepts` describes. */
    method Refusal(manifest: Manifest, m: Mapping, kinds: map<string, Kind>) returns (reason: Option<Reason>)
      requires m.Keys == kinds.Keys
      ensures reason.None? <==> Accepts(Content(), manifest, m, kinds)
      ensures reason.None? && IsRenaming(m) ==> MergesNothing(accounts, m)
      ensures reason.Some? && reason.value.Omits? ==> reason.value.missing == |Omitted(Content(), manifest, m)| > 0
    {
      var d := Data(accounts, columns, documents, ledger);
      var agrees := CheckLedger(d, m, kinds);
      if !agrees {
        return Some(LedgerConflict);
      }
      var unclaimed := CheckTargets(d, m);
      if !unclaimed {
        return Some(TargetTaken);
      }
      var missing := CountMissing(d, manifest, m);
      if missing > 0 {
        return Some(Omits(missing));
      }
      var fits := CheckAccounts(d, manifest, m, kinds);
      if !fits {
        return Some(AccountConflict);
      }
      if IsRenaming(m) {
        RunMergesNothing(d, manifest, m, kinds);
      }
      return None;
    }

    /** Checks, renames and records in one transaction. A refusal or a dry run leaves the
        schema as it was. */
    method Migrate(manifest: Manifest, m: Mapping, kinds: map<string, Kind>, apply: bool)
      returns (result: Result<nat, Reason>)
      requires ValidMapping(m) && m.Keys == kinds.Keys
      modifies this
      ensures result.Success? <==> Accepts(old(Content()), manifest, m, kinds)
      ensures Content() == if result.Success? && apply then Migrated(old(Content()), m, kinds) else old(Content())
    {
      var before := Data(accounts, columns, documents, ledger);
      var reason := Refusal(manifest, m, kinds);
      if reason.Some? {
        return Failure(reason.value);
      }
      accounts := RenameRows(accounts, m);
      UpdateColumns(m);
      var changed := UpdateDocuments(m);
      ledger := Recorded(ledger, m, kinds);
      if !apply {
        accounts, columns, documents, ledger := before.accounts, before.columns, before.documents, before.ledger;
      }
      return Success(changed);
    }

    /** The identity columns; what the script checks afterwards, that no source id remains in
        one, always holds. */
    method UpdateColumns(m: Mapping)
      requires Unchained(m)
      modifies this`columns
      ensures columns == RenameColumns(old(columns), m) && NothingRemains(columns, m)
    {
      ColumnsSettled(columns, m);
      for c := 0 to |columns|
        invariant |columns| == |old(columns)|
        invariant columns[..c] == RenameColumns(old(columns), m)[..c] && columns[c..] == old(columns)[c..]
      {
        columns := columns[c := RenameColumn(columns[c], m)];
      }
    }

    method UpdateDocuments(m: Mapping) returns (changed: nat)
      modifies this`documents
      ensures documents == RewriteDocuments(old(documents), m)
    {
      changed := 0;
      for i := 0 to |documents|
        invariant |documents| == |old(documents)|
        invariant documents[..i] == RewriteDocuments(old(documents), m)[..i] && documents[i..] == old(documents)[i..]
      {
        var updated := Rewrite(documents[i], m);
        if updated != documents[i] {
          documents := documents[i := updated];
          changed := changed + 1;
        }
      }
    }
  }

  lemma RenamingIsDetermined(accounts: map<string, Account>, m: Mapping, renamed: map<string, Account>)
    requires forall x :: x in accounts ==> Lookup(m, x) in renamed && renamed[Lookup(m, x)] == accounts[x]
    requires renamed.Keys <= RenamedKeys(accounts.Keys, m)
    ensures renamed == RenameAccounts(accounts, m)
  {
    forall id | id in renamed ensures RenameAccounts(accounts, m)[id] == renamed[id] {
      var row := RowBehind(accounts.Keys, m, id);
    }
  }

  /** The update of the accounts' own key column, row by row. */
  method RenameRows(accounts: map<string, Account>, m: Mapping) returns (renamed: map<string, Account>)
    requires MergesNothing(accounts, m)
    ensures renamed == RenameAccounts(accounts, m)
  {
    renamed := map[];
    var rows := accounts.Keys;
    while rows != {}
      invariant rows <= accounts.Keys
      invariant forall x :: x in accounts && x !in rows ==> Lookup(m, x) in renamed && renamed[Lookup(m, x)] == accounts[x]
      invariant renamed.Keys <= RenamedKeys(accounts.Keys, m)
      decreases |rows|
    {
      var row :| row in rows;
      assert Lookup(m, row) in RenamedKeys(accounts.Keys, m);
      renamed := renamed[Lookup(m, row) := accounts[row]];
      rows := rows - {row};
    }
    RenamingIsDetermined(accounts, m, renamed);
  }
}
