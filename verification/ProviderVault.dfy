/** The provider secrets vault: mapping between vault properties and environment variables through a
    catalog, and the local file that stores the vault. */
module ProviderVault {
  import opened Collections
  import opened Texts

  /** A vault property, an environment variable or any other name. */
  datatype Key = Key(name: string)

  type Record = map<Key, string>

  datatype CatalogEntry = CatalogEntry(vaultProperty: Key, envKey: Key, envAliases: seq<Key>)

  type Catalog = seq<CatalogEntry>

  /** Properties are unique, alias lists are disjoint, and every entry's own variable is among its aliases. */
  ghost predicate WellFormed(catalog: Catalog) {
    && (forall i :: 0 <= i < |catalog| ==> catalog[i].envKey in catalog[i].envAliases)
    && (forall i, j :: 0 <= i < j < |catalog| ==> Apart(catalog[i], catalog[j]))
  }

  ghost predicate Apart(a: CatalogEntry, b: CatalogEntry) {
    a.vaultProperty != b.vaultProperty && forall k <- a.envAliases :: k !in b.envAliases
  }

  /** No entry's property is the empty string. */
  ghost predicate Named(catalog: Catalog) {
    forall e <- catalog :: e.vaultProperty.name != ""
  }

  /** The trimmed value of a key, empty when there is none. */
  function Value(m: Record, k: Key): string {
    if k in m then Trim(m[k]) else ""
  }

  function At(m: Record, k: Key): string {
    if k in m then m[k] else ""
  }

  function Entry(m: Record, k: Key): Option<string> {
    if k in m then Some(m[k]) else None
  }

  /** Sets `k` unless the value is empty. */
  function Put(m: Record, k: Key, v: string): Record {
    if v != "" then m[k := v] else m
  }

  function FirstValue(env: Record, aliases: seq<Key>): string {
    if aliases == [] then ""
    else if Value(env, aliases[0]) != "" then Value(env, aliases[0])
    else FirstValue(env, aliases[1..])
  }

  /** One entry after the other sets its key to its value. */
  function Assembled(catalog: Catalog, keyOf: CatalogEntry -> Key, valueOf: CatalogEntry -> string): Record {
    if catalog == [] then map[]
    else
      var n := |catalog| - 1;
      Put(Assembled(catalog[..n], keyOf, valueOf), keyOf(catalog[n]), valueOf(catalog[n]))
  }

  function PropertyKey(e: CatalogEntry): Key { e.vaultProperty }

  function EnvKey(e: CatalogEntry): Key { e.envKey }

  function FirstIn(env: Record): CatalogEntry -> string { (e: CatalogEntry) => FirstValue(env, e.envAliases) }

  function ValueIn(vault: Record): CatalogEntry -> string { (e: CatalogEntry) => Value(vault, e.vaultProperty) }

  function Built(catalog: Catalog, env: Record): Record { Assembled(catalog, PropertyKey, FirstIn(env)) }

  function Projected(catalog: Catalog, vault: Record): Record { Assembled(catalog, EnvKey, ValueIn(vault)) }

  predicate Blank(m: Record, k: Key) { k !in m || Trim(m[k]) == "" }

  /** The alias at `j` is set and those before it are not. */
  ghost predicate IsFirstSet(env: Record, aliases: seq<Key>, j: nat) {
    j < |aliases| && !Blank(env, aliases[j]) && forall i :: 0 <= i < j ==> Blank(env, aliases[i])
  }

  /** An entry's property has the trimmed value of its first set alias, and is absent when none is set. */
  ghost predicate IsBuilt(out: Record, env: Record, e: CatalogEntry) {
    && (forall j: nat :: IsFirstSet(env, e.envAliases, j) ==>
          Entry(out, e.vaultProperty) == Some(Trim(env[e.envAliases[j]])))
    && (e.vaultProperty !in out <==> forall k <- e.envAliases :: Blank(env, k))
  }

  method BuildProvidersVaultPayload(catalog: Catalog, parsed: Record) returns (out: Record)
    ensures out == Built(catalog, parsed)
    ensures WellFormed(catalog) ==> forall e <- catalog :: IsBuilt(out, parsed, e)
  {
    out := map[];
    for i := 0 to |catalog|
      invariant out == Built(catalog[..i], parsed)
    {
      assert catalog[..i + 1][..i] == catalog[..i];
      var entry := catalog[i];
      var found := "";
      var j := 0;
      while j < |entry.envAliases|
        invariant 0 <= j <= |entry.envAliases| && found == ""
        invariant FirstValue(parsed, entry.envAliases) == FirstValue(parsed, entry.envAliases[j..])
        decreases |entry.envAliases| - j
      {
        var v := Value(parsed, entry.envAliases[j]);
        assert entry.envAliases[j..][1..] == entry.envAliases[j + 1..];
        if v != "" {
          found := v;
          break;
        }
        j := j + 1;
      }
      if found != "" {
        out := out[entry.vaultProperty := found];
      }
    }
    assert catalog[..|catalog|] == catalog;
    if WellFormed(catalog) {
      forall e | e in catalog ensures IsBuilt(out, parsed, e) { BuiltAt(catalog, parsed, e); }
    }
  }

  method VaultProviderDataToEnv(catalog: Catalog, vaultData: Record) returns (out: Record)
    ensures out == Projected(catalog, vaultData)
  {
    out := map[];
    for i := 0 to |catalog|
      invariant out == Projected(catalog[..i], vaultData)
    {
      assert catalog[..i + 1][..i] == catalog[..i];
      var v := Value(vaultData, catalog[i].vaultProperty);
      if v != "" {
        out := out[catalog[i].envKey := v];
      }
    }
    assert catalog[..|catalog|] == catalog;
  }

  // What building and projecting mean, entry by entry.

  predicate IsProperty(catalog: Catalog, p: Key) { exists e <- catalog :: e.vaultProperty == p }

  predicate IsEnvKey(catalog: Catalog, k: Key) { exists e <- catalog :: e.envKey == k }

  lemma WellFormedPrefix(catalog: Catalog, n: nat)
    requires WellFormed(catalog) && n <= |catalog|
    ensures WellFormed(catalog[..n])
  {
  }

  lemma {:induction false} OnlyKeysAssembled(catalog: Catalog, keyOf: CatalogEntry -> Key,
          valueOf: CatalogEntry -> string, k: Key)
    requires k in Assembled(catalog, keyOf, valueOf)
    ensures (exists e <- catalog :: keyOf(e) == k) && Assembled(catalog, keyOf, valueOf)[k] != ""
  {
    var n := |catalog| - 1;
    assert catalog == catalog[..n] + [catalog[n]];
    if k !in Assembled(catalog[..n], keyOf, valueOf) {
    } else {
      OnlyKeysAssembled(catalog[..n], keyOf, valueOf, k);
    }
  }

  ghost predicate KeysDiffer(catalog: Catalog, keyOf: CatalogEntry -> Key) {
    forall i, j :: 0 <= i < j < |catalog| ==> keyOf(catalog[i]) != keyOf(catalog[j])
  }

  /** With distinct keys a key is assembled exactly when its entry has a value, with that value. */
  lemma {:induction false} AssembledAt(catalog: Catalog, keyOf: CatalogEntry -> Key, valueOf: CatalogEntry -> string,
          i: nat)
    requires KeysDiffer(catalog, keyOf) && i < |catalog|
    ensures At(Assembled(catalog, keyOf, valueOf), keyOf(catalog[i])) == valueOf(catalog[i])
    ensures keyOf(catalog[i]) in Assembled(catalog, keyOf, valueOf) <==> valueOf(catalog[i]) != ""
  {
    var n := |catalog| - 1;
    if i < n {
      AssembledAt(catalog[..n], keyOf, valueOf, i);
      assert catalog[..n][i] == catalog[i];
    } else if keyOf(catalog[n]) in Assembled(catalog[..n], keyOf, valueOf) {
      OnlyKeysAssembled(catalog[..n], keyOf, valueOf, keyOf(catalog[n]));
    }
  }

  lemma WellFormedKeysDiffer(catalog: Catalog)
    requires WellFormed(catalog)
    ensures KeysDiffer(catalog, PropertyKey) && KeysDiffer(catalog, EnvKey)
  {
    forall i, j | 0 <= i < j < |catalog|
      ensures PropertyKey(catalog[i]) != PropertyKey(catalog[j]) && EnvKey(catalog[i]) != EnvKey(catalog[j])
    {
      assert Apart(catalog[i], catalog[j]);
    }
  }

  lemma OnlyPropertiesBuilt(catalog: Catalog, env: Record, p: Key)
    requires p in Built(catalog, env)
    ensures IsProperty(catalog, p) && Built(catalog, env)[p] != ""
  {
    OnlyKeysAssembled(catalog, PropertyKey, FirstIn(env), p);
  }

  lemma OnlyEnvKeysProjected(catalog: Catalog, vault: Record, k: Key)
    requires k in Projected(catalog, vault)
    ensures IsEnvKey(catalog, k) && Projected(catalog, vault)[k] != ""
  {
    OnlyKeysAssembled(catalog, EnvKey, ValueIn(vault), k);
  }

  lemma {:induction false} FirstValueAt(env: Record, aliases: seq<Key>, j: nat)
    requires IsFirstSet(env, aliases, j)
    ensures FirstValue(env, aliases) == Trim(env[aliases[j]])
  {
    if j == 0 {
    } else {
      assert Blank(env, aliases[0]);
      assert forall i :: 0 <= i < j - 1 ==> aliases[1..][i] == aliases[i + 1];
      FirstValueAt(env, aliases[1..], j - 1);
    }
  }

  lemma {:induction false} NoFirstValueIff(env: Record, aliases: seq<Key>)
    ensures FirstValue(env, aliases) == "" <==> forall k <- aliases :: Blank(env, k)
  {
    if aliases == [] {
    } else {
      NoFirstValueIff(env, aliases[1..]);
      assert aliases == [aliases[0]] + aliases[1..];
      assert Blank(env, aliases[0]) <==> Value(env, aliases[0]) == "";
    }
  }

  lemma FirstValueIs(env: Record, aliases: seq<Key>)
    ensures forall j: nat :: IsFirstSet(env, aliases, j) ==> FirstValue(env, aliases) == Trim(env[aliases[j]])
    ensures FirstValue(env, aliases) == "" <==> forall k <- aliases :: Blank(env, k)
  {
    forall j: nat | IsFirstSet(env, aliases, j) ensures FirstValue(env, aliases) == Trim(env[aliases[j]]) {
      FirstValueAt(env, aliases, j);
    }
    NoFirstValueIff(env, aliases);
  }

  /** A property is built exactly when an alias of its entry is set, with the first such value. */
  lemma BuiltAt(catalog: Catalog, env: Record, e: CatalogEntry)
    requires WellFormed(catalog) && e in catalog
    ensures IsBuilt(Built(catalog, env), env, e)
    ensures At(Built(catalog, env), e.vaultProperty) == FirstValue(env, e.envAliases)
    ensures e.vaultProperty in Built(catalog, env) <==> FirstValue(env, e.envAliases) != ""
  {
    WellFormedKeysDiffer(catalog);
    var i :| 0 <= i < |catalog| && catalog[i] == e;
    AssembledAt(catalog, PropertyKey, FirstIn(env), i);
    FirstValueIs(env, e.envAliases);
  }

  /** A variable is projected exactly when its property is set, with that value. */
  lemma ProjectedAt(catalog: Catalog, vault: Record, e: CatalogEntry)
    requires WellFormed(catalog) && e in catalog
    ensures Entry(Projected(catalog, vault), e.envKey) ==
      if Blank(vault, e.vaultProperty) then None else Some(Trim(vault[e.vaultProperty]))
    ensures At(Projected(catalog, vault), e.envKey) == Value(vault, e.vaultProperty)
    ensures e.envKey in Projected(catalog, vault) <==> Value(vault, e.vaultProperty) != ""
  {
    WellFormedKeysDiffer(catalog);
    var i :| 0 <= i < |catalog| && catalog[i] == e;
    AssembledAt(catalog, EnvKey, ValueIn(vault), i);
  }

  lemma OthersApart(catalog: Catalog, n: nat)
    requires WellFormed(catalog) && |catalog| == n + 1
    ensures forall e <- catalog[..n] ::
      e.vaultProperty != catalog[n].vaultProperty && e.envKey != catalog[n].envKey && Apart(e, catalog[n])
  {
  }

  /** Entries of a well-formed catalog that share a property or an alias are the same entry. */
  lemma SameEntry(catalog: Catalog, a: CatalogEntry, b: CatalogEntry)
    requires WellFormed(catalog) && a in catalog && b in catalog
    requires a.vaultProperty == b.vaultProperty || exists k <- a.envAliases :: k in b.envAliases
    ensures a == b
  {
  }

  // Vault to environment and back.

  /** The non-blank values, trimmed. */
  function Cleaned(m: Record): Record {
    map k | k in m && Trim(m[k]) != "" :: Trim(m[k])
  }

  function Part(m: Record, keys: seq<Key>): Record {
    map k | k in m && k in keys :: m[k]
  }

  lemma CleanedNext(m: Record, order: seq<Key>, i: nat)
    requires Lists(order, m.Keys) && i < |order|
    ensures order[i] in m
    ensures Cleaned(Part(m, order[..i + 1])) ==
      Put(Cleaned(Part(m, order[..i])), order[i], Trim(m[order[i]]))
  {
  }

  lemma PartOfAll(m: Record, order: seq<Key>)
    requires Lists(order, m.Keys)
    ensures Part(m, order[..|order|]) == m
  {
  }

  ghost function InCatalog(catalog: Catalog, vault: Record): Record {
    map p | p in vault && IsProperty(catalog, p) :: vault[p]
  }

  lemma {:induction false} OneAliasSet(env: Record, aliases: seq<Key>, k: Key)
    requires forall a <- aliases :: a != k ==> Value(env, a) == ""
    ensures FirstValue(env, aliases) == if k in aliases then Value(env, k) else ""
  {
    if aliases == [] {
    } else {
      assert forall a <- aliases[1..] :: a in aliases;
      assert aliases == [aliases[0]] + aliases[1..];
      OneAliasSet(env, aliases[1..], k);
    }
  }

  /** Of an entry's aliases only its own variable is set in a projected environment. */
  lemma ProjectedAliases(catalog: Catalog, vault: Record, e: CatalogEntry)
    requires WellFormed(catalog) && e in catalog
    ensures FirstValue(Projected(catalog, vault), e.envAliases) == Value(vault, e.vaultProperty)
  {
    var env := Projected(catalog, vault);
    forall a | a in e.envAliases && a != e.envKey ensures Value(env, a) == "" {
      if a in env {
        OnlyEnvKeysProjected(catalog, vault, a);
        var other :| other in catalog && other.envKey == a;
        var i :| 0 <= i < |catalog| && catalog[i] == other;
        assert a in other.envAliases;
        SameEntry(catalog, e, other);
      }
    }
    var i :| 0 <= i < |catalog| && catalog[i] == e;
    OneAliasSet(env, e.envAliases, e.envKey);
    ProjectedAt(catalog, vault, e);
    TrimIdempotent(At(vault, e.vaultProperty));
  }

  /** Building from a projected vault gives the vault back, cleaned and restricted to the catalog. */
  lemma BuildInvertsProjection(catalog: Catalog, vault: Record)
    requires WellFormed(catalog)
    ensures Built(catalog, Projected(catalog, vault)) == Cleaned(InCatalog(catalog, vault))
  {
    var built, expected := Built(catalog, Projected(catalog, vault)), Cleaned(InCatalog(catalog, vault));
    forall p ensures p in built <==> p in expected
             ensures p in built ==> built[p] == expected[p]
    {
      if p in built { OnlyPropertiesBuilt(catalog, Projected(catalog, vault), p); }
      if IsProperty(catalog, p) {
        var e :| e in catalog && e.vaultProperty == p;
        BuiltAt(catalog, Projected(catalog, vault), e);
        ProjectedAliases(catalog, vault, e);
      }
    }
  }

  // Edits.

  /** The property behind a variable; of entries that share one the last wins, as in a Map, and an empty
      property counts as none. */
  function PropertyOf(catalog: Catalog, k: Key): Option<Key> {
    if catalog == [] then None
    else
      var n := |catalog| - 1;
      if catalog[n].envKey != k then PropertyOf(catalog[..n], k)
      else if catalog[n].vaultProperty.name == "" then None
      else Some(catalog[n].vaultProperty)
  }

  function WithLiterals(catalog: Catalog, vault: Record, literals: Record, order: seq<Key>): Record
    requires forall k <- order :: k in literals
  {
    if order == [] then vault
    else
      var n := |order| - 1;
      var before := WithLiterals(catalog, vault, literals, order[..n]);
      match PropertyOf(catalog, order[n])
      case Some(p) => before[p := literals[order[n]]]
      case None => before
  }

  function WithoutKeys(catalog: Catalog, vault: Record, removeEnvKeys: seq<Key>): Record {
    if removeEnvKeys == [] then vault
    else
      var n := |removeEnvKeys| - 1;
      var before := WithoutKeys(catalog, vault, removeEnvKeys[..n]);
      match PropertyOf(catalog, removeEnvKeys[n])
      case Some(p) => before - {p}
      case None => before
  }

  method ApplyEnvChangesToVaultProviderData(catalog: Catalog, currentVault: Record, literals: Record,
          removeEnvKeys: seq<Key>)
      returns (next: Record, ghost order: seq<Key>)
    ensures Lists(order, literals.Keys) && forall k <- order :: k in literals
    ensures next == WithoutKeys(catalog, WithLiterals(catalog, currentVault, literals, order), removeEnvKeys)
  {
    next := currentVault;
    var keys := Enumerate(literals.Keys);
    order := keys;
    forall k | k in keys ensures k in literals { assert k in Elements(keys); }
    for i := 0 to |keys|
      invariant next == WithLiterals(catalog, currentVault, literals, keys[..i])
    {
      assert keys[..i + 1][..i] == keys[..i];
      var prop := PropertyOf(catalog, keys[i]);
      if prop.Some? {
        next := next[prop.value := literals[keys[i]]];
      }
    }
    assert keys[..|keys|] == keys;
    ghost var edited := next;
    for i := 0 to |removeEnvKeys|
      invariant next == WithoutKeys(catalog, edited, removeEnvKeys[..i])
    {
      assert removeEnvKeys[..i + 1][..i] == removeEnvKeys[..i];
      var prop := PropertyOf(catalog, removeEnvKeys[i]);
      if prop.Some? {
        next := next - {prop.value};
      }
    }
    assert removeEnvKeys[..|removeEnvKeys|] == removeEnvKeys;
  }

  lemma {:induction false} PropertyOfMeans(catalog: Catalog, k: Key)
    requires WellFormed(catalog) && Named(catalog)
    ensures PropertyOf(catalog, k).Some? <==> IsEnvKey(catalog, k)
    ensures forall e <- catalog :: e.envKey == k ==> PropertyOf(catalog, k) == Some(e.vaultProperty)
    ensures PropertyOf(catalog, k).Some? ==>
      exists e <- catalog :: e.envKey == k && e.vaultProperty == PropertyOf(catalog, k).value
  {
    if catalog == [] {
    } else {
      var n := |catalog| - 1;
      WellFormedPrefix(catalog, n);
      OthersApart(catalog, n);
      assert catalog == catalog[..n] + [catalog[n]];
      PropertyOfMeans(catalog[..n], k);
    }
  }

  lemma EditTargets(catalog: Catalog, e: CatalogEntry, k: Key)
    requires WellFormed(catalog) && Named(catalog) && e in catalog
    ensures PropertyOf(catalog, k) == Some(e.vaultProperty) <==> k == e.envKey
  {
    PropertyOfMeans(catalog, k);
    if PropertyOf(catalog, k) == Some(e.vaultProperty) {
      var other :| other in catalog && other.envKey == k && other.vaultProperty == e.vaultProperty;
      SameEntry(catalog, e, other);
    }
  }

  lemma {:induction false} LiteralsAt(catalog: Catalog, vault: Record, literals: Record, order: seq<Key>,
          e: CatalogEntry)
    requires WellFormed(catalog) && Named(catalog) && e in catalog
    requires forall k <- order :: k in literals
    ensures Entry(WithLiterals(catalog, vault, literals, order), e.vaultProperty) ==
      if e.envKey in order then Entry(literals, e.envKey) else Entry(vault, e.vaultProperty)
  {
    if order == [] {
    } else {
      var n := |order| - 1;
      assert order == order[..n] + [order[n]];
      LiteralsAt(catalog, vault, literals, order[..n], e);
      EditTargets(catalog, e, order[n]);
    }
  }

  lemma {:induction false} RemovalsAt(catalog: Catalog, vault: Record, removeEnvKeys: seq<Key>, e: CatalogEntry)
    requires WellFormed(catalog) && Named(catalog) && e in catalog
    ensures Entry(WithoutKeys(catalog, vault, removeEnvKeys), e.vaultProperty) ==
      if e.envKey in removeEnvKeys then None else Entry(vault, e.vaultProperty)
  {
    if removeEnvKeys == [] {
    } else {
      var n := |removeEnvKeys| - 1;
      assert removeEnvKeys == removeEnvKeys[..n] + [removeEnvKeys[n]];
      RemovalsAt(catalog, vault, removeEnvKeys[..n], e);
      EditTargets(catalog, e, removeEnvKeys[n]);
    }
  }

  /** Editing an environment: literals override, removals win, blanks disappear, unknown variables are ignored. */
  ghost function EditedEnv(catalog: Catalog, env: Record, literals: Record, removeEnvKeys: seq<Key>): Record {
    Cleaned(map k | k in env.Keys + literals.Keys && IsEnvKey(catalog, k) && k !in removeEnvKeys ::
      if k in literals then literals[k] else env[k])
  }

  /** What one entry's property is after editing the vault. */
  lemma EditedAt(catalog: Catalog, vault: Record, literals: Record, order: seq<Key>, removeEnvKeys: seq<Key>,
          e: CatalogEntry)
    requires WellFormed(catalog) && Named(catalog) && e in catalog
    requires Lists(order, literals.Keys) && forall k <- order :: k in literals
    ensures var edited := WithoutKeys(catalog, WithLiterals(catalog, vault, literals, order), removeEnvKeys);
      Entry(edited, e.vaultProperty) ==
        if e.envKey in removeEnvKeys then None
        else if e.envKey in literals then Some(literals[e.envKey])
        else Entry(vault, e.vaultProperty)
  {
    LiteralsAt(catalog, vault, literals, order, e);
    RemovalsAt(catalog, WithLiterals(catalog, vault, literals, order), removeEnvKeys, e);
    assert e.envKey in literals <==> e.envKey in Elements(order);
  }

  lemma {:induction false} TargetsAreProperties(catalog: Catalog, k: Key)
    ensures PropertyOf(catalog, k).Some? ==> IsProperty(catalog, PropertyOf(catalog, k).value)
  {
    if catalog == [] {
    } else {
      var n := |catalog| - 1;
      TargetsAreProperties(catalog[..n], k);
      assert catalog == catalog[..n] + [catalog[n]];
    }
  }

  lemma {:induction false} LiteralsLeave(catalog: Catalog, vault: Record, literals: Record, order: seq<Key>, p: Key)
    requires !IsProperty(catalog, p) && forall k <- order :: k in literals
    ensures Entry(WithLiterals(catalog, vault, literals, order), p) == Entry(vault, p)
  {
    if order == [] {
    } else {
      var n := |order| - 1;
      LiteralsLeave(catalog, vault, literals, order[..n], p);
      TargetsAreProperties(catalog, order[n]);
    }
  }

  lemma {:induction false} RemovalsLeave(catalog: Catalog, vault: Record, removeEnvKeys: seq<Key>, p: Key)
    requires !IsProperty(catalog, p)
    ensures Entry(WithoutKeys(catalog, vault, removeEnvKeys), p) == Entry(vault, p)
  {
    if removeEnvKeys == [] {
    } else {
      var n := |removeEnvKeys| - 1;
      RemovalsLeave(catalog, vault, removeEnvKeys[..n], p);
      TargetsAreProperties(catalog, removeEnvKeys[n]);
    }
  }

  /** Edits and merges leave properties alone that are not in the catalog, whatever the catalog is. */
  lemma OthersAreKept(catalog: Catalog, vault: Record, literals: Record, order: seq<Key>, removeEnvKeys: seq<Key>,
          env: Record, p: Key)
    requires !IsProperty(catalog, p) && forall k <- order :: k in literals
    ensures Entry(WithoutKeys(catalog, WithLiterals(catalog, vault, literals, order), removeEnvKeys), p)
         == Entry(vault, p)
    ensures Entry(Merged(catalog, env, Found(vault)).data, p) == Entry(vault, p)
  {
    LiteralsLeave(catalog, vault, literals, order, p);
    RemovalsLeave(catalog, WithLiterals(catalog, vault, literals, order), removeEnvKeys, p);
    if p in Built(catalog, env) { OnlyPropertiesBuilt(catalog, env, p); }
  }

  lemma EditedValue(catalog: Catalog, vault: Record, literals: Record, order: seq<Key>, removeEnvKeys: seq<Key>,
          e: CatalogEntry)
    requires WellFormed(catalog) && Named(catalog) && e in catalog
    requires Lists(order, literals.Keys) && forall k <- order :: k in literals
    ensures var edited := WithoutKeys(catalog, WithLiterals(catalog, vault, literals, order), removeEnvKeys);
      Value(edited, e.vaultProperty) ==
        if e.envKey in removeEnvKeys then ""
        else if e.envKey in literals then Value(literals, e.envKey)
        else Value(vault, e.vaultProperty)
  {
    EditedAt(catalog, vault, literals, order, removeEnvKeys, e);
  }

  lemma EditedEnvAt(catalog: Catalog, env: Record, literals: Record, removeEnvKeys: seq<Key>, k: Key)
    requires IsClean(env)
    ensures var edited := EditedEnv(catalog, env, literals, removeEnvKeys);
      && (k in edited ==> IsEnvKey(catalog, k) && edited[k] != "")
      && (IsEnvKey(catalog, k) ==>
            At(edited, k) ==
            (if k in removeEnvKeys then "" else if k in literals then Value(literals, k) else At(env, k)))
  {
  }

  lemma {:induction false} AssembledIsClean(catalog: Catalog, keyOf: CatalogEntry -> Key,
          valueOf: CatalogEntry -> string)
    requires forall e :: Trim(valueOf(e)) == valueOf(e)
    ensures IsClean(Assembled(catalog, keyOf, valueOf))
  {
    if catalog == [] {
    } else {
      AssembledIsClean(catalog[..|catalog| - 1], keyOf, valueOf);
    }
  }

  lemma ProjectedIsClean(catalog: Catalog, vault: Record)
    ensures IsClean(Projected(catalog, vault))
  {
    forall e: CatalogEntry ensures Trim(ValueIn(vault)(e)) == ValueIn(vault)(e) {
      TrimIdempotent(At(vault, e.vaultProperty));
    }
    AssembledIsClean(catalog, EnvKey, ValueIn(vault));
  }

  /** Editing the vault and projecting equals projecting and editing the environment. */
  lemma EditsCommute(catalog: Catalog, vault: Record, literals: Record, order: seq<Key>, removeEnvKeys: seq<Key>)
    requires WellFormed(catalog) && Named(catalog) && Lists(order, literals.Keys) && forall k <- order :: k in literals
    ensures Projected(catalog, WithoutKeys(catalog, WithLiterals(catalog, vault, literals, order), removeEnvKeys))
         == EditedEnv(catalog, Projected(catalog, vault), literals, removeEnvKeys)
  {
    var edited := WithoutKeys(catalog, WithLiterals(catalog, vault, literals, order), removeEnvKeys);
    var env := Projected(catalog, vault);
    ProjectedIsClean(catalog, vault);
    forall k ensures SameAt(Projected(catalog, edited), EditedEnv(catalog, env, literals, removeEnvKeys), k) {
      if k in Projected(catalog, edited) { OnlyEnvKeysProjected(catalog, edited, k); }
      EditedEnvAt(catalog, env, literals, removeEnvKeys, k);
      if IsEnvKey(catalog, k) {
        var e :| e in catalog && e.envKey == k;
        ProjectedAt(catalog, edited, e);
        ProjectedAt(catalog, vault, e);
        if k in env { OnlyEnvKeysProjected(catalog, vault, k); }
        EditedValue(catalog, vault, literals, order, removeEnvKeys, e);
      }
    }
    SameEverywhere(Projected(catalog, edited), EditedEnv(catalog, env, literals, removeEnvKeys));
  }

  ghost predicate SameAt(a: Record, b: Record, k: Key) {
    (k in a <==> k in b) && (k in a ==> a[k] == b[k])
  }

  lemma SameEverywhere(a: Record, b: Record)
    requires forall k :: SameAt(a, b, k)
    ensures a == b
  {
    assert forall k :: SameAt(a, b, k) ==> (k in a <==> k in b);
  }

  // The local file.

  datatype Raw = Str(text: string) | NotAString

  datatype VaultFile = Absent | Malformed | NotAnObject | Object(fields: map<Key, Raw>)

  datatype ReadResult = Found(data: Record) | NoFile | ParseError

  /** Only non-blank strings of the stored object count, trimmed. */
  function Stored(file: VaultFile): ReadResult {
    match file
    case Absent => NoFile
    case Malformed => ParseError
    case NotAnObject => Found(map[])
    case Object(fields) => Found(Cleaned(StringValues(fields)))
  }

  function StringValues(fields: map<Key, Raw>): Record {
    map k | k in fields :: if fields[k].Str? then fields[k].text else ""
  }

  function Strings(m: Record): map<Key, Raw> {
    map k | k in m :: Str(m[k])
  }

  /** The property's text, if it is a string and not blank. */
  function StringAt(fields: map<Key, Raw>, k: Key): Option<string> {
    if k in fields && fields[k].Str? && Trim(fields[k].text) != "" then Some(Trim(fields[k].text)) else None
  }

  class LocalStore {
    var file: VaultFile

    method Read() returns (r: ReadResult)
      ensures r == Stored(file)
      ensures (file.Absent? <==> r.NoFile?) && (file.Malformed? <==> r.ParseError?)
      ensures file.NotAnObject? ==> r == Found(map[])
      ensures file.Object? ==> forall k :: Entry(r.data, k) == StringAt(file.fields, k)
    {
      match file {
        case Absent => r := NoFile;
        case Malformed => r := ParseError;
        case NotAnObject => r := Found(map[]);
        case Object(fields) =>
          var data: Record := map[];
          var keys := Enumerate(fields.Keys);
          TextKeys(fields);
          for i := 0 to |keys|
            invariant data == Cleaned(Part(StringValues(fields), keys[..i]))
          {
            CleanedNext(StringValues(fields), keys, i);
            if fields[keys[i]].Str? && Trim(fields[keys[i]].text) != "" {
              data := data[keys[i] := Trim(fields[keys[i]].text)];
            }
          }
          PartOfAll(StringValues(fields), keys);
          r := Found(data);
      }
    }

    method Write(data: Record)
      modifies this
      ensures file == Object(Strings(Cleaned(data)))
    {
      var cleaned: Record := map[];
      var keys := Enumerate(data.Keys);
      for i := 0 to |keys|
        invariant cleaned == Cleaned(Part(data, keys[..i]))
      {
        CleanedNext(data, keys, i);
        var t := Trim(data[keys[i]]);
        if t != "" {
          cleaned := cleaned[keys[i] := t];
        }
      }
      PartOfAll(data, keys);
      file := Object(Strings(cleaned));
    }

    /** Variables found in `env` replace the stored properties; what is returned is what is stored. */
    method MergeEnv(catalog: Catalog, env: Record) returns (r: ReadResult)
      modifies this
      ensures r == Merged(catalog, env, Stored(old(file)))
      ensures (r.ParseError? <==> old(file).Malformed?) && (r.ParseError? ==> file == old(file))
      ensures r.Found? ==> file == Object(Strings(r.data)) && Stored(file) == r
    {
      var incoming := BuildProvidersVaultPayload(catalog, env);
      var existing := Read();
      if existing.ParseError? { return ParseError; }
      var merged := (if existing.Found? then existing.data else map[]) + incoming;
      MergedIsClean(catalog, env, Stored(file));
      Write(merged);
      r := Found(merged);
      StoredAsWritten(merged);
    }
  }

  function Merged(catalog: Catalog, env: Record, existing: ReadResult): ReadResult {
    match existing
    case ParseError => ParseError
    case NoFile => Found(map[] + Built(catalog, env))
    case Found(data) => Found(data + Built(catalog, env))
  }

  ghost predicate IsClean(m: Record) {
    forall k <- m :: m[k] != "" && Trim(m[k]) == m[k]
  }

  lemma StoredAsWritten(data: Record)
    requires IsClean(data)
    ensures Cleaned(data) == data && Stored(Object(Strings(data))) == Found(data)
  {
  }

  lemma TextKeys(fields: map<Key, Raw>)
    ensures StringValues(fields).Keys == fields.Keys
    ensures Trim("") == ""
  {
  }

  lemma {:induction false} FirstValueTrimmed(env: Record, aliases: seq<Key>)
    ensures Trim(FirstValue(env, aliases)) == FirstValue(env, aliases)
  {
    if aliases == [] {
    } else {
      FirstValueTrimmed(env, aliases[1..]);
      if aliases[0] in env { TrimIdempotent(env[aliases[0]]); }
    }
  }

  lemma BuiltIsClean(catalog: Catalog, env: Record)
    ensures IsClean(Built(catalog, env))
  {
    forall e: CatalogEntry ensures Trim(FirstIn(env)(e)) == FirstIn(env)(e) {
      FirstValueTrimmed(env, e.envAliases);
    }
    AssembledIsClean(catalog, PropertyKey, FirstIn(env));
  }

  lemma MergedIsClean(catalog: Catalog, env: Record, existing: ReadResult)
    requires existing.Found? ==> exists file :: Stored(file) == existing
    ensures Merged(catalog, env, existing).Found? ==> IsClean(Merged(catalog, env, existing).data)
  {
    BuiltIsClean(catalog, env);
    if existing.Found? {
      var file :| Stored(file) == existing;
      forall k | k in existing.data ensures existing.data[k] != "" && Trim(existing.data[k]) == existing.data[k] {
        TrimIdempotent(StringValues(file.fields)[k]);
      }
    }
  }

  /** Merging the same environment a second time changes nothing. */
  lemma MergeIdempotent(catalog: Catalog, env: Record, existing: ReadResult)
    ensures Merged(catalog, env, Merged(catalog, env, existing)) == Merged(catalog, env, existing)
  {
  }

  /** After a merge each catalog variable projects to the first alias set in the environment, or else to what
      was stored before. */
  lemma MergeThenProject(catalog: Catalog, env: Record, data: Record, e: CatalogEntry)
    requires WellFormed(catalog) && e in catalog && IsClean(data)
    ensures var projected := Projected(catalog, Merged(catalog, env, Found(data)).data);
      && (forall j: nat :: IsFirstSet(env, e.envAliases, j) ==>
            Value(projected, e.envKey) == Trim(env[e.envAliases[j]]))
      && ((forall k <- e.envAliases :: Blank(env, k)) ==>
            Value(projected, e.envKey) == Value(data, e.vaultProperty))
    ensures Merged(catalog, env, NoFile) == Merged(catalog, env, Found(map[]))
  {
    FirstValueIs(env, e.envAliases);
    var merged := Merged(catalog, env, Found(data)).data;
    ProjectedAt(catalog, merged, e);
    BuiltAt(catalog, env, e);
    if e.vaultProperty in Built(catalog, env) { OnlyPropertiesBuilt(catalog, env, e.vaultProperty); }
    FirstValueTrimmed(env, e.envAliases);
    TrimIdempotent(At(merged, e.vaultProperty));
  }

  // The process environment.

  class ProcessEnv {
    var vars: Record

    /** Sets the variables the vault has and the environment lacks or has blank; never overrides. */
    method ApplyLocalProvidersVault(catalog: Catalog, vaultData: Record) returns (applied: seq<Key>)
      modifies this
      ensures var projected := Projected(catalog, vaultData);
        && Lists(applied, Unset(old(vars), projected))
        && vars == Filled(old(vars), projected, Unset(old(vars), projected))
      ensures OnlyFills(old(vars), vars, Projected(catalog, vaultData), applied)
    {
      applied := [];
      var env := VaultProviderDataToEnv(catalog, vaultData);
      var keys := Enumerate(env.Keys);
      ghost var unset := Unset(vars, env);
      NoneListed(keys, unset);
      NoneFilled(vars, env);
      for i := 0 to |keys|
        invariant Lists(applied, Among(keys[..i], unset))
        invariant vars == Filled(old(vars), env, Among(keys[..i], unset))
      {
        UnsetNext(old(vars), env, applied, keys, i);
        AmongNext(keys, i, unset);
        FilledNext(old(vars), env, Among(keys[..i], unset), keys[i]);
        if Value(vars, keys[i]) == "" {
          vars := vars[keys[i] := env[keys[i]]];
          applied := applied + [keys[i]];
        }
      }
      AmongAll(keys, env.Keys, unset);
      FilledMeans(old(vars), env, applied);
    }
  }

  /** Variables that are set stay as they are; the others get what is projected for them, and are the applied
      ones then. */
  ghost predicate OnlyFills(before: Record, after: Record, projected: Record, applied: seq<Key>) {
    && (forall k :: !Blank(before, k) ==> Entry(after, k) == Entry(before, k))
    && (forall k :: Blank(before, k) && k in projected ==> Entry(after, k) == Entry(projected, k))
    && (forall k :: Blank(before, k) && k !in projected ==> Entry(after, k) == Entry(before, k))
    && (forall k :: k in applied <==> k in projected && Blank(before, k))
  }

  lemma FilledAt(env: Record, projected: Record, k: Key)
    ensures var after := Filled(env, projected, Unset(env, projected));
      Entry(after, k) == Entry(if Blank(env, k) && k in projected then projected else env, k)
  {
  }

  lemma FilledMeans(env: Record, projected: Record, applied: seq<Key>)
    requires Lists(applied, Unset(env, projected))
    ensures OnlyFills(env, Filled(env, projected, Unset(env, projected)), projected, applied)
  {
    var after := Filled(env, projected, Unset(env, projected));
    forall k ensures Entry(after, k) == Entry(if Blank(env, k) && k in projected then projected else env, k) {
      FilledAt(env, projected, k);
    }
    forall k ensures k in applied <==> k in projected && Blank(env, k) {
      assert k in applied <==> k in Elements(applied);
    }
  }

  function Filled(env: Record, projected: Record, keys: set<Key>): Record {
    map k | k in env.Keys + keys && (k in env || k in projected) ::
      if k in keys && k in projected then projected[k] else env[k]
  }

  lemma FilledNext(env: Record, projected: Record, keys: set<Key>, k: Key)
    requires k in projected && k !in keys
    ensures Value(Filled(env, projected, keys), k) == Value(env, k)
    ensures Filled(env, projected, keys + {k}) == Filled(env, projected, keys)[k := projected[k]]
  {
  }

  lemma NoneFilled(env: Record, projected: Record)
    ensures Filled(env, projected, {}) == env
  {
  }

  lemma UnsetNext(env: Record, projected: Record, applied: seq<Key>, order: seq<Key>, i: nat)
    requires Lists(order, projected.Keys) && i < |order|
    requires Lists(applied, Among(order[..i], Unset(env, projected)))
    ensures order[i] in projected && order[i] !in Among(order[..i], Unset(env, projected))
    ensures order[i] in Unset(env, projected) ==>
      Lists(applied + [order[i]], Among(order[..i + 1], Unset(env, projected)))
  {
    var unset := Unset(env, projected);
    ListsPrefix(order, projected.Keys, i);
    AmongNext(order, i, unset);
    if order[i] in unset { ListsGrow(applied, order, i, unset); }
  }

  function Unset(env: Record, projected: Record): (r: set<Key>)
    ensures r <= projected.Keys
  {
    set k | k in projected && Value(env, k) == ""
  }
}
