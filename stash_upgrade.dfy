/**
 * The catalog migration from stash version 36 to 37
 * (src/stash/src/upgrade/v36_to_v37.rs): every item of the `item`
 * collection is rewritten so that its value carries the item's
 * `create_sql` directly instead of inside a versioned definition.
 *
 * The identifier types are wire compatible between the two versions: the
 * conversion re-encodes the protobuf bytes of one as the other, which
 * keeps every constructor and field. It is modelled structurally, with the
 * conversion back as its partner.
 */
module StashUpgrade {
  import opened Wrappers
  import V36 = ObjectsV36
  import V37 = ObjectsV37

  // ---------------------------------------------------------------------
  // Wire-compatible conversions
  // ---------------------------------------------------------------------

  function ConvertGlobalIdValue(x: V36.GlobalIdValue): (y: V37.GlobalIdValue)
    ensures BackGlobalIdValue(y) == x
  {
    if x.System? then V37.GlobalIdValue.System(x.id)
    else if x.User? then V37.GlobalIdValue.User(x.id)
    else if x.Transient? then V37.GlobalIdValue.Transient(x.id)
    else V37.Explain
  }

  function BackGlobalIdValue(y: V37.GlobalIdValue): (x: V36.GlobalIdValue)
  {
    if y.System? then V36.GlobalIdValue.System(y.id)
    else if y.User? then V36.GlobalIdValue.User(y.id)
    else if y.Transient? then V36.GlobalIdValue.Transient(y.id)
    else V36.Explain
  }

  /** `WireCompatible::convert` for `ItemKey`. */
  function ConvertItemKey(k: V36.ItemKey): (l: V37.ItemKey)
    ensures BackItemKey(l) == k
  {
    V37.ItemKey(
      if k.gid.None? then None
      else Some(V37.GlobalId(
        if k.gid.value.value.None? then None else Some(ConvertGlobalIdValue(k.gid.value.value.value)))))
  }

  function BackItemKey(l: V37.ItemKey): (k: V36.ItemKey)
  {
    V36.ItemKey(
      if l.gid.None? then None
      else Some(V36.GlobalId(
        if l.gid.value.value.None? then None else Some(BackGlobalIdValue(l.gid.value.value.value)))))
  }

  function ConvertSchemaIdValue(x: V36.SchemaIdValue): (y: V37.SchemaIdValue)
    ensures BackSchemaIdValue(y) == x
  {
    if x.System? then V37.SchemaIdValue.System(x.id) else V37.SchemaIdValue.User(x.id)
  }

  function BackSchemaIdValue(y: V37.SchemaIdValue): (x: V36.SchemaIdValue)
  {
    if y.System? then V36.SchemaIdValue.System(y.id) else V36.SchemaIdValue.User(y.id)
  }

  /** `WireCompatible::convert` for `SchemaId`. */
  function ConvertSchemaId(s: V36.SchemaId): (t: V37.SchemaId)
    ensures BackSchemaId(t) == s
  {
    V37.SchemaId(if s.value.None? then None else Some(ConvertSchemaIdValue(s.value.value)))
  }

  function BackSchemaId(t: V37.SchemaId): (s: V36.SchemaId)
  {
    V36.SchemaId(if t.value.None? then None else Some(BackSchemaIdValue(t.value.value)))
  }

  function ConvertRoleIdValue(x: V36.RoleIdValue): (y: V37.RoleIdValue)
    ensures BackRoleIdValue(y) == x
  {
    if x.System? then V37.RoleIdValue.System(x.id)
    else if x.User? then V37.RoleIdValue.User(x.id)
    else V37.Public
  }

  function BackRoleIdValue(y: V37.RoleIdValue): (x: V36.RoleIdValue)
  {
    if y.System? then V36.RoleIdValue.System(y.id)
    else if y.User? then V36.RoleIdValue.User(y.id)
    else V36.Public
  }

  /** `WireCompatible::convert` for `RoleId`, under an optional field. */
  function ConvertRole(r: Option<V36.RoleId>): (s: Option<V37.RoleId>)
    ensures BackRole(s) == r
  {
    if r.None? then None
    else Some(V37.RoleId(if r.value.value.None? then None else Some(ConvertRoleIdValue(r.value.value.value))))
  }

  function BackRole(s: Option<V37.RoleId>): (r: Option<V36.RoleId>)
  {
    if s.None? then None
    else Some(V36.RoleId(if s.value.value.None? then None else Some(BackRoleIdValue(s.value.value.value))))
  }

  /** `WireCompatible::convert` for `MzAclItem`. */
  function ConvertAclItem(a: V36.MzAclItem): (b: V37.MzAclItem)
    ensures BackAclItem(b) == a
  {
    V37.MzAclItem(
      ConvertRole(a.grantee),
      ConvertRole(a.grantor),
      if a.aclMode.None? then None else Some(V37.AclMode(a.aclMode.value.bitflags)))
  }

  function BackAclItem(b: V37.MzAclItem): (a: V36.MzAclItem)
  {
    V36.MzAclItem(
      BackRole(b.grantee),
      BackRole(b.grantor),
      if b.aclMode.None? then None else Some(V36.AclMode(b.aclMode.value.bitflags)))
  }

  // ---------------------------------------------------------------------
  // The item value
  // ---------------------------------------------------------------------

  const MISSING_DEFINITION := "missing field ItemValue::definition"
  const MISSING_VALUE := "missing field CatalogItem::value"

  /** The item value has a definition, and the definition a value. */
  predicate HasDefinition(v: V36.ItemValue)
  {
    v.definition.Some? && v.definition.value.value.Some?
  }

  /**
   * `From<v36::ItemValue> for v37::ItemValue`: the `create_sql` of the
   * `V1` definition moves up into the value, the name is kept, and the
   * schema, owner and privileges are converted. A missing definition or a
   * definition without a value is fatal.
   */
  function UpgradeValue(v: V36.ItemValue): (r: Result<V37.ItemValue, string>)
    ensures r.Ok? <==> HasDefinition(v)
    ensures r.Err? ==> r.error == (if v.definition.None? then MISSING_DEFINITION else MISSING_VALUE)
    ensures r.Ok? ==>
              && r.value.name == v.name
              && r.value.createSql == v.definition.value.value.value.createSql
              && (r.value.schemaId.None? <==> v.schemaId.None?)
              && (r.value.ownerId.None? <==> v.ownerId.None?)
              && |r.value.privileges| == |v.privileges|
              && (forall i :: 0 <= i < |v.privileges| ==> BackAclItem(r.value.privileges[i]) == v.privileges[i])
  {
    if v.definition.None? then Err(MISSING_DEFINITION)
    else if v.definition.value.value.None? then Err(MISSING_VALUE)
    else
      var createSql := match v.definition.value.value.value case V1(c) => c;
      Ok(V37.ItemValue(
        if v.schemaId.None? then None else Some(ConvertSchemaId(v.schemaId.value)),
        v.name,
        createSql,
        ConvertRole(v.ownerId),
        seq(|v.privileges|, i requires 0 <= i < |v.privileges| => ConvertAclItem(v.privileges[i]))))
  }

  /** The version 36 value a version 37 value came from: its `create_sql` wrapped in a `V1` definition. */
  function Downgrade(w: V37.ItemValue): (v: V36.ItemValue)
    ensures HasDefinition(v) && v.name == w.name
  {
    V36.ItemValue(
      if w.schemaId.None? then None else Some(BackSchemaId(w.schemaId.value)),
      w.name,
      Some(V36.CatalogItem(Some(V36.V1(w.createSql)))),
      BackRole(w.ownerId),
      seq(|w.privileges|, i requires 0 <= i < |w.privileges| => BackAclItem(w.privileges[i])))
  }

  /** Upgrading loses nothing: the original value can be rebuilt from the upgraded one. */
  lemma DowngradeUpgrade(v: V36.ItemValue)
    requires HasDefinition(v)
    ensures Downgrade(UpgradeValue(v).value) == v
  {
    var w := UpgradeValue(v).value;
    var d := Downgrade(w);
    assert d.privileges == v.privileges;
  }

  /** Every version 37 value is the upgrade of some version 36 value. */
  lemma UpgradeDowngrade(w: V37.ItemValue)
    ensures UpgradeValue(Downgrade(w)) == Ok(w)
  {
    var u := UpgradeValue(Downgrade(w)).value;
    forall i | 0 <= i < |w.privileges|
      ensures u.privileges[i] == w.privileges[i]
    {
      RoleRoundTrip(w.privileges[i].grantee);
      RoleRoundTrip(w.privileges[i].grantor);
    }
    assert u.privileges == w.privileges;
    RoleRoundTrip(w.ownerId);
  }

  lemma RoleRoundTrip(s: Option<V37.RoleId>)
    ensures ConvertRole(BackRole(s)) == s
  {
  }

  // ---------------------------------------------------------------------
  // The migration
  // ---------------------------------------------------------------------

  /** `MigrationAction::Update(key, (new_key, new_value))`: replace the entry under `key`. */
  datatype MigrationAction = Update(key: V36.ItemKey, newKey: V37.ItemKey, newValue: V37.ItemValue)

  /**
   * `upgrade` (v36_to_v37.rs:23-36): one update per entry of the item
   * collection, in the collection's order, keyed by the entry's own key.
   * The first entry whose value cannot be converted aborts the migration.
   */
  function Upgrade(entries: seq<(V36.ItemKey, V36.ItemValue)>): (r: Result<seq<MigrationAction>, string>)
    ensures r.Ok? <==> forall i :: 0 <= i < |entries| ==> HasDefinition(entries[i].1)
    ensures r.Ok? ==>
              && |r.value| == |entries|
              && forall i :: 0 <= i < |entries| ==>
                   && r.value[i].key == entries[i].0
                   && BackItemKey(r.value[i].newKey) == entries[i].0
                   && Downgrade(r.value[i].newValue) == entries[i].1
  {
    if entries == [] then Ok([])
    else
      match UpgradeValue(entries[0].1)
      case Err(e) => Err(e)
      case Ok(newValue) =>
        DowngradeUpgrade(entries[0].1);
        match Upgrade(entries[1..])
        case Err(e) => Err(e)
        case Ok(rest) => Ok([Update(entries[0].0, ConvertItemKey(entries[0].0), newValue)] + rest)
  }

  /** A failed migration reports the error of the first entry that cannot be converted. */
  lemma {:induction false} UpgradeFailsAtFirst(entries: seq<(V36.ItemKey, V36.ItemValue)>)
    requires Upgrade(entries).Err?
    ensures exists i :: 0 <= i < |entries| && UpgradeValue(entries[i].1) == Err(Upgrade(entries).error)
                        && forall j :: 0 <= j < i ==> HasDefinition(entries[j].1)
  {
    var e := Upgrade(entries).error;
    if UpgradeValue(entries[0].1).Ok? {
      var tail := entries[1..];
      UpgradeTail(entries);
      UpgradeFailsAtFirst(tail);
      var i :| 0 <= i < |tail| && UpgradeValue(tail[i].1) == Err(e)
               && forall j :: 0 <= j < i ==> HasDefinition(tail[j].1);
      assert entries[i + 1] == tail[i];
      assert forall j :: 0 < j < i + 1 ==> entries[j] == tail[j - 1];
    } else {
      assert UpgradeValue(entries[0].1) == Err(e);
    }
  }

  /** Past a convertible first entry, the migration fails exactly when the rest does, with its error. */
  lemma UpgradeTail(entries: seq<(V36.ItemKey, V36.ItemValue)>)
    requires entries != [] && UpgradeValue(entries[0].1).Ok?
    ensures Upgrade(entries).Err? <==> Upgrade(entries[1..]).Err?
    ensures Upgrade(entries).Err? ==> Upgrade(entries).error == Upgrade(entries[1..]).error
  {
  }

  /** The migration rewrites every key it is given and no other. */
  lemma UpgradeKeys(entries: seq<(V36.ItemKey, V36.ItemValue)>)
    requires Upgrade(entries).Ok?
    ensures (set a | a in Upgrade(entries).value :: a.key) == (set e | e in entries :: e.0)
  {
    var actions := Upgrade(entries).value;
    forall e | e in entries
      ensures e.0 in (set a | a in actions :: a.key)
    {
      var i :| 0 <= i < |entries| && entries[i] == e;
      assert actions[i] in actions;
    }
    forall a | a in actions
      ensures a.key in (set e | e in entries :: e.0)
    {
      var i :| 0 <= i < |actions| && actions[i] == a;
      assert entries[i] in entries;
    }
  }

  // ---------------------------------------------------------------------
  // The smoke test (v36_to_v37.rs:70-166)
  // ---------------------------------------------------------------------

  function RoleUser36(id: nat): Option<V36.RoleId>
  {
    Some(V36.RoleId(Some(V36.RoleIdValue.User(id))))
  }

  function RoleUser37(id: nat): Option<V37.RoleId>
  {
    Some(V37.RoleId(Some(V37.RoleIdValue.User(id))))
  }

  /** The view `v` of user schema 66, as the test stores it at version 36 and expects it at version 37. */
  lemma SmokeTest(createSql: string)
    ensures
      var key := V36.ItemKey(Some(V36.GlobalId(Some(V36.GlobalIdValue.User(42)))));
      var value := V36.ItemValue(
        Some(V36.SchemaId(Some(V36.SchemaIdValue.User(66)))),
        "v",
        Some(V36.CatalogItem(Some(V36.V1(createSql)))),
        RoleUser36(1),
        [V36.MzAclItem(RoleUser36(2), RoleUser36(3), Some(V36.AclMode(55)))]);
      Upgrade([(key, value)]) == Ok([Update(
        key,
        V37.ItemKey(Some(V37.GlobalId(Some(V37.GlobalIdValue.User(42))))),
        V37.ItemValue(
          Some(V37.SchemaId(Some(V37.SchemaIdValue.User(66)))),
          "v",
          createSql,
          RoleUser37(1),
          [V37.MzAclItem(RoleUser37(2), RoleUser37(3), Some(V37.AclMode(55)))]))])
  {
    var value := V36.ItemValue(
      Some(V36.SchemaId(Some(V36.SchemaIdValue.User(66)))),
      "v",
      Some(V36.CatalogItem(Some(V36.V1(createSql)))),
      RoleUser36(1),
      [V36.MzAclItem(RoleUser36(2), RoleUser36(3), Some(V36.AclMode(55)))]);
    var key := V36.ItemKey(Some(V36.GlobalId(Some(V36.GlobalIdValue.User(42)))));
    var expected := [V37.MzAclItem(RoleUser37(2), RoleUser37(3), Some(V37.AclMode(55)))];
    assert UpgradeValue(value).value.privileges == expected;
    assert [(key, value)][1..] == [];
    assert ConvertItemKey(key) == V37.ItemKey(Some(V37.GlobalId(Some(V37.GlobalIdValue.User(42)))));
    assert UpgradeValue(value) == Ok(V37.ItemValue(
          Some(V37.SchemaId(Some(V37.SchemaIdValue.User(66)))),
          "v",
          createSql,
          RoleUser37(1),
          expected));
    var update := Update(key, ConvertItemKey(key), UpgradeValue(value).value);
    assert [update] + [] == [update];
  }
}
