/**
 * The catalog objects of stash version 36 that the v36 to v37 migration
 * reads (`objects_v36`). Protobuf message fields are optional, so every
 * nested message is an `Option`.
 */
module ObjectsV36 {
  import opened Wrappers

  datatype GlobalIdValue = System(id: nat) | User(id: nat) | Transient(id: nat) | Explain
  datatype GlobalId = GlobalId(value: Option<GlobalIdValue>)
  datatype ItemKey = ItemKey(gid: Option<GlobalId>)

  datatype SchemaIdValue = System(id: nat) | User(id: nat)
  datatype SchemaId = SchemaId(value: Option<SchemaIdValue>)

  datatype RoleIdValue = System(id: nat) | User(id: nat) | Public
  datatype RoleId = RoleId(value: Option<RoleIdValue>)

  datatype AclMode = AclMode(bitflags: bv64)
  datatype MzAclItem = MzAclItem(grantee: Option<RoleId>, grantor: Option<RoleId>, aclMode: Option<AclMode>)

  /** `catalog_item::Value`: version 36 has only the `V1` layout. */
  datatype CatalogItemValue = V1(createSql: string)
  datatype CatalogItem = CatalogItem(value: Option<CatalogItemValue>)

  datatype ItemValue = ItemValue(
    schemaId: Option<SchemaId>,
    name: string,
    definition: Option<CatalogItem>,
    ownerId: Option<RoleId>,
    privileges: seq<MzAclItem>)
}
