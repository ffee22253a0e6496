/**
 * The catalog objects of stash version 37 that the v36 to v37 migration
 * writes (`objects_v37`): the item value holds its `create_sql` directly.
 */
module ObjectsV37 {
  import opened Wrappers

  datatype GlobalIdValue = System(id: nat) | User(id: nat) | Transient(id: nat) | Explain
  datatype GlobalId = GlobalId(value: Option<GlobalIdValue>)
  datatype ItemKey = ItemKey(gid: Option<GlobalId>)

  datatype SchemaIdValue = System(id: nat) | User(id: nat)
  datatype SchemaId = SchemaId(value: Option<SchemaIdValue>)

  datatype RoleIdValue = System(id: nat) | User(id: nat) | Public
  datatype RoleId = RoleId(value: Option<RoleIdValue>)

  datatype AclMode = AclMode(bitflags: bv64)
  datatype MzAclItem = MzAclItem(grantee: Option<RoleId>, grantor: Option<RoleId>, aclMode: Option<AclMode>)

  datatype ItemValue = ItemValue(
    schemaId: Option<SchemaId>,
    name: string,
    createSql: string,
    ownerId: Option<RoleId>,
    privileges: seq<MzAclItem>)
}
