/**
 The relational store behind the user-group repository, as the repository's
 SQL statements see it.

 The statements' text is not part of this model. Each statement is a
 function of the committed tables plus an input saying whether the engine
 fails it, so that every property of the repository depends only on the
 repository's own control flow:
 - groups are keyed by their id (the primary key);
 - each (group, user) pair has at most one membership, holding its role
   (the unique key of the membership table);
 - inserting over an existing key is refused with `DuplicateKey`;
 - a targeted update or delete reports how many rows it touched (0 or 1).
 Foreign keys, cascades and the `joined_at` column are not modelled.
 */
module Store {
  import opened Outcomes

  /** A row of the usergroup table, with the columns the repository writes and scans. */
  datatype UserGroup = UserGroup(
    groupId: int,
    groupName: string,
    groupDesc: string,
    groupType: string,
    thumbnail: string,
    isActive: bool)

  /** A user group with every field at its zero value, as `new(model.UserGroup)` allocates it. */
  const ZeroGroup := UserGroup(0, "", "", "", "", false)

  /** The key of the membership table. */
  datatype MemberKey = MemberKey(groupId: int, userId: int)

  /** The committed content of the group table and of the membership table (role by key). */
  datatype Db = Db(groups: map<int, UserGroup>, members: map<MemberKey, string>)

  /** Role written by the statement that adds a group's creator. */
  const AdminRole := "admin"
  /** Role written by the statement that adds a user to an existing group. */
  const MemberRole := "member"

  /** The engine's refusal of a row whose primary or unique key is already taken. */
  const DuplicateKey := Message("duplicate key value violates unique constraint")

  /** Every group row is stored under its own id. */
  predicate WellFormed(db: Db)
  {
    forall id :: id in db.groups ==> db.groups[id].groupId == id
  }

  /** The group `id` has at least one member holding the admin role. */
  predicate HasAdmin(db: Db, id: int)
  {
    exists k :: k in db.members && k.groupId == id && db.members[k] == AdminRole
  }

  /**
   How the engine handles one `Exec` call, an input to the model: it runs
   cleanly; it fails with an error; or it runs but the driver cannot report
   the affected-row count (`RowsAffected` returns an error and the value 0).
   */
  datatype ExecFault = Clean | ExecFails(cause: Error) | CountLost

  /** What the caller of `Exec` sees: the error, or the row count it reads with the count's own error discarded. */
  datatype Exec = ExecError(cause: Error) | Affected(rows: int)

  /** The count a caller reads for a statement that touched `touched` rows. */
  function Report(touched: nat, fault: ExecFault): Exec
    requires !fault.ExecFails?
  {
    if fault.CountLost? then Affected(0) else Affected(touched)
  }

  /** The store with one more group, stored under `id`, and nothing else changed. */
  function WithGroup(db: Db, g: UserGroup, id: int): Db
  {
    db.(groups := db.groups[id := g.(groupId := id)])
  }

  /** The store with one more membership and nothing else changed. */
  function WithMember(db: Db, key: MemberKey, role: string): Db
  {
    db.(members := db.members[key := role])
  }

  /** `INSERT INTO usergroup ... RETURNING id`: the engine assigns `newId` as the new id. */
  function InsertGroupRow(db: Db, g: UserGroup, newId: int, fault: Option<Error>): (Result<int>, Db)
  {
    if fault.Some? then (Err(fault.value), db)
    else if newId in db.groups then (Err(DuplicateKey), db)
    else (Ok(newId), WithGroup(db, g, newId))
  }

  /** `INSERT INTO usergroup_user`: a new membership with the given role. */
  function InsertMemberRow(db: Db, key: MemberKey, role: string, fault: Option<Error>): (Option<Error>, Db)
  {
    if fault.Some? then (fault, db)
    else if key in db.members then (Some(DuplicateKey), db)
    else (None, WithMember(db, key, role))
  }

  /** `DELETE FROM usergroup_user` for one (group, user) pair. */
  function DeleteMemberRow(db: Db, key: MemberKey, fault: ExecFault): (Exec, Db)
  {
    if fault.ExecFails? then (ExecError(fault.cause), db)
    else (Report(if key in db.members then 1 else 0, fault), db.(members := db.members - {key}))
  }

  /** `UPDATE usergroup_user SET role` for one (group, user) pair. */
  function UpdateMemberRole(db: Db, key: MemberKey, role: string, fault: ExecFault): (Exec, Db)
  {
    if fault.ExecFails? then (ExecError(fault.cause), db)
    else if key in db.members then (Report(1, fault), WithMember(db, key, role))
    else (Report(0, fault), db)
  }

  /** `DELETE FROM usergroup` for one id. Memberships of the group are left as they are. */
  function DeleteGroupRow(db: Db, id: int, fault: ExecFault): (Exec, Db)
  {
    if fault.ExecFails? then (ExecError(fault.cause), db)
    else (Report(if id in db.groups then 1 else 0, fault), db.(groups := db.groups - {id}))
  }
}
