/**
 The decisions `UserGroupRepo` makes around its SQL statements
 (internal/usergroup/repository/usergroup_repository.go): which errors it
 wraps, which it passes through, when a zero row count is an error, when a
 transaction is rolled back, and what it returns in each case.

 Every operation takes the committed store and the engine's behaviour for
 each statement it runs, and returns what the Go method returns together
 with the committed store afterwards.
 */
module UserGroupRepo {
  import opened Outcomes
  import opened Store

  const GroupInsertPrefix := "unable to insert into usergroup table"
  const MemberInsertPrefix := "unable to insert into usergroup_user table"
  const MemberDeletePrefix := "unable to delete user from usergroup_user table"
  const RoleUpdatePrefix := "unable to update user role in usergroup_user table"
  const GroupDeletePrefix := "unable to delete usergroup table"

  const NoMemberToUpdate := Message("no user found in the specified group to update role")
  const NoGroupRemoved := Message("none of the usergroup has been removed")

  /** Printed (not returned) when a removal touched no row. */
  const NothingRemovedNotice := "none of the data has been removed"

  /** Go's `(int, error)` return pair. */
  datatype IdReturn = IdReturn(id: int, err: Option<Error>)

  /** What an error-only method returns, and the committed store afterwards. */
  datatype Mutation = Mutation(err: Option<Error>, db: Db)

  /** A removal's result: its error, the store afterwards, and what it printed. */
  datatype Removal = Removal(err: Option<Error>, db: Db, printed: Option<string>)

  /** A non-transactional insert's result. */
  datatype Insertion = Insertion(ret: IdReturn, db: Db)

  /** How the creation's transaction ended. */
  datatype TxEnd = NotBegun | RolledBack | Committed

  /** Whether the engine fails each of the four steps of the creation transaction. */
  datatype TxFaults = TxFaults(
    begin: Option<Error>,
    insertGroup: Option<Error>,
    insertAdmin: Option<Error>,
    commit: Option<Error>)

  /** No step of the creation transaction fails. */
  const NoFaults := TxFaults(None, None, None, None)

  /** The transactional creation's result: the returned pair, the committed store, how the transaction ended. */
  datatype Creation = Creation(ret: IdReturn, db: Db, tx: TxEnd)

  /**
   `CreateGroup`: a single insert outside any transaction. The caller's
   `groupId` is ignored; the engine assigns the id. On failure the id is 0
   and the store's error is wrapped.
   */
  function CreateGroup(db: Db, ug: UserGroup, newId: int, fault: Option<Error>): (r: Insertion)
    ensures r.ret.err.None? <==> fault.None? && newId !in db.groups
    ensures r.ret.err.None? ==> r.ret.id == newId && r.db == WithGroup(db, ug, newId)
    ensures r.ret.err.Some? ==> r.ret.id == 0 && r.db == db
    ensures fault.Some? ==> r.ret.err == Some(Wrapped(GroupInsertPrefix, fault.value))
    ensures fault.None? && newId in db.groups ==> r.ret.err == Some(Wrapped(GroupInsertPrefix, DuplicateKey))
  {
    var (res, db') := InsertGroupRow(db, ug, newId, fault);
    if res.Err? then Insertion(IdReturn(0, Some(Wrapped(GroupInsertPrefix, res.error))), db)
    else Insertion(IdReturn(res.value, None), db')
  }

  /**
   `CreateGroupWithUsers`: begin a transaction, insert the group, insert the
   creator's admin membership, commit. A failed begin returns its error
   before any rollback is deferred; every later failure sets `err`, so the
   deferred rollback discards the transaction's work. Only the group
   insert's error is wrapped.
   */
  function CreateGroupWithUsers(db: Db, ug: UserGroup, userId: int, newId: int, faults: TxFaults): (c: Creation)
    ensures c.ret.err.None? <==> c.tx == Committed
    ensures c.ret.err.Some? ==> c.ret.id == 0 && c.db == db
    ensures c.tx == NotBegun <==> faults.begin.Some?
    ensures faults.begin.Some? ==> c.ret.err == faults.begin
    ensures c.ret.err.None? <==>
      && faults == NoFaults
      && newId !in db.groups
      && MemberKey(newId, userId) !in db.members
    ensures c.ret.err.None? ==>
      && c.ret.id == newId
      && c.db == WithMember(WithGroup(db, ug, newId), MemberKey(newId, userId), AdminRole)
    ensures faults.begin.None? && faults.insertGroup.Some? ==>
      c.ret.err == Some(Wrapped(GroupInsertPrefix, faults.insertGroup.value))
    ensures faults.begin.None? && faults.insertGroup.None? && newId in db.groups ==>
      c.ret.err == Some(Wrapped(GroupInsertPrefix, DuplicateKey))
    ensures faults.begin.None? && faults.insertGroup.None? && newId !in db.groups && faults.insertAdmin.Some? ==>
      c.ret.err == faults.insertAdmin
    ensures (&& faults.begin.None? && faults.insertGroup.None? && newId !in db.groups && faults.insertAdmin.None?
             && MemberKey(newId, userId) in db.members) ==>
      c.ret.err == Some(DuplicateKey)
    ensures (&& faults.begin.None? && faults.insertGroup.None? && faults.insertAdmin.None? && faults.commit.Some?
             && newId !in db.groups && MemberKey(newId, userId) !in db.members) ==>
      c.ret.err == faults.commit
  {
    if faults.begin.Some? then Creation(IdReturn(0, faults.begin), db, NotBegun)
    else
      // the transaction works on its own copy of the store until commit
      var tx := db;
      var (inserted, tx1) := InsertGroupRow(tx, ug, newId, faults.insertGroup);
      if inserted.Err? then
        Creation(IdReturn(0, Some(Wrapped(GroupInsertPrefix, inserted.error))), db, RolledBack)
      else
        var (adminErr, tx2) := InsertMemberRow(tx1, MemberKey(inserted.value, userId), AdminRole, faults.insertAdmin);
        if adminErr.Some? then Creation(IdReturn(0, adminErr), db, RolledBack)
        else if faults.commit.Some? then Creation(IdReturn(0, faults.commit), db, RolledBack)
        else Creation(IdReturn(inserted.value, None), tx2, Committed)
  }

  /** `InsertUserGroupUserTable`: adds a plain member; any failure is wrapped and leaves the store as it was. */
  function InsertUserGroupUserTable(db: Db, groupId: int, userId: int, fault: Option<Error>): (r: Mutation)
    ensures r.err.None? <==> fault.None? && MemberKey(groupId, userId) !in db.members
    ensures r.err.None? ==> r.db == WithMember(db, MemberKey(groupId, userId), MemberRole)
    ensures r.err.Some? ==> r.db == db
    ensures fault.Some? ==> r.err == Some(Wrapped(MemberInsertPrefix, fault.value))
    ensures fault.None? && MemberKey(groupId, userId) in db.members ==>
      r.err == Some(Wrapped(MemberInsertPrefix, DuplicateKey))
  {
    var (err, db') := InsertMemberRow(db, MemberKey(groupId, userId), MemberRole, fault);
    if err.Some? then Mutation(Some(Wrapped(MemberInsertPrefix, err.value)), db)
    else Mutation(None, db')
  }

  /**
   `RemoveUserFromUserGroup`: only a failing statement is an error. A removal
   that touched no row (or whose count was lost) still succeeds; it prints a
   notice and nothing else.
   */
  function RemoveUserFromUserGroup(db: Db, groupId: int, userId: int, fault: ExecFault): (r: Removal)
    ensures fault.ExecFails? ==> r == Removal(Some(Wrapped(MemberDeletePrefix, fault.cause)), db, None)
    ensures !fault.ExecFails? ==> r.err.None?
    ensures !fault.ExecFails? ==> r.db == db.(members := db.members - {MemberKey(groupId, userId)})
    ensures r.printed.Some? <==> !fault.ExecFails? && (MemberKey(groupId, userId) !in db.members || fault.CountLost?)
    ensures r.printed.Some? ==> r.printed.value == NothingRemovedNotice
  {
    var (exec, db') := DeleteMemberRow(db, MemberKey(groupId, userId), fault);
    match exec
    case ExecError(e) => Removal(Some(Wrapped(MemberDeletePrefix, e)), db, None)
    case Affected(n) =>
      if n == 0 then Removal(None, db', Some(NothingRemovedNotice)) else Removal(None, db', None)
  }

  /**
   `UpdateUserRoleInGroup`: sets the role of one membership, whatever the
   role string is. A zero row count is an error.
   */
  function UpdateUserRoleInGroup(db: Db, groupId: int, userId: int, role: string, fault: ExecFault): (r: Mutation)
    ensures fault.ExecFails? ==> r == Mutation(Some(Wrapped(RoleUpdatePrefix, fault.cause)), db)
    ensures !fault.ExecFails? && MemberKey(groupId, userId) !in db.members ==> r == Mutation(Some(NoMemberToUpdate), db)
    ensures r.err.None? <==> fault.Clean? && MemberKey(groupId, userId) in db.members
    ensures !fault.ExecFails? && MemberKey(groupId, userId) in db.members ==>
      r.db == WithMember(db, MemberKey(groupId, userId), role)
    ensures fault.CountLost? ==> r.err == Some(NoMemberToUpdate)
  {
    var (exec, db') := UpdateMemberRole(db, MemberKey(groupId, userId), role, fault);
    match exec
    case ExecError(e) => Mutation(Some(Wrapped(RoleUpdatePrefix, e)), db)
    case Affected(n) => if n == 0 then Mutation(Some(NoMemberToUpdate), db') else Mutation(None, db')
  }

  /** `DeleteUserGroup`: deletes one group row. A zero row count is an error. */
  function DeleteUserGroup(db: Db, groupId: int, fault: ExecFault): (r: Mutation)
    ensures fault.ExecFails? ==> r == Mutation(Some(Wrapped(GroupDeletePrefix, fault.cause)), db)
    ensures !fault.ExecFails? && groupId !in db.groups ==> r == Mutation(Some(NoGroupRemoved), db)
    ensures r.err.None? <==> fault.Clean? && groupId in db.groups
    ensures !fault.ExecFails? ==> r.db == db.(groups := db.groups - {groupId})
    ensures fault.CountLost? ==> r.err == Some(NoGroupRemoved)
  {
    var (exec, db') := DeleteGroupRow(db, groupId, fault);
    match exec
    case ExecError(e) => Mutation(Some(Wrapped(GroupDeletePrefix, e)), db)
    case Affected(n) => if n == 0 then Mutation(Some(NoGroupRemoved), db') else Mutation(None, db')
  }

  /** One row of a query result: scanned into a group, or failing to scan. */
  datatype Scan = Scanned(row: UserGroup) | ScanFailed(cause: Error)

  /** What the engine answers to a query: an error, or a stream of rows. */
  datatype Query = QueryFailed(cause: Error) | Rows(rows: seq<Scan>)

  /**
   The scanning loop of `GetById`: each row overwrites the group read so far,
   and the first row that fails to scan ends the loop with its error.
   */
  function ScanRows(rows: seq<Scan>, current: UserGroup): (r: Result<UserGroup>)
    ensures r.Ok? <==> forall k :: 0 <= k < |rows| ==> rows[k].Scanned?
    ensures r.Ok? && rows == [] ==> r.value == current
    ensures r.Ok? && rows != [] ==> r.value == rows[|rows| - 1].row
    ensures r.Err? ==> exists k :: (0 <= k < |rows| && rows[k] == ScanFailed(r.error)
      && forall j :: 0 <= j < k ==> rows[j].Scanned?)
    decreases |rows|
  {
    if rows == [] then Ok(current)
    else
      match rows[0]
      case ScanFailed(e) => Err(e)
      case Scanned(g) =>
        var r := ScanRows(rows[1..], g);
        assert forall k :: 1 <= k < |rows| ==> rows[k] == rows[1..][k - 1];
        r
  }

  /**
   `GetById`: a failed query is an error; no matching row is not an error
   but a zero-valued group; with several rows the last one wins. It reads
   only the query's answer, so it cannot change the store.
   */
  function GetById(q: Query): (r: Result<UserGroup>)
    ensures q.QueryFailed? ==> r == Err(q.cause)
    ensures q == Rows([]) ==> r == Ok(ZeroGroup)
    ensures q.Rows? ==> (r.Ok? <==> forall k :: 0 <= k < |q.rows| ==> q.rows[k].Scanned?)
    ensures q.Rows? && r.Ok? && q.rows != [] ==> r.value == q.rows[|q.rows| - 1].row
    ensures q.Rows? && r.Err? ==> exists k :: (0 <= k < |q.rows| && q.rows[k] == ScanFailed(r.error)
      && forall j :: 0 <= j < k ==> q.rows[j].Scanned?)
  {
    match q
    case QueryFailed(e) => Err(e)
    case Rows(rows) => ScanRows(rows, ZeroGroup)
  }

  /** The rows a healthy engine returns for the lookup of `id`: the group with that id, if any. */
  function QueryById(db: Db, id: int): Query
  {
    Rows(if id in db.groups then [Scanned(db.groups[id])] else [])
  }
}
