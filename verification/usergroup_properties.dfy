/**
 Properties that relate several calls of the user-group repository: what a
 creation leaves behind, which operations undo each other, and what the
 lookup reads back.
 */
module UserGroupProperties {
  import opened Outcomes
  import opened Store
  import opened UserGroupRepo

  /**
   A creation is all or nothing: whatever fails, the committed store is
   either untouched or holds both the new group and its creator's admin
   membership, never one without the other.
   */
  lemma CreationIsAtomic(db: Db, ug: UserGroup, userId: int, newId: int, faults: TxFaults)
    ensures var c := CreateGroupWithUsers(db, ug, userId, newId, faults);
      || (c.db == db && c.ret == IdReturn(0, c.ret.err) && c.ret.err.Some? && c.tx != Committed)
      || (&& c.db.groups == db.groups[newId := ug.(groupId := newId)]
          && c.db.members == db.members[MemberKey(newId, userId) := AdminRole]
          && c.ret == IdReturn(newId, None))
  {
  }

  /** No group becomes visible without an administrator: every group a creation adds has one. */
  lemma CreatedGroupHasAdmin(db: Db, ug: UserGroup, userId: int, newId: int, faults: TxFaults)
    ensures var c := CreateGroupWithUsers(db, ug, userId, newId, faults);
      forall id :: id in c.db.groups && id !in db.groups ==> HasAdmin(c.db, id)
  {
  }

  /**
   Without failures, the transactional creation ends in the same store as
   the three separate calls it replaces: create the group, add the creator
   as a member, promote the creator to admin.
   */
  lemma CreationMatchesSeparateCalls(db: Db, ug: UserGroup, userId: int, newId: int)
    requires newId !in db.groups && MemberKey(newId, userId) !in db.members
    ensures var created := CreateGroup(db, ug, newId, None);
      var joined := InsertUserGroupUserTable(created.db, newId, userId, None);
      var promoted := UpdateUserRoleInGroup(joined.db, newId, userId, AdminRole, Clean);
      && created.ret == IdReturn(newId, None) && joined.err.None? && promoted.err.None?
      && CreateGroupWithUsers(db, ug, userId, newId, NoFaults) == Creation(IdReturn(newId, None), promoted.db, Committed)
  {
  }

  /** Adding a new member and then removing it restores the store, and the removal prints nothing. */
  lemma InsertThenRemoveRestores(db: Db, groupId: int, userId: int)
    requires MemberKey(groupId, userId) !in db.members
    ensures var added := InsertUserGroupUserTable(db, groupId, userId, None);
      added.err.None? && RemoveUserFromUserGroup(added.db, groupId, userId, Clean) == Removal(None, db, None)
  {
  }

  /** Setting a member's role and then setting it back restores the store; both calls succeed. */
  lemma UpdateRoleUndo(db: Db, groupId: int, userId: int, role: string)
    requires MemberKey(groupId, userId) in db.members
    ensures var oldRole := db.members[MemberKey(groupId, userId)];
      var changed := UpdateUserRoleInGroup(db, groupId, userId, role, Clean);
      && changed.err.None?
      && changed.db.members[MemberKey(groupId, userId)] == role
      && UpdateUserRoleInGroup(changed.db, groupId, userId, oldRole, Clean) == Mutation(None, db)
  {
  }

  /** A second delete of the same group is a detected no-op: an error, and the store stays as the first left it. */
  lemma DeleteTwiceIsDetected(db: Db, groupId: int)
    requires groupId in db.groups
    ensures var first := DeleteUserGroup(db, groupId, Clean);
      && first.err.None?
      && DeleteUserGroup(first.db, groupId, Clean) == Mutation(Some(NoGroupRemoved), first.db)
  {
  }

  /**
   Nothing guards the last administrator: when the store held no admin
   membership for the new id, removing the creator of a freshly created group
   succeeds silently and leaves the group without one.
   */
  lemma RemoveCanLeaveGroupWithoutAdmin(db: Db, ug: UserGroup, userId: int, newId: int)
    requires CreateGroupWithUsers(db, ug, userId, newId, NoFaults).ret.err.None?
    requires !HasAdmin(db, newId)
    ensures var c := CreateGroupWithUsers(db, ug, userId, newId, NoFaults);
      var removed := RemoveUserFromUserGroup(c.db, newId, userId, Clean);
      && HasAdmin(c.db, newId)
      && removed.err.None? && removed.printed.None?
      && newId in removed.db.groups && !HasAdmin(removed.db, newId)
  {
    var c := CreateGroupWithUsers(db, ug, userId, newId, NoFaults);
    assert MemberKey(newId, userId) in c.db.members;
  }

  /** Looking a group up through a healthy engine returns the stored group, or the zero group when there is none. */
  lemma GetByIdReadsStore(db: Db, id: int)
    requires WellFormed(db)
    ensures var r := GetById(QueryById(db, id));
      && r.Ok?
      && (id in db.groups ==> r.value == db.groups[id] && r.value.groupId == id)
      && (id !in db.groups ==> r.value == ZeroGroup)
  {
  }

  /** Right after a successful creation, looking up the returned id yields the new group under that id. */
  lemma GetByIdAfterCreation(db: Db, ug: UserGroup, userId: int, newId: int, faults: TxFaults)
    requires CreateGroupWithUsers(db, ug, userId, newId, faults).ret.err.None?
    ensures var c := CreateGroupWithUsers(db, ug, userId, newId, faults);
      GetById(QueryById(c.db, c.ret.id)) == Ok(ug.(groupId := newId))
  {
  }

  /** Every mutating operation keeps each group stored under its own id. */
  lemma OperationsPreserveWellFormed(
    db: Db, ug: UserGroup, groupId: int, userId: int, newId: int, role: string,
    fault: Option<Error>, exec: ExecFault, faults: TxFaults)
    requires WellFormed(db)
    ensures WellFormed(CreateGroup(db, ug, newId, fault).db)
    ensures WellFormed(CreateGroupWithUsers(db, ug, userId, newId, faults).db)
    ensures WellFormed(InsertUserGroupUserTable(db, groupId, userId, fault).db)
    ensures WellFormed(RemoveUserFromUserGroup(db, groupId, userId, exec).db)
    ensures WellFormed(UpdateUserRoleInGroup(db, groupId, userId, role, exec).db)
    ensures WellFormed(DeleteUserGroup(db, groupId, exec).db)
  {
  }

  /**
   A caller can still recognise the engine's error behind every failure: each
   wrapping method's error unwraps to the engine's error, and through
   `errors.Is` it is every error the engine's error is.
   */
  lemma EngineErrorsStayDetectable(
    db: Db, ug: UserGroup, groupId: int, userId: int, newId: int, role: string, f: Error, target: Error)
    requires Is(f, target)
    ensures var r := CreateGroup(db, ug, newId, Some(f)).ret.err;
      r.Some? && Unwrap(r.value) == Some(f) && Is(r.value, target)
    ensures var r := CreateGroupWithUsers(db, ug, userId, newId, TxFaults(None, Some(f), None, None)).ret.err;
      r.Some? && Unwrap(r.value) == Some(f) && Is(r.value, target)
    ensures var r := InsertUserGroupUserTable(db, groupId, userId, Some(f)).err;
      r.Some? && Unwrap(r.value) == Some(f) && Is(r.value, target)
    ensures var r := RemoveUserFromUserGroup(db, groupId, userId, ExecFails(f)).err;
      r.Some? && Unwrap(r.value) == Some(f) && Is(r.value, target)
    ensures var r := UpdateUserRoleInGroup(db, groupId, userId, role, ExecFails(f)).err;
      r.Some? && Unwrap(r.value) == Some(f) && Is(r.value, target)
    ensures var r := DeleteUserGroup(db, groupId, ExecFails(f)).err;
      r.Some? && Unwrap(r.value) == Some(f) && Is(r.value, target)
  {
  }
}
