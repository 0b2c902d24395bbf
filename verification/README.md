# Task construction and user-group repository, modelled in Dafny

This project models the two pieces of the task-management API service that carry decisions of their own.

- **Task construction** (`CreateTask`). A name that is blank after trimming is refused. A name longer than 255 bytes before trimming is refused. The priority is normalised into low / medium / high / urgent. The task is built with trimmed text and fixed defaults. The fresh UUID and the wall-clock instant are parameters.
- **The user-group repository** (`UserGroupRepo`). It creates a group together with its creator's admin membership in one transaction. It adds, removes and re-roles members, deletes groups, and looks a group up by id. The database is abstract: a map of groups by id and a map of roles by (group, user). Each SQL statement is a function of that store. Whether the engine fails a statement is an input, and so is the id it assigns to a new group. Each operation returns what the Go method returns, plus the committed store afterwards.

Modules:

- `Outcomes` (`outcomes.dfy`): Go errors. A plain message, or a prefix wrapped around a cause with `%w`. Also `errors.Unwrap`, a by-value `errors.Is`, `Option` and `Result`.
- `GoStrings` (`gostrings.dfy`): `strings.TrimSpace` over `unicode.IsSpace`, `strings.ToLower`, and `len` as the UTF-8 byte length.
- `TaskModel` (`task.dfy`): the `Task` record, priority normalisation and `CreateTask`.
- `Store` (`store.dfy`): the group and membership tables, and one function per SQL statement.
- `UserGroupRepo` (`usergroup_repository.dfy`): the repository methods.
- `UserGroupProperties` (`usergroup_properties.dfy`): properties that relate several calls.

The SQL text of the user-group statements is not part of this model. The store therefore assumes the following:
- groups are keyed by id;
- a (group, user) pair has at most one membership;
- an insert over a taken key is refused;
- a targeted update or delete touches at most one row.

The source reads the affected-row count with its error discarded (`n, _ := result.RowsAffected()`). The model therefore has a third engine outcome beside success and failure: the statement ran, but its count was lost and reads as 0. In that case `UpdateUserRoleInGroup` and `DeleteUserGroup` report "nothing found" although the row was changed, and `RemoveUserFromUserGroup` prints its notice although the membership is gone.

The role written when a user joins an existing group is taken to be `"member"`. The role written for a group's creator is taken to be `"admin"`.

The code makes these choices, and the model keeps them:
- roles are not validated;
- removing a membership that does not exist succeeds and only prints a notice;
- nothing stops the last admin of a group from being removed;
- looking up a missing group returns a zero-valued group and no error.

## Model

| member | source | states |
|---|---|---|
| GoStrings.TrimSpace | internal/task/model/task.go:27-29 | The trimmed string is empty exactly when every character of the input is white space, which is the blank-name test. Otherwise it starts and ends with a non-space character. |
| GoStrings.SkipSpaces | internal/task/model/task.go:27 | The forward scan stops at the first character that is not white space, or at the end. Everything it passed over is white space. |
| GoStrings.SkipSpacesBack | internal/task/model/task.go:27 | The backward scan never goes below its lower bound. It stops just past the last character that is not white space, or at the lower bound. Everything it passed over is white space. |
| GoStrings.TrimSpaceIsSlice | internal/task/model/task.go:53-54 | What trimming keeps is one contiguous slice of the input. Everything before and after it is white space. |
| GoStrings.TrimSpaceOfTrimmed | internal/task/model/task.go:53-54 | A string with no white space at either end, including the empty string, is left unchanged by trimming. |
| GoStrings.TrimSpaceIdempotent | internal/task/model/task.go:53-54 | Trimming an already trimmed string changes nothing. |
| GoStrings.TrimSpaceByteLen | internal/task/model/task.go:31-33 | Trimming never makes a string longer in bytes. |
| GoStrings.ToLower | internal/task/model/task.go:43-46 | The result has the input's length and no upper-case ASCII letter. Each upper-case ASCII letter becomes its lower-case form. U+0130 becomes `i` and U+212A becomes `k`. Every other character, including every lower-case letter, is kept. |
| GoStrings.ToLowerIdempotent | internal/task/model/task.go:43-46 | Lower-casing twice is the same as lower-casing once. |
| GoStrings.ByteLen | internal/task/model/task.go:31 | Go's `len` on a string is its UTF-8 byte count. It lies between the character count and four times it. |
| GoStrings.ByteLenAscii | internal/task/model/task.go:31 | For ASCII text the byte count equals the character count. |
| GoStrings.ByteLenTwoByte | internal/task/model/task.go:31 | Text made only of characters from U+0080 to U+07FF, such as accented Latin letters, takes exactly two bytes per character. |
| GoStrings.ByteLenSuffix | internal/task/model/task.go:31 | Dropping characters from the front never adds bytes. |
| GoStrings.ByteLenPrefix | internal/task/model/task.go:31 | Dropping characters from the back never adds bytes. |
| GoStrings.ByteLenSlice | internal/task/model/task.go:31 | A slice of a string never has more bytes than the whole string. |
| TaskModel.NormalizePriority | internal/task/model/task.go:36-47 | The stored priority is always one of low, medium, high, urgent. If the lower-cased input is one of them, it is stored. Otherwise, including for the empty string, "medium" is stored. |
| TaskModel.ValidPrioritiesAreLowerCase | internal/task/model/task.go:36-41 | Each valid priority is its own lower-case form. |
| TaskModel.NormalizePriorityIdempotent | internal/task/model/task.go:43-47 | Normalising the stored priority again yields the same priority. |
| TaskModel.NormalizePriorityIgnoresCase | internal/task/model/task.go:43-46 | A priority and its lower-cased form normalise to the same value, so "URGENT" is stored as "urgent". |
| TaskModel.CreateTask | internal/task/model/task.go:25-66 | A blank name gives "task name cannot be empty", and this check comes first. Otherwise, an untrimmed name over 255 bytes gives "task name cannot exceed 255 characters". Creation succeeds exactly in the remaining cases. On success the task has the fresh id, the trimmed name and description, the target date and category unchanged, an empty type, both flags false, `now` as both its creation and update time, and the normalised priority. |
| TaskModel.CreatedTaskName | internal/task/model/task.go:27-33 | A created task's name is non-empty, has no white space at either end, and is at most 255 bytes. |
| TaskModel.CreateTaskRoundTrip | internal/task/model/task.go:25-66 | Passing a created task's own fields back to `CreateTask`, with the same id and clock, rebuilds exactly that task. |
| TaskModel.CreateTaskRefusedExamples | internal/task/model/task_test.go:29-58 | The empty name, the three-space name and the 256-letter name of the table tests are refused with the tested messages. |
| TaskModel.CreateTaskAcceptsLongestName | internal/task/model/task.go:31-33 | The limit is inclusive: a name of 255 ASCII letters is accepted. |
| TaskModel.CreateTaskCountsBytes | internal/task/model/task.go:31-33 | The limit counts bytes, not characters. A name of 200 copies of U+00E9 has 400 bytes and is refused, although the message speaks of 255 characters. |
| TaskModel.NormalizePriorityExamples | internal/task/model/task_test.go:9-94 | "invalid" and "" become "medium". "LOW" becomes "low". "URGENT" becomes "urgent". "high" is kept. |
| TaskModel.PriorityValidationExamples | internal/task/model/task_test.go:188-205 | Each of low, medium, high and urgent, in lower or upper case, is stored as its lower-case form. |
| Outcomes.IsTransitive | internal/usergroup/repository/usergroup_repository.go:96-162 | `errors.Is` follows whole chains of `%w` wrapping: an error that is some error `mid` is also every error that `mid` is. |
| UserGroupRepo.CreateGroup | internal/usergroup/repository/usergroup_repository.go:92-100 | Succeeds exactly when the engine does not fail the insert and the id is free. On success it returns the assigned id and the store gains that group under that id. On failure it returns id 0 with the store error wrapped in "unable to insert into usergroup table", and the store is unchanged. |
| UserGroupRepo.CreateGroupWithUsers | internal/usergroup/repository/usergroup_repository.go:101-125 | It returns an error exactly when the transaction is not committed. On error the id is 0 and the store is unchanged. A failed begin returns its own error without a transaction. A failed group insert is wrapped, including the refusal of a taken group id. A failed admin insert or commit is returned as is, including the refusal of a taken admin membership. Success requires every step to succeed and both keys to be free. On success it returns the assigned id, and the store gains exactly the group and the creator's admin membership. |
| UserGroupRepo.InsertUserGroupUserTable | internal/usergroup/repository/usergroup_repository.go:127-133 | Succeeds exactly when the engine does not fail and the pair is not yet a member. On success the store gains exactly that membership. Any failure is wrapped in "unable to insert into usergroup_user table" and leaves the store unchanged. |
| UserGroupRepo.RemoveUserFromUserGroup | internal/usergroup/repository/usergroup_repository.go:135-145 | Only a failing statement is an error: it is wrapped and the store is unchanged. Otherwise the call succeeds and the membership is gone. It prints "none of the data has been removed" exactly when no row was reported, either because there was no such membership or because the count was lost. |
| UserGroupRepo.UpdateUserRoleInGroup | internal/usergroup/repository/usergroup_repository.go:147-157 | A failing statement is wrapped and leaves the store unchanged. A missing membership gives "no user found in the specified group to update role" and leaves the store unchanged. Success happens exactly when the membership exists and the count is reported. The new role may be any string and replaces only that membership's role. |
| UserGroupRepo.DeleteUserGroup | internal/usergroup/repository/usergroup_repository.go:159-169 | A failing statement is wrapped and leaves the store unchanged. A missing group gives "none of the usergroup has been removed" and leaves the store unchanged. Success happens exactly when the group exists and the count is reported. Otherwise only that group row is gone. |
| UserGroupRepo.ScanRows | internal/usergroup/repository/usergroup_repository.go:62-68 | The scan loop succeeds exactly when every row scans. It then yields the last row, or the initial zero group when there are no rows. Otherwise it yields the error of the first row that fails. |
| UserGroupRepo.GetById | internal/usergroup/repository/usergroup_repository.go:55-70 | A failed query returns its error. No rows gives the zero group with no error. Several rows give the last one. A row that fails to scan gives that row's error. |
| UserGroupProperties.CreationIsAtomic | internal/usergroup/repository/usergroup_repository.go:101-124 | Whatever fails, the committed store is either unchanged, with id 0 and an error, or holds both the new group and its admin membership, with the new id. |
| UserGroupProperties.CreatedGroupHasAdmin | internal/usergroup/repository/usergroup_repository.go:111-124 | Every group that a creation adds to the committed store has an admin member. |
| UserGroupProperties.CreationMatchesSeparateCalls | internal/usergroup/repository/usergroup_repository.go:92-157 | When nothing fails, the transaction ends in the same store as three separate calls: create the group, add the creator, promote the creator to admin. |
| UserGroupProperties.InsertThenRemoveRestores | internal/usergroup/repository/usergroup_repository.go:127-145 | Adding a new member and then removing it restores the store exactly, and the removal prints nothing. |
| UserGroupProperties.UpdateRoleUndo | internal/usergroup/repository/usergroup_repository.go:147-157 | Setting a member's role and then setting the old role back restores the store, and both calls succeed. |
| UserGroupProperties.DeleteTwiceIsDetected | internal/usergroup/repository/usergroup_repository.go:159-169 | A second delete of the same group is reported as "none of the usergroup has been removed" and changes nothing. |
| UserGroupProperties.RemoveCanLeaveGroupWithoutAdmin | internal/usergroup/repository/usergroup_repository.go:135-145 | When the store holds no other admin membership for the new id, removing the creator of a freshly created group succeeds without notice and leaves the group, which still exists, with no admin. |
| UserGroupProperties.GetByIdReadsStore | internal/usergroup/repository/usergroup_repository.go:55-70 | Over a healthy engine, and when every group is stored under its own id, the lookup returns the stored group with the requested id, or the zero group when there is none. It never fails. |
| UserGroupProperties.GetByIdAfterCreation | internal/usergroup/repository/usergroup_repository.go:55-70 | Right after a successful creation, looking up the returned id yields the new group carrying that id. |
| UserGroupProperties.EngineErrorsStayDetectable | internal/usergroup/repository/usergroup_repository.go:92-163 | When the engine fails a statement, every method that wraps the error returns one that unwraps to the engine's error. Through `errors.Is` it is also every error the engine's error is. This covers `CreateGroup`, the group insert of `CreateGroupWithUsers`, `InsertUserGroupUserTable`, `RemoveUserFromUserGroup`, `UpdateUserRoleInGroup` and `DeleteUserGroup`. |
| UserGroupProperties.OperationsPreserveWellFormed | internal/usergroup/repository/usergroup_repository.go:92-169 | Every mutating operation keeps each group stored under its own id, whatever the engine does. |

## Left out

- GoStrings.ToLower: only maps the characters whose lower case is ASCII: A-Z, U+0130 to `i` and U+212A to `k`. Every other character is left unchanged, although Go would lower it to a non-ASCII character. No valid priority contains such a character, so the priority decision is the same as Go's.
- Errors are compared by value. Go's `errors.Is` compares each error on the chain with `==`, which for `errors.New` and `fmt.Errorf` values is pointer identity. Two separately created errors with the same text are therefore equal in the model but different in Go.
- Go strings may hold invalid UTF-8. Dafny strings cannot, so `ByteLen` counts the UTF-8 encoding of valid text only.
- The UUID generator and `time.Now().UTC()` are parameters (`freshId`, `now`). Time zones are not modelled, and an instant is opaque.
- `GetAllUsergroups` and `GetUserGroupsByUserId` are not modelled. They are list queries that scan every returned row and make no decision of their own.
- `scanRowsIntoUsergroup` maps columns to fields, and that mapping is not modelled. Each row's scan outcome is an input to `GetById`.
- `GetById` never calls `rows.Err()`. An iteration error that ends the row stream early is therefore not reported. The model treats such a stream as a shorter `Rows` input, so `GetById` returns the last group scanned before the error, or the zero group, with no error.
- The 5-second context timeouts, `rows.Close` and `NewUserGroupRepository` are left out. They are resource plumbing with no effect on results.
- The errors returned by `tx.Rollback` are ignored by the source, and the model ignores them too. Rollback always discards the transaction's work.
- The SQL text, foreign keys, cascading deletes and the `joined_at` column are not modelled. Deleting a group leaves its memberships in the model's store.
- Concurrency and transaction isolation between callers are left out. Each operation runs alone against the committed store.
- The user repository, its SQL constants and the route DTOs are left out. They are lookups, text and plain records with no decisions.
