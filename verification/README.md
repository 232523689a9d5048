# Plimsoll control plane: a verified model

Plimsoll's control plane keeps performance tests, script repositories, refresh tokens and target policies in PostgreSQL
tables under row-level security, and decides whether a test may run. This project models that logic in Dafny and proves
what the protocols keep. `dafny verify dfyconfig.toml` checks all of it.

Two kinds of model stand side by side. What one request does is written as the service writes it: classes whose fields
are the tables, methods that run the statements in order, loops where the service loops. Each is proved against a
function that says what the whole call comes to, and against what a caller is told and finds afterwards, case by case.
What concurrent requests do is a state machine whose steps are single SQL statements under READ COMMITTED: a transaction
sees the committed rows under its own writes (`Tables`), an UPDATE or a conflicting INSERT waits for the other
transaction, a rollback drops the writes. The theorems are about every run, and about what can stop one.

- `TestDocuments`, `TestStore`: one test as a document over three tables; creating, editing, archiving it.
- `EditProtocol`, `EditTheorems`, `EditOutcomes`, `EditReaders`: edits and archives of one test as concurrent
  transactions, why one is refused, and what a reader gets meanwhile.
- `RefreshTokens`, `RefreshService`: token families one call at a time, and the endpoint.
- `RefreshProtocol`, `RefreshAlone`, `RefreshTracking`, `RefreshRaces`, `RefreshRevocation`, `RefreshStragglers`: the
  same calls statement by statement in every interleaving; undisturbed ones, two rotations of one token, revocation, and
  rotations that come after it.
- `Paging`, `Base64Url`, `Json`, `Cursor`: keyset pages, and the opaque cursor as text.
- `Text`, `IpBlocks`, `AddressText`, `AddressForms`: texts, networks, and addresses as text both ways.
- `TargetPolicy`, `TargetMeaning`, `TargetSafety`: what an allowlist may say and what it then permits.
- `VariableScan`, `Jmx`, `Preflight`: reading a plan, and the six admission checks.
- `Verify`: the manifest search and the report on a checkout.
- `Pinning`, `PinTraces`, `PolicyVersions`: pinned versions and where their commits come from, numbered policies.
- `TenantScoping`, `TenantKeys`, `TenantSession`: policies, noninterference, unique keys, pooled connections.
- `Wrappers`, `Orders`, `StringOrder`, `Tables`: what the others share.

## Where the code and its documentation part

The model follows the code in each case.

- The documentation of token families promises that reusing a consumed token revokes the family. The endpoint re-raises
  the rejection inside the block whose exit it makes a rollback, so over every run of the endpoint no family is revoked and
  a replay leaves no trace (`RefreshService.EndpointNeverRevokes`, `RefreshService.RejectedRequestsLeaveNoTrace`;
  `RefreshService.TheftGoesUnpunished` for one). A replay revokes its family if and only if the transaction that rejects it
  commits (`RefreshTokens.ReplayRevokesExactly`; in every interleaving, `RefreshRevocation.RevokedExactly`).
- A revoked family is meant to be dead. It is for transactions one after another (`RefreshTokens.ReplayKillsFamily`).
  `replace_hash` does not look at `revoked_at` either, so a rotation goes through after the revocation is committed if and
  only if its SELECT had found the token good by then (`RefreshStragglers.RotatesRevokedExactly`;
  `RefreshStragglers.StragglerCanSucceed` for the states from which it happens,
  `RefreshStragglers.RotatesAfterRevocation` for one).
- A refresh token is said to be single-use. `replace_hash` does not compare the hash it replaces, so a token is used twice
  if and only if the SELECTs of two transactions both precede both commits (`RefreshRaces.UsedTwiceExactly`;
  `RefreshRaces.BothCanSucceed` for the races from which it happens, `RefreshRaces.TokenUsedTwice` for one). Transactions
  one after another keep the promise (`RefreshTokens.SingleUse`), and so does each transaction by itself
  (`RefreshRaces.OnceWithinOne`).
- Replacing the plans inside one transaction is meant to keep readers from an incomplete test. It does for each SELECT. Row,
  plans and rules are three SELECTs, and a reader gets one version if and only if plans and rules still say at theirs what
  they said at the first (`EditReaders.OneVersionExactly`). It is enough that no edit that replaces them commits in between
  (`EditReaders.UndisturbedReaderSeesOneVersion`); otherwise it can get a document that never was
  (`EditReaders.ReaderCanMix`).
- Loopback and link-local addresses are said to be refused at write time. Labels may be all digits, so `.0.0.1` is accepted
  as a suffix and permits `127.0.0.1` (`TargetSafety.LoopbackByItsTail`). An accepted list is safe if and only if no suffix
  in it is the tail of a dotted quad (`TargetSafety.AcceptedIsSafeExactly`, `TargetSafety.QuadTailsAreAccepted`). The
  metadata host is refused by name but permitted by `.internal` (`TargetSafety.MetadataByItsDomain`), and by one other
  suffix alone (`TargetSafety.MetadataPermittedExactly`).
- Preflight records resolved commits by repository name, which is not unique, so a report can be `ok` for a test whose plan
  is missing (`Preflight.MisjudgedReport`, `Preflight.TwoRefsMisjudged`). It is right for all contents if and only if the
  commits it fetches are the ones the refs name (`Preflight.RightExactly`). With distinct names they are, so `ok` holds
  if and only if the test is ready (`Preflight.DistinctNamesOkIsReady`).
- Pinning answers a repeated request with the row that is there. A request that loses the race to insert that row is rolled
  back by the unique key instead (`Pinning.LosesExactlyToARace`).

## Model

| member | source | states |
|---|---|---|
| `EditTheorems.Serializable` | apps/api/plimsoll_api/services/performance_tests.py:134-191 | Under every statement-level interleaving of edits and archives, with rollbacks anywhere, the committed row, plans and rules equal the committed programs run whole, one at a time; each committed write is logged exactly once |
| `EditTheorems.OneWriter` | apps/api/plimsoll_api/repositories/performance_tests.py:94-113 | From its guarded UPDATE to its commit a transaction is the only one that has written anything, so the order of the log is the order in which the row lock was taken |
| `EditTheorems.NoLostEdit` | apps/api/plimsoll_api/repositories/performance_tests.py:94-113 | The n-th committed edit expected exactly the version its predecessors left, and left the next one |
| `EditTheorems.OneWinnerPerVersion` | apps/api/plimsoll_api/services/performance_tests.py:151-157 | Expected versions of committed edits strictly increase, so of the edits racing on one version at most one commits |
| `EditTheorems.AuditTellsHistory` | apps/api/plimsoll_api/services/performance_tests.py:171-191 | Update audits are one for each version 2 to v in order; there is one deletion audit if and only if the test is archived |
| `EditTheorems.ReferencesExist` | apps/api/plimsoll_api/services/performance_tests.py:43-65 | Every committed document of every run refers only to pools and repositories that exist |
| `EditReaders.EveryReader` | apps/api/plimsoll_api/repositories/performance_tests.py:174-195 | In every run what a transaction has read is what was committed when its own SELECTs ran: the row at the first, all the plans in execution order at the second, all the rules in order of name at the third |
| `EditReaders.OneVersionExactly` | apps/api/plimsoll_api/repositories/performance_tests.py:1-5 | A reader gets row, plans and rules of one version if and only if the plans committed at its second SELECT say what those at its first said, and the rules at its third likewise |
| `EditReaders.UndisturbedReaderSeesOneVersion` | apps/api/plimsoll_api/services/performance_tests.py:127-131 | It does whenever no edit that replaces plans commits between the first SELECT and the second, and none that replaces rules between the first and the third |
| `EditReaders.ReaderCanMix` | apps/api/plimsoll_api/repositories/performance_tests.py:1-5 | A concrete run in which what a reader gets is of no version: the row of version 1 with the plans of version 2 |
| `EditTheorems.ReadsBackItsEdit` | apps/api/plimsoll_api/services/performance_tests.py:171-179 | Just before commit a transaction reads back its whole edit, and its commit makes exactly that public, with one audit row |
| `EditTheorems.HolderAdvances` | apps/api/plimsoll_api/repositories/performance_tests.py:116-171 | The holder of the row lock never waits: each of its statements lowers a measure, and it gives the lock up exactly when it ends |
| `EditTheorems.CreatedIsInit` | apps/api/plimsoll_api/services/performance_tests.py:94-124 | Creating a test through the service leaves the state the runs start from: version 1, references checked, one audit row |
| `EditProtocol.Reachable` | apps/api/plimsoll_api/services/performance_tests.py:134-191 | The invariant every step keeps: the progress of the lock holder, the checks behind it, the log and the audit trail |
| `EditProtocol.HolderCommitsAtomic` | apps/api/plimsoll_api/repositories/performance_tests.py:94-171 | What the holder has written when it reaches its end is its whole edit applied to the document its guard matched |
| `EditOutcomes.ProgramExactly` | apps/api/plimsoll_api/repositories/performance_tests.py:94-171 | What one committed program does, field by field: an edit of the current version changes what its body gives, leaves the rest and counts the version up, an archive sets the status; the audit row says which columns and which version |
| `EditOutcomes.EveryRefusalHasAReason` | apps/api/plimsoll_api/services/performance_tests.py:134-159 | In every run a transaction that was rolled back lost its connection, expected a version that was not the current one at its guarded UPDATE, or asked for something that had been missing since it began; an edit that was committed has written |
| `EditOutcomes.OnlyTheLockStops` | apps/api/plimsoll_api/repositories/performance_tests.py:94-171 | In every run a transaction waits only for the holder of the row lock: any other statement brings it nearer its end, and the last one commits |
| `TestDocuments.ChangesArePatch` | apps/api/plimsoll_api/services/performance_tests.py:146-151 | Collecting the updatable columns of the fields the client set and assigning them is the patch: absent fields stay, plans, rules and version never become columns |
| `TestDocuments.CollectChanges` | apps/api/plimsoll_api/services/performance_tests.py:146-149 | The loop over the dumped body returns the dictionary that function specifies |
| `TestStore.UpdateIsAtomic` | apps/api/plimsoll_api/services/performance_tests.py:134-179 | An update goes through if and only if nothing it asks for is missing and its version is current; then it is the whole edit with one audit row, otherwise nothing changes; other tests never change |
| `TestStore.UpdateExactly` | apps/api/plimsoll_api/services/performance_tests.py:134-179 | Every answer to an edit with its reason, and the new tables field by field: not found, validation with exactly the missing pool and repositories in order, conflict with the version expected, or the edited row, the given lists, the audited fields |
| `TestStore.CreateExactly` | apps/api/plimsoll_api/services/performance_tests.py:94-124 | The same for a creation: an unknown project, what is missing, or a draft at version 1 with the given lists |
| `TestStore.ArchiveExactly` | apps/api/plimsoll_api/services/performance_tests.py:182-191 | Archiving is refused only for a test that does not exist, and audited only when it changes the status |
| `TestStore.CreateIsInitial` | apps/api/plimsoll_api/services/performance_tests.py:94-124 | A created test is its document at version 1 beside all the others, with one audit row; a refused creation changes nothing |
| `TestStore.ArchiveIsAtomic` | apps/api/plimsoll_api/services/performance_tests.py:182-191 | Archiving sets the status and audits once; archiving again succeeds and changes nothing |
| `TestStore.ConsistencyKept` | apps/api/plimsoll_api/services/performance_tests.py:94-191 | None of the three calls leaves a document that refers to something that does not exist |
| `TestStore.OnlyGivenIsAtFault` | apps/api/plimsoll_api/services/performance_tests.py:139-144 | Checking the stored workload or plans beside the given ones never reports more than what the body itself asks for |
| `TestStore.MissingIsComplete` | apps/api/plimsoll_api/services/performance_tests.py:43-65 | Each repository that does not exist is reported as often as it was asked for, and no other is |
| `TestStore.TestTables.CheckReferences` | apps/api/plimsoll_api/services/performance_tests.py:43-65 | The accumulating loop returns exactly the problems of the workload and the plans |
| `TestStore.TestTables.PlansFor` | apps/api/plimsoll_api/repositories/performance_tests.py:174-183 | The rows of the test by ascending execution order, ties in any order, each row once |
| `TestStore.TestTables.UpdateDocument` | apps/api/plimsoll_api/repositories/performance_tests.py:94-113 | A row comes back exactly when id and version match; then the columns are assigned and the version goes up by one |
| `TestStore.TestTables.ReplacePlans` | apps/api/plimsoll_api/repositories/performance_tests.py:116-140 | DELETE and the inserting loop leave exactly the given plans for the test and every other row as it was |
| `TestStore.TestTables.ReplaceSlaRules` | apps/api/plimsoll_api/repositories/performance_tests.py:143-171 | The same for SLA rules |
| `TestStore.TestTables.WriteDocument` | apps/api/plimsoll_api/services/performance_tests.py:146-169 | Absent lists are left alone, empty ones clear; a stale version writes nothing |
| `TestStore.TestTables.Update` | apps/api/plimsoll_api/services/performance_tests.py:134-179 | Statement by statement: NotFound if and only if the test does not exist, ValidationFailed if and only if it does and what the body asks for is missing, Conflict if and only if nothing is missing and the version is not the stored one; otherwise the edit, its audit row and the whole document |
| `TestStore.TestTables.Create` | apps/api/plimsoll_api/services/performance_tests.py:94-124 | Statement by statement: which refusal and why, or the new test, its audit row and the whole document |
| `TestStore.TestTables.Archive` | apps/api/plimsoll_api/services/performance_tests.py:182-191 | Statement by statement: NotFound if and only if the test does not exist, otherwise archived, with an audit row if it was not |
| `RefreshTokens.SingleUse` | apps/api/plimsoll_api/services/refresh.py:40-57 | Over every serial run, a token rotates successfully at most once |
| `RefreshTokens.RotationExactly` | apps/api/plimsoll_api/services/refresh.py:40-57 | Each answer of a rotation with its reason and all it writes: no live family, revoked, expired at or after the expiry, a new token seen before, or the next token with owner, organisation and expiry unchanged; only the first writes a revocation |
| `RefreshTokens.LoginExactly` | apps/api/plimsoll_api/services/refresh.py:31-37 | A login is refused for a family or token seen before or another organisation, and else leaves exactly one family and one history row |
| `RefreshTokens.ChainIsTheLogin` | apps/api/plimsoll_api/services/refresh.py:31-57 | Along a chain user and organisation are those of the login, and no rotation succeeds at or after the expiry the login set |
| `RefreshTokens.EveryFamilyWasIssued` | apps/api/plimsoll_api/services/refresh.py:31-37 | Every family goes back to a successful login earlier in the run |
| `RefreshTokens.ReplayRevokes` | apps/api/plimsoll_api/repositories/refresh_tokens.py:63-71 | Presenting a consumed token in its organisation revokes its family and leaves every other family and the history as they were |
| `RefreshTokens.ReplayKillsFamily` | apps/api/plimsoll_api/services/refresh.py:44-47 | Once such a rejection has committed no token of that family ever rotates again |
| `RefreshTokens.RollbackVanishes` | apps/api/plimsoll_api/db/session.py:51-57 | Running transactions of which some roll back leaves the store of the committed calls alone |
| `RefreshTokens.ReplayRevokesExactly` | apps/api/plimsoll_api/services/refresh.py:44-47 | Of a transaction with a replay anywhere among its calls, the revocation remains if and only if the transaction commits |
| `RefreshTokens.OneLiveFamily` | apps/api/plimsoll_api/repositories/refresh_tokens.py:35-44 | The SELECT by live hash has at most one row in a scope, and it is the family the history names |
| `RefreshTokens.LookupIsDetermined` | apps/api/plimsoll_api/migrations/versions/0005_refresh_lookup.py:28-36 | All candidates of the UNION ALL agree on the organisation, and there is one exactly for the hashes ever issued |
| `RefreshTokens.RunKeeps` | apps/api/plimsoll_api/services/refresh.py:31-57 | Across any stretch of a run: login data constant, revocations kept, history kept, consumed tokens stay consumed |
| `RefreshProtocol.EveryInterleaving` | apps/api/plimsoll_api/services/refresh.py:31-57 | In every committed state of every interleaving each live hash is in history under its family and organisation and no hash is two families'; revocation is never cleared and no consumed token becomes live again |
| `RefreshProtocol.LookupWheneverItRuns` | apps/api/plimsoll_api/migrations/versions/0005_refresh_lookup.py:28-36 | The lookup has one possible answer for a hash, and the same one at any later time |
| `RefreshProtocol.CommitKeeps` | apps/api/plimsoll_api/repositories/refresh_tokens.py:56-95 | A commit keeps the structure and the promises every other open transaction depends on |
| `RefreshAlone.EveryScheduleAsSerial` | apps/api/plimsoll_api/services/refresh.py:31-57 | While nobody else has written anything, whatever the schedule of the statements of a login or rotation, and whatever the clock says at each, a call that ends has come to exactly the answer and the store of the call taken whole at one of those times |
| `RefreshAlone.CallAsSerial` | apps/api/plimsoll_api/services/refresh.py:31-57 | And at every time there is a schedule that ends it |
| `RefreshRaces.UsedTwiceExactly` | apps/api/plimsoll_api/services/refresh.py:40-57 | In every run, two committed transactions both rotated one token if and only if there was a moment when both SELECTs had found it good and neither transaction had ended |
| `RefreshRaces.OnceWithinOne` | apps/api/plimsoll_api/services/refresh.py:40-57 | No transaction rotates one token twice, in any run |
| `RefreshRaces.BothCanSucceed` | apps/api/plimsoll_api/repositories/refresh_tokens.py:56-60 | From every reachable state with such a moment both transactions can be answered a new token and commit, as long as their new tokens are unseen and different |
| `RefreshRaces.TokenUsedTwice` | apps/api/plimsoll_api/repositories/refresh_tokens.py:56-60 | A concrete run in which two rotations of one token succeed |
| `RefreshService.EndpointNeverRevokes` | apps/api/plimsoll_api/routers/auth.py:63-69 | Over every run of logins and requests to the endpoint, from empty tables, no family is ever revoked |
| `RefreshService.RequestExactly` | apps/api/plimsoll_api/routers/auth.py:49-79 | Each outcome of a request to the endpoint with its reason and the tables it leaves; tokens go only to a user who still has a profile |
| `RefreshService.TurnedAwayExactly` | apps/api/plimsoll_api/routers/auth.py:49-79 | A request is turned away if and only if it presents no live token of a family neither revoked nor expired |
| `RefreshService.RejectedRequestsLeaveNoTrace` | apps/api/plimsoll_api/routers/auth.py:63-69 | Leaving the rejected requests out of a run, replays among them, changes no other answer and not the final tables |
| `RefreshRevocation.NeverRevokedUnlessRejectionCommits` | apps/api/plimsoll_api/services/refresh.py:44-47 | In every interleaving in which each transaction that rejected a replay is rolled back no family is ever revoked |
| `RefreshRevocation.CommittedRejectionRevokes` | apps/api/plimsoll_api/repositories/refresh_tokens.py:63-71 | In every interleaving, once the statement that rejects a replay of a family's token has gone through, the transaction holds the revocation until it ends, and if it commits the family stays revoked for the rest of the run |
| `RefreshRevocation.RevokedExactly` | apps/api/plimsoll_api/services/refresh.py:44-47 | At the end of every run from tables with no revocation, a family is revoked if and only if some committed transaction rejected a replay of one of its tokens |
| `RefreshStragglers.RotatesRevokedExactly` | apps/api/plimsoll_api/services/refresh.py:40-57 | From a committed revocation on, in every run, a call of a transaction that commits rotates a token of the family if and only if it had done so by then, or its SELECT had found the token good by then |
| `RefreshStragglers.StragglerCanSucceed` | apps/api/plimsoll_api/repositories/refresh_tokens.py:56-60 | From every reachable state a call whose SELECT is behind it can be answered a new token and commit, with every revocation left in place, as long as that token is unseen |
| `RefreshStragglers.RotatesAfterRevocation` | apps/api/plimsoll_api/repositories/refresh_tokens.py:56-60 | A concrete run in which a family is revoked and one of its tokens rotates afterwards |
| `RefreshService.TheftGoesUnpunished` | apps/api/plimsoll_api/db/models/platform.py:151-153 | A concrete run: login, refresh, replay of the first token, and the family goes on |
| `RefreshService.RefreshTables.IssueFamily` | apps/api/plimsoll_api/services/refresh.py:31-37 | Two inserts under the policy and the primary keys are the login that the serial results are about |
| `RefreshService.RefreshTables.RotateToken` | apps/api/plimsoll_api/services/refresh.py:40-57 | The sequence of statements answers and writes exactly that, case by case |
| `RefreshService.RefreshTables.ReplaceHash` | apps/api/plimsoll_api/repositories/refresh_tokens.py:56-60 | By family id under the policy, whatever hash was there |
| `RefreshService.RefreshTables.RevokeFamilyContaining` | apps/api/plimsoll_api/repositories/refresh_tokens.py:63-71 | The family history knows the hash under, if the scope sees both rows; nothing otherwise |
| `RefreshService.RefreshTables.AuthOrgForRefresh` | apps/api/plimsoll_api/migrations/versions/0005_refresh_lookup.py:28-36 | Whichever row LIMIT 1 keeps, the answer is the organisation in history |
| `RefreshService.RefreshTables.RefreshRequest` | apps/api/plimsoll_api/routers/auth.py:49-79 | Lookup, rotation, and a rollback when the rejection leaves the block, give exactly that outcome and those tables |
| `Paging.FetchIsTop` | apps/api/plimsoll_api/pagination.py:32-52 | A page is the top of what lies below the cursor; there is a next cursor exactly when there is more, it is the last row shown, and page plus rest below it is the whole |
| `Paging.PageExactly` | apps/api/plimsoll_api/pagination.py:32-52 | A page row by row, for every limit: at most that many of the rows older than the cursor, the newest of them, newest first by time and then id, all of them if there are fewer; a cursor at the last row exactly when there are more |
| `Paging.WalkDescends` | apps/api/plimsoll_api/pagination.py:45-52 | With any inserts and deletes between fetches, rows arrive in strictly descending (timestamp, id) order |
| `Paging.WalkNeverRepeats` | apps/api/plimsoll_api/pagination.py:45-52 | No row is shown twice |
| `Paging.WalkMissesNothing` | apps/api/plimsoll_api/repositories/projects.py:69-89 | A row whose key is in the table at every fetch of a walk that reaches null is shown, even if its contents change between fetches |
| `Paging.RowsBelowCursorShrink` | apps/api/plimsoll_api/repositories/projects.py:69-89 | The rows below the cursor strictly decrease, the measure by which a walk over a fixed table ends |
| `Paging.FixedTableWalk` | apps/api/plimsoll_api/repositories/script_versions.py:68-89 | On a fixed table the walk reaches null and its pages concatenate to the sorted table |
| `StringOrder.StringBeforeExactly` | packages/contracts/python/plimsoll_contracts/pagination.py:18 | Sorted means: at the first place where two strings differ the earlier one has the smaller character, or has ended |
| `Cursor.CursorRoundTrip` | packages/contracts/python/plimsoll_contracts/pagination.py:17-31 | Decoding an encoded cursor gives the payload back, for every map of strings to strings |
| `Cursor.CursorInjective` | packages/contracts/python/plimsoll_contracts/pagination.py:17-19 | Different payloads have different cursors |
| `Cursor.PositionSurvives` | apps/api/plimsoll_api/pagination.py:22-29 | The position read from a cursor is the one it was made from |
| `Cursor.PositionExactly` | apps/api/plimsoll_api/pagination.py:22-29 | No cursor starts from the top; any other has to decode to a time under at and an identifier under id, and one that does not is refused |
| `Cursor.RespondExactly` | apps/api/plimsoll_api/pagination.py:22-52 | A request with such a cursor gets the page after its position and the text of the next; with any other it gets no page |
| `Cursor.CursorText` | packages/contracts/python/plimsoll_contracts/pagination.py:17-19 | The text that is encoded is the object of the two members, time first, with no spaces |
| `Cursor.FollowIsWalk` | apps/api/plimsoll_api/pagination.py:22-52 | A client following cursor texts sees exactly the walk over positions and is never refused |
| `Base64Url.RoundTrip` | packages/contracts/python/plimsoll_contracts/pagination.py:17-25 | Stripping padding and restoring -len % 4 signs is exact for every byte string; the length is never 1 mod 4 (sections 3.2 and 5 of RFC 4648) |
| `Base64Url.GroupIsNumber` | packages/contracts/python/plimsoll_contracts/pagination.py:17-19 | Three bytes and their four symbols spell one number, highest part first |
| `Base64Url.AlphabetIs` | packages/contracts/python/plimsoll_contracts/pagination.py:17-19 | The 64 symbols are those of table 2 of RFC 4648 |
| `Base64Url.ValueExactly` | packages/contracts/python/plimsoll_contracts/pagination.py:22-25 | Reading takes those symbols, and plus and slash for the last two |
| `Base64Url.Vectors` | packages/contracts/python/plimsoll_contracts/pagination.py:17-19 | Test vectors of section 10 of RFC 4648, one for each length modulo three |
| `Base64Url.DecodesExactly` | packages/contracts/python/plimsoll_contracts/pagination.py:22-25 | Which texts without padding decode: foreign characters are passed over but count for the padding put back, and a group begun needs two symbols and its padding |
| `Json.LoadsDumps` | packages/contracts/python/plimsoll_contracts/pagination.py:18-26 | Printing with sorted keys and escapes, surrogate pairs included, then parsing gives the map back (section 7 of RFC 8259) |
| `IpBlocks.OverlapIsNesting` | apps/api/plimsoll_api/services/target_policy.py:69-75 | Two blocks overlap exactly when they share an address, exactly when one contains the other |
| `IpBlocks.MaskIsRange` | apps/api/plimsoll_api/services/target_policy.py:104-108 | Masked membership is a contiguous range of addresses (section 3.1 of RFC 4632) |
| `TargetPolicy.ShortPrefixOverlaps` | apps/api/plimsoll_api/services/target_policy.py:71-74 | A network of prefix length 0 or 1 overlaps a blocked one, so the explicit zero-length check is implied |
| `TargetSafety.AcceptedPrefixAtLeastTwo` | apps/api/plimsoll_api/services/target_policy.py:69-75 | Every accepted CIDR entry, IPv4 or IPv6, has prefix length at least 2 |
| `TargetPolicy.ValidateEntries` | apps/api/plimsoll_api/services/target_policy.py:63-89 | The loop accepts exactly the lists all of whose entries are acceptable, and otherwise names the first that is not and why |
| `TargetMeaning.VerdictExactly` | apps/api/plimsoll_api/services/target_policy.py:63-89 | The first thing wrong with an entry, or nothing, in terms of the text: padding, a network with a loopback or link-local address in it, a path, two names, such an address, or no host name |
| `TargetMeaning.HostnameIsText` | apps/api/plimsoll_api/services/target_policy.py:24 | Being made of labels is a rule on single characters: a letter or digit at both ends and beside every dot, never 64 characters without a dot |
| `TargetMeaning.OverlapExactly` | apps/api/plimsoll_api/services/target_policy.py:28-33 | A network is refused for its range if and only if it contains an address from 127.0.0.0 to 127.255.255.255, 169.254.0.0 to 169.254.255.255, ::1, or fe80:: to just below fec0:: |
| `TargetPolicy.MatchesAllowlist` | apps/api/plimsoll_api/services/target_policy.py:92-115 | The loop with its early exit answers whether some entry admits the host: a network the texts of its addresses, a suffix the names whose labels end in its own, anything else itself |
| `TargetPolicy.NetworkPermits` | apps/api/plimsoll_api/services/target_policy.py:104-108 | An entry that reads as a network permits exactly the texts that read as an address of its family from its base up to its base plus its size |
| `TargetPolicy.NamePermits` | apps/api/plimsoll_api/services/target_policy.py:109-114 | An entry that is neither network nor suffix permits exactly the host equal to it but for case and padding |
| `TargetMeaning.EachAddressPermitted` | apps/api/plimsoll_api/services/target_policy.py:104-108 | A network entry permits each of its addresses, as a text that reads as that address |
| `AddressForms.QuadExactly` | apps/api/plimsoll_api/services/target_policy.py:55-60 | An IPv4 address has exactly one text, four numbers without leading zeros, highest first |
| `AddressForms.SixReads` | apps/api/plimsoll_api/services/target_policy.py:55-60 | Every IPv6 address is read from its eight groups (section 2.2 of RFC 4291) |
| `AddressForms.ElisionFills` | apps/api/plimsoll_api/services/target_policy.py:55-60 | A double colon stands for as many zero groups as are missing |
| `AddressForms.QuadAtEnd` | apps/api/plimsoll_api/services/target_policy.py:55-60 | A dotted quad in the last place stands for its two groups |
| `AddressForms.QuadBlock` | apps/api/plimsoll_api/services/target_policy.py:45-52 | An IPv4 address with a prefix length reads as the network of that length it lies in, host bits dropped |
| `AddressForms.SixBlock` | apps/api/plimsoll_api/services/target_policy.py:45-52 | The same for IPv6 |
| `AddressForms.MaskLengths` | apps/api/plimsoll_api/services/target_policy.py:45-52 | A netmask or a host mask stands for its prefix length |
| `TargetPolicy.PermitsDependsOnRules` | apps/api/plimsoll_api/services/target_policy.py:98-115 | Only the set of normalised rules matters: order, repetition, case and padding do not, and more rules permit more |
| `Text.DomainIsLabels` | apps/api/plimsoll_api/services/target_policy.py:109-112 | Equal to the suffix or ending in a dot and the suffix, exactly when the suffix's labels are a list-suffix of the host's (section 2.3.1 of RFC 1035) |
| `Text.StripExactly` | apps/api/plimsoll_api/services/target_policy.py:65 | Stripping removes the white characters at both ends and nothing else |
| `Text.LowerExactly` | apps/api/plimsoll_api/services/target_policy.py:65 | Lower case maps each letter of the one alphabet to its letter of the other and nothing else |
| `TargetSafety.NamedSuffixesAreSafe` | apps/api/plimsoll_api/services/target_policy.py:63-115 | Accepted lists whose suffixes end in a label that is not all digits permit no loopback or link-local address and not localhost |
| `TargetSafety.AcceptedIsSafeExactly` | apps/api/plimsoll_api/services/target_policy.py:24-34 | An accepted list permits no blocked host if and only if no suffix entry is the tail of a dotted quad |
| `TargetSafety.QuadTailsAreAccepted` | apps/api/plimsoll_api/services/target_policy.py:77-89 | Every tail of a dotted quad is accepted as a suffix, and then permits a blocked host |
| `TargetSafety.LoopbackByItsTail` | apps/api/plimsoll_api/services/target_policy.py:77-89 | .0.0.1 is accepted and permits 127.0.0.1 |
| `TargetSafety.MetadataPermittedExactly` | apps/api/plimsoll_api/services/target_policy.py:34 | The metadata name is permitted by an accepted list if and only if it has one of the two suffixes above that name |
| `TargetSafety.MetadataByItsDomain` | apps/api/plimsoll_api/services/target_policy.py:77-89 | .internal is accepted and permits the metadata name, which is itself refused |
| `VariableScan.MatchesNeverOverlap` | apps/api/plimsoll_api/plans/jmx.py:15-16 | No occurrence of a variable starts inside another |
| `VariableScan.FindVariables` | apps/api/plimsoll_api/plans/jmx.py:116 | The left-to-right scan returns exactly the names written between dollar-brace and brace anywhere in the text: letters, digits and underscores, no digit first, not two underscores first |
| `Jmx.ParsePlan` | apps/api/plimsoll_api/plans/jmx.py:35-119 | In terms of the classes, names and properties of the document: each sampler's target takes scheme, host and port from the sampler if it gives them, else from the nearest defaults before it that name a domain, else http, no target, no port; the last defaults give one more; each once, by host and port; with the names, files and variables, sorted |
| `Jmx.DescribesDocument` | apps/api/plimsoll_api/plans/jmx.py:71-119 | Whatever the pass builds for its elements says that of the document |
| `Jmx.KindsExclude` | apps/api/plimsoll_api/plans/jmx.py:71-107 | The branches on the test class exclude one another |
| `Jmx.DescribesUpToTies` | apps/api/plimsoll_api/plans/jmx.py:109-119 | Two readings of one plan differ at most in the order of targets that tie |
| `Preflight.Run` | apps/api/plimsoll_api/services/preflight.py:154-204 | The six checks in their order, each with the condition under which it passes, fails or is skipped, and exactly which refs, variables and hosts it names; ok means all six passed |
| `Preflight.AllowedExactly` | apps/api/plimsoll_api/services/preflight.py:98-139 | A host that is one reference is judged by what its variable holds, and never allowed if it holds nothing; one with a reference and more never; any other as it stands |
| `Preflight.ReferenceReaches` | apps/api/plimsoll_api/services/preflight.py:98-103 | The host that refers to a name, padded or not, is allowed if and only if the name is stored and the list permits what it holds |
| `Preflight.OkIsReady` | apps/api/plimsoll_api/services/preflight.py:61-204 | With the fetches that should be made, ok holds if and only if the test is ready: users sum and fit, every ref resolves, every plan parses, variables stored, a non-empty set of hosts all permitted |
| `Preflight.RightExactly` | apps/api/plimsoll_api/services/preflight.py:158-166 | For requests that otherwise pass, the report is right for all contents of the commits if and only if the fetches it makes are the ones it should make |
| `Preflight.DistinctNamesOkIsReady` | apps/api/plimsoll_api/services/preflight.py:154-204 | With pairwise distinct repository names the report is ok if and only if the test is ready, for every Git and every request, unresolved refs included |
| `Preflight.DistinctNamesAgree` | apps/api/plimsoll_api/services/preflight.py:158-166 | Distinct names resolve alike and make the fetches the ones that should be made, whether every ref resolves or not |
| `Preflight.TwoRefsDisagree` | apps/api/plimsoll_api/services/preflight.py:158-166 | One name listed with two refs that resolve differently is not: the first ref's commit should be fetched and is not |
| `Preflight.TwoRefsMisjudged` | apps/api/plimsoll_api/services/preflight.py:158-166 | Whenever such a test otherwise passes, contents exist for which the report is ok and the test is not ready, because the first plan is missing at the commit of its ref |
| `Preflight.MisjudgedReport` | apps/api/plimsoll_api/services/preflight.py:158-166 | A concrete Git and test for which the report is wrong |
| `Preflight.OrderDoesNotMatter` | apps/api/plimsoll_api/services/preflight.py:154-204 | Statuses are invariant under permuting the plans |
| `Preflight.JudgeHosts` | apps/api/plimsoll_api/services/preflight.py:113-139 | Every host is judged and the ones named are exactly those that reach nothing permitted, variables by what they hold |
| `Preflight.VariablesCheck` | apps/api/plimsoll_api/services/preflight.py:74-95 | What is missing is exactly the sorted set of referenced names that are not stored |
| `Preflight.PlanChecks` | apps/api/plimsoll_api/services/preflight.py:154-204 | Later checks are skipped exactly when a ref did not resolve or a plan did not parse |
| `Verify.FindManifest` | apps/api/plimsoll_api/services/verify.py:42-51 | The upward loop terminates and returns the nearest manifest |
| `Verify.NearestInside` | apps/api/plimsoll_api/services/verify.py:42-51 | Inside the root that is the deepest manifest between root and plan, and none is missed |
| `Verify.NearestOutside` | apps/api/plimsoll_api/services/verify.py:42-51 | For a plan path outside the root only its own directory is looked at |
| `Verify.LocatesOnce` | apps/api/plimsoll_api/services/verify.py:44 | A path names the pieces between its slashes that are neither empty nor a dot, below the directory or from the root |
| `Verify.ManifestFindings` | apps/api/plimsoll_api/services/verify.py:87-134 | The findings are, in order and with the names they list, the faults of the first entry with the file name of the plan, files looked up from the directory of the plan: declared and absent, read and neither declared nor there, variables not declared |
| `Verify.Run` | apps/api/plimsoll_api/services/verify.py:137-194 | The whole report: which findings in which order, the summary, the plugins of the manifest; ok if and only if the checkout conforms, if and only if no finding is an error |
| `Verify.ConformingPlanIsComplete` | apps/api/plimsoll_api/services/verify.py:87-134 | With a manifest and an ok report every data file the plan reads is present and every variable it references is declared |
| `Pinning.AtMostOneRow` | apps/api/plimsoll_api/routers/script_repos.py:187-220 | Under every interleaving there is at most one row per repository, commit and plan path |
| `Pinning.RepeatsReturnThatRow` | apps/api/plimsoll_api/routers/script_repos.py:193-199 | Two answers about one key name one unchanged row, and at most one of them created it |
| `Pinning.AuditsCountRows` | apps/api/plimsoll_api/routers/script_repos.py:210-217 | There is exactly one pinned-audit row for each version row |
| `Pinning.LosesExactlyToARace` | apps/api/plimsoll_api/routers/script_repos.py:193-209 | A request that resolved, parsed and found no row fails on the unique key if and only if another request for the key committed between its SELECT and its INSERT |
| `Pinning.AnswersNameRows` | apps/api/plimsoll_api/routers/script_repos.py:193-220 | Every answer names a committed row of the repository asked about |
| `Pinning.StoredSummaryIsThePlans` | apps/api/plimsoll_api/routers/script_repos.py:153-173 | The summary rebuilt from the stored metadata is what parsing the plan at that commit gives, up to the order of targets that tie |
| `Pinning.SummaryComesBack` | apps/api/plimsoll_api/services/script_versions.py:26-37 | The response built from stored metadata is the summary that was stored |
| `Pinning.MetadataStores` | apps/api/plimsoll_api/services/script_versions.py:26-37 | The stored metadata key by key, with each target as an object of its three fields |
| `Pinning.Reachable` | apps/api/plimsoll_api/routers/script_repos.py:181-220 | Unique keys, truthful rows, one audit each, and committed rows never change |
| `Pinning.PinTables.ResolveForPin` | apps/api/plimsoll_api/services/script_versions.py:40-69 | The ref of this moment and the plan at its commit, or the failure of whichever step failed |
| `Pinning.PinTables.PinVersion` | apps/api/plimsoll_api/routers/script_repos.py:181-220 | The commit is that of the ref asked for if one was given and is not empty, else of the default ref; which failure and why, or the one row for that repository, commit and path, new exactly when there was none, with the checksum and summary of the plan |
| `PinTraces.PinnedWhatWasAsked` | apps/api/plimsoll_api/routers/script_repos.py:187-199 | In every interleaving the row a request is answered with is at the commit that the ref it asked for, or else the default ref when it looked, resolved to when it asked Git, and at the plan path of that moment |
| `PinTraces.EveryFailureHasAReason` | apps/api/plimsoll_api/routers/script_repos.py:181-220 | In every run a request that was rolled back lost its connection, named no repository, came to no plan, or lost a race for its key |
| `PinTraces.StatementAdvances` | apps/api/plimsoll_api/routers/script_repos.py:181-220 | A request waits only while another holds its key; otherwise each statement brings it nearer its answer |
| `PolicyVersions.HistoryIsDenseAndImmutable` | apps/api/plimsoll_api/repositories/target_policy.py:22-47 | With replacements racing, each organisation's versions are 1 to n without a gap, every stored list passes validation, and no version changes once committed |
| `PolicyVersions.CurrentIsTheLast` | apps/api/plimsoll_api/repositories/target_policy.py:11-19 | The current policy is the version numbered by the count of versions, and there is one exactly when there is any |
| `PolicyVersions.CommitKeeps` | apps/api/plimsoll_api/db/models/platform.py:129 | What commits is always exactly the next version and never an existing one |
| `PolicyVersions.EveryRefusalHasAReason` | apps/api/plimsoll_api/services/target_policy.py:122-140 | In every run a replacement that was rolled back lost its connection, had an entry that is refused, or lost its number to another |
| `PolicyVersions.StatementAdvances` | apps/api/plimsoll_api/repositories/target_policy.py:22-47 | A replacement waits only while another holds its number; otherwise each statement brings it nearer its commit |
| `PolicyVersions.PolicyTable.Replace` | apps/api/plimsoll_api/services/target_policy.py:122-140 | A valid list becomes the current version, numbered one above the greatest, with one audit row; a refused list changes nothing and names its first bad entry and why |
| `TenantScoping.Noninterference` | apps/api/plimsoll_api/db/session.py:43-57 | Two databases that agree on an organisation's rows answer its transactions alike and go on agreeing, whatever the others do in either, for every schedule over pooled connections |
| `TenantScoping.AsIfAlone` | apps/api/plimsoll_api/migrations/versions/0003_row_level_security.py:43-53 | All an organisation is answered and leaves behind is what it would get with its rows alone and nobody else there |
| `TenantScoping.OtherRowsStay` | apps/api/plimsoll_api/migrations/versions/0003_row_level_security.py:43-53 | Nothing an organisation's transactions do changes, adds or removes another organisation's row |
| `TenantScoping.OthersUntouched` | apps/api/plimsoll_api/migrations/versions/0003_row_level_security.py:43-53 | One step of another organisation changes no row, no transaction and no answer of this one |
| `TenantScoping.ViewIsOwn` | apps/api/plimsoll_api/migrations/versions/0003_row_level_security.py:43 | A bound transaction sees all of its organisation's rows under its own writes and no other; an unbound one sees none |
| `TenantScoping.WriteTakesEffect` | apps/api/plimsoll_api/migrations/versions/0003_row_level_security.py:46-53 | An UPDATE or DELETE that goes through rewrites exactly the rows it saw; a refused or waiting one changes nothing it sees |
| `TenantScoping.InsertTakesEffect` | apps/api/plimsoll_api/migrations/versions/0003_row_level_security.py:46-53 | An INSERT that goes through adds its row, and only a row of the transaction's organisation goes through |
| `TenantScoping.CommitPublishesView` | apps/api/plimsoll_api/db/session.py:51-57 | Commit publishes exactly what the transaction saw of its organisation; an exception or a refused statement publishes nothing |
| `TenantScoping.FreshTransactionSeesNothing` | apps/api/plimsoll_api/db/session.py:44-57 | A pooled connection carries no organisation into its next transaction |
| `TenantKeys.KeysStayUnique` | apps/api/plimsoll_api/db/models/projects.py:25 | Whatever the organisations' transactions do and however they interleave, no organisation ever has two committed rows with one key, although each statement checks before it commits |
| `TenantSession.Connection.SessionForOrg` | apps/api/plimsoll_api/db/session.py:43-57 | Opening a transaction is the Begin step of TenantScoping, and Bind unless the request is anonymous; it then sees exactly the organisation's rows, or none |
| `TenantSession.Connection.BindSessionToOrg` | apps/api/plimsoll_api/db/session.py:29-40 | Binding in mid-transaction is the Bind step |
| `TenantSession.Connection.Select` | apps/api/plimsoll_api/migrations/versions/0003_row_level_security.py:43-53 | A SELECT is the Read step and answers with exactly the organisation's rows under the transaction's writes, or nothing after a refused statement |
| `TenantSession.Connection.Insert` | apps/api/plimsoll_api/migrations/versions/0003_row_level_security.py:46-53 | An INSERT is the Insert step: it goes in if and only if the organisation is set, the row is of it and no row has its key; otherwise it is refused, and the transaction with it |
| `TenantSession.Connection.Update` | apps/api/plimsoll_api/migrations/versions/0003_row_level_security.py:46-53 | An UPDATE by id is the Write step: nothing for a row it does not see or leaves as it is, refused for another organisation or a taken key, else that one row |
| `TenantSession.Connection.Close` | apps/api/plimsoll_api/db/session.py:51-57 | Leaving the block is the End step: an exception leaves every row as it was, and either way the connection names no organisation any more |

## Left out

- Cursor.DecodeCursor: cursors whose JSON holds anything but strings, or bytes outside ASCII, count as malformed; the
  server makes none of these, and `position_from` refuses most of them.
- TargetSafety.NamedSuffixesAreSafe: IPv6 zone identifiers and characters outside ASCII are outside the modelled input, as is Unicode case and whitespace.
- AddressForms.SixReads: which texts are no IPv6 address is what `AddressText` says; it is not stated a second way.
- Cursor.CursorRoundTrip: which JSON texts are refused is what `Json` says; only what is printed is proved to be read.
- Jmx.ParsePlan: starts from the elements of a parsed XML document, each with its two attributes and `stringProp` children; XML parsing and its errors are not modelled.
- Verify.Run: starts from a checkout as functions (which paths are files, what a manifest holds); YAML parsing, plug-ins beyond their listing and message texts are not modelled.
- Preflight.Run: texts of details are reduced to the names they list.
- TestStore.TestTables.Update: one transaction at a time, with fresh ids from `uuid4` as a precondition here and in `Create`; concurrency is in `EditProtocol`. The response holds plans and rules as tables, not as ordered lists; timestamps are left out.
- EditTheorems.Serializable: one test; the read-back for the response is no step of its own, `EditTheorems.ReadsBackItsEdit` says what it finds; an explicit JSON null for a field counts as absent.
- RefreshProtocol.EveryInterleaving: a transaction ends on any refused statement; deletion of users, which cascades to families, is not modelled.
- RefreshTokens.SingleUse: SHA-256 is taken to be injective; that new tokens are new is not assumed, a repeated one is refused by the primary key.
- EditReaders.EveryReader: `ORDER BY name` compares code points, not by the database's collation.
- Pinning.PinTables.PinVersion: Git is a pair of functions, ref to commit at this moment and content at a commit for ever; the repository's own visibility and credentials are left out.
- TenantScoping.Noninterference: one table with a unique key that includes the organisation and fresh ids; foreign keys, `organizations` and `project_members` with their own predicates, and the pre-authentication lookups are left out.
- Deadlocks between rows of different tests, lock timeouts and serialization failures of other isolation levels.
- Routing, cookies, error envelopes, permissions, plain CRUD of projects, pools and credentials: each is settled by one branch.
- Password hashing, token signing and credential encryption.
- The run state machine and metrics merging, which the repository only describes.
