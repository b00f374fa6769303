# Snowplane, verified

Snowplane is a Kubernetes operator that manages Snowflake objects through custom resources.  This
project models its hardest logic in Dafny and proves what holds over all inputs and all runs:

- `ReconcileProtocol.dfy`: create, adopt, recover, observe and delete, as a state machine over the
  persisted writes of one resource, with a crash possible between any two of them.
- `OwnershipLabels.dfy`: several resources that name one Snowflake object, racing for its label or
  passing it by through observe-only.
- `CircuitBreaker.dfy`, `ClientFactory.dfy`: the per-provider breaker and the client cache with its
  LRU order, as objects and over whole histories of interleaved calls.
- `GrantTarget.dfy`, `GrantDecode.dfy`, `Privileges.dfy`, `Arrows.dfy`, `RoleGrants.dfy`,
  `ShareGrants.dfy`, `Ownership.dfy`: grant targets, the names grants report, their admission rules, and what stays fixed over their life.
- `Lifecycle.dfy`, `ExternalTables.dfy`: an admitted create followed by any admitted updates, and the
  two shapes of immutability rule.
- `ProviderPolicy.dfy`, `TokenPath.dfy`: provider validation against the CEL rules, token file
  confinement, and the four allowlist searches.
- `SensitivePaths.dfy`, `Flags.dfy`, `ResourceMonitor.dfy`, `CommonSpec.dfy`: what exported status
  fields carry and their guard, list flags and controller registration, and the remaining validators.
- `SqlText.dfy`, `SqlSplit.dfy`: escaping and quoting, sorted header clauses, and splitting a script
  into statements, each against Snowflake's reading of the text.
- `Strings.dfy`: splitting, joining, trimming and case.

`dafny verify dfyconfig.toml` checks everything.  The clock, the jitter, map iteration order, the
outcome of every Snowflake or API server call, and the moment of a crash are parameters or free
choices of a run.

## What the proofs found

- docs/architecture.md:163 says the creation-initiated annotation is removed after the status is
  committed; internal/controller/reconciler/reconciler.go:801-816 removes it before.  The model has
  both orders.  With the documented one every run stays recoverable and a crash is always repaired
  (`StatusFirstAlwaysRecoverable`, `CrashThenConverges`).  With the order of the code an abort
  between the two patches loses the object, and only there (`AbortConvergesIff`, `CreateLost`);
  under fail-if-exists no retry ever gets it back (`LostForever`).
- Deleting a resource drops whatever carries its name, even an object it had refused to adopt
  (`DeleteDropsForeignIff`, `RefusedThenDeletedDropsForeign`).
- An annotation left by a failed create, or a period of observe-only, makes the resource manage an
  object that somebody else created although adoption was not asked for (`TakeoverIffInitiated`,
  `ObservedThenManaged`).
- A DROP answered with "does not exist or not authorized" counts as success, and an unresolvable
  provider releases the resource; both leave the object behind (`LeaksIff`, `NoLeak`).
- The ownership check is not atomic with the stamp, and two paths pass it by, observe-only and an
  adoption that fails to hash its spec: an object has as many managers as resources are between the
  two calls together, plus all that took one of the paths (`ManagersBound`, `ManagersReached`,
  `LateManagerIff`).
- The client cache releases its lock while connecting: it holds up to `maxSize - 1` clients plus one
  per overlapping call (`SizeBound`, `SizeBoundReached`), and a call can be handed a client opened
  for another configuration (`WrongHashIff`, `WrongHashReached`).  A shutdown does not wait for calls in
  flight, whose clients then stay open (`OpenAfterShutdown`).
- The rule that compares old and new only when both are present lets a field take any value in two
  updates (`WeakConnects`, `ExternalTables.ReachableIff`).
- A schema object with an explicit empty name is admitted and reported as `ON <unknown>`
  (`UnknownIff`).  Names spelled `(ref: x)` and share or object names that contain an arrow make two
  different grants report one name (`AmbiguousCollides`, `HiddenArrowCollides` of both modules).
- Header values are escaped on the way into SQL text, header names are not, and nothing restricts
  them: the clauses read back if and only if every name is a word (`HeadersReadBackIff`), and all take
  effect if and only if names equal up to case have equal values (`HeadersEffectiveIff`).
- The statement splitter does not know backslash escapes, which its comment does not list among its
  limitations: it executes Snowflake's statements if and only if no semicolon comes after an odd
  number of backslash-escaped quotes (`SplitStatements`, `EscapedQuoteCuts`).
- An empty authentication type passes the provider validation with nothing else about it checked
  (`RulesAgreeIff`, `EmptyTypeAccepted`); the API server's enum keeps it out.  A secret reference
  without a name passes Go and not the API server (`BlankSecretAccepted`).
- The guard on exported fields lets an object be exported that holds a registered field
  (`ConfigMapExportIff`, `UserShowOutputPasses`), and the entry "*" that api/v1alpha1/sensitive_paths.go:14 describes is never
  looked up (`WildcardIgnored`).

## Model

| member | source | states |
|---|---|---|
| `ReconcileProtocol.ConsistentRun` | internal/controller/reconciler/reconciler.go:511-606 | in every run, crashes included, observing, creating, updating, dropping and committing the observed generation happen only under the finalizer, the CREATE of a create only under the annotation, an update and its CREATE OR ALTER only on a reported resource, DROP only on a deleting one |
| `ReconcileProtocol.ObjectChanges` | internal/controller/reconciler/reconciler.go:486-606 | no action of the controller changes the object but a CREATE on an absent one and a DROP |
| `ReconcileProtocol.CreateOrAlterEnsures` | internal/controller/reconciler/reconciler.go:919-935 | CREATE OR ALTER makes sure the object exists, keeps one that does, and the update goes on to its commit |
| `ReconcileProtocol.MarkedBeforeCreate` | internal/controller/reconciler/reconciler.go:674-706 | a create is marked first, and a create that is marked already is issued at once |
| `ReconcileProtocol.HashFailsCommits` | internal/controller/reconciler/reconciler.go:1476-1492 | a spec that cannot be hashed ends the reconcile with the status committed and the annotation as it was |
| `ReconcileProtocol.DeletionGuarded` | internal/controller/reconciler/reconciler.go:511-518 | a deletion removes the resource at once exactly when the finalizer is missing |
| `ReconcileProtocol.GoneStays` | internal/controller/reconciler/reconciler.go:309-315 | once the resource has been removed, no step touches it or brings it back |
| `ReconcileProtocol.StatusFirstAlwaysRecoverable` | docs/architecture.md:156-163 | with the documented order of the last two patches, in every run an own object is always marked or reported |
| `ReconcileProtocol.AnnotationFirstKeeps` | internal/controller/reconciler/reconciler.go:801-816 | with the order of the code, the same holds outside the window between the two patches as long as nothing aborts inside it |
| `ReconcileProtocol.AbortRecoverableIff` | internal/controller/reconciler/reconciler.go:801-816 | at any point of any such run, a crash or failed patch is recoverable if and only if the worker is not inside that window with its own object in place |
| `ReconcileProtocol.CreateLost` | internal/controller/reconciler/reconciler.go:665-819 | a first create that dies between its last two patches reaches the lost state |
| `ReconcileProtocol.FinishIsRun` | internal/controller/reconciler/reconciler.go:249-607 | a fault-free reconcile is one of the runs of the machine |
| `ReconcileProtocol.ReconcileManaged` | internal/controller/reconciler/reconciler.go:511-606 | what one fault-free reconcile does to a managed resource: finalizer first, then create when absent, report when marked or already reported, refuse otherwise |
| `ReconcileProtocol.ReconcileSettles` | internal/controller/reconciler/reconciler.go:249-607 | from every state between reconciles, under all switches and in either patch order, one fault-free reconcile ends in the state described outright: left alone, let go, guarded, reported, created, recovered, adopted or refused |
| `ReconcileProtocol.AdoptsIff` | internal/controller/reconciler/reconciler.go:1071-1151 | an unmarked, unreported resource takes on a foreign object if and only if the policy says adopt, leaving object and annotation as they are |
| `ReconcileProtocol.PausedRests` | internal/controller/reconciler/reconciler.go:321-330 | a paused resource is not touched |
| `ReconcileProtocol.FailureStops` | internal/controller/reconciler/reconciler.go:361-606 | an operation that fails has no effect and ends the reconcile, except for an unresolvable provider on a deletion |
| `ReconcileProtocol.ConvergesIffRecoverable` | internal/controller/reconciler/reconciler.go:584-606 | from any consistent state with no foreign object, two fault-free reconciles end with the own object reported if and only if the state is recoverable |
| `ReconcileProtocol.CrashThenConverges` | docs/architecture.md:229-237 | with the documented order, after any run, a crash and two fault-free reconciles end with the own object reported |
| `ReconcileProtocol.AbortConvergesIff` | internal/controller/reconciler/reconciler.go:801-816 | with the order of the code, after any run that lost nothing, an abort and two fault-free reconciles end with the own object reported if and only if the abort was not between the two patches with that object in place |
| `ReconcileProtocol.LostForever` | internal/controller/reconciler/reconciler.go:1071-1095 | a lost object stays lost under every run of the controller, retries and crashes included |
| `ReconcileProtocol.TakeoverIffInitiated` | internal/controller/reconciler/reconciler.go:1023-1066 | under fail-if-exists a foreign object is taken over if and only if the annotation is set |
| `ReconcileProtocol.ObservedThenManaged` | internal/controller/reconciler/reconciler.go:1284-1311 | observe-only reports a foreign object, and switching to management then manages it |
| `ReconcileProtocol.NoTakeover` | internal/controller/reconciler/reconciler.go:1071-1095 | if adoption and observe-only stay off and nobody creates the object behind a claim, no run reports a foreign object |
| `ReconcileProtocol.DeleteDropsForeignIff` | internal/controller/reconciler/reconciler.go:1164-1279 | a deletion drops a foreign object if and only if the policy neither pauses nor spares it |
| `ReconcileProtocol.RefusedThenDeletedDropsForeign` | internal/controller/reconciler/reconciler.go:1164-1279 | a resource refused because the object existed drops that object when deleted |
| `ReconcileProtocol.NoLeak` | internal/controller/reconciler/reconciler.go:1164-1279 | in every run without the listed escapes, a resource that is gone leaves no object of its own |
| `ReconcileProtocol.LeaksIff` | internal/controller/reconciler/reconciler.go:361-383 | letting the resource go leaks its object exactly for an ambiguous DROP or an unresolvable provider |
| `ReconcileProtocol.ObserveOnlyNeverWrites` | internal/controller/reconciler/reconciler.go:1284-1311 | while observe-only, in every run the object changes only by the outside world |
| `OwnershipLabels.ManagersBound` | internal/controller/reconciler/ownership.go:52-97 | in every interleaving, an object has at most as many managers as resources were between check and stamp together, plus those that reported it without a label, from observe-only or from an adoption that failed after its status was committed |
| `OwnershipLabels.CheckIff` | internal/controller/reconciler/ownership.go:52-97 | the check clears a resource if and only if no other carries the label |
| `OwnershipLabels.RemovalFrees` | internal/controller/reconciler/ownership.go:52-97 | when the only labelled resource is removed, another passes the check, stamps and manages, which it could not before |
| `OwnershipLabels.ManagersReached` | internal/controller/reconciler/reconciler.go:1105-1148 | for every set of resources that check together, every set whose adoptions fail after the commit and every set that observes, some run makes exactly all of them managers |
| `OwnershipLabels.LateManagerIff` | internal/controller/reconciler/reconciler.go:1284-1311 | while a labelled manager stays, a resource not cleared before it never gets the label, and becomes a manager exactly when its own history reports under observe-only and leaves observe-only |
| `OwnershipLabels.NoLateManager` | internal/controller/reconciler/ownership.go:71-94 | so one that is never switched to observe-only never becomes a manager, in any run |
| `CircuitBreaker.Normalize` | internal/circuitbreaker/breaker.go:105-132 | the options in use are well formed, and well-formed ones are kept |
| `CircuitBreaker.Defaults` | internal/circuitbreaker/breaker.go:105-132 | what is not positive becomes five failures, a minute, a quarter of an hour, half a minute, and the maximum is never below the reset timeout |
| `CircuitBreaker.Breaker.constructor` | internal/circuitbreaker/breaker.go:105-132 | a new breaker has normalised options and no providers |
| `CircuitBreaker.Breaker.GetOrCreate` | internal/circuitbreaker/breaker.go:263-272 | returns the entry of the provider or stores a fresh one, changing no other |
| `CircuitBreaker.Breaker.Allow` | internal/circuitbreaker/breaker.go:136-173 | admits and updates exactly as the step function says, for this provider only |
| `CircuitBreaker.Breaker.RecordSuccess` | internal/circuitbreaker/breaker.go:177-187 | closes this provider's breaker and resets its backoff |
| `CircuitBreaker.Breaker.RecordFailure` | internal/circuitbreaker/breaker.go:192-219 | counts, trips at the threshold, and backs off after a failed probe, for this provider only |
| `CircuitBreaker.Breaker.State` | internal/circuitbreaker/breaker.go:222-235 | reads closed exactly when closed, and an open breaker reads half-open exactly when the next call would pass |
| `CircuitBreaker.Breaker.Reset` | internal/circuitbreaker/breaker.go:250-255 | forgets this provider and nothing else |
| `CircuitBreaker.InvariantRun` | internal/circuitbreaker/breaker.go:136-219 | after every history: closed iff below the threshold, probing iff half-open, timeout between the two limits |
| `CircuitBreaker.ClosedIffFewFailures` | internal/circuitbreaker/breaker.go:136-255 | after every history the breaker is closed if and only if fewer than threshold failures came since the last success or reset |
| `CircuitBreaker.AllowIff` | internal/circuitbreaker/breaker.go:136-173 | a call passes if and only if the breaker is closed or its barrier is reached |
| `CircuitBreaker.ProbesSpaced` | internal/circuitbreaker/breaker.go:136-173 | over any outage the admitted calls are pairwise at least rank times min(probe timeout, reset timeout) apart |
| `CircuitBreaker.TrippedBlocks` | internal/circuitbreaker/breaker.go:192-219 | a failure that leaves the breaker tripped blocks every call for at least the reset timeout from then on, until a success or reset |
| `CircuitBreaker.BackoffGrows` | internal/circuitbreaker/breaker.go:192-219 | after k failed probes the timeout is capped or has grown by at least (8/5)^k, and at most by (12/5)^k, whatever the jitter |
| `CircuitBreaker.ProvidersIndependent` | internal/circuitbreaker/breaker.go:263-272 | however calls interleave, each provider's breaker is the one its own calls alone would give |
| `ClientFactory.Factory.constructor` | internal/clients/clientfactory/factory.go:96-107 | starts empty with the given limits |
| `ClientFactory.Factory.TryGetCached` | internal/clients/clientfactory/factory.go:184-207 | the fast path: a hit with equal hash and unexpired entry is touched and returned |
| `ClientFactory.Factory.BeginCreate` | internal/clients/clientfactory/factory.go:213-251 | the first locked section: a hit, or a stale client closed and room made |
| `ClientFactory.Factory.InsertCreated` | internal/clients/clientfactory/factory.go:259-285 | the second locked section: insert, or close the duplicate and return the cached one |
| `ClientFactory.Factory.CloseAndRemove` | internal/clients/clientfactory/factory.go:229-239 | closes and forgets one client, keeping map and list in step |
| `ClientFactory.Factory.Promote` | internal/clients/clientfactory/factory.go:203-206 | stamps the access and moves the provider to the most recently used end |
| `ClientFactory.Factory.EvictLRU` | internal/clients/clientfactory/factory.go:243-300 | makes room in a full cache by dropping the front of the list |
| `ClientFactory.Factory.EvictProvider` | internal/clients/clientfactory/factory.go:316-328 | closes and forgets the client of a provider, if any |
| `ClientFactory.Factory.Close` | internal/clients/clientfactory/factory.go:346-357 | closes every cached client, in any map order, and empties the cache |
| `ClientFactory.ClientsConserved` | internal/clients/clientfactory/factory.go:159-357 | in every interleaving, every client opened is cached under one provider or closed, never both |
| `ClientFactory.OpenAreCached` | internal/clients/clientfactory/factory.go:159-357 | after every run exactly the cached clients are open, one per cached provider |
| `ClientFactory.OpenAfterShutdown` | internal/clients/clientfactory/factory.go:346-357 | once the calls in flight at a shutdown are through, as many clients stay open as providers were connected by them, so none exactly when none was |
| `ClientFactory.OrderedRun` | internal/clients/clientfactory/factory.go:184-300 | in every interleaving, map and list agree and the list is in order of last access |
| `ClientFactory.EvictsLeastRecentlyUsed` | internal/clients/clientfactory/factory.go:213-300 | after every run, a client that a call for another provider evicts is one of the others unused for longest, also when a stale client was dropped first |
| `ClientFactory.SizeBound` | internal/clients/clientfactory/factory.go:243-283 | the cache never exceeds maxSize - 1 plus the number of overlapping calls |
| `ClientFactory.SizeBoundReached` | internal/clients/clientfactory/factory.go:243-283 | for every limit and every overlap some run reaches that bound |
| `ClientFactory.OwnClientReturned` | internal/clients/clientfactory/factory.go:259-285 | while no two configurations of a provider connect at once, a call gets the client it opened under the hash it asked for |
| `ClientFactory.WrongHashIff` | internal/clients/clientfactory/factory.go:264-273 | a call is handed a client of another hash exactly when its slot was filled under another hash meanwhile |
| `ClientFactory.WrongHashReached` | internal/clients/clientfactory/factory.go:264-273 | a run in which a call for the new configuration is handed the client of the old one |
| `ClientFactory.ReturnedOpen` | internal/clients/clientfactory/factory.go:159-286 | after every run, the client any call is handed is cached and open at that moment |
| `ClientFactory.HitIff` | internal/clients/clientfactory/factory.go:184-226 | after every run, a call that does not connect gets a client if and only if its provider is cached under its hash and not idle for longer than the limit, and then that one |
| `ClientFactory.HitTouches` | internal/clients/clientfactory/factory.go:203-226 | such a client moves to the far end of the list with the time of the call, all else as before |
| `ClientFactory.MissMakesRoom` | internal/clients/clientfactory/factory.go:228-246 | when a call has to connect, its own stale client goes, and one other exactly when the others fill a limited cache |
| `ClientFactory.EvictRemoves` | internal/clients/clientfactory/factory.go:316-328 | evicting closes and removes the client of that provider and no other |
| `GrantTarget.EmbedAgrees` | api/v1alpha1/grant_types.go:289-318 | a database-role target is admitted, described and classified like the account-role target it stands for |
| `GrantTarget.UnadmittedDescriptions` | api/v1alpha1/grant_types.go:244-261 | outside the admission rules: no scope is printed where none is set, and half a schema object is not described |
| `GrantDecode.DescriptionShows` | api/v1alpha1/grant_types.go:211-261 | whichever order the fields are read in, the description prints the admitted target |
| `GrantDecode.ReadShow` | api/v1alpha1/grant_types.go:211-261 | every printed target is read back exactly, whatever text its names contain |
| `GrantDecode.UniqueDecoding` | api/v1alpha1/grant_types.go:211-261 | two admitted targets print the same if and only if they are the same up to reference namespaces and the two spellings of the SCHEMAS bulk grants |
| `GrantDecode.NormalShowsSame` | api/v1alpha1/grant_types.go:454-472 | forgetting those two things changes nothing that is printed |
| `GrantDecode.AmbiguousCollides` | api/v1alpha1/grant_types.go:454-472 | every target with a raw name spelled like a reference collides with the reference |
| `GrantDecode.UnknownIff` | api/v1alpha1/grant_types.go:242-260 | the fallback text appears exactly for an explicit empty schema object name |
| `GrantDecode.KindFromDescription` | api/v1alpha1/grant_types.go:190-208 | for admitted targets the kind is Future or All exactly when the description begins so |
| `GrantDecode.KindNeedsAdmission` | api/v1alpha1/grant_types.go:190-208 | without admission the two disagree |
| `RoleGrants.AssignmentFixed` | api/v1alpha1/accountroleassignment_types.go:109-143 | over every run an assignment keeps its one role and one target, and its name is never a placeholder |
| `RoleGrants.TargetSet` | api/v1alpha1/databaseroleassignment_types.go:109-143 | an admitted assignment has a role and a target to print |
| `RoleGrants.AssignmentWords` | api/v1alpha1/databaseroleassignment_types.go:109-143 | the words of the four reported names: account role to role or user, database role to role or database role |
| `RoleGrants.AssignmentNameDetermines` | api/v1alpha1/accountroleassignment_types.go:109-143 | names of assignments whose roles hide no arrow are equal if and only if printed role and printed target are |
| `RoleGrants.AssignmentNameSharedIff` | api/v1alpha1/accountroleassignment_types.go:109-143 | an assignment shares its name with one of another role or target if and only if the text has a second place where an arrow is followed by a target word and a name |
| `RoleGrants.AccountGrantFixed` | api/v1alpha1/grantprivilegestoaccountrole_types.go:105-140 | over every run name and kind are constant, privilege and role are never empty, and the target is the placeholder exactly for an explicit empty object name |
| `RoleGrants.PrivilegeResolved` | api/v1alpha1/grantprivilegestoaccountrole_types.go:129-135 | an admitted grant resolves to all privileges exactly if it says so, else to the one it names |
| `RoleGrants.AccountGrantNameDetermines` | api/v1alpha1/grantprivilegestoaccountrole_types.go:105-140 | for known privileges, unambiguous targets and roles that hide no arrow, names are equal if and only if privilege, target (up to what is not printed) and printed role are |
| `RoleGrants.DatabaseGrantFixed` | api/v1alpha1/grantprivilegestodatabaserole_types.go:106-141 | the same for database roles, and the kind can be read off the printed target at any time |
| `RoleGrants.DatabaseGrantNameDetermines` | api/v1alpha1/grantprivilegestodatabaserole_types.go:106-141 | the same for database role grants |
| `Privileges.KnownPrivilegeHasNoOn` | api/v1alpha1/privileges.go:9-100 | no known privilege, however cased and padded, contains " ON" |
| `Privileges.KnownUpToCase` | api/v1alpha1/privileges.go:96-100 | a name is known if and only if, blanks around it aside, it is an entry of the table up to case |
| `Strings.SpaceCodes` | api/v1alpha1/privileges.go:98-100 | what trimming takes for a blank, by code point |
| `Strings.UpperCodes` | api/v1alpha1/privileges.go:98-100 | upper-casing moves the small letters of ASCII to the capitals and nothing else |
| `Privileges.PrivilegeDetermined` | api/v1alpha1/privileges.go:9-100 | in front of a description, where a known privilege ends is unambiguous |
| `Arrows.LastDetermined` | api/v1alpha1/grantprivilegestoshare_types.go:77-80 | right sides that hide no arrow determine where a reported name splits |
| `Arrows.FirstDetermined` | api/v1alpha1/grantownership_types.go:216-235 | left sides that hide no arrow determine it as well |
| `ShareGrants.AccessorsAgree` | api/v1alpha1/grant_types.go:377-451 | description, object type and object name tell one story |
| `ShareGrants.NothingShared` | api/v1alpha1/grant_types.go:377-451 | what the accessors say when nothing is set |
| `ShareGrants.ShareDescriptionInjective` | api/v1alpha1/grant_types.go:377-407 | a description determines its target |
| `ShareGrants.ShareGrantNameInjective` | api/v1alpha1/grantprivilegestoshare_types.go:77-80 | for known privileges and shares that hide no arrow, names are equal if and only if privilege, target and share are |
| `ShareGrants.HiddenArrowCollides` | api/v1alpha1/grantprivilegestoshare_types.go:77-80 | every grant whose share hides an arrow shares its name with another grant, which is within the length limits if and only if its object name, longer by the hidden part, is |
| `ShareGrants.HiddenArrowHasAngle` | api/v1alpha1/grantprivilegestoshare_types.go:77-80 | shares without '>' hide no arrow |
| `ShareGrants.ShareGrantFixed` | api/v1alpha1/grantprivilegestoshare_types.go:17-20 | over every run the name is the one at creation |
| `Ownership.FindUnsafe` | api/v1alpha1/grantownership_types.go:93-99 | the character loop finds the first unsafe character, or none exactly when all are safe |
| `Ownership.SafeCodes` | api/v1alpha1/grantownership_types.go:94 | the safe characters by code point |
| `Ownership.BytesOfChar` | api/v1alpha1/grantownership_types.go:102 | the length counts one to four UTF-8 bytes per character |
| `Ownership.OneSource` | api/v1alpha1/grantownership_types.go:117-138 | the counter is one exactly when one of the four roles is set and the other three are not |
| `Ownership.ValidateType` | api/v1alpha1/grantownership_types.go:88-110 | no error exactly for keyword-safe types of at most 64 characters that are not all blank; each error exactly when it applies, the first unsafe character and the byte length named |
| `Ownership.Validate` | api/v1alpha1/grantownership_types.go:85-147 | no error exactly for the acceptable specs, with each error reported exactly when it applies |
| `Ownership.AdmittedAcceptable` | api/v1alpha1/grantownership_types.go:42-43 | every type of the CRD enum passes the laxer Go validation |
| `Ownership.TypeDetermined` | api/v1alpha1/grantownership_types.go:42-43 | the enum is a prefix code: where the type ends is unambiguous |
| `Ownership.NameDetermines` | api/v1alpha1/grantownership_types.go:216-235 | admitted transfers of objects that hide no arrow have equal names if and only if type, object and printed role are equal |
| `Ownership.HiddenArrowCollides` | api/v1alpha1/grantownership_types.go:216-235 | every transfer whose object name hides an arrow shares its name with another, which is within the length limits if and only if its role, longer by the hidden part, is |
| `Ownership.OwnershipFixed` | api/v1alpha1/grantownership_types.go:24-37 | over every run the transfer, its acting role and its name are constant, and the name ends in a role |
| `Lifecycle.AlongRun` | api/v1alpha1/external_table_types.go:39-49 | what creates establish and updates keep holds along every run |
| `Lifecycle.ImmutableConstant` | api/v1alpha1/external_table_types.go:43-49 | under the strong rule a field keeps its initial value in every run |
| `Lifecycle.WeakSegment` | api/v1alpha1/table_types.go:108 | under the weak rule two set values differ only if the field was absent in between |
| `Lifecycle.WeakConnects` | api/v1alpha1/table_types.go:108 | under the weak rule any value is two updates from any other |
| `ExternalTables.ReachableIff` | api/v1alpha1/external_table_types.go:8-49 | an admitted external table spec can become another by admitted updates if and only if the other is admitted, columns included, and they agree outside autoRefresh, columns and partitionBy |
| `TokenPath.CleanRooted` | api/v1alpha1/providerconfig_types.go:274-280 | cleaning a rooted path spells out where walking it leads |
| `TokenPath.CleanRelativeWalks` | api/v1alpha1/providerconfig_types.go:276 | a cleaned relative path leads to the same place from everywhere and is never empty |
| `TokenPath.TextPrefixIff` | api/v1alpha1/providerconfig_types.go:276-279 | a text prefix ending in a slash is a proper prefix of the names |
| `TokenPath.ConfinedIff` | api/v1alpha1/providerconfig_types.go:274-280 | the test accepts a path if and only if it is absolute and leads strictly below /var/run/secrets |
| `TokenPath.CleanPreservesLocation` | api/v1alpha1/providerconfig_types.go:276 | cleaning keeps the place and is idempotent |
| `TokenPath.DefaultConfined` | api/v1alpha1/providerconfig_types.go:179-188 | the default token path passes |
| `ProviderPolicy.Validate` | api/v1alpha1/providerconfig_types.go:236-296 | each error is reported exactly when its rule is violated, and none exactly when account and user are set and the authentication type is empty or the enum, the five CEL rules and the provider and token file conditions hold; the token file error is stated on the fields alone |
| `ProviderPolicy.ValidateWorkload` | api/v1alpha1/providerconfig_types.go:265-292 | the same for the workload identity case |
| `ProviderPolicy.ValidateIdentity` | api/v1alpha1/providerconfig_types.go:272-287 | reports a token file given for the default or OIDC provider that does not lie strictly below the allowed directory, and an unknown provider, exactly then |
| `ProviderPolicy.RulesAgreeIff` | api/v1alpha1/providerconfig_types.go:247-253 | with account and user set, the Go validation and the rules it stands for agree on a spec if and only if its authentication type is not empty |
| `ProviderPolicy.EmptyTypeAccepted` | api/v1alpha1/providerconfig_types.go:38-42 | with an empty type Go accepts a spec that a CEL rule rejects |
| `ProviderPolicy.SchemaAgreesIff` | api/v1alpha1/providerconfig_types.go:38-42 | when exactly Go and the API server agree: a type is set and, where the rules hold, no unused identity names an unknown provider and not exactly one of a misplaced token file and a nameless secret reference is present |
| `ProviderPolicy.BlankSecretAccepted` | api/v1alpha1/common_types.go:30-41 | a nameless secret reference with a workload identity passes Go and not the API server |
| `ProviderPolicy.DefaultTokenPathAccepted` | api/v1alpha1/providerconfig_types.go:182-188 | leaving the path out is always accepted |
| `ProviderPolicy.IsNamespaceAllowed` | api/v1alpha1/providerconfig_types.go:313-326 | the search loop answers whether some entry admits the namespace |
| `ProviderPolicy.IsDatabaseAllowed` | api/v1alpha1/providerconfig_types.go:331-343 | likewise for databases, up to case |
| `ProviderPolicy.IsSchemaAllowed` | api/v1alpha1/providerconfig_types.go:350-374 | likewise for qualified and bare schema entries |
| `ProviderPolicy.IsRefNamespaceAllowed` | api/v1alpha1/providerconfig_types.go:388-417 | likewise for reference namespaces, the same namespace always allowed |
| `ProviderPolicy.AdmitsMonotone` | api/v1alpha1/providerconfig_types.go:313-417 | adding entries to a list never revokes an answer |
| `ProviderPolicy.AdmitsSetOnly` | api/v1alpha1/providerconfig_types.go:313-417 | order and repetition of entries do not matter |
| `ProviderPolicy.SameIsInert` | api/v1alpha1/providerconfig_types.go:388-417 | "SAME" entries only keep the list from being empty |
| `ProviderPolicy.SplitN2Joined` | api/v1alpha1/providerconfig_types.go:350-374 | splitting undoes the join of a dot-free database and any schema |
| `ProviderPolicy.QualifiedEntry` | api/v1alpha1/providerconfig_types.go:350-374 | a qualified entry admits exactly its own pair, up to case |
| `ProviderPolicy.BareEntry` | api/v1alpha1/providerconfig_types.go:350-374 | a dot-free entry admits its schema in every database |
| `ProviderPolicy.PlainEntries` | api/v1alpha1/providerconfig_types.go:313-417 | an entry other than "*" admits exactly its own namespace, its own database up to case letter by letter, and its own reference namespace unless it is "SAME" |
| `ProviderPolicy.StarAdmitsAll` | api/v1alpha1/providerconfig_types.go:313-417 | "*" admits everything in all four lists |
| `ProviderPolicy.DatabaseCaseInsensitive` | api/v1alpha1/providerconfig_types.go:331-343 | the answer for a database does not depend on case |
| `ProviderPolicy.SchemaCaseInsensitive` | api/v1alpha1/providerconfig_types.go:350-374 | the answer does not depend on the case of the arguments |
| `SensitivePaths.IsSensitiveStatusPath` | api/v1alpha1/sensitive_paths.go:69-89 | true exactly for status paths whose fields begin with the fields of a registered entry, for any table |
| `SensitivePaths.PrefixIsFieldPrefix` | api/v1alpha1/sensitive_paths.go:80-87 | the character test is the test on fields |
| `SensitivePaths.DescendantsSensitive` | api/v1alpha1/sensitive_paths.go:62-89 | everything below a guarded path is guarded |
| `SensitivePaths.SiblingNotCovered` | api/v1alpha1/sensitive_paths.go:80-87 | a sibling that shares leading letters is not covered |
| `SensitivePaths.WildcardIgnored` | api/v1alpha1/sensitive_paths.go:69-89 | an entry "*" changes no answer for any other kind |
| `SensitivePaths.DependsIff` | internal/controller/fieldexport/reconciler.go:342-385 | what an export writes depends on a field if and only if one of the two paths leads to the other |
| `SensitivePaths.ConfigMapExportIff` | internal/controller/fieldexport/reconciler.go:101-111 | what an admitted export to a ConfigMap writes, if the guard does not refuse it, is independent of every registered field in every status if and only if no registered path extends the exported one |
| `SensitivePaths.UserShowOutputPasses` | api/v1alpha1/sensitive_paths.go:15-60 | with the shipped entries for users, the whole SHOW output is not refused and depends on a registered field |
| `SensitivePaths.ParentPasses` | internal/controller/fieldexport/reconciler.go:101-111 | an object that holds a registered field is not refused and carries it, unless it or something above it is registered |
| `SensitivePaths.FieldExportFixed` | api/v1alpha1/fieldexport_types.go:68-75 | over every run only the path of an export changes, and its fields alone decide whether it is guarded |
| `SensitivePaths.AnyPathReachable` | api/v1alpha1/fieldexport_types.go:68-75 | any admissible path is one update away, so the guard has to be evaluated each time |
| `Flags.ParseDisabledControllers` | cmd/manager/main.go:147-162 | the loop yields exactly the listed names |
| `Flags.ParseAllowedRoles` | cmd/manager/main.go:186-205 | the loop yields exactly the listed roles in upper case, and nil exactly when there are none |
| `Flags.ListsPadded` | cmd/manager/main.go:147-162 | blanks, spaces, order and repetition do not matter |
| `Flags.ListsJoined` | cmd/manager/main.go:147-162 | names joined by commas are read back exactly |
| `Flags.RolesUpperCased` | cmd/manager/main.go:186-205 | the case of the flag does not matter |
| `Flags.RolesJoined` | cmd/manager/main.go:186-205 | role names joined by commas are read back in upper case |
| `Flags.ListedRolePlain` | cmd/manager/main.go:186-205 | a listed role is trimmed, comma-free and upper case |
| `Flags.RolesRejoined` | cmd/manager/main.go:186-205 | re-joining the roles in any order lists the same roles |
| `Flags.ValidateDisabledControllers` | cmd/manager/main.go:167-181 | succeeds exactly when every disabled name is known, for every visiting order |
| `Flags.Register` | cmd/manager/main.go:544-604 | startup is refused exactly for an unknown name; otherwise every table entry is set up once, disabled exactly when listed |
| `Flags.RegistrationConserved` | cmd/manager/main.go:559-567 | enabled and disabled together are the table, and the enabled ones are those not listed |
| `CommonSpec.ValidateEnum` | api/v1alpha1/validation.go:67-79 | accepts exactly absent, empty and listed values |
| `CommonSpec.ValidateCommon` | api/v1alpha1/validation.go:83-100 | reports exactly the problems there are |
| `ResourceMonitor.CountTriggers` | api/v1alpha1/resourcemonitor_types.go:102-116 | the loop counts each action |
| `ResourceMonitor.ValidateTriggers` | api/v1alpha1/resourcemonitor_types.go:101-129 | reports exactly the exceeded limits, each with its count |
| `ResourceMonitor.Validate` | api/v1alpha1/resourcemonitor_types.go:88-135 | no error exactly for the acceptable specs |
| `ResourceMonitor.OrderIrrelevant` | api/v1alpha1/resourcemonitor_types.go:101-129 | reordering the triggers does not change the verdict |
| `ResourceMonitor.CountsConserved` | api/v1alpha1/resourcemonitor_types.go:102-116 | with known actions the three counters sum to the number of triggers |
| `ResourceMonitor.AtMostSeven` | api/v1alpha1/resourcemonitor_types.go:101-129 | an accepted monitor has at most seven triggers |
| `SqlText.PassesFuse` | internal/clients/snowflake/sqlbuilder/builder.go:29-38 | the successive escaping passes amount to one pass over the characters |
| `SqlText.StripNulConcat` | internal/clients/snowflake/sqlbuilder/builder.go:33 | removing NUL bytes works text by text |
| `SqlText.StripNulChar` | internal/clients/snowflake/sqlbuilder/builder.go:33 | and removes NUL characters and no others |
| `SqlText.StripNulFree` | internal/clients/snowflake/sqlbuilder/builder.go:33 | so a text without them stays as it is |
| `SqlText.LiteralReadBack` | internal/clients/snowflake/sqlbuilder/builder.go:29-38 | an escaped value between quotes reads back as the value, and the literal ends where it was meant to |
| `SqlText.LiteralRoundTrip` | internal/clients/snowflake/sqlbuilder/builder.go:29-38 | any text without NUL bytes, escaped between quotes, reads back as itself |
| `SqlText.IdentifierReadBack` | internal/clients/snowflake/sqlbuilder/builder.go:60-67 | a quoted identifier reads back as the name without NUL bytes and ends where it was meant to |
| `SqlText.IdentifierRoundTrip` | internal/clients/snowflake/sqlbuilder/builder.go:60-67 | any name without NUL bytes, quoted, reads back as itself |
| `SqlText.QualifiedReadBack` | internal/clients/snowflake/identifier.go:155-157 | a qualified name reads back part by part |
| `SqlText.QualifiedNameInjective` | internal/clients/snowflake/identifier.go:117-119 | qualified names are equal if and only if the parts are, NUL bytes aside |
| `SqlText.QualifiedRoundTrip` | internal/clients/snowflake/identifier.go:155-157 | names without NUL bytes read back part by part as themselves |
| `SqlText.QualifiedNamesDiffer` | internal/clients/snowflake/identifier.go:117-119 | and give equal qualified names if and only if they are equal |
| `SqlText.EnumerationUnique` | internal/clients/snowflake/notification_helpers.go:15-20 | a set of keys has one strictly increasing enumeration |
| `SqlText.SortStrings` | internal/clients/snowflake/notification_helpers.go:20 | sorting distinct keys gives that enumeration |
| `SqlText.CollectKeys` | internal/clients/snowflake/notification_helpers.go:15-18 | every key once, in any visiting order |
| `SqlText.Builder.SetString` | internal/clients/snowflake/sqlbuilder/builder.go:464-468 | appends one clause, or nothing for nil |
| `SqlText.SetWebhookHeaders` | internal/clients/snowflake/notification_helpers.go:10-26 | the builder receives one clause per header in the one increasing order, for every map order |
| `SqlText.HeadersReadBackIff` | internal/clients/snowflake/notification_helpers.go:22-25 | for every notion of word characters without blanks, equals signs and quotes, the clauses read back as the headers with their values if and only if every header name is made of word characters |
| `SqlText.SplitKeyLost` | internal/clients/snowflake/notification_helpers.go:22-25 | a header name with a blank and an equals sign does not read back |
| `SqlText.HeadersEffectiveIff` | internal/clients/snowflake/notification_helpers.go:22-25 | headers with word names all take effect if and only if names equal up to case have equal values |
| `SqlSplit.SplitStatements` | internal/clients/snowflake/sqlstatement/client.go:171-212 | the byte loop yields the non-blank trimmed parts of the reading without escapes, and these are the statements of Snowflake's reading if and only if no semicolon comes after an odd number of escaped quotes |
| `SqlSplit.LexIsCut` | internal/clients/snowflake/sqlstatement/client.go:163-170 | the reading with escapes cuts exactly where the literal reader does |
| `SqlSplit.CutsAgreeIff` | internal/clients/snowflake/sqlstatement/client.go:171-212 | from any pair of states the two readings give the same parts if and only if no semicolon comes after an odd number of escaped quotes |
| `SqlSplit.SplitCorrectIff` | internal/clients/snowflake/sqlstatement/client.go:171-212 | nor does trimming and dropping blank parts hide a difference |
| `SqlSplit.EscapedQuoteCuts` | internal/clients/snowflake/sqlstatement/client.go:171-212 | a single literal with an escaped quote and a semicolon is cut in two |
| `SqlSplit.EscapedIffOddRun` | internal/clients/snowflake/sqlbuilder/builder.go:22-26 | a character is escaped if and only if it is inside a literal and follows an odd run of backslashes there |
| `SqlSplit.CutJoins` | internal/clients/snowflake/sqlstatement/client.go:171-212 | the parts joined by semicolons are the text |
| `SqlSplit.CutPieces` | internal/clients/snowflake/sqlstatement/client.go:171-212 | in either reading no part holds a separator and all but the last close their literals |
| `SqlSplit.CutUnique` | internal/clients/snowflake/sqlstatement/client.go:171-212 | no other cutting has these two properties |
| `SqlSplit.SplitJoinedIff` | internal/clients/snowflake/sqlstatement/client.go:171-212 | Snowflake statements joined by semicolons are split by the code into exactly themselves if and only if no semicolon of the text comes after an odd number of escaped quotes |
| `SqlSplit.StraightJoinIff` | internal/clients/snowflake/sqlstatement/client.go:171-212 | which is so if and only if it is so of each statement and all but the last have an even number of escaped quotes |
| `SqlSplit.LiteralTame` | internal/clients/snowflake/sqlbuilder/builder.go:29-38 | a value embedded with the escaper is cut in neither reading and has no escaped quote, whatever it contains |
| `SqlSplit.TameConcat` | internal/clients/snowflake/sqlstatement/client.go:171-212 | so text assembled from tame pieces and embedded values is tame |
| `SqlSplit.TameSplit` | internal/clients/snowflake/sqlstatement/client.go:171-212 | tame, trimmed, non-blank statements joined by semicolons are split by the code into exactly themselves |

## Left out

- The content of ALTER statements, drift detection, late initialisation and tracked parameters: an update is at most one CREATE OR ALTER and one status commit in the protocol.
- Stale cache reads: a reconcile reads the current resource, and nobody else edits the annotation or the status.
- One resource per object in the protocol: races between resources are modelled on label, report and observe-only switch alone.
- The fallback from CREATE OR ALTER to a plain statement and retries inside one operation: they are one operation with one outcome.
- NoLeak: states the direction "no escape, no leak"; which escapes leak is stated by `LeaksIff`, policies that keep the object on purpose are not called leaks.
- CircuitBreaker: int64 overflow and floating-point rounding of the jitter are not modelled; times are unbounded integers and the jitter is bounded by a fifth.
- ClientFactory: list nodes are modelled by a sequence of provider names, so pointer aliasing of list elements is not captured; health checks and metrics are left out.
- Concurrent map and lock operations inside one locked section: each section is one step.
- sort.Strings and filepath.Clean: library code, modelled by its documented behaviour.
- Strings.Upper: upper-casing and case folding are modelled for ASCII letters only.
- SqlText.LiteralReadBack: Snowflake's reading of a literal is modelled as "a backslash stands for the next character", not with its named escape sequences.
- SqlSplit.SplitStatements: double-quoted identifiers, dollar-quoted blocks and comments, which the source lists as limitations, are not part of Snowflake's reading here.
- RoleGrants.AccountGrantNameDetermines: which grants collide when the role does hide an arrow is not stated; it depends on the kind of target.
- MaxLength limits of the CRD schemas, the LIKE-pattern escaper, and the SQL body denylists: fixed bounds and lists with nothing further to prove.
- Hashes (external name label, spec hash), label selectors, `%q` formatting and UTF-8 decoding of invalid bytes: library behaviour.
- The entries of the sensitive path table: the guard is proved for every table.
- Rate limiting, sharding, tracing, metrics, events, the webhook server, health checks and manager startup: plumbing.
- The other resource kinds: their admission rules are copies of the two immutability shapes and the exactly-one rules.
