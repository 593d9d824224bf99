# A verified model of ldap2pg

ldap2pg reads users and groups from an LDAP directory and makes the roles and privileges of a
PostgreSQL cluster match them. This project models the parts of it where correctness is hard to see
from one function, in Dafny, and proves what they promise:

- **Role synchronisation.** Wanted roles are checked for loops (`RoleGraph`), compared with the
  inspected ones (`RoleDiff`), and the statements are regrouped by database (`Regroup`). `Postgres` is
  the cluster as a step machine: each statement is accepted or refused in a state, and changes it. The
  theorems in `Convergence` are about whole runs, for every iteration order of the Go maps involved:
  every statement is accepted, the cluster ends as wanted, no other role loses anything, and a second
  run sends nothing. `GrantLoops` shows exactly when a run goes through, with two small runs in `RunExamples`, `RunOrder` what
  is executed and in which order, and `RoleSync` puts the stage together. `DropSafety` and `DropRun` hold the argument
  for drops: ownership only ever passes to roles dropped later or not at all.
- **Privilege synchronisation.** Profile inheritance (`Inheritance`, `Profiles`), expansion of grants
  over databases, schemas and owners and over the passes of a run (`Expansion`), the difference
  of granted and wanted privileges (`GrantDiff`), and all passes together (`PrivilegeRun`).
- **Generation.** The odometer behind attribute combinations (`Product`), the join of an entry with
  its sub-search entries (`Subsearch`, `SubsearchJoin`), and `{field}` formats (`Templates`,
  `TemplateRoundTrip`, `TemplateOutcome`, `Quoting`).
- **LDAP texts.** Search filters (`FilterEscape`, `Filters`, `FilterReading`, `FilterRoundTrip`,
  `FilterImage`), section 3 of RFC 4515; distinguished names (`DnEscape`, `DistinguishedNames`,
  `DnRoundTrip`), sections 2 and 3 of RFC 4514; UTF-8 as Go reads it (`Utf8`).
- **The LDAP connection.** The multiplexer of requests over one connection as a step machine (`Conn`)
  with its invariants over every interleaving (`ConnCounter`, `ConnQueue`, `ConnChannels`), and when its loop goes on (`ConnProgress`).
- **Kerberos bytes.** n-fold (`Bits`, `Multiples`, `NFold`), section 5.1 of RFC 3961; ASN.1 lengths
  (`Asn1Length`), section 8.1.3 of X.690; keytab files (`Keytab`, `KeytabRoundTrip`).

`Collections`, `Sorting` and `TopoSort` are shared. A Go map iterates in any order: `AnyOrder` gives a
sequence of which callers know only that it holds each key once. A Go panic or error is `None`, or a
case of its own where the difference matters. `dafny verify dfyconfig.toml` checks the project.

Some promises turn out not to hold of the code in every case. The code is kept as it is, a lemma names
an input, and another states exactly when the promise holds:

- A run goes through unless a membership it grants closes a loop: `GRANT` of a parent that is, by then, below
  the role. `ClosesNoLoop` says so of what is inspected and wanted, for every order of the roles, and
  `RunsThroughIff` and `ClosesNoLoopIff` that it is exact; `LoopStopsTheRun` is such a run.
- `GroupByDatabase`, taken alone, silently drops statements for a database that is not managed
  (`NothingLost`). In a run nothing is lost (`NothingIsLost`): the default database is managed, as
  internal/inspect/stage1.go:74-77 checks.
- A second run may send grants again: a rule may name a schema, an owner or a database that is not managed, and
  inspection never returns such a grant (`UnmanagedSchemaIsGrantedAgain`). `SecondRunIsIdleIff` and
  `SeenIffNamesManaged` say exactly when nothing is sent.
- Without a request timeout processMessages waits for a client that neither receives nor finishes
  (`WaitsForTheClient`, `ProceedsIff`).
- A filter with a substring match without substrings, such as `(a=**)`, or with a rule named `dn` does
  not survive being decompiled and compiled (`CompileAgain`).
- Names that are `Equal` may print differently (`SameTextIff`).
- `MarshalLengthBytes` panics from 2^56 on, although its comment speaks of lengths up to 2^1008 - 1.
- A keytab entry whose 32-bit key version is zero comes back with another one, an empty keytab cannot be
  read back (`RoundTrip`), and no version 1 keytab comes back (`VersionOneDoesNotComeBack`).
- A format such as `{call()}` panics (`CallPanics`); `PanicIff` says which do. `identifier()` quotes a value
  rightly if and only if it holds no quote itself (`IdentifierReadsBackIff`).

## Model

| member | source | states |
|---|---|---|
| `TopoSort.TraversalIsTopological` | internal/role/map.go:21-47 | for every acyclic graph and every order of its keys, the parents-first traversal lists each known name once, after all its known parents |
| `RoleGraph.CheckRole` | internal/role/role.go:55-73 | terminates, and reports the genealogy at which the first repetition is met, or nothing |
| `RoleGraph.Check` | internal/role/map.go:11-19 | nil if and only if no role of the map is, through any number of memberships inside it, a member of itself; an error names a chain of memberships that really comes back to itself |
| `RoleGraph.LoopIsReal` | internal/role/role.go:55-73 | what the check reports is a path of the membership graph that returns to a name on it |
| `RoleGraph.NoLoopFound` | internal/role/map.go:11-19 | if no start finds a loop, the whole graph has no cycle |
| `RoleGraph.FlattenRole` | internal/role/map.go:30-47 | one call appends exactly the traversal from that role over what was not seen, and adds exactly those names to the shared set |
| `RoleGraph.Flatten` | internal/role/map.go:21-28 | for every iteration order: every role exactly once, after all its parents in the map |
| `Roles.OptionsDiff` | internal/role/options.go:45-74 | the enabled columns whose wanted value differs, in column order |
| `Roles.AlterOptionsReachesWanted` | internal/role/options.go:45-74 | assigning the difference gives the wanted value in every enabled column, leaves the others, and is empty if and only if nothing differs |
| `Roles.CreateOptionsReachesWanted` | internal/role/role.go:208-268 | whatever the defaults, a role created with the option listing has every enabled option as wanted |
| `Roles.MissingParents` | internal/role/membership.go:21-28 | the memberships of the other list whose parent the role lacks, in order |
| `Roles.MemberOf` | internal/role/membership.go:12-19 | true if and only if the name is among the parents |
| `RoleDiff.AlterConfig` | internal/role/role.go:152-203 | resets exactly the settings no longer wanted and sets exactly those missing or different, each once, in any map order, and so reaches the wanted settings |
| `RoleDiff.NoSettingsIff` | internal/role/role.go:152-203 | no settings statement is sent if and only if the settings are already the wanted ones |
| `RoleDiff.Alter` | internal/role/role.go:85-206 | the script of an existing role: options, granted and revoked parents, comment, then settings when some are wanted |
| `RoleDiff.Create` | internal/role/role.go:208-268 | the script of a new role, with its parents in the statement itself |
| `RoleDiff.Drop` | internal/role/role.go:270-330 | for every order of the databases: the script, and the owners the program then expects, with the dropped role replaced by the fallback |
| `RoleDiff.SelectDoomed` | internal/role/diff.go:27-46 | each managed, existing, unwanted, non-public role once, and no other |
| `RoleDiff.Diff` | internal/role/diff.go:9-49 | wanted roles created or altered in flattened order, then doomed ones dropped in any order, each drop seeing the owners the drops before it left |
| `RoleScripts.ConfigRuns` | internal/role/role.go:152-203 | the settings statements are accepted and turn the settings into the wanted ones |
| `RoleScripts.AlterRuns` | internal/role/role.go:85-206 | every statement of Alter is accepted and only the role's own row changes |
| `RoleScripts.AlteredMeets` | internal/role/role.go:85-206 | that row has what is wanted; disabled options and, when none are wanted, settings are left alone |
| `RoleScripts.AlterIsIdle` | internal/role/role.go:85-206 | Alter sends nothing if and only if the role is already as wanted |
| `RoleScripts.CreateRuns` | internal/role/role.go:208-268 | every statement of Create is accepted when the parents exist, and only the new row is added |
| `Regroup.SyncOrder` | internal/postgres/objects.go:21-38 | each managed database once, in order, the default one first or last if it is managed |
| `Regroup.GroupByDatabase` | internal/postgres/queries.go:76-102 | panics if and only if a statement asks for the first of no databases; otherwise statements grouped by the sync order, default last |
| `RunOrder.NothingIsLost` | internal/postgres/queries.go:76-102 | in a run, what is executed is exactly what is sent, each statement as often |
| `RunOrder.ReassignedEverywhere` | internal/role/role.go:270-330 | for every dropped role, its DROP ROLE is executed and in every managed database its objects are reassigned |
| `RunOrder.ReassignsComeFirst` | internal/role/role.go:270-330 | in the order of execution, every reassignment of a role, in whatever database, comes before its DROP ROLE |
| `Regroup.NothingLost` | internal/postgres/queries.go:76-102 | regrouping keeps every statement, as a multiset, if and only if every one names a database of the order |
| `Regroup.GroupIsStable` | internal/postgres/queries.go:76-102 | within a database the statements keep the order they were sent in |
| `Regroup.UnmanagedDefaultLosesStatements` | internal/postgres/queries.go:76-102 | with the default database unmanaged, every statement meant for it is lost |
| `DropRun.OwnerIsTarget` | internal/role/role.go:285-317 | whoever is to receive the objects of a dropped role is, at that point of the run, still there and not dropped yet |
| `DropRun.OtherShape` | internal/postgres/queries.go:76-102 | a database other than the default one receives, for each dropped role, at most a termination and its reassignment to a role dropped later or kept |
| `DropRun.DefaultShape` | internal/postgres/queries.go:76-102 | the default database receives, role by role, the ownership changes of all databases, its own reassignment, then NOLOGIN and DROP ROLE |
| `DropSafety.ReassignStands` | internal/role/role.go:285-317 | while roles are dropped one after the other, a reassignment to a role that is dropped later keeps every database with the owner the program expects, or one dropped later |
| `DropSafety.OtherGroups` | internal/role/role.go:270-330 | in all databases but the default one, whatever their order, every statement is accepted, no role changes, and no dropped role is left owning an object |
| `DropSafety.OwnsNothing` | internal/role/role.go:270-330 | when its DROP ROLE comes, a role owns no database and no object, even if it had received those of roles dropped before it |
| `DropSafety.DefaultTurns` | internal/role/role.go:270-330 | every statement of the default database's turns is accepted, up to and with each DROP ROLE |
| `RoleRun.ParentsAreReady` | internal/role/diff.go:14-25 | when a role's turn comes, each of its wanted parents exists |
| `RoleRun.WalksAfter` | internal/role/diff.go:14-25 | at that point the memberships are the wanted ones of the roles treated and the inspected ones of all others |
| `RoleRun.FirstPartRuns` | internal/role/diff.go:14-25 | creating and altering in a safe order is accepted, statement by statement, and gives each wanted role its target row |
| `GrantLoops.AlterRan` | internal/role/role.go:101-117 | if the statements of Alter went through, no parent they grant was below the role |
| `GrantLoops.RunsThroughIff` | internal/role/diff.go:9-49 | a run goes through if and only if no grant of it closes a loop, in its order; and then the cluster has converged |
| `GrantLoops.FlattensNext` | internal/role/map.go:21-47 | any set of wanted roles that holds their wanted parents can come first, with any role next whose parents are in it |
| `GrantLoops.ClosesNoLoopIff` | internal/role/diff.go:14-25 | the condition on what is inspected and wanted holds if and only if every order Flatten can give is safe |
| `RunExamples.LoopStopsTheRun` | internal/role/role.go:101-117 | alice wanted in dba, with dba already a member of alice: the run does not go through |
| `RunExamples.OtherMemberIsFine` | internal/role/role.go:101-117 | alice wanted in dba, with dba a member of readers, wanted too: the run goes through and the cluster converges |
| `Convergence.OthersRun` | internal/postgres/queries.go:76-102 | the groups of the other databases run first, are accepted and leave all roles as they are |
| `Convergence.DefaultRuns` | internal/postgres/queries.go:76-102 | then the default database's group is accepted to the end, drops last |
| `Convergence.RolesConverge` | internal/role/diff.go:9-49 | the roles at the end are those that existed or are wanted, less exactly the doomed ones; wanted ones as wanted, others with their own attributes untouched |
| `Convergence.OwnersConverge` | internal/role/role.go:270-330 | no database and no object belongs to a dropped role |
| `Convergence.SafeRunConverges` | internal/role/diff.go:9-49 | for every plan whose order is safe, every statement sent, as regrouped, is accepted, and the cluster ends converged |
| `Convergence.RunConverges` | internal/role/diff.go:9-49 | the same for every plan and order a run can take, when no grant can close a loop |
| `RoleSync.SyncRoles` | internal/cmd/ldap2pg.go:86-111 | the stage as a whole, with the check of internal/wanted/map.go:119 that ends the rules: an error if and only if wanted roles loop; otherwise the statements returned are those of a run, and executed they are accepted and the cluster converges, when no grant can close a loop |
| `Convergence.RunSpares` | internal/role/role.go:270-330 | no statement of a run takes a database or object from a role that is not dropped |
| `Convergence.SecondRunIsIdle` | internal/role/diff.go:9-49 | inspecting the converged cluster and running again, whatever the orders, sends nothing |
| `Inheritance.SortParents` | internal/tree/walk.go:22-36 | the list of one name is sorted in place and no list that was sorted is disturbed |
| `Inheritance.WalkOne` | internal/tree/walk.go:22-36 | the traversal from a name over what was not seen; the shared set and the sorted lists are as expected |
| `Inheritance.Walk` | internal/tree/walk.go:13-20 | every name, as a key or as a parent, exactly once and after its parents; every list of parents is left sorted |
| `Profiles.CopyRefs` | internal/privileges/profile.go:82-94 | inclusions go to the inheritance map and privileges to the other, each in order, after what was there |
| `Profiles.Pass` | internal/privileges/profile.go:100-105 | the single in-place pass gives every name the unfolding of its inheritance |
| `Profiles.FlattenProfiles` | internal/privileges/profile.go:75-115 | each profile holds its own privileges, then the unfolding of each parent in sorted order; exactly the non-builtin profiles with something of their own or included are there |
| `Profiles.UnfoldingIsUnique` | internal/privileges/profile.go:75-115 | without cycles that unfolding is the only one |
| `Expansion.ExpandDatabase` | internal/privileges/grant.go:139-168 | exactly the grants of the databases the grant is for, seen from this pass; a panic if and only if it is for all databases and none is found |
| `Expansion.ExpandSchemas` | internal/privileges/grant.go:204-217 | exactly one grant for each schema, in order, in place of all schemas, and the grant itself otherwise |
| `Expansion.ExpandOwners` | internal/privileges/grant.go:170-202 | exactly one grant for each creator, sorted, in place of automatic owners, none in another database, and the grant itself otherwise |
| `Expansion.Expand` | internal/privileges/grant.go:223-246 | the three in turn are one substitution: a grant is in the result if and only if some input grant becomes it |
| `Expansion.NoPlaceholderLeft` | internal/privileges/grant.go:223-246 | no expanded grant has a placeholder left |
| `Expansion.PassesPartition` | internal/cmd/ldap2pg.go:127-166 | for ACLs of a database: the passes' expansions are disjoint, each carries its pass's database, and together they are the substitution over all managed databases |
| `Expansion.DefaultPassIsInstanceWide` | internal/privileges/grant.go:139-168 | for ACLs of the instance, the default database's pass gives the grants of all databases |
| `Expansion.ManagedPassDoesNotPanic` | internal/cmd/ldap2pg.go:127-166 | a pass over a managed database finds a database for every grant |
| `GrantDiff.Diff` | internal/privileges/sync.go:16-63 | all revocations, then all grants, each in list order |
| `GrantDiff.StatementsAreDue` | internal/privileges/sync.go:16-63 | a grant is revoked if and only if it is there, complete or not, and its complete form is not wanted; granted if and only if wanted and missing |
| `GrantDiff.DiffConverges` | internal/privileges/sync.go:16-63 | the rows afterwards, for any rows before: complete grants are the wanted ones except those a matching irrelevance row suppresses; when partial ones stay; irrelevance rows stay |
| `GrantDiff.SecondDiffIsIdle` | internal/privileges/sync.go:16-63 | on the resulting rows, in any order, a second diff sends nothing |
| `PrivilegeRun.Inspect` | internal/privileges/inspect.go:13-125 | of what the query returns, exactly the grants whose role, owner, database and schema are managed, in the database of the pass unless the ACL is of the instance |
| `PrivilegeRun.SyncPass` | internal/cmd/ldap2pg.go:270-294 | the statements returned are those of a pass: on the rows the query is about, filtered, against the expansion of the wanted grants |
| `PrivilegeRun.PassIs` | internal/privileges/sync.go:10-14 | one pass, row by row: what it sees and is not wanted goes; what is wanted is there, seen or not, unless an irrelevance row is seen; every other row is as it was |
| `PrivilegeRun.SplitManagedAcls` | internal/privileges/acl.go:167-179 | each managed ACL once, in the list of its scope |
| `PrivilegeRun.ListPasses` | internal/cmd/ldap2pg.go:123-166 | each managed ACL has exactly one pass in each managed database, or in the default one if it is of the instance; the default database comes first, and default privileges last in each |
| `PrivilegeRun.ListedAreRunPasses` | internal/cmd/ldap2pg.go:123-166 | these are passes as the theorems on runs take them |
| `PrivilegeRun.RowsAre` | internal/cmd/ldap2pg.go:127-166 | after any number of passes over all ACLs, a row is as its own pass leaves it, or as it was before the run |
| `PrivilegeRun.PassesConverge` | internal/cmd/ldap2pg.go:127-166 | after a run, the rows of an ACL of databases: the managed ones are the wanted ones, save those an irrelevance row suppresses; rows of roles, schemas, databases or types that are not managed stay unless a rule names them |
| `PrivilegeRun.InstancePassConverges` | internal/cmd/ldap2pg.go:127-166 | for ACLs of the instance the one pass of the default database does the same for all databases |
| `PrivilegeRun.OnlyUnwantedGo` | internal/privileges/inspect.go:13-30 | a row is taken away in a run only if it is managed and not wanted, or partial and replaced by the complete one |
| `PrivilegeRun.SecondRunSends` | internal/privileges/sync.go:16-63 | a second run, its passes in any order, revokes nothing and grants exactly the wanted grants that inspection does not return and that have no irrelevance row |
| `PrivilegeRun.SecondRunIsIdleIff` | internal/cmd/ldap2pg.go:127-166 | so it sends nothing if and only if inspection can return each wanted grant or its irrelevance row |
| `PrivilegeRun.SeenIffNamesManaged` | internal/privileges/rule.go:127-155 | inspection can return a wanted grant if and only if its role and privilege type are managed and its rule names no database, schema or owner that is not |
| `PrivilegeRun.UnmanagedSchemaIsGrantedAgain` | internal/privileges/inspect.go:110-115 | a rule that names a schema outside of the managed ones is granted again in a second run |
| `PrivilegeRun.SecondRunKeepsAll` | internal/cmd/ldap2pg.go:127-166 | whatever it sends, a second run leaves every row as it is |
| `Product.Advance` | internal/lists/product.go:31-57 | one turn of the odometer is the next rank, in place in both arrays, and it stops at the last |
| `Product.Combinations` | internal/lists/product.go:3-65 | as many tuples as the product of the lengths, the tuple of each index vector at its rank; none without lists |
| `Product.RankIsInjective` | internal/lists/product.go:3-65 | different vectors have different ranks |
| `Product.RankIsMonotone` | internal/lists/product.go:3-65 | ranks follow lexicographic order |
| `Product.RankIsOnto` | internal/lists/product.go:3-65 | every position is the rank of a vector |
| `Subsearch.GenerateCombinations` | internal/ldap/generate.go:77-112 | one map for each index vector of the attribute values, at its rank |
| `Subsearch.ResolveExpressions` | internal/ldap/generate.go:115-141 | exactly the expressions that resolve, each with its value from the attributes, the sub-search map or the DN |
| `Subsearch.ListVariables` | internal/pyfmt/format.go:169-176 | each root of an expression once, in any order |
| `Subsearch.KeyIsInjective` | internal/ldap/generate.go:64-73 | the string keys of two different sub-entry combinations never collide |
| `Subsearch.GenerateSubsearchValues` | internal/ldap/generate.go:51-75 | the map holds, under its own key, each combination of values of each sub-entry, and nothing else |
| `Subsearch.GenerateValues` | internal/ldap/generate.go:25-48 | for every iteration order, one resolved map for each index vector of the attributes, sub-search keys among them |
| `SubsearchJoin.PairIsThere` | internal/ldap/generate.go:25-141 | each pair of a combination of the entry's values and one of a sub-entry's has its map, holding exactly the values of that pair |
| `SubsearchJoin.PairsAreApart` | internal/ldap/generate.go:25-141 | no two pairs share a map |
| `SubsearchJoin.NothingElse` | internal/ldap/generate.go:25-141 | and every map is that of a pair |
| `SubsearchJoin.FromOneSubEntry` | internal/ldap/generate.go:51-75 | all expressions under the sub-search attribute are resolved from one and the same combination of one sub-entry |
| `SubsearchJoin.QualifyLeavesNoBareUse` | internal/wanted/step.go:88-104 | a bare use of the sub-search attribute becomes a use of the sub-entry's DN, others are left, and doing it twice changes nothing |
| `Templates.Format.Parse` | internal/pyfmt/format.go:34-95 | appends the sections of the text, also before an error or panic, and keeps the list of fields in step with them |
| `Templates.Format.Render` | internal/pyfmt/format.go:118-152 | the sections in order, literals as they are, fields by their method |
| `TemplateRoundTrip.ParsePrintField` | internal/pyfmt/format.go:97-116 | the text of a field parses back to its name, method, conversion and specification |
| `TemplateOutcome.FieldPanicsIff` | internal/pyfmt/format.go:97-116 | the text of a field panics if and only if its name, up to a conversion or specification, ends like a call and has no dot |
| `TemplateOutcome.PanicIff` | internal/pyfmt/format.go:34-95 | for every text: Parse panics if and only if such a field stands after a part that is a format itself |
| `TemplateOutcome.ErrorIff` | internal/pyfmt/format.go:34-95 | for every text: Parse is an error if and only if a field is left open after a part that is a format itself |
| `TemplateOutcome.CallPanics` | internal/pyfmt/format.go:110-114 | `{call()}` panics |
| `TemplateRoundTrip.ParsePrint` | internal/pyfmt/format.go:34-152 | a template printed from any literals, braces doubled, and any plain fields parses without error to the same fields in order, and for all values shows the literals and the transformed values in order |
| `Quoting.StringReadsBack` | internal/pyfmt/format.go:143-144 | whatever the value, string() writes the SQL literal that stands for it |
| `Quoting.IdentifierReadsBackIff` | internal/pyfmt/format.go:141-142 | identifier() writes the quoted name that stands for the value if and only if the value holds no double quote |
| `Utf8.WriteBack` | partialvendor/go-ldap/filter.go:268-282 | a rune that decodes is written back as the bytes it was read from |
| `FilterEscape.EscapeFilter` | partialvendor/go-ldap/ldap.go:324-349 | the escapes counted first make a buffer that the escaped text fills exactly |
| `FilterEscape.DecodeEscapedSymbols` | partialvendor/go-ldap/filter.go:440-486 | the unescaped bytes, or an error for a broken escape or broken UTF-8 |
| `FilterEscape.UnescapeEscape` | partialvendor/go-ldap/filter.go:440-486 | any bytes at all survive escaping and unescaping |
| `FilterEscape.EscapeIsClean` | partialvendor/go-ldap/ldap.go:317-349 | escaped text holds no character that means something in a filter |
| `Filters.Decompile` | partialvendor/go-ldap/filter.go:95-200 | the text of a filter tree, recursively |
| `Filters.ReadLoop` | partialvendor/go-ldap/filter.go:255-365 | the state machine over attribute, rule and condition reads the same assertion as reading them one after the other |
| `Filters.CompileAt` | partialvendor/go-ldap/filter.go:218-437 | the filter at a position and where it ends, or an error |
| `Filters.CompileSet` | partialvendor/go-ldap/filter.go:202-216 | the filters of a set, in order, and where they end |
| `Filters.CompileFilter` | partialvendor/go-ldap/filter.go:77-92 | a filter if and only if the text is one to its last character |
| `FilterRoundTrip.PartsBack` | partialvendor/go-ldap/filter.go:399-425 | the pieces between stars give back the substrings, with initial, any and final in their places |
| `FilterRoundTrip.CompilePrint` | partialvendor/go-ldap/filter.go:77-437 | the text of any tidy filter tree, of any depth, compiles to its last character to the filter it shows; to the same tree if and only if the tree is unambiguous |
| `FilterImage.ParsedIsTidy` | partialvendor/go-ldap/filter.go:218-437 | every filter that compiles from any text is tidy |
| `FilterImage.CompileAgain` | partialvendor/go-ldap/filter.go:77-200 | for every text that compiles, decompiling and compiling gives the same filter if and only if no substring match lacks substrings and no rule is named dn |
| `FilterImage.ComesBackIff` | partialvendor/go-ldap/filter.go:77-200 | of all filter trees, those that come back from their own text are exactly the tidy and unambiguous ones |
| `FilterImage.StarsDoNotComeBack` | partialvendor/go-ldap/filter.go:399-425 | `(a=**)` is such a text |
| `FilterImage.RuleNamedDnDoesNotComeBack` | partialvendor/go-ldap/filter.go:255-365 | so is `(a:dn)` |
| `DnEscape.EncodeString` | partialvendor/go-ldap/dn.go:172-228 | each byte plain, after a backslash or in hexadecimal, by its place and kind |
| `DnEscape.DecodeString` | partialvendor/go-ldap/dn.go:109-169 | the bytes of a text without its outer unescaped spaces, or an error |
| `DnEscape.DecodeEncode` | partialvendor/go-ldap/dn.go:94-228 | any bytes at all survive encoding and decoding, as a type or as a value |
| `DistinguishedNames.ParseDN` | partialvendor/go-ldap/dn.go:246-307 | the one-pass parser reads the same name as splitting at unescaped separators |
| `DistinguishedNames.HasAllAttributes` | partialvendor/go-ldap/dn.go:354-368 | true if and only if every attribute of the list has an equal one |
| `DistinguishedNames.Equal` | partialvendor/go-ldap/dn.go:312-322 | true if and only if the names have equal relative names, one by one |
| `DnRoundTrip.ParsePrint` | partialvendor/go-ldap/dn.go:57-307 | for every name with typed attributes and any value bytes, parsing its text succeeds with an equal name |
| `DnRoundTrip.SameTextIsEqual` | partialvendor/go-ldap/dn.go:57-92 | names with the same text are equal |
| `DnRoundTrip.SameTextIff` | partialvendor/go-ldap/dn.go:57-92 | the texts are the same if and only if the relative names have, one by one, the same attributes, types up to case, the same number of times |
| `DnRoundTrip.EqualPrintsSame` | partialvendor/go-ldap/dn.go:312-374 | so equal names in which no attribute is repeated have the same text |
| `DnRoundTrip.EqualWithoutSameText` | partialvendor/go-ldap/dn.go:347-368 | equal names need not have the same text: repetitions are not compared |
| `ConnCounter.CounterKept` | partialvendor/go-ldap/conn.go:418-479 | every step keeps the count and the StartTLS flag in line with the clients |
| `ConnCounter.UncountKeeps` | partialvendor/go-ldap/conn.go:460-479 | finishing never takes the count below zero, and only the request that started TLS ends that phase |
| `ConnQueue.QuitKept` | partialvendor/go-ldap/conn.go:289-319 | every step keeps Quit last and alone in the queue |
| `ConnQueue.NumbersKept` | partialvendor/go-ldap/conn.go:589-636 | every step keeps the packets queued in the order they were read, after those handed over |
| `ConnChannels.IdsAreHandedOutOnce` | partialvendor/go-ldap/conn.go:331-336 | in every state of every run, message ids are handed out once, each smaller than the next, and a context is that of the request with its id |
| `ConnChannels.InvHolds` | partialvendor/go-ldap/conn.go:491-587 | the whole invariant holds in every state of every run, whatever the interleaving of clients, reader, timers and Close |
| `ConnChannels.ChannelIsOrderly` | partialvendor/go-ldap/conn.go:64-80 | on every channel in every run: closed at most once, nothing after that, and only packets with the request's id, in the order they were read |
| `ConnChannels.AllChannelsClosed` | partialvendor/go-ldap/conn.go:491-587 | when processMessages is gone, a request's channel is closed, once, if and only if the request was ever queued |
| `ConnChannels.QuitIsLast` | partialvendor/go-ldap/conn.go:289-319 | once Quit is queued nothing is queued any more |
| `ConnChannels.NeverDrained` | partialvendor/go-ldap/conn.go:491-587 | processMessages never receives from the closed and drained queue |
| `ConnChannels.MessagesAreAddressed` | partialvendor/go-ldap/conn.go:491-587 | whatever message processMessages has in hand, and whatever context is left when it leaves, belongs to a request that was made |
| `ConnProgress.ProceedsIff` | partialvendor/go-ldap/conn.go:64-80 | in every state of every run, processMessages can deal with the message in hand if and only if it sends to nobody, there is a timeout, or the client it sends to is receiving or has finished |
| `ConnProgress.DropsIff` | partialvendor/go-ldap/conn.go:492-508 | on leaving it can close a channel under the same condition, or when there is no failure to tell |
| `ConnProgress.WaitsForTheClient` | partialvendor/go-ldap/conn.go:64-80 | a run, without timeout, in which an answer that is not received stops processMessages |
| `ConnChannels.CountIsRight` | partialvendor/go-ldap/conn.go:418-479 | while the connection is not closing, the count is the number of requests begun and not finished; counting down never underflows |
| `ConnChannels.StartTLSIsExclusive` | partialvendor/go-ldap/conn.go:418-479 | during StartTLS exactly one request is outstanding, every other is rejected, and only its own finish ends the phase |
| `Multiples.ComputeGcd` | partialvendor/gokrb5/crypto/rfc3961/nfold.go:85-90 | the loop computes the greatest common divisor |
| `Multiples.GcdDivides` | partialvendor/gokrb5/crypto/rfc3961/nfold.go:85-90 | it divides both |
| `Multiples.Bezout` | partialvendor/gokrb5/crypto/rfc3961/nfold.go:85-90 | it is a combination of both, so every common divisor divides it |
| `Multiples.LcmIsMultiple` | partialvendor/gokrb5/crypto/rfc3961/nfold.go:81-83 | lcm is a common multiple |
| `Multiples.LcmIsLeast` | partialvendor/gokrb5/crypto/rfc3961/nfold.go:81-83 | and the least one |
| `NFold.SetBit` | partialvendor/gokrb5/crypto/rfc3961/nfold.go:100-107 | sets that one bit in place and no other |
| `NFold.AddBits` | partialvendor/gokrb5/crypto/rfc3961/nfold.go:44-62 | the bit loop with its carry adds the numbers |
| `NFold.OnesComplementAddition` | partialvendor/gokrb5/crypto/rfc3961/nfold.go:44-69 | the sum with the carry added back at the end, with at most one more call |
| `NFold.EndAroundFits` | partialvendor/gokrb5/crypto/rfc3961/nfold.go:44-69 | that sum fits, is congruent to the plain sum modulo one less than the range, and is zero only for zeros |
| `NFold.RotateRight` | partialvendor/gokrb5/crypto/rfc3961/nfold.go:71-79 | every bit moves right by the step, around the end |
| `NFold.Nfold` | partialvendor/gokrb5/crypto/rfc3961/nfold.go:20-42 | never out of bounds; n/8 bytes that are the fold of the n-bit blocks of the copies, each rotated by 13 more bits, of least-common-multiple length, and congruent to their sum modulo 2^n - 1 |
| `NFold.FoldIsSum` | partialvendor/gokrb5/crypto/rfc3961/nfold.go:20-42 | the fold is congruent to the sum of the blocks modulo 2^n - 1, and zero only when all are |
| `Asn1Length.MarshalLengthBytes` | partialvendor/gokrb5/asn1tools/tools.go:15-30 | panics if and only if the length is 2^56 or more; otherwise the short form, or the long form without leading zero |
| `Asn1Length.LongFormIsShortest` | partialvendor/gokrb5/asn1tools/tools.go:15-30 | no shorter string of octets has the value |
| `Asn1Length.GetLengthFromASN` | partialvendor/gokrb5/asn1tools/tools.go:33-46 | panics if and only if an octet is missing; otherwise the number of the octets, wrapped to 64 bits |
| `Asn1Length.ReadBack` | partialvendor/gokrb5/asn1tools/tools.go:15-55 | what was written, behind any tag and before anything, is read back with its header size |
| `Keytab.MarshalPrincipal` | partialvendor/gokrb5/keytab/keytab.go:386-413 | the bytes of a principal, in both versions and byte orders |
| `Keytab.MarshalEntry` | partialvendor/gokrb5/keytab/keytab.go:306-343 | the bytes of an entry behind their length |
| `Keytab.Keytab.Marshal` | partialvendor/gokrb5/keytab/keytab.go:182-192 | the header and the entries in order |
| `Keytab.ParsePrincipal` | partialvendor/gokrb5/keytab/keytab.go:346-384 | what is read of a principal and where the cursor stops, also on an error, which the caller ignores |
| `Keytab.ParseEntry` | partialvendor/gokrb5/keytab/keytab.go:246-288 | the entry from wherever the cursor stopped, or an error |
| `Keytab.ReadRecords` | partialvendor/gokrb5/keytab/keytab.go:205-304 | going through the records always ends, and for fewer than 2^31 bytes never goes backwards |
| `Keytab.Keytab.Unmarshal` | partialvendor/gokrb5/keytab/keytab.go:205-304 | appends the entries read, also before an error, and takes over the version |
| `KeytabRoundTrip.HolesAreSkipped` | partialvendor/gokrb5/keytab/keytab.go:205-304 | records and holes in any order: the entries come back in order, whatever the holes hold |
| `KeytabRoundTrip.RoundTrip` | partialvendor/gokrb5/keytab/keytab.go:182-304 | version 2 entries that fit their fields come back, exactly the same if and only if there are any and none has 32-bit version zero and another 8-bit one |
| `KeytabRoundTrip.ZeroVersionDoesNotComeBack` | partialvendor/gokrb5/keytab/keytab.go:274-288 | such an entry comes back with its 8-bit version for the 32-bit one |
| `KeytabRoundTrip.VersionOneDoesNotComeBack` | partialvendor/gokrb5/keytab/keytab.go:346-413 | no version 1 keytab comes back: the component count is written as it is and read as one less |
| `KeytabRoundTrip.LongFileLoops` | partialvendor/gokrb5/keytab/keytab.go:232-236 | beyond 2^31 bytes the loop can come back to where it was |

## Left out

- Network, file and database access, logging, command line and configuration files: only the order of the passes of a run is kept.
- SQL text and quoting: statements are a datatype, and `Postgres` says when the server accepts one and what it does. Hooks before and after CREATE ROLE are statements without effect here.
- DROP OWNED BY acts on ownership and privileges only. From PostgreSQL 16 it also removes memberships that the dropped role had granted to others; a wanted role whose kept parent was granted by a dropped role loses it there, and a second run grants it again. Nor does DROP ROLE depend on such memberships.
- The cluster holds the managed databases only, and none is named "" or "<first>", which the statements use as placeholders.
- Runs assume what the program checks or inspects before: wanted roles without loops, a fallback owner that exists and is not dropped, the default database managed, and wanted parents that are wanted too or exist and are not dropped.
- Role.Merge and the generation of roles and grants from rules: roles of one rule share a slice and a map, which values do not show.
- Conn: a step machine on values, not an object with a mutex. One reader at a time; whether a response is delivered or dropped, and when timers fire, is left open there (`ConnProgress` says which is possible); the exchange of TLS itself is not modelled.
- Filters: packets are a datatype, so the BER library is not part of the model; an error inside a negation, where the source recovers from a panic, is an error.
- DistinguishedNames.Equal: types are compared up to the case of ASCII letters, as folding outside of ASCII needs Unicode tables.
- DistinguishedNames.HasAllAttributes: the same.
- DnRoundTrip.ParsePrint: attribute types are ASCII, as folding outside of it needs Unicode tables; the decoding of number-sign values is a parameter.
- Templates: strings are sequences of characters, and case mapping is a parameter; formats are not rendered without values. Fields are values, where the source shares pointers between sections and the list of fields.
- Subsearch: case-insensitive comparison, the attribute values and the first RDN of a DN are parameters; channels are sequences.
- Asn1Length.GetLengthFromASN: a slice's capacity is its length, so that a missing octet is a panic.
- Keytab.ReadRecords: stops, as a case of its own, where the loop of the source would jump backwards, which takes 2^31 bytes.
- Keytab.Keytab.Unmarshal: stops where the loop of the source would jump backwards, because it may then never end; `LongFileLoops` shows such a file. Timestamps are seconds.
- KeytabRoundTrip.RoundTrip: realms, components and keys of at most 32767 bytes, as longer ones have a length that is read as negative.
- PrivilegeRun: rows are grants as inspection reports them, and a query returns all its ACL has of the managed types. The SQL is not modelled; global-default.sql calls the routines of a default ACL FUNCTIONS, so that a global default on ROUTINES is not returned as the row it is here. The schemas and creators are those found when the pass is made, and the same in a second run. An ACL of the instance with owners, which only a configuration can define, has a pass in every database and is left out of runs.
- Grants and profiles keep their contents, not their YAML form.
- Ciphers, checksums, Kerberos messages, credential caches, and the LDAP requests other than search filters would only add easy members, or rest on libraries that are not part of this model.
