# Geode cluster management and JDBC driver registration, modelled in Dafny

This project models two parts of Apache Geode.

**The locator's cluster-management service** (`LocatorClusterManagementService`) creates, lists and deletes configuration elements in the cluster configuration.
- The cluster configuration is a store holding one document (a list of region configurations) per group.
- The group `cluster` always exists.
- A request's element names an identity, an optional group and a type.
- create: checks the element type against the registry of managers and validators, then takes the shared-configuration lock. It validates the identity, refuses an identity that the target group's document already holds, and collects the results of the function run on the targeted members. It writes the region into the group's document only when every member succeeded.
- delete: refuses an element that names a group, and refuses an identity unknown to the cluster document. Otherwise it collects the members' results and, when all succeeded, removes the identity from every known group's document. Its message lists the groups that held the identity.
- list: reads every known group's document. It merges the regions found under one identity into one entry carrying all the groups that hold it, and only then applies the group filter.

The service is a class (`ClusterManagementService.LocatorClusterManagementService`):
- Its fields are the store (`docs`, `groups`) and the lock (`locked`, plus a count of lock acquisitions).
- Its methods carry out each request step by step.
- Each method is proved equal to a function of the starting store (`CreateSpec`, `DeleteSpec`, `ListSpec`).
- The lemmas in `ServiceProperties` state what those functions promise: verdicts, what is written, the store invariant, the create-then-delete round trip and the list merge law.
- The methods in `ServiceScenarios` replay each unit test of the service against the class.

**The member-side function `RegisterDriverFunction`** registers a JDBC driver class on a member.
- It reads the driver class name from the first function argument, asks the driver utility to register it, and reports exactly one `CliFunctionResult`.
- The result is OK with "<class> was succesfully registered." (the misspelling is the function's own), or ERROR with the exception's message.
- The registration itself is a foreign call. It is modelled as the outcome the member observes: registered, or threw with a message.

Modules:
- `Strings`: blank strings, substring containment, list rendering.
- `FunctionResults`: `CliFunctionResult`.
- `RegionConfigs`: region configurations and documents.
- `ClusterManagementResults`: `ClusterManagementResult` and the collection of member results.
- `ListMerge`: the list merge.
- `ClusterManagementService`: the store, the request functions and the service class.
- `ServiceProperties`: the properties of the request functions.
- `ServiceScenarios`: the service's unit tests replayed.
- `RegisterDriverFunction`: driver registration.

## Model

| member | source | states |
|---|---|---|
| ClusterManagementService.LocatorClusterManagementService.constructor | geode-core/src/test/java/org/apache/geode/management/internal/api/LocatorClusterManagementServiceTest.java:88-101 | the service starts unlocked, with the persistence flag and the store it is given, and with the store invariant |
| ClusterManagementService.LocatorClusterManagementService.Create | geode-core/src/test/java/org/apache/geode/management/internal/api/LocatorClusterManagementServiceTest.java:103-166 | create's outcome, new documents, new groups and lock count equal CreateSpec of the old store; the lock is free again and the store invariant holds afterwards |
| ClusterManagementService.LocatorClusterManagementService.Delete | geode-core/src/test/java/org/apache/geode/management/internal/api/LocatorClusterManagementServiceTest.java:204-287 | delete's outcome, new documents, groups and lock count equal DeleteSpec of the old store; the lock is free again and the store invariant holds afterwards |
| ClusterManagementService.LocatorClusterManagementService.RemoveFromAllGroups | geode-core/src/test/java/org/apache/geode/management/internal/api/LocatorClusterManagementServiceTest.java:247-287 | visiting the known groups in order rewrites each document that holds the identity without it, and returns exactly those groups in order |
| ClusterManagementService.LocatorClusterManagementService.List | geode-core/src/test/java/org/apache/geode/management/internal/api/LocatorClusterManagementServiceTest.java:168-202 | list's outcome equals ListSpec of the store, and every known group is read and listed exactly once, in order, whatever the group filter (none when refused) |
| ClusterManagementService.GroupsContaining | geode-core/src/test/java/org/apache/geode/management/internal/api/LocatorClusterManagementServiceTest.java:272-287 | a group is reported exactly when it is known and its document holds the identity |
| ClusterManagementService.RemovedFromEveryDocument | geode-core/src/test/java/org/apache/geode/management/internal/api/LocatorClusterManagementServiceTest.java:247-270 | after removal everywhere, every group keeps a document, no document holds the identity, and each document keeps exactly its regions of other identities |
| ClusterManagementService.RemovedInEverywhere | geode-core/src/test/java/org/apache/geode/management/internal/api/LocatorClusterManagementServiceTest.java:247-270 | rewriting group by group over all known groups is the same as removing the identity from every document |
| ClusterManagementService.NextGroup | geode-core/src/test/java/org/apache/geode/management/internal/api/LocatorClusterManagementServiceTest.java:247-270 | one more step of the removal loop touches only the next group, which is still in its original state |
| ClusterManagementService.AddKeepsStore | geode-core/src/test/java/org/apache/geode/management/internal/api/LocatorClusterManagementServiceTest.java:139-159 | adding a region whose identity the target document lacks keeps the store invariant; a new group is listed once |
| ClusterManagementService.CreatePreservesStore | geode-core/src/test/java/org/apache/geode/management/internal/api/LocatorClusterManagementServiceTest.java:122-166 | every create outcome keeps the store invariant |
| ClusterManagementService.RemoveKeepsStore | geode-core/src/test/java/org/apache/geode/management/internal/api/LocatorClusterManagementServiceTest.java:247-270 | removing an identity everywhere keeps the store invariant |
| ClusterManagementService.DeletePreservesStore | geode-core/src/test/java/org/apache/geode/management/internal/api/LocatorClusterManagementServiceTest.java:204-287 | every delete outcome keeps the store invariant |
| ClusterManagementResults.Collect | geode-core/src/test/java/org/apache/geode/management/internal/api/LocatorClusterManagementServiceTest.java:122-159 | one member status per member result, in order, and successful exactly when every member result is successful |
| ClusterManagementResults.ReconcileVerdict | geode-core/src/test/java/org/apache/geode/management/internal/api/LocatorClusterManagementServiceTest.java:223-270 | the reconciled result is successful iff every member succeeded; its message is the success message or "Failed to apply the update on all members"; it carries one status per member |
| ClusterManagementResults.VerdictIgnoresMessages | geode-core/src/test/java/org/apache/geode/management/internal/api/LocatorClusterManagementServiceTest.java:139-159 | the verdict and message depend only on the members' success flags, not on their messages ("failed" from a successful member) |
| ClusterManagementResults.OneFailureFails | geode-core/src/test/java/org/apache/geode/management/internal/api/LocatorClusterManagementServiceTest.java:122-137 | one failed member makes the request fail with the partial-failure message, still reporting every member |
| RegionConfigs.Exists | geode-core/src/test/java/org/apache/geode/management/internal/api/LocatorClusterManagementServiceTest.java:112-120 | the existence check holds exactly when the document holds a region with that identity |
| RegionConfigs.Add | geode-core/src/test/java/org/apache/geode/management/internal/api/LocatorClusterManagementServiceTest.java:139-159 | adding a region keeps the old regions, adds it once, and keeps identities unique when it was absent |
| RegionConfigs.Without | geode-core/src/test/java/org/apache/geode/management/internal/api/LocatorClusterManagementServiceTest.java:247-270 | removing an identity keeps exactly the regions with other identities, and keeps identities unique |
| RegionConfigs.Select | geode-core/src/test/java/org/apache/geode/management/internal/api/LocatorClusterManagementServiceTest.java:168-178 | a manager's list of one document is its regions, narrowed to the filter's identity when one is given |
| RegionConfigs.AddThenWithout | geode-core/src/test/java/org/apache/geode/management/internal/api/LocatorClusterManagementServiceTest.java:247-270 | removing a just-added absent identity gives the document back |
| RegionConfigs.WithoutAbsent | geode-core/src/test/java/org/apache/geode/management/internal/api/LocatorClusterManagementServiceTest.java:204-211 | removing an identity the document lacks leaves it unchanged |
| ListMerge.IndexOf | geode-core/src/test/java/org/apache/geode/management/internal/api/LocatorClusterManagementServiceTest.java:180-202 | the position of the merged entry with an identity, or none exactly when no entry has it |
| ListMerge.MergeOne | geode-core/src/test/java/org/apache/geode/management/internal/api/LocatorClusterManagementServiceTest.java:180-202 | merging a found region adds its group to the entry of the same identity, or appends a new entry; identities stay unique |
| ListMerge.MergeGroupFacts | geode-core/src/test/java/org/apache/geode/management/internal/api/LocatorClusterManagementServiceTest.java:180-202 | merging one group's findings grows the entries by that group exactly for the identities found there |
| ListMerge.MergeGroupSummarizes | geode-core/src/test/java/org/apache/geode/management/internal/api/LocatorClusterManagementServiceTest.java:180-202 | after one more group, the entries still summarize the groups visited so far |
| ListMerge.MergeAllSummarizes | geode-core/src/test/java/org/apache/geode/management/internal/api/LocatorClusterManagementServiceTest.java:180-202 | merging groups in turn summarizes all of them |
| ListMerge.MergeLaw | geode-core/src/test/java/org/apache/geode/management/internal/api/LocatorClusterManagementServiceTest.java:180-202 | the merged list has one entry per identity found in some group, each entry carries exactly the groups whose documents hold it, and its region is the first one reported under that identity in visiting order |
| ListMerge.ByGroup | geode-core/src/test/java/org/apache/geode/management/internal/api/LocatorClusterManagementServiceTest.java:168-178 | the group filter keeps all entries when blank, otherwise exactly the entries whose groups include it |
| ServiceProperties.DisabledServiceRefuses | geode-core/src/test/java/org/apache/geode/management/internal/api/LocatorClusterManagementServiceTest.java:103-110 | without a persistence service, create, delete and list return an unsuccessful result; nothing is written and the lock is not taken |
| ServiceProperties.UnsupportedTypeRefused | geode-core/src/test/java/org/apache/geode/management/internal/api/LocatorClusterManagementServiceTest.java:161-166 | a MemberConfig request throws IllegalArgumentException "Configuration type MemberConfig is not supported" before the lock, for create (:161-166); delete and list refusing it the same way is this model's extension |
| ServiceProperties.CreateVerdict | geode-core/src/test/java/org/apache/geode/management/internal/api/LocatorClusterManagementServiceTest.java:122-159 | a dispatched create succeeds iff every member succeeded; on failure nothing is written; on success the target document gains exactly the region, no group other than the target appears, other documents are unchanged, and the message names the group |
| ServiceProperties.CreateDuplicateRefused | geode-core/src/test/java/org/apache/geode/management/internal/api/LocatorClusterManagementServiceTest.java:112-120 | create of an identity the target group already holds throws EntityExists and writes nothing |
| ServiceProperties.DeleteWithGroupRefused | geode-core/src/test/java/org/apache/geode/management/internal/api/LocatorClusterManagementServiceTest.java:213-221 | delete naming a group throws IllegalArgumentException with the exact message, without the lock |
| ServiceProperties.DeleteUnknownRefused | geode-core/src/test/java/org/apache/geode/management/internal/api/LocatorClusterManagementServiceTest.java:204-211 | delete of an identity the cluster document lacks throws EntityNotFound "Cache element '<id>' does not exist", without the lock |
| ServiceProperties.DeleteVerdict | geode-core/src/test/java/org/apache/geode/management/internal/api/LocatorClusterManagementServiceTest.java:223-270 | a dispatched delete succeeds iff every member succeeded; on failure nothing is written; on success the identity is gone from every document, every other region stays, nothing is added, and the message lists the groups that held it |
| ServiceProperties.DeleteWithoutMembersSucceeds | geode-core/src/test/java/org/apache/geode/management/internal/api/LocatorClusterManagementServiceTest.java:272-287 | with no member targeted, delete succeeds with no member statuses and removes the identity everywhere |
| ServiceProperties.CreateThenDelete | geode-core/src/test/java/org/apache/geode/management/internal/api/LocatorClusterManagementServiceTest.java:247-270 | creating, without a group, an identity no document holds and then deleting it, every member succeeding, gives back the starting documents and groups (an element created in a named group is not covered: delete refuses a group) |
| ServiceProperties.RemoveAfterAdd | geode-core/src/test/java/org/apache/geode/management/internal/api/LocatorClusterManagementServiceTest.java:247-270 | removing everywhere an identity just added to one document restores every document |
| ServiceProperties.ListFiltersAfterMerging | geode-core/src/test/java/org/apache/geode/management/internal/api/LocatorClusterManagementServiceTest.java:168-178 | listing with a group filter gives exactly the entries of the unfiltered list whose groups include it |
| ServiceProperties.ListReportsGroups | geode-core/src/test/java/org/apache/geode/management/internal/api/LocatorClusterManagementServiceTest.java:180-202 | the unfiltered list has one entry per identity found, each with exactly the groups holding it and the first region reported under it |
| ServiceProperties.ListOneIdentity | geode-core/src/test/java/org/apache/geode/management/internal/api/LocatorClusterManagementServiceTest.java:180-202 | when groups hold only one identity, the list has exactly one entry for it, carrying every group that holds it and the first region reported under it |
| ServiceProperties.OneIdentitySummary | geode-core/src/test/java/org/apache/geode/management/internal/api/LocatorClusterManagementServiceTest.java:180-202 | a summary of findings with a single identity is a single entry with exactly its groups |
| ServiceScenarios.CreateWithNoMember | geode-core/src/test/java/org/apache/geode/management/internal/api/LocatorClusterManagementServiceTest.java:112-120 | with no member found, create succeeds with no member status and the cluster document holds region1 |
| ServiceScenarios.CreateWithoutPersistence | geode-core/src/test/java/org/apache/geode/management/internal/api/LocatorClusterManagementServiceTest.java:103-110 | create without persistence is unsuccessful and says the service needs to be enabled |
| ServiceScenarios.CreatePartialFailure | geode-core/src/test/java/org/apache/geode/management/internal/api/LocatorClusterManagementServiceTest.java:122-137 | with member2 failing, create fails with the partial-failure message and the cluster document stays empty |
| ServiceScenarios.CreateSucceedsOnAllMembers | geode-core/src/test/java/org/apache/geode/management/internal/api/LocatorClusterManagementServiceTest.java:139-159 | with both members successful, create succeeds and the cluster document holds one region |
| ServiceScenarios.CreateMemberConfig | geode-core/src/test/java/org/apache/geode/management/internal/api/LocatorClusterManagementServiceTest.java:161-166 | create of a MemberConfig throws IllegalArgumentException naming the type |
| ServiceScenarios.ListOneGroup | geode-core/src/test/java/org/apache/geode/management/internal/api/LocatorClusterManagementServiceTest.java:168-178 | listing with group "cluster" still reads and lists "cluster" and "group1" |
| ServiceScenarios.ListRegionInClusterAndGroup1 | geode-core/src/test/java/org/apache/geode/management/internal/api/LocatorClusterManagementServiceTest.java:180-202 | region1 in "cluster" and "group1" is listed once, with both groups and its REPLICATE type |
| ServiceScenarios.DeleteUnknown | geode-core/src/test/java/org/apache/geode/management/internal/api/LocatorClusterManagementServiceTest.java:204-211 | deleting "unknown" throws EntityNotFound "Cache element 'unknown' does not exist" |
| ServiceScenarios.DeleteUsingGroup | geode-core/src/test/java/org/apache/geode/management/internal/api/LocatorClusterManagementServiceTest.java:213-221 | deleting with group "group1" throws IllegalArgumentException with the exact message |
| ServiceScenarios.DeletePartialFailure | geode-core/src/test/java/org/apache/geode/management/internal/api/LocatorClusterManagementServiceTest.java:223-245 | with member2 failing, delete fails with the partial-failure message and the cluster document keeps its region |
| ServiceScenarios.DeleteSucceedsOnAllMembers | geode-core/src/test/java/org/apache/geode/management/internal/api/LocatorClusterManagementServiceTest.java:247-270 | with both members successful, delete succeeds and the cluster document is empty |
| ServiceScenarios.DeleteWithNoMember | geode-core/src/test/java/org/apache/geode/management/internal/api/LocatorClusterManagementServiceTest.java:272-287 | with no member found, delete succeeds with no member statuses and the message "Successfully removed config for [cluster]" |
| RegisterDriverFunction.ExecuteFunction | geode-connectors/src/test/java/org/apache/geode/connectors/jdbc/internal/cli/RegisterDriverFunctionTest.java:51-68 | the result names the member; it is OK iff a driver class was given and registered; then the message is the success message, otherwise the exception's message |
| RegisterDriverFunction.DriverNamed | geode-connectors/src/test/java/org/apache/geode/connectors/jdbc/internal/cli/RegisterDriverFunctionTest.java:51-57 | a success message it accepts is the success message of the driver class it returns |
| RegisterDriverFunction.SuccessMessageRoundTrip | geode-connectors/src/test/java/org/apache/geode/connectors/jdbc/internal/cli/RegisterDriverFunctionTest.java:51-57 | the success message gives back the driver class it was made for |
| RegisterDriverFunction.SuccessMessageInjective | geode-connectors/src/test/java/org/apache/geode/connectors/jdbc/internal/cli/RegisterDriverFunctionTest.java:51-57 | different driver classes never share a success message |
| RegisterDriverFunction.RegisteredReportsDriver | geode-connectors/src/test/java/org/apache/geode/connectors/jdbc/internal/cli/RegisterDriverFunctionTest.java:51-57 | a registered driver gives status OK and a message containing "<class> was succesfully registered." |
| RegisterDriverFunction.ThrownReportsMessage | geode-connectors/src/test/java/org/apache/geode/connectors/jdbc/internal/cli/RegisterDriverFunctionTest.java:59-68 | a registration that threw gives status ERROR and a message containing the exception's message |
| RegisterDriverFunction.RunOnMembers | geode-connectors/src/test/java/org/apache/geode/connectors/jdbc/internal/cli/RegisterDriverFunctionTest.java:41-49 | run on the targeted members, the function gives one result per member, in order, each naming that member (:46) and OK exactly when a driver class was given and that member registered it |
| RegisterDriverFunction.RegistrationVerdict | geode-connectors/src/test/java/org/apache/geode/connectors/jdbc/internal/cli/RegisterDriverFunctionTest.java:51-68 | the collected verdict over the members is successful iff no member was targeted, or a class was given and every member registered it |
| RegisterDriverFunction.DriverRegistersScenario | geode-connectors/src/test/java/org/apache/geode/connectors/jdbc/internal/cli/RegisterDriverFunctionTest.java:51-57 | "Test.Driver.Name" registered gives OK and "Test.Driver.Name was succesfully registered." |
| RegisterDriverFunction.DriverThrowsScenario | geode-connectors/src/test/java/org/apache/geode/connectors/jdbc/internal/cli/RegisterDriverFunctionTest.java:59-68 | ClassNotFoundException "Test class not found" gives ERROR and that message |

## Left out

- The production source of `LocatorClusterManagementService`, its managers and validators, the persistence service and `RegisterDriverFunction` is not part of this model; only their unit tests are. The class `LocatorClusterManagementService` and `RegisterDriverFunction.ExecuteFunction` reproduce the behaviour those tests drive. Where the tests show no text or no branch, the model makes its own choice; each such choice is listed below.
- Member discovery (`findMembers`) and remote execution (`executeAndGetFunctionResult`) are network calls. They are parameters: the set of targeted members and the results they sent back. When no member is targeted, nothing is dispatched and no result counts.
- The shared-configuration lock is a flag and a counter. Locking never fails, and concurrent requests and the distributed lock service are not modelled.
- Persisting a document to the configuration region and to disk (`updateCacheConfig`, `getConfigurationRegion`) is an assignment of the new document under the lock. Region I/O and XML serialization are not modelled.
- Region configurations keep only their identity and type. Other attributes and other element types than RegionConfig and MemberConfig are not modelled. The registry of managers and validators is fixed: only RegionConfig has both.
- The validators' internals are not modelled. They are reduced to three checks: on create only, the identity is not blank; on delete only, no group is given; and the existence check (the target group's document on create, the cluster document on delete).
- LocatorClusterManagementService.Create: after a partial failure on the members, create leaves the documents unchanged. The failing test stubs nothing needed to write the configuration region (the successful one does), so the write cannot have happened there. A write-before-dispatch ordering without rollback is not modelled.
- LocatorClusterManagementService.Create: a duplicate identity throws EntityExists with the message "cache element <id> already exists."; that message is this model's own.
- LocatorClusterManagementService.Create: on success the message is "Successfully persisted config for <group>"; no test shows that text, so it is this model's own, built like the delete message.
- LocatorClusterManagementService.Create: a blank identity returns an unsuccessful result with the message "id cannot be null or blank"; that message is this model's own.
- LocatorClusterManagementService.Create: the existence check looks at the target group's document. Which document the validator is handed is not shown; this is the model's choice.
- LocatorClusterManagementService.Delete: a region created only in a named group can never be deleted. Delete refuses an element that names a group, and looks the identity up in the cluster document only, so it throws EntityNotFound. ServiceProperties.CreateThenDelete therefore covers elements without a group only.
- ServiceScenarios.CreateWithNoMember: the test verifies which validator calls are made; those calls are not modelled, and the scenario states the outcome of that create instead.
- ServiceProperties.UnsupportedTypeRefused: only create is shown refusing MemberConfig; delete and list refusing it the same way, before the lock, is this model's extension.
- LocatorClusterManagementService.List: a service without persistence returns an unsuccessful result, as create and delete do.
- RegisterDriverFunction.ExecuteFunction: the driver class argument is a string. The cast failure of a non-string argument is not modelled. Reading a missing argument is reported with an index-out-of-bounds message whose exact text is this model's own.
- Logging and the mocking and spying of the tests are not modelled.
