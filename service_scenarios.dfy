/** The service's unit-test scenarios replayed on the model: each method sets
    up the store the test stubs, runs the request with the members and member
    results the test stubs, and promises what the test asserts. */
module ServiceScenarios {
  import opened Strings
  import opened FunctionResults
  import opened RegionConfigs
  import opened ClusterManagementResults
  import opened ListMerge
  import opened ClusterManagementService
  import opened ServiceProperties

  /** A region named `name` with no group and no type. */
  function Region(name: string): CacheElement {
    CacheElement(RegionConfigType, name, "", "")
  }

  /** member1 succeeds; member2 fails with the message "failed". */
  function PartialFailure(): seq<CliFunctionResult> {
    [FromFlag("member1", true, "success"), FromFlag("member2", false, "failed")]
  }

  /** Both members succeed, member2 still saying "failed". */
  function AllSucceed(): seq<CliFunctionResult> {
    [FromFlag("member1", true, "success"), FromFlag("member2", true, "failed")]
  }

  /** create_persistenceIsNull. */
  method CreateWithoutPersistence() returns (out: Outcome)
    ensures out.Returned? && !out.result.successful
    ensures Contains(out.result.statusMessage, "Cluster configuration service needs to be enabled")
  {
    var service := new LocatorClusterManagementService(false, map[Cluster := []], [Cluster]);
    out := service.Create(Region("region1"), {}, []);
    ContainsSelf(DisabledMessage);
  }

  /** create_validatorIsCalledCorrectly: with no member found, create runs
      its checks, succeeds with no member status, and the cluster document
      holds region1. */
  method CreateWithNoMember() returns (out: Outcome, clusterRegions: Doc)
    ensures out.Returned? && out.result.successful
    ensures out.result.memberStatuses == []
    ensures clusterRegions == [RegionConfig("region1", "")]
  {
    var service := new LocatorClusterManagementService(true, map[Cluster := []], [Cluster]);
    assert !IsWhitespace("region1"[0]);
    out := service.Create(Region("region1"), {}, []);
    ReconcileVerdict([], PersistedMessage(Cluster));
    clusterRegions := service.docs[Cluster];
  }

  /** create_partialFailureOnMembers: the request fails and the cluster
      document stays empty. */
  method CreatePartialFailure() returns (out: Outcome, clusterRegions: nat)
    ensures out.Returned? && !out.result.successful
    ensures Contains(out.result.statusMessage, "Failed to apply the update on all members")
    ensures clusterRegions == 0
  {
    var service := new LocatorClusterManagementService(true, map[Cluster := []], [Cluster]);
    assert !IsWhitespace("test"[0]);
    out := service.Create(Region("test"), {"member"}, PartialFailure());
    assert !PartialFailure()[1].IsSuccessful();
    ReconcileVerdict(PartialFailure(), PersistedMessage(Cluster));
    clusterRegions := |service.docs[Cluster]|;
    ContainsSelf(PartialFailureMessage);
  }

  /** create_succeedsOnAllMembers: the request succeeds and the cluster
      document holds exactly one region. */
  method CreateSucceedsOnAllMembers() returns (out: Outcome, clusterRegions: nat)
    ensures out.Returned? && out.result.successful
    ensures clusterRegions == 1
  {
    var service := new LocatorClusterManagementService(true, map[Cluster := []], [Cluster]);
    assert !IsWhitespace("test"[0]);
    out := service.Create(Region("test"), {"member"}, AllSucceed());
    ReconcileVerdict(AllSucceed(), PersistedMessage(Cluster));
    clusterRegions := |service.docs[Cluster]|;
  }

  /** create_non_supportedConfigObject. */
  method CreateMemberConfig() returns (out: Outcome)
    ensures out.Thrown? && out.exception.IllegalArgument?
    ensures Contains(out.exception.message, "Configuration type MemberConfig is not supported")
  {
    var service := new LocatorClusterManagementService(true, map[Cluster := []], [Cluster]);
    out := service.Create(CacheElement(MemberConfigType, "", "", ""), {}, []);
    UnsupportedMemberConfigText();
    ContainsSelf(UnsupportedMessage(MemberConfigType));
  }

  /** list_oneGroup: listing with the group filter "cluster" still reads and
      lists both known groups. */
  method ListOneGroup() returns (out: Outcome, visited: seq<string>)
    ensures out.Returned? && out.result.successful
    ensures visited == ["cluster", "group1"]
  {
    var service := new LocatorClusterManagementService(true, map[Cluster := [], "group1" := []], [Cluster, "group1"]);
    out, visited := service.List(CacheElement(RegionConfigType, "region1", "cluster", ""));
  }

  /** list_aRegionInClusterAndGroup1: the same region in "cluster" and in
      "group1" is listed once, with both groups. */
  method ListRegionInClusterAndGroup1() returns (out: Outcome)
    ensures out.Returned?
    ensures |out.result.result| == 1
    ensures out.result.result[0].config.name == "region1"
    ensures out.result.result[0].groups == {"cluster", "group1"}
    ensures out.result.result[0].config == RegionConfig("region1", "REPLICATE")
  {
    var docs := ClusterAndGroup1();
    var service := new LocatorClusterManagementService(true, docs, [Cluster, "group1"]);
    var visited;
    out, visited := service.List(CacheElement(RegionConfigType, "", "", ""));
    assert IsBlank("");
    ClusterAndGroup1Merged();
  }

  /** region1, of type REPLICATE, in the documents of "cluster" and "group1". */
  function ClusterAndGroup1(): Docs {
    map[Cluster := [RegionConfig("region1", "REPLICATE")], "group1" := [RegionConfig("region1", "REPLICATE")]]
  }

  /** Merging the two documents gives one entry: region1 with both groups. */
  lemma ClusterAndGroup1Merged()
    ensures var ps := MergeAll([], [Cluster, "group1"], ClusterAndGroup1(), "");
      && |ps| == 1 && ps[0].config == RegionConfig("region1", "REPLICATE")
      && ps[0].groups == {"cluster", "group1"}
  {
    var docs := ClusterAndGroup1();
    var region1 := RegionConfig("region1", "REPLICATE");
    assert IsBlank("");
    assert Select(DocOf(docs, Cluster), "") == [region1] && Select(DocOf(docs, "group1"), "") == [region1];
    assert Found(docs, Cluster, "") == {"region1"} && Found(docs, "group1", "") == {"region1"};
    ListOneIdentity(docs, [Cluster, "group1"], "", "region1", Cluster);
    assert [Cluster, "group1"][..1] == [Cluster] && [Cluster][..0] == [];
    assert Listed([Cluster], docs, "") == [region1];
    assert Listed([Cluster, "group1"], docs, "") == [region1, region1];
  }

  /** The cluster document holding one region named "test". */
  function TestInCluster(): Docs {
    map[Cluster := [RegionConfig("test", "")]]
  }

  /** delete_unknownRegionFails. */
  method DeleteUnknown() returns (out: Outcome)
    ensures out == Thrown(EntityNotFound("Cache element 'unknown' does not exist"))
  {
    var service := new LocatorClusterManagementService(true, map[Cluster := []], [Cluster]);
    out := service.Delete(Region("unknown"), {}, []);
    NotFoundText();
  }

  /** delete_usingGroupFails. */
  method DeleteUsingGroup() returns (out: Outcome)
    ensures out == Thrown(IllegalArgument("group is an invalid option when deleting an element from the cache."))
  {
    var service := new LocatorClusterManagementService(true, map[Cluster := []], [Cluster]);
    assert !IsWhitespace("group1"[0]);
    out := service.Delete(CacheElement(RegionConfigType, "test", "group1", ""), {}, []);
  }

  /** delete_partialFailureOnMembers: the request fails and the region stays. */
  method DeletePartialFailure() returns (out: Outcome, clusterRegions: nat)
    ensures out.Returned? && !out.result.successful
    ensures Contains(out.result.statusMessage, "Failed to apply the update on all members")
    ensures clusterRegions == 1
  {
    var service := new LocatorClusterManagementService(true, TestInCluster(), [Cluster]);
    assert Exists("test", TestInCluster()[Cluster]);
    out := service.Delete(Region("test"), {"member"}, PartialFailure());
    assert !PartialFailure()[1].IsSuccessful();
    ReconcileVerdict(PartialFailure(), RemovedMessage([Cluster]));
    clusterRegions := |service.docs[Cluster]|;
    ContainsSelf(PartialFailureMessage);
  }

  /** delete_succeedsOnAllMembers: the request succeeds and the cluster
      document is left empty. */
  method DeleteSucceedsOnAllMembers() returns (out: Outcome, clusterRegions: nat)
    ensures out.Returned? && out.result.successful
    ensures clusterRegions == 0
  {
    var service := new LocatorClusterManagementService(true, TestInCluster(), [Cluster]);
    assert Exists("test", TestInCluster()[Cluster]);
    out := service.Delete(Region("test"), {"member"}, AllSucceed());
    ReconcileVerdict(AllSucceed(), RemovedMessage(GroupsContaining([Cluster], TestInCluster(), "test")));
    clusterRegions := |service.docs[Cluster]|;
    assert service.docs[Cluster] == Without([RegionConfig("test", "")], "test");
  }

  /** deleteWithNoMember: with no member found, the region is still removed,
      no member status is reported, and the message names the cluster group. */
  method DeleteWithNoMember() returns (out: Outcome)
    ensures out.Returned? && out.result.successful
    ensures out.result.memberStatuses == []
    ensures Contains(out.result.statusMessage, "Successfully removed config for [cluster]")
  {
    var docs := map[Cluster := [RegionConfig("region1", "")]];
    var service := new LocatorClusterManagementService(true, docs, [Cluster]);
    assert Exists("region1", docs[Cluster]);
    out := service.Delete(Region("region1"), {}, [AllSucceed()[0]]);
    assert [Cluster][..0] == [];
    assert GroupsContaining([Cluster], docs, "region1") == [Cluster];
    ReconcileVerdict([], RemovedMessage([Cluster]));
    RemovedFromClusterText();
    ContainsSelf(out.result.statusMessage);
  }
}
