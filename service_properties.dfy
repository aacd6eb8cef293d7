/** What create, delete and list promise, stated over the request functions
    CreateSpec, DeleteSpec and ListSpec that the service's methods are proved
    to carry out. */
module ServiceProperties {
  import opened Strings
  import opened FunctionResults
  import opened RegionConfigs
  import opened ClusterManagementResults
  import opened ListMerge
  import opened ClusterManagementService

  /** Without a persistence service every request is answered with an
      unsuccessful result naming the missing service; nothing is locked or
      written. */
  lemma DisabledServiceRefuses(docs: Docs, groups: seq<string>, e: CacheElement,
                               members: set<string>, dispatched: seq<CliFunctionResult>)
    ensures var s := CreateSpec(false, docs, groups, e, members, dispatched);
      && s.outcome.Returned? && !s.outcome.result.successful
      && Contains(s.outcome.result.statusMessage, "Cluster configuration service needs to be enabled")
      && s.docs == docs && s.groups == groups && !s.lockTaken
    ensures var s := DeleteSpec(false, docs, groups, e, members, dispatched);
      && s.outcome.Returned? && !s.outcome.result.successful
      && s.docs == docs && !s.lockTaken
    ensures var o := ListSpec(false, docs, groups, e);
      o.Returned? && !o.result.successful
  {
    ContainsSelf(DisabledMessage);
  }

  /** An element type without a registered manager and validator is refused
      with IllegalArgumentException naming the type, before the lock is taken. */
  lemma UnsupportedTypeRefused(docs: Docs, groups: seq<string>, e: CacheElement,
                               members: set<string>, dispatched: seq<CliFunctionResult>)
    requires e.kind == MemberConfigType
    ensures var s := CreateSpec(true, docs, groups, e, members, dispatched);
      && s.outcome.Thrown? && s.outcome.exception.IllegalArgument?
      && Contains(s.outcome.exception.message, "Configuration type MemberConfig is not supported")
      && s.docs == docs && !s.lockTaken
    ensures var s := DeleteSpec(true, docs, groups, e, members, dispatched);
      && s.outcome == Thrown(IllegalArgument(UnsupportedMessage(e.kind)))
      && s.docs == docs && !s.lockTaken
    ensures ListSpec(true, docs, groups, e) == Thrown(IllegalArgument(UnsupportedMessage(e.kind)))
  {
    UnsupportedMemberConfigText();
    ContainsSelf(UnsupportedMessage(e.kind));
  }

  /** The unsupported-type message for MemberConfig, spelled out; kept apart
      so that the string equality is proved once. */
  lemma UnsupportedMemberConfigText()
    ensures UnsupportedMessage(MemberConfigType) == "Configuration type MemberConfig is not supported"
  {
  }

  /** The not-found message for "unknown", spelled out once. */
  lemma NotFoundText()
    ensures NotFoundMessage("unknown") == "Cache element 'unknown' does not exist"
  {
  }

  /** The removal message for the cluster group alone, spelled out once. */
  lemma RemovedFromClusterText()
    ensures RemovedMessage([Cluster]) == "Successfully removed config for [cluster]"
  {
  }

  /** Whether a request reaches the members at all: create of a new identity
      in its group, under the lock. */
  predicate CreateReachesMembers(enabled: bool, docs: Docs, e: CacheElement) {
    enabled && IsSupported(e.kind) && !IsBlank(e.name) && !Exists(e.name, DocOf(docs, ConfigGroup(e)))
  }

  /** create, once dispatched: it succeeds exactly when every member reports
      success, whatever the members' messages; the target group's document
      gains the region only then, and every other document is untouched. */
  lemma CreateVerdict(enabled: bool, docs: Docs, groups: seq<string>, e: CacheElement,
                      members: set<string>, dispatched: seq<CliFunctionResult>)
    requires CreateReachesMembers(enabled, docs, e)
    ensures var s := CreateSpec(enabled, docs, groups, e, members, dispatched);
      var rs := Targeted(members, dispatched);
      && s.outcome.Returned? && s.lockTaken
      && (s.outcome.result.successful <==> forall i :: 0 <= i < |rs| ==> rs[i].IsSuccessful())
      && |s.outcome.result.memberStatuses| == |rs|
      && (!s.outcome.result.successful ==>
            s.outcome.result.statusMessage == PartialFailureMessage && s.docs == docs && s.groups == groups)
      && (s.outcome.result.successful ==>
            && s.docs.Keys == docs.Keys + {ConfigGroup(e)}
            && s.docs[ConfigGroup(e)] == DocOf(docs, ConfigGroup(e)) + [RegionOf(e)]
            && s.groups == (if ConfigGroup(e) in docs then groups else groups + [ConfigGroup(e)])
            && (forall g :: g in docs && g != ConfigGroup(e) ==> g in s.docs && s.docs[g] == docs[g])
            && s.outcome.result.statusMessage == "Successfully persisted config for " + ConfigGroup(e))
  {
    ReconcileVerdict(Targeted(members, dispatched), PersistedMessage(ConfigGroup(e)));
  }

  /** create of an identity its group already holds throws EntityExists after
      taking the lock, and writes nothing. */
  lemma CreateDuplicateRefused(docs: Docs, groups: seq<string>, e: CacheElement,
                               members: set<string>, dispatched: seq<CliFunctionResult>)
    requires IsSupported(e.kind) && !IsBlank(e.name) && Exists(e.name, DocOf(docs, ConfigGroup(e)))
    ensures var s := CreateSpec(true, docs, groups, e, members, dispatched);
      && s.outcome == Thrown(EntityExists(ExistsMessage(e.name)))
      && s.docs == docs && s.groups == groups && s.lockTaken
  {
  }

  /** Whether delete reaches the members: an identity of the cluster document,
      asked for without a group. */
  predicate DeleteReachesMembers(enabled: bool, docs: Docs, e: CacheElement) {
    enabled && IsSupported(e.kind) && IsBlank(e.group) && Exists(e.name, DocOf(docs, Cluster))
  }

  /** A delete naming a group is refused before existence is looked at. */
  lemma DeleteWithGroupRefused(docs: Docs, groups: seq<string>, e: CacheElement,
                               members: set<string>, dispatched: seq<CliFunctionResult>)
    requires IsSupported(e.kind) && !IsBlank(e.group)
    ensures var s := DeleteSpec(true, docs, groups, e, members, dispatched);
      && s.outcome.Thrown? && s.outcome.exception.IllegalArgument?
      && s.outcome.exception.message == "group is an invalid option when deleting an element from the cache."
      && s.docs == docs && !s.lockTaken
  {
  }

  /** A delete of an identity the cluster document lacks throws
      EntityNotFound naming it, without taking the lock. */
  lemma DeleteUnknownRefused(docs: Docs, groups: seq<string>, e: CacheElement,
                             members: set<string>, dispatched: seq<CliFunctionResult>)
    requires IsSupported(e.kind) && IsBlank(e.group) && !Exists(e.name, DocOf(docs, Cluster))
    ensures var s := DeleteSpec(true, docs, groups, e, members, dispatched);
      && s.outcome == Thrown(EntityNotFound("Cache element '" + e.name + "' does not exist"))
      && s.docs == docs && !s.lockTaken
  {
  }

  /** delete, once dispatched: it succeeds exactly when every member reports
      success; on failure nothing is written, on success the identity is gone
      from every document and every other region stays, and the message lists
      the groups that held it. */
  lemma DeleteVerdict(enabled: bool, docs: Docs, groups: seq<string>, e: CacheElement,
                      members: set<string>, dispatched: seq<CliFunctionResult>)
    requires DeleteReachesMembers(enabled, docs, e)
    ensures var s := DeleteSpec(enabled, docs, groups, e, members, dispatched);
      var rs := Targeted(members, dispatched);
      && s.outcome.Returned? && s.lockTaken && s.groups == groups
      && (s.outcome.result.successful <==> forall i :: 0 <= i < |rs| ==> rs[i].IsSuccessful())
      && |s.outcome.result.memberStatuses| == |rs|
      && (!s.outcome.result.successful ==>
            s.outcome.result.statusMessage == PartialFailureMessage && s.docs == docs)
      && (s.outcome.result.successful ==>
            && s.docs.Keys == docs.Keys
            && (forall g :: g in docs ==> !Exists(e.name, s.docs[g]))
            && (forall g, x :: g in docs && x in docs[g] && x.name != e.name ==> x in s.docs[g])
            && (forall g, x :: g in docs && x in s.docs[g] ==> x in docs[g])
            && s.outcome.result.statusMessage
               == "Successfully removed config for " + ListString(GroupsContaining(groups, docs, e.name)))
  {
    ReconcileVerdict(Targeted(members, dispatched), RemovedMessage(GroupsContaining(groups, docs, e.name)));
  }

  /** With no member to run on, delete still rewrites the documents and
      reports success with no member statuses. */
  lemma DeleteWithoutMembersSucceeds(enabled: bool, docs: Docs, groups: seq<string>, e: CacheElement,
                                     dispatched: seq<CliFunctionResult>)
    requires DeleteReachesMembers(enabled, docs, e)
    ensures var s := DeleteSpec(enabled, docs, groups, e, {}, dispatched);
      && s.outcome.Returned? && s.outcome.result.successful
      && s.outcome.result.memberStatuses == []
      && s.docs == RemoveEverywhere(docs, e.name)
  {
    assert Targeted({}, dispatched) == [];
  }

  /** Creating a region that no document holds and then deleting it, both
      carried out by every member, gives back the documents started from. */
  lemma CreateThenDelete(docs: Docs, groups: seq<string>, e: CacheElement,
                         members: set<string>, dispatched: seq<CliFunctionResult>)
    requires StoreOk(docs, groups)
    requires IsSupported(e.kind) && !IsBlank(e.name) && IsBlank(e.group)
    requires forall g :: g in docs ==> !Exists(e.name, docs[g])
    requires forall i :: 0 <= i < |dispatched| ==> dispatched[i].IsSuccessful()
    ensures var c := CreateSpec(true, docs, groups, e, members, dispatched);
      var d := DeleteSpec(true, c.docs, c.groups, e, members, dispatched);
      && c.outcome.Returned? && c.outcome.result.successful
      && d.outcome.Returned? && d.outcome.result.successful
      && d.docs == docs && d.groups == groups
  {
    var rs := Targeted(members, dispatched);
    var r := RegionOf(e);
    CreateVerdict(true, docs, groups, e, members, dispatched);
    var c := CreateSpec(true, docs, groups, e, members, dispatched);
    assert c.docs == docs[Cluster := Add(docs[Cluster], r)];
    DeleteVerdict(true, c.docs, c.groups, e, members, dispatched);
    RemoveAfterAdd(docs, Cluster, r);
  }

  /** Removing an identity no document held, right after adding it to one
      document, restores every document. */
  lemma RemoveAfterAdd(docs: Docs, g: string, r: RegionConfig)
    requires g in docs
    requires forall h :: h in docs ==> !Exists(r.name, docs[h])
    ensures RemoveEverywhere(docs[g := Add(docs[g], r)], r.name) == docs
  {
    var added := docs[g := Add(docs[g], r)];
    var after := RemoveEverywhere(added, r.name);
    assert after.Keys == docs.Keys;
    forall h | h in docs
      ensures after[h] == docs[h]
    {
      assert added[h] == if h == g then Add(docs[h], r) else docs[h];
      RestoredAt(docs[h], r, h == g);
    }
    assert after == docs;
  }

  /** One document after the add and the removal: the one written gets back
      its content, the others never held the identity. */
  lemma RestoredAt(doc: Doc, r: RegionConfig, written: bool)
    requires !Exists(r.name, doc)
    ensures Without(if written then Add(doc, r) else doc, r.name) == doc
  {
    if written {
      AddThenWithout(doc, r);
    } else {
      WithoutAbsent(doc, r.name);
    }
  }

  /** The group filter of list is applied to the merged result: filtering by
      a group is the unfiltered listing restricted to entries in that group. */
  lemma ListFiltersAfterMerging(enabled: bool, docs: Docs, groups: seq<string>, filter: CacheElement)
    requires enabled && IsSupported(filter.kind)
    ensures var all := ListSpec(enabled, docs, groups, filter.(group := ""));
      var some := ListSpec(enabled, docs, groups, filter);
      && all.Returned? && some.Returned?
      && (forall p :: p in some.result.result <==> p in all.result.result && (IsBlank(filter.group) || filter.group in p.groups))
  {
    assert IsBlank("");
  }

  /** When every group's findings are at most the one identity `n`, and some
      group holds it, the list has exactly one entry: the first region
      reported under `n`, with the groups that hold it. */
  lemma ListOneIdentity(docs: Docs, groups: seq<string>, filterName: string, n: string, h: string)
    requires forall g, m :: g in groups && m in Found(docs, g, filterName) ==> m == n
    requires h in groups && n in Found(docs, h, filterName)
    ensures var ps := MergeAll([], groups, docs, filterName);
      && |ps| == 1 && ps[0].config.name == n
      && (forall g :: g in ps[0].groups <==> g in groups && n in Found(docs, g, filterName))
      && n in NamesOf(Listed(groups, docs, filterName))
      && ps[0].config == FirstNamed(Listed(groups, docs, filterName), n)
  {
    MergeLaw(groups, docs, filterName);
    OneIdentitySummary(MergeAll([], groups, docs, filterName), groups, docs, filterName, n, h);
  }

  lemma OneIdentitySummary(ps: seq<RuntimeRegionConfig>, groups: seq<string>, docs: Docs, filterName: string,
                           n: string, h: string)
    requires Summarizes(ps, groups, docs, filterName)
    requires forall g, m :: g in groups && m in Found(docs, g, filterName) ==> m == n
    requires h in groups && n in Found(docs, h, filterName)
    ensures |ps| == 1 && ps[0].config.name == n
    ensures forall g :: g in ps[0].groups <==> g in groups && n in Found(docs, g, filterName)
  {
    assert n in ProjNames(ps);
    forall i | 0 <= i < |ps|
      ensures ps[i].config.name == n
    {
      assert ps[i].groups != {};
      var g :| g in ps[i].groups;
      assert ps[i].config.name in Found(docs, g, filterName);
    }
    FirstTwoDiffer(ps);
  }

  /** Unique identities, read off the first two entries; a step of
      OneIdentitySummary kept apart. */
  lemma FirstTwoDiffer(ps: seq<RuntimeRegionConfig>)
    requires UniqueProjections(ps)
    ensures |ps| >= 2 ==> ps[0].config.name != ps[1].config.name
  {
  }

  /** The unfiltered list: one entry per identity found, each carrying exactly
      the known groups whose documents hold it. */
  lemma ListReportsGroups(enabled: bool, docs: Docs, groups: seq<string>, filter: CacheElement)
    requires enabled && IsSupported(filter.kind) && IsBlank(filter.group)
    ensures var o := ListSpec(enabled, docs, groups, filter);
      && o.Returned? && o.result.successful
      && Summarizes(o.result.result, groups, docs, filter.name)
  {
    MergeLaw(groups, docs, filter.name);
  }
}
