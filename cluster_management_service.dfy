/** The locator's cluster-management service (LocatorClusterManagementService):
    create, list and delete of configuration elements over a store holding one
    document per group, with member discovery and remote execution passed in
    as the set of target members and the results they sent back.

    Each request is specified by a function of the store it starts from
    (CreateSpec, DeleteSpec, ListSpec); the class's methods carry out the
    request step by step on the store's fields and are proved to agree with
    those functions, and the lemmas below state what the functions promise. */
module ClusterManagementService {
  import opened Strings
  import opened FunctionResults
  import opened RegionConfigs
  import opened ClusterManagementResults
  import opened ListMerge

  const Cluster := "cluster"

  /** The element types a request may carry. */
  datatype ElementType = RegionConfigType | MemberConfigType

  function TypeName(k: ElementType): string {
    match k
    case RegionConfigType => "RegionConfig"
    case MemberConfigType => "MemberConfig"
  }

  /** The registry of managers and validators: only region configurations have both. */
  predicate IsSupported(k: ElementType) {
    k == RegionConfigType
  }

  /** A request's element; a blank group means the cluster group. */
  datatype CacheElement = CacheElement(kind: ElementType, name: string, group: string, regionType: string)

  function ConfigGroup(e: CacheElement): string {
    if IsBlank(e.group) then Cluster else e.group
  }

  function RegionOf(e: CacheElement): RegionConfig {
    RegionConfig(e.name, e.regionType)
  }

  /** The exceptions a request can throw at its caller. */
  datatype Exception =
    | IllegalArgument(message: string)
    | EntityNotFound(message: string)
    | EntityExists(message: string)

  /** A request either returns a result or throws. */
  datatype Outcome = Returned(result: ClusterManagementResult) | Thrown(exception: Exception)

  const DisabledMessage := "Cluster configuration service needs to be enabled"
  const BlankIdMessage := "id cannot be null or blank"
  const GroupOnDeleteMessage := "group is an invalid option when deleting an element from the cache."

  function UnsupportedMessage(k: ElementType): string {
    "Configuration type " + TypeName(k) + " is not supported"
  }

  function ExistsMessage(name: string): string {
    "cache element " + name + " already exists."
  }

  function NotFoundMessage(name: string): string {
    "Cache element '" + name + "' does not exist"
  }

  function PersistedMessage(group: string): string {
    "Successfully persisted config for " + group
  }

  function RemovedMessage(groups: seq<string>): string {
    "Successfully removed config for " + ListString(groups)
  }

  predicate Distinct(xs: seq<string>) {
    forall i, j :: 0 <= i < j < |xs| ==> xs[i] != xs[j]
  }

  /** The store's invariant: the cluster document always exists, the known
      groups are exactly the documents' groups, each listed once, and no
      document holds two regions with one identity. */
  predicate StoreOk(docs: Docs, groups: seq<string>) {
    && Cluster in docs
    && GroupsIndexDocs(docs, groups)
    && AllUnique(docs)
  }

  /** The known groups list each document's group exactly once. */
  predicate GroupsIndexDocs(docs: Docs, groups: seq<string>) {
    && (forall g :: g in docs ==> g in groups)
    && (forall g :: g in groups ==> g in docs)
    && Distinct(groups)
  }

  predicate AllUnique(docs: Docs) {
    forall g :: g in docs ==> UniqueNames(docs[g])
  }

  /** The members' results that count: none when no member was targeted
      (nothing is dispatched then), otherwise what the dispatcher returned. */
  function Targeted(members: set<string>, dispatched: seq<CliFunctionResult>): seq<CliFunctionResult> {
    if members == {} then [] else dispatched
  }

  /** The groups of `gs`, in order, whose documents hold `name`. */
  function GroupsContaining(gs: seq<string>, docs: Docs, name: string): (r: seq<string>)
    ensures forall g :: g in r <==> g in gs && Exists(name, DocOf(docs, g))
    decreases |gs|
  {
    if gs == [] then []
    else
      var init := gs[..|gs| - 1];
      var last := gs[|gs| - 1];
      assert forall g :: g in gs <==> g in init || g == last;
      GroupsContaining(init, docs, name) + (if Exists(name, DocOf(docs, last)) then [last] else [])
  }

  /** Every document with the identity removed. */
  function RemoveEverywhere(docs: Docs, name: string): Docs {
    map g | g in docs :: Without(docs[g], name)
  }

  /** After removing an identity everywhere, every group keeps its document,
      no document holds the identity, and each keeps exactly its regions of
      other identities. */
  lemma RemovedFromEveryDocument(docs: Docs, name: string)
    ensures var r := RemoveEverywhere(docs, name);
      && r.Keys == docs.Keys
      && (forall g :: g in docs ==> !Exists(name, r[g]))
      && (forall g, x :: g in docs ==> (x in r[g] <==> x in docs[g] && x.name != name))
  {
  }

  /** The documents after visiting the groups `gs` in order and rewriting
      each one that holds the identity without it. */
  function RemovedIn(docs: Docs, gs: seq<string>, name: string): Docs
    decreases |gs|
  {
    if gs == [] then docs
    else
      var d := RemovedIn(docs, gs[..|gs| - 1], name);
      var g := gs[|gs| - 1];
      if g in d && Exists(name, d[g]) then d[g := Without(d[g], name)] else d
  }

  lemma {:induction false} RemovedInAt(docs: Docs, gs: seq<string>, name: string)
    ensures RemovedIn(docs, gs, name).Keys == docs.Keys
    ensures forall h :: h in docs ==>
      RemovedIn(docs, gs, name)[h] == if h in gs then Without(docs[h], name) else docs[h]
    decreases |gs|
  {
    if gs != [] {
      var init := gs[..|gs| - 1];
      var g := gs[|gs| - 1];
      RemovedInAt(docs, init, name);
      assert forall h :: h in gs <==> h in init || h == g;
      if g in docs && g in init {
        WithoutAbsent(Without(docs[g], name), name);
      }
      if g in docs && g !in init && !Exists(name, docs[g]) {
        WithoutAbsent(docs[g], name);
      }
    }
  }

  lemma {:induction false} RemovedInUntouched(docs: Docs, gs: seq<string>, name: string, g: string)
    requires g !in gs && g in docs
    ensures g in RemovedIn(docs, gs, name) && RemovedIn(docs, gs, name)[g] == docs[g]
    decreases |gs|
  {
    if gs != [] {
      assert g !in gs[..|gs| - 1];
      RemovedInUntouched(docs, gs[..|gs| - 1], name, g);
    }
  }

  lemma RemovedInEverywhere(docs: Docs, gs: seq<string>, name: string)
    requires forall g :: g in docs ==> g in gs
    ensures RemovedIn(docs, gs, name) == RemoveEverywhere(docs, name)
  {
    RemovedInAt(docs, gs, name);
  }

  /** One more group visited by the removal loop: the group was not visited
      before, so its document is still the original one. */
  lemma NextGroup(docs: Docs, gs: seq<string>, i: int, name: string)
    requires GroupsIndexDocs(docs, gs) && 0 <= i < |gs|
    ensures var d := RemovedIn(docs, gs[..i], name);
      && gs[i] in d && d[gs[i]] == docs[gs[i]]
      && RemovedIn(docs, gs[..i + 1], name)
         == if Exists(name, d[gs[i]]) then d[gs[i] := Without(d[gs[i]], name)] else d
    ensures GroupsContaining(gs[..i + 1], docs, name)
      == GroupsContaining(gs[..i], docs, name) + (if Exists(name, docs[gs[i]]) then [gs[i]] else [])
  {
    var g := gs[i];
    assert gs[..i + 1][..i] == gs[..i];
    assert g !in gs[..i];
    RemovedInUntouched(docs, gs[..i], name, g);
  }

  /** What one request leaves behind: its outcome, the documents, the known
      groups, and whether it took the shared-configuration lock. */
  datatype Step = Step(outcome: Outcome, docs: Docs, groups: seq<string>, lockTaken: bool)

  /** create, as a function of the store it starts from. */
  function CreateSpec(enabled: bool, docs: Docs, groups: seq<string>, e: CacheElement,
                      members: set<string>, dispatched: seq<CliFunctionResult>): Step
  {
    if !enabled then Step(Returned(Failed(DisabledMessage)), docs, groups, false)
    else if !IsSupported(e.kind) then Step(Thrown(IllegalArgument(UnsupportedMessage(e.kind))), docs, groups, false)
    else if IsBlank(e.name) then Step(Returned(Failed(BlankIdMessage)), docs, groups, true)
    else
      var g := ConfigGroup(e);
      if Exists(e.name, DocOf(docs, g)) then Step(Thrown(EntityExists(ExistsMessage(e.name))), docs, groups, true)
      else
        var r := Reconcile(Targeted(members, dispatched), PersistedMessage(g));
        if !r.successful then Step(Returned(r), docs, groups, true)
        else
          Step(Returned(r), docs[g := Add(DocOf(docs, g), RegionOf(e))],
               if g in docs then groups else groups + [g], true)
  }

  /** delete, as a function of the store it starts from. */
  function DeleteSpec(enabled: bool, docs: Docs, groups: seq<string>, e: CacheElement,
                      members: set<string>, dispatched: seq<CliFunctionResult>): Step
  {
    if !enabled then Step(Returned(Failed(DisabledMessage)), docs, groups, false)
    else if !IsSupported(e.kind) then Step(Thrown(IllegalArgument(UnsupportedMessage(e.kind))), docs, groups, false)
    else if !IsBlank(e.group) then Step(Thrown(IllegalArgument(GroupOnDeleteMessage)), docs, groups, false)
    else if !Exists(e.name, DocOf(docs, Cluster)) then Step(Thrown(EntityNotFound(NotFoundMessage(e.name))), docs, groups, false)
    else
      var affected := GroupsContaining(groups, docs, e.name);
      var r := Reconcile(Targeted(members, dispatched), RemovedMessage(affected));
      if !r.successful then Step(Returned(r), docs, groups, true)
      else Step(Returned(r), RemoveEverywhere(docs, e.name), groups, true)
  }

  /** list, as a function of the store: every known group is read and listed,
      the findings are merged, and only then is the group filter applied. */
  function ListSpec(enabled: bool, docs: Docs, groups: seq<string>, filter: CacheElement): Outcome {
    if !enabled then Returned(Failed(DisabledMessage))
    else if !IsSupported(filter.kind) then Thrown(IllegalArgument(UnsupportedMessage(filter.kind)))
    else Returned(ClusterManagementResult(true, "", [], ByGroup(MergeAll([], groups, docs, filter.name), filter.group)))
  }

  class LocatorClusterManagementService {
    /** Whether a configuration persistence service is wired in. */
    const persistenceEnabled: bool
    /** The persisted document of each group (its region list). */
    var docs: Docs
    /** The known groups, in the order the store hands them out. */
    var groups: seq<string>
    /** The shared-configuration lock. */
    var locked: bool
    /** How many times the lock was taken. */
    var lockAcquisitions: nat

    /** Between requests the lock is free and the store is consistent. */
    ghost predicate Valid()
      reads this
    {
      !locked && StoreOk(docs, groups)
    }

    constructor (persistenceEnabled: bool, docs: Docs, groups: seq<string>)
      requires StoreOk(docs, groups)
      ensures Valid()
      ensures this.persistenceEnabled == persistenceEnabled
      ensures this.docs == docs && this.groups == groups && lockAcquisitions == 0
    {
      this.persistenceEnabled := persistenceEnabled;
      this.docs := docs;
      this.groups := groups;
      this.locked := false;
      this.lockAcquisitions := 0;
    }

    method Create(e: CacheElement, members: set<string>, dispatched: seq<CliFunctionResult>) returns (out: Outcome)
      requires Valid()
      modifies this
      ensures Valid()
      ensures var s := CreateSpec(persistenceEnabled, old(docs), old(groups), e, members, dispatched);
        && out == s.outcome && docs == s.docs && groups == s.groups
        && lockAcquisitions == old(lockAcquisitions) + (if s.lockTaken then 1 else 0)
    {
      if !persistenceEnabled {
        return Returned(Failed(DisabledMessage));
      }
      if !IsSupported(e.kind) {
        return Thrown(IllegalArgument(UnsupportedMessage(e.kind)));
      }
      locked, lockAcquisitions := true, lockAcquisitions + 1;
      if IsBlank(e.name) {
        locked := false;
        return Returned(Failed(BlankIdMessage));
      }
      var g := ConfigGroup(e);
      var current := DocOf(docs, g);
      if Exists(e.name, current) {
        locked := false;
        return Thrown(EntityExists(ExistsMessage(e.name)));
      }
      var statuses: seq<CliFunctionResult> := [];
      if members != {} {
        statuses := dispatched;
      }
      var result := Reconcile(statuses, PersistedMessage(g));
      if result.successful {
        AddKeepsStore(docs, groups, g, RegionOf(e));
        if g !in docs {
          groups := groups + [g];
        }
        docs := docs[g := Add(current, RegionOf(e))];
      }
      locked := false;
      out := Returned(result);
    }

    method Delete(e: CacheElement, members: set<string>, dispatched: seq<CliFunctionResult>) returns (out: Outcome)
      requires Valid()
      modifies this
      ensures Valid()
      ensures var s := DeleteSpec(persistenceEnabled, old(docs), old(groups), e, members, dispatched);
        && out == s.outcome && docs == s.docs && groups == s.groups
        && lockAcquisitions == old(lockAcquisitions) + (if s.lockTaken then 1 else 0)
    {
      if !persistenceEnabled {
        return Returned(Failed(DisabledMessage));
      }
      if !IsSupported(e.kind) {
        return Thrown(IllegalArgument(UnsupportedMessage(e.kind)));
      }
      if !IsBlank(e.group) {
        return Thrown(IllegalArgument(GroupOnDeleteMessage));
      }
      if !Exists(e.name, docs[Cluster]) {
        return Thrown(EntityNotFound(NotFoundMessage(e.name)));
      }
      ghost var before := docs;
      assert StoreOk(before, groups);
      locked, lockAcquisitions := true, lockAcquisitions + 1;
      var statuses: seq<CliFunctionResult> := [];
      if members != {} {
        statuses := dispatched;
      }
      var collected := Collect(statuses);
      if !collected.successful {
        locked := false;
        return Returned(collected.(statusMessage := PartialFailureMessage));
      }
      var affected := RemoveFromAllGroups(e.name);
      RemovedInEverywhere(before, groups, e.name);
      RemoveKeepsStore(before, groups, e.name);
      locked := false;
      out := Returned(collected.(statusMessage := RemovedMessage(affected)));
      assert out == Returned(Reconcile(Targeted(members, dispatched), RemovedMessage(GroupsContaining(groups, before, e.name))));
    }

    /** The persistence step of delete: every known group's document that
        holds the identity is rewritten without it (Manager.delete under
        updateCacheConfig); `affected` lists those groups in order. */
    method RemoveFromAllGroups(name: string) returns (affected: seq<string>)
      requires GroupsIndexDocs(docs, groups)
      modifies this`docs
      ensures docs == RemovedIn(old(docs), groups, name)
      ensures affected == GroupsContaining(groups, old(docs), name)
    {
      var start := docs;
      var d := docs;
      affected := [];
      var i := 0;
      while i < |groups|
        invariant 0 <= i <= |groups|
        invariant d == RemovedIn(start, groups[..i], name)
        invariant affected == GroupsContaining(groups[..i], start, name)
      {
        var g := groups[i];
        NextGroup(start, groups, i, name);
        if Exists(name, d[g]) {
          d := d[g := Without(d[g], name)];
          affected := affected + [g];
        }
        i := i + 1;
      }
      assert groups[..i] == groups;
      docs := d;
    }

    /** list: reads this store only; `visited` records, per known group, one
        read of its document followed by one Manager.list on it. */
    method List(filter: CacheElement) returns (out: Outcome, visited: seq<string>)
      ensures out == ListSpec(persistenceEnabled, docs, groups, filter)
      ensures visited == if persistenceEnabled && IsSupported(filter.kind) then groups else []
    {
      visited := [];
      if !persistenceEnabled {
        return Returned(Failed(DisabledMessage)), visited;
      }
      if !IsSupported(filter.kind) {
        return Thrown(IllegalArgument(UnsupportedMessage(filter.kind))), visited;
      }
      var elements: seq<RuntimeRegionConfig> := [];
      var i := 0;
      while i < |groups|
        invariant 0 <= i <= |groups|
        invariant visited == groups[..i]
        invariant UniqueProjections(elements)
        invariant MergeAll(elements, groups[i..], docs, filter.name) == MergeAll([], groups, docs, filter.name)
      {
        var g := groups[i];
        var found := Select(DocOf(docs, g), filter.name);
        visited := visited + [g];
        MergeGroupFacts(elements, found, g);
        assert groups[i..][1..] == groups[i + 1..] && groups[i..][0] == g;
        assert MergeAll(elements, groups[i..], docs, filter.name)
            == MergeAll(MergeGroup(elements, found, g), groups[i + 1..], docs, filter.name);
        elements := MergeGroup(elements, found, g);
        i := i + 1;
      }
      assert visited == groups;
      out := Returned(ClusterManagementResult(true, "", [], ByGroup(elements, filter.group)));
    }
  }

  /** Adding a region whose identity the group's document lacks keeps the
      store consistent; a group written for the first time is listed once. */
  lemma AddKeepsStore(docs: Docs, groups: seq<string>, g: string, r: RegionConfig)
    requires StoreOk(docs, groups) && !Exists(r.name, DocOf(docs, g))
    ensures StoreOk(docs[g := Add(DocOf(docs, g), r)], if g in docs then groups else groups + [g])
  {
    var docs' := docs[g := Add(DocOf(docs, g), r)];
    var groups' := if g in docs then groups else groups + [g];
    assert forall h :: h in groups' <==> h in groups || h == g;
    assert Distinct(groups') by {
      if g !in docs {
        assert g !in groups;
      }
    }
    assert AllUnique(docs') by {
      assert UniqueNames(DocOf(docs, g));
    }
  }

  /** create keeps the store consistent. */
  lemma CreatePreservesStore(enabled: bool, docs: Docs, groups: seq<string>, e: CacheElement,
                             members: set<string>, dispatched: seq<CliFunctionResult>)
    requires StoreOk(docs, groups)
    ensures var s := CreateSpec(enabled, docs, groups, e, members, dispatched);
      StoreOk(s.docs, s.groups)
  {
    var g := ConfigGroup(e);
    if enabled && IsSupported(e.kind) && !IsBlank(e.name) && !Exists(e.name, DocOf(docs, g)) {
      AddKeepsStore(docs, groups, g, RegionOf(e));
    }
  }

  /** Removing an identity from every document keeps the store consistent:
      the group list is untouched and every document stays duplicate-free. */
  lemma RemoveKeepsStore(docs: Docs, groups: seq<string>, name: string)
    requires StoreOk(docs, groups)
    ensures StoreOk(RemoveEverywhere(docs, name), groups)
  {
  }

  /** delete keeps the store consistent. */
  lemma DeletePreservesStore(enabled: bool, docs: Docs, groups: seq<string>, e: CacheElement,
                             members: set<string>, dispatched: seq<CliFunctionResult>)
    requires StoreOk(docs, groups)
    ensures var s := DeleteSpec(enabled, docs, groups, e, members, dispatched);
      StoreOk(s.docs, s.groups)
  {
    if enabled && IsSupported(e.kind) && IsBlank(e.group) && Exists(e.name, DocOf(docs, Cluster)) {
      RemoveKeepsStore(docs, groups, e.name);
    }
  }
}
