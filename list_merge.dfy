/** The cross-group merge of list: the regions found in each group's document
    are folded into one sequence of RuntimeRegionConfig, where a region found
    in several groups appears once, with the union of those groups. */
module ListMerge {
  import opened Strings
  import opened RegionConfigs

  /** Identities of the regions that Manager.list reports for group `g` under the name filter. */
  function Found(docs: Docs, g: string, filterName: string): set<string> {
    NamesOf(Select(DocOf(docs, g), filterName))
  }

  function ProjNames(ps: seq<RuntimeRegionConfig>): set<string> {
    set p | p in ps :: p.config.name
  }

  predicate UniqueProjections(ps: seq<RuntimeRegionConfig>) {
    forall i, j :: 0 <= i < j < |ps| ==> ps[i].config.name != ps[j].config.name
  }

  /** indexOf by identity: the first position holding `name`, or -1. */
  function IndexOf(ps: seq<RuntimeRegionConfig>, name: string): (k: int)
    ensures -1 <= k < |ps|
    ensures k >= 0 ==> ps[k].config.name == name
    ensures k < 0 <==> name !in ProjNames(ps)
  {
    if ps == [] then -1
    else if ps[0].config.name == name then 0
    else
      var k := IndexOf(ps[1..], name);
      assert forall p :: p in ps && p != ps[0] ==> p in ps[1..];
      if k < 0 then -1 else k + 1
  }

  /** One region found in group `g`: an equal entry gains `g`, otherwise a new
      entry with the single group `g` is appended. */
  function MergeOne(acc: seq<RuntimeRegionConfig>, r: RegionConfig, g: string): (a: seq<RuntimeRegionConfig>)
    requires UniqueProjections(acc)
    ensures UniqueProjections(a)
    ensures ProjNames(a) == ProjNames(acc) + {r.name}
    ensures |acc| <= |a| <= |acc| + 1
    ensures forall i :: 0 <= i < |acc| ==>
      a[i].config == acc[i].config &&
      a[i].groups == acc[i].groups + (if acc[i].config.name == r.name then {g} else {})
    ensures forall i :: |acc| <= i < |a| ==>
      a[i] == RuntimeRegionConfig(r, {g}) && r.name !in ProjNames(acc)
  {
    var k := IndexOf(acc, r.name);
    if k >= 0 then
      GainGroup(acc, k, g);
      acc[k := acc[k].(groups := acc[k].groups + {g})]
    else
      AppendEntry(acc, RuntimeRegionConfig(r, {g}));
      acc + [RuntimeRegionConfig(r, {g})]
  }

  /** The entry at `k` gains group `g`; identities, and every other entry, stay. */
  lemma GainGroup(acc: seq<RuntimeRegionConfig>, k: int, g: string)
    requires UniqueProjections(acc) && 0 <= k < |acc|
    ensures var a := acc[k := acc[k].(groups := acc[k].groups + {g})];
      && UniqueProjections(a)
      && ProjNames(a) == ProjNames(acc)
  {
    var a := acc[k := acc[k].(groups := acc[k].groups + {g})];
    forall p | p in a ensures p.config.name in ProjNames(acc) {
      var i :| 0 <= i < |a| && a[i] == p;
      assert acc[i] in acc;
    }
    forall p | p in acc ensures p.config.name in ProjNames(a) {
      var i :| 0 <= i < |acc| && acc[i] == p;
      assert a[i] in a;
    }
  }

  /** A new entry whose identity is not yet present keeps identities unique. */
  lemma AppendEntry(acc: seq<RuntimeRegionConfig>, p: RuntimeRegionConfig)
    requires UniqueProjections(acc) && p.config.name !in ProjNames(acc)
    ensures UniqueProjections(acc + [p])
    ensures ProjNames(acc + [p]) == ProjNames(acc) + {p.config.name}
  {
    assert forall i :: 0 <= i < |acc| ==> acc[i] in acc;
  }

  /** All regions Manager.list found in group `g`, merged in order. */
  function MergeGroup(acc: seq<RuntimeRegionConfig>, found: Doc, g: string): seq<RuntimeRegionConfig>
    requires UniqueProjections(acc)
    decreases |found|
  {
    if found == [] then acc
    else
      var a := MergeOne(acc, found[0], g);
      MergeGroup(a, found[1..], g)
  }

  /** Every group of `gs` visited in turn, its document read and listed, and
      its findings merged. */
  function MergeAll(acc: seq<RuntimeRegionConfig>, gs: seq<string>, docs: Docs, filterName: string): seq<RuntimeRegionConfig>
    requires UniqueProjections(acc)
    decreases |gs|
  {
    if gs == [] then acc
    else
      var a := MergeGroup(acc, Select(DocOf(docs, gs[0]), filterName), gs[0]);
      MergeGroupFacts(acc, Select(DocOf(docs, gs[0]), filterName), gs[0]);
      MergeAll(a, gs[1..], docs, filterName)
  }

  /** The group filter of list, applied after the merge: blank keeps all,
      otherwise the entries whose group set holds `group`. */
  function ByGroup(ps: seq<RuntimeRegionConfig>, group: string): (r: seq<RuntimeRegionConfig>)
    ensures forall p :: p in r <==> p in ps && (IsBlank(group) || group in p.groups)
  {
    if IsBlank(group) then ps else InGroup(ps, group)
  }

  function InGroup(ps: seq<RuntimeRegionConfig>, group: string): (r: seq<RuntimeRegionConfig>)
    ensures forall p :: p in r <==> p in ps && group in p.groups
  {
    if ps == [] then []
    else if group in ps[0].groups then [ps[0]] + InGroup(ps[1..], group)
    else InGroup(ps[1..], group)
  }

  /** `a` is `acc` with the regions `found` merged in from group `g`: the old
      entries keep their region and gain `g` when their identity was found,
      and the new entries carry `g` alone, a new identity, and the first
      region found under it. */
  ghost predicate GrowsBy(acc: seq<RuntimeRegionConfig>, a: seq<RuntimeRegionConfig>, found: Doc, g: string) {
    && UniqueProjections(a)
    && ProjNames(a) == ProjNames(acc) + NamesOf(found)
    && |acc| <= |a|
    && (forall i :: 0 <= i < |acc| ==>
          a[i].config == acc[i].config &&
          a[i].groups == acc[i].groups + (if acc[i].config.name in NamesOf(found) then {g} else {}))
    && (forall i :: |acc| <= i < |a| ==>
          && a[i].groups == {g} && a[i].config.name in NamesOf(found) && a[i].config.name !in ProjNames(acc)
          && a[i].config == FirstNamed(found, a[i].config.name))
  }

  lemma GrowsByTrans(acc: seq<RuntimeRegionConfig>, a1: seq<RuntimeRegionConfig>, a: seq<RuntimeRegionConfig>,
                     f1: Doc, f2: Doc, f: Doc, g: string)
    requires GrowsBy(acc, a1, f1, g) && GrowsBy(a1, a, f2, g) && f == f1 + f2
    ensures GrowsBy(acc, a, f, g)
  {
    NamesOfAppend(f1, f2);
    forall i | 0 <= i < |acc|
      ensures a[i].groups == acc[i].groups + (if acc[i].config.name in NamesOf(f1 + f2) then {g} else {})
    {
      assert a1[i].config == acc[i].config;
    }
    forall i | |acc| <= i < |a|
      ensures && a[i].groups == {g} && a[i].config.name in NamesOf(f1 + f2) && a[i].config.name !in ProjNames(acc)
              && a[i].config == FirstNamed(f1 + f2, a[i].config.name)
    {
      if i >= |a1| {
        assert a[i].config.name !in ProjNames(a1);
      } else {
        assert a1[i].config.name !in ProjNames(acc);
        assert a[i].config == a1[i].config;
      }
      FirstNamedAppend(f1, f2, a[i].config.name);
    }
  }

  /** What merging one group's findings does to the accumulated entries. */
  lemma {:induction false} MergeGroupFacts(acc: seq<RuntimeRegionConfig>, found: Doc, g: string)
    requires UniqueProjections(acc)
    ensures GrowsBy(acc, MergeGroup(acc, found, g), found, g)
    decreases |found|
  {
    if found != [] {
      var a1 := MergeOne(acc, found[0], g);
      MergeOneGrows(acc, found[0], g);
      MergeGroupFacts(a1, found[1..], g);
      assert [found[0]] + found[1..] == found;
      GrowsByTrans(acc, a1, MergeGroup(a1, found[1..], g), [found[0]], found[1..], found, g);
    } else {
      assert NamesOf(found) == {};
    }
  }

  /** Merging one region is growing by a document of that region alone. */
  lemma MergeOneGrows(acc: seq<RuntimeRegionConfig>, r: RegionConfig, g: string)
    requires UniqueProjections(acc)
    ensures GrowsBy(acc, MergeOne(acc, r, g), [r], g)
  {
    assert NamesOf([r]) == {r.name};
  }

  /** Everything Manager.list reported over the groups `gs`, in visiting order. */
  function Listed(gs: seq<string>, docs: Docs, filterName: string): Doc
    decreases |gs|
  {
    if gs == [] then []
    else Listed(gs[..|gs| - 1], docs, filterName) + Select(DocOf(docs, gs[|gs| - 1]), filterName)
  }

  /** `ps` is exactly the merge of the groups `done`: one entry per identity,
      whose group set is the set of visited groups where it was found and
      whose region is the first one reported under that identity, and every
      identity found in a visited group has an entry. */
  ghost predicate Summarizes(ps: seq<RuntimeRegionConfig>, done: seq<string>, docs: Docs, filterName: string) {
    GroupsSummarized(ps, done, docs, filterName) && FirstRegions(ps, Listed(done, docs, filterName))
  }

  /** One entry per identity, carrying exactly the visited groups that hold it. */
  ghost predicate GroupsSummarized(ps: seq<RuntimeRegionConfig>, done: seq<string>, docs: Docs, filterName: string) {
    && UniqueProjections(ps)
    && (forall i, g :: 0 <= i < |ps| ==>
          (g in ps[i].groups <==> g in done && ps[i].config.name in Found(docs, g, filterName)))
    && (forall g, n :: g in done && n in Found(docs, g, filterName) ==> n in ProjNames(ps))
    && (forall i :: 0 <= i < |ps| ==> ps[i].groups != {})
  }

  /** Every identity of `listed` has an entry, whose region is the first one
      of `listed` under that identity. */
  ghost predicate FirstRegions(ps: seq<RuntimeRegionConfig>, listed: Doc) {
    && (forall n :: n in NamesOf(listed) ==> n in ProjNames(ps))
    && (forall i :: 0 <= i < |ps| ==>
          ps[i].config.name in NamesOf(listed) && ps[i].config == FirstNamed(listed, ps[i].config.name))
  }

  /** Merging one group's findings after the regions `before` keeps every
      entry's region the first one reported under its identity. */
  lemma FirstRegionsKept(acc: seq<RuntimeRegionConfig>, a: seq<RuntimeRegionConfig>, found: Doc, g: string, before: Doc)
    requires GrowsBy(acc, a, found, g)
    requires FirstRegions(acc, before)
    ensures FirstRegions(a, before + found)
  {
    NamesOfAppend(before, found);
    forall i | 0 <= i < |a|
      ensures && a[i].config.name in NamesOf(before + found)
              && a[i].config == FirstNamed(before + found, a[i].config.name)
    {
      if i < |acc| {
        assert a[i].config == acc[i].config;
      }
      FirstNamedAppend(before, found, a[i].config.name);
    }
  }

  lemma MergeGroupGroups(acc: seq<RuntimeRegionConfig>, done: seq<string>, g: string, docs: Docs, filterName: string)
    requires GroupsSummarized(acc, done, docs, filterName)
    ensures GroupsSummarized(MergeGroup(acc, Select(DocOf(docs, g), filterName), g), done + [g], docs, filterName)
  {
    var found := Select(DocOf(docs, g), filterName);
    var a := MergeGroup(acc, found, g);
    MergeGroupFacts(acc, found, g);
    var names := NamesOf(found);
    assert names == Found(docs, g, filterName);
    forall i, h | 0 <= i < |a|
      ensures h in a[i].groups <==> h in done + [g] && a[i].config.name in Found(docs, h, filterName)
    {
      if i < |acc| {
        assert a[i].config == acc[i].config;
        assert h in acc[i].groups <==> h in done && acc[i].config.name in Found(docs, h, filterName);
      } else {
        assert a[i].groups == {g};
        assert a[i].config.name !in ProjNames(acc);
      }
    }
    forall h, n | h in done + [g] && n in Found(docs, h, filterName)
      ensures n in ProjNames(a)
    {
      if h in done {
        assert n in ProjNames(acc);
      }
    }
    forall i | 0 <= i < |a| ensures a[i].groups != {} {
      if i < |acc| {
        assert acc[i].groups != {};
      } else {
        assert g in a[i].groups;
      }
    }
  }

  lemma MergeGroupSummarizes(acc: seq<RuntimeRegionConfig>, done: seq<string>, g: string, docs: Docs, filterName: string)
    requires Summarizes(acc, done, docs, filterName)
    ensures Summarizes(MergeGroup(acc, Select(DocOf(docs, g), filterName), g), done + [g], docs, filterName)
  {
    var found := Select(DocOf(docs, g), filterName);
    MergeGroupFacts(acc, found, g);
    MergeGroupGroups(acc, done, g, docs, filterName);
    var before := Listed(done, docs, filterName);
    assert (done + [g])[..|done|] == done;
    assert Listed(done + [g], docs, filterName) == before + found;
    FirstRegionsKept(acc, MergeGroup(acc, found, g), found, g, before);
  }

  lemma {:induction false} MergeAllSummarizes(acc: seq<RuntimeRegionConfig>, done: seq<string>, gs: seq<string>, docs: Docs, filterName: string)
    requires Summarizes(acc, done, docs, filterName)
    ensures Summarizes(MergeAll(acc, gs, docs, filterName), done + gs, docs, filterName)
    decreases |gs|
  {
    if gs != [] {
      var g := gs[0];
      var a := MergeGroup(acc, Select(DocOf(docs, g), filterName), g);
      MergeGroupSummarizes(acc, done, g, docs, filterName);
      var done' := done + [g];
      assert done' + gs[1..] == done + gs;
      MergeAllSummarizes(a, done', gs[1..], docs, filterName);
    } else {
      assert done + gs == done;
    }
  }

  /** The merge law of list: over the groups `gs`, one entry per identity,
      each carrying exactly the groups whose documents hold it, and no
      identity found in any group is missed. */
  lemma MergeLaw(gs: seq<string>, docs: Docs, filterName: string)
    ensures Summarizes(MergeAll([], gs, docs, filterName), gs, docs, filterName)
  {
    assert [] + gs == gs;
    assert NamesOf(Listed([], docs, filterName)) == {};
    MergeAllSummarizes([], [], gs, docs, filterName);
  }
}
