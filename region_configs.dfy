/** The region part of a group's persisted cache configuration (CacheConfig's
    region list) and the two per-type collaborators that work on it: the
    region ConfigurationManager (add, list, delete) and the existence check of
    the region ConfigurationValidator. All of them are pure transformations
    of one document. */
module RegionConfigs {
  import opened Strings

  /** A region definition: its identity and its region type ("REPLICATE", ...). */
  datatype RegionConfig = RegionConfig(name: string, regionType: string)

  /** What list returns: a region plus every group it was found in. */
  datatype RuntimeRegionConfig = RuntimeRegionConfig(config: RegionConfig, groups: set<string>)

  /** The region list of one group's document. */
  type Doc = seq<RegionConfig>

  /** The persisted documents, by group. */
  type Docs = map<string, Doc>

  /** getCacheConfig: the document of a group, an empty one for a group never written. */
  function DocOf(docs: Docs, g: string): Doc {
    if g in docs then docs[g] else []
  }

  function NamesOf(doc: Doc): set<string> {
    set r | r in doc :: r.name
  }

  /** No two regions of the document share an identity. */
  predicate UniqueNames(doc: Doc) {
    forall i, j :: 0 <= i < j < |doc| ==> doc[i].name != doc[j].name
  }

  lemma NamesOfCons(doc: Doc)
    requires |doc| > 0
    ensures NamesOf(doc) == {doc[0].name} + NamesOf(doc[1..])
  {
    forall n | n in NamesOf(doc) ensures n in {doc[0].name} + NamesOf(doc[1..]) {
      var r :| r in doc && r.name == n;
      if r != doc[0] {
        assert r in doc[1..];
      }
    }
  }

  lemma NamesOfAppend(d1: Doc, d2: Doc)
    ensures NamesOf(d1 + d2) == NamesOf(d1) + NamesOf(d2)
  {
    forall n | n in NamesOf(d1) + NamesOf(d2) ensures n in NamesOf(d1 + d2) {
      var r :| (r in d1 || r in d2) && r.name == n;
      assert r in d1 + d2;
    }
  }

  /** The first region of the document with identity `n`: the one a merge
      by identity keeps. */
  function FirstNamed(doc: Doc, n: string): (r: RegionConfig)
    requires n in NamesOf(doc)
    ensures r in doc && r.name == n
    decreases |doc|
  {
    NamesOfCons(doc);
    if doc[0].name == n then doc[0] else FirstNamed(doc[1..], n)
  }

  /** In two documents read one after the other, the first region with an
      identity comes from the first document when that one holds it. */
  lemma {:induction false} FirstNamedAppend(d1: Doc, d2: Doc, n: string)
    requires n in NamesOf(d1) || n in NamesOf(d2)
    ensures n in NamesOf(d1 + d2)
    ensures FirstNamed(d1 + d2, n) == if n in NamesOf(d1) then FirstNamed(d1, n) else FirstNamed(d2, n)
    decreases |d1|
  {
    NamesOfAppend(d1, d2);
    if d1 == [] {
      assert d1 + d2 == d2;
    } else {
      NamesOfCons(d1);
      assert (d1 + d2)[0] == d1[0];
      assert (d1 + d2)[1..] == d1[1..] + d2;
      if d1[0].name != n {
        FirstNamedAppend(d1[1..], d2, n);
      }
    }
  }

  /** ConfigurationValidator.exists: does the document hold a region with this identity? */
  function Exists(name: string, doc: Doc): (b: bool)
    ensures b <==> name in NamesOf(doc)
  {
    if doc == [] then false
    else
      NamesOfCons(doc);
      doc[0].name == name || Exists(name, doc[1..])
  }

  /** ConfigurationManager.add: the region is appended to the document. */
  function Add(doc: Doc, r: RegionConfig): (d: Doc)
    ensures forall x :: x in d <==> x in doc || x == r
    ensures NamesOf(d) == NamesOf(doc) + {r.name}
    ensures |d| == |doc| + 1
    ensures UniqueNames(doc) && !Exists(r.name, doc) ==> UniqueNames(d)
  {
    var d := doc + [r];
    assert forall i :: 0 <= i < |doc| ==> doc[i].name in NamesOf(doc);
    d
  }

  /** ConfigurationManager.delete: every region with the identity is removed,
      the others keep their order. */
  function Without(doc: Doc, name: string): (d: Doc)
    ensures forall x :: x in d <==> x in doc && x.name != name
    ensures NamesOf(d) == NamesOf(doc) - {name}
    ensures |d| <= |doc|
    ensures UniqueNames(doc) ==> UniqueNames(d)
  {
    if doc == [] then []
    else
      var rest := Without(doc[1..], name);
      NamesOfCons(doc);
      if doc[0].name == name then rest
      else
        assert forall i :: 0 <= i < |rest| ==> rest[i] in rest;
        [doc[0]] + rest
  }

  /** ConfigurationManager.list on a name filter: every region when the
      filter's name is blank, otherwise those with exactly that name, in order. */
  function Select(doc: Doc, filterName: string): (d: Doc)
    ensures forall x :: x in d <==> x in doc && (IsBlank(filterName) || x.name == filterName)
    ensures IsBlank(filterName) ==> d == doc
  {
    if IsBlank(filterName) then doc else Named(doc, filterName)
  }

  function Named(doc: Doc, name: string): (d: Doc)
    ensures forall x :: x in d <==> x in doc && x.name == name
  {
    if doc == [] then []
    else if doc[0].name == name then [doc[0]] + Named(doc[1..], name)
    else Named(doc[1..], name)
  }

  lemma {:induction false} WithoutAbsent(doc: Doc, name: string)
    requires !Exists(name, doc)
    ensures Without(doc, name) == doc
  {
    if doc != [] {
      NamesOfCons(doc);
      WithoutAbsent(doc[1..], name);
    }
  }

  lemma {:induction false} WithoutAppend(doc: Doc, r: RegionConfig, name: string)
    ensures Without(doc + [r], name) == Without(doc, name) + Without([r], name)
  {
    if doc != [] {
      assert (doc + [r])[1..] == doc[1..] + [r];
      WithoutAppend(doc[1..], r, name);
    } else {
      assert doc + [r] == [r];
    }
  }

  /** Removing what was just added gives the document back. */
  lemma AddThenWithout(doc: Doc, r: RegionConfig)
    requires !Exists(r.name, doc)
    ensures Without(Add(doc, r), r.name) == doc
  {
    WithoutAppend(doc, r, r.name);
    WithoutAbsent(doc, r.name);
    assert Without([r], r.name) == [];
  }
}
