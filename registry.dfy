/**
 * The JIT symbol registry of the JVMTI agent: one record per compiled method
 * handle, holding the code regions of its latest load, and the dump of all
 * regions into the perf map file.
 */
module Registry {
  import opened Jvmti
  import opened PerfMap
  import Formatter
  import AgentOptions

  /** `compiled_method_info`: ordered, and told apart, by its start address only. */
  datatype Region = Region(startAddr: nat, length: nat, name: string)

  /** `jit_compiled_method`: its region set is a sequence kept in ascending start order. */
  datatype JitRecord = JitRecord(methodId: MethodId, regions: seq<Region>)

  /** The order of a `std::set<compiled_method_info>`: strictly ascending start addresses. */
  predicate Ascending(rs: seq<Region>) {
    forall i, j :: 0 <= i < j < |rs| ==> rs[i].startAddr < rs[j].startAddr
  }

  /** Some region of `rs` starts at `a`. */
  predicate HasStart(rs: seq<Region>, a: nat) {
    exists i :: 0 <= i < |rs| && rs[i].startAddr == a
  }

  /** `std::set::insert`: a region whose start address is already present is not added. */
  function InsertRegion(rs: seq<Region>, r: Region): (out: seq<Region>)
    ensures HasStart(out, r.startAddr)
    ensures |rs| <= |out| <= |rs| + 1
  {
    if rs == [] then
      assert [r][0] == r;
      [r]
    else if r.startAddr < rs[0].startAddr then
      assert ([r] + rs)[0] == r;
      [r] + rs
    else if r.startAddr == rs[0].startAddr then rs
    else
      HasStartCons(rs[0], InsertRegion(rs[1..], r), r.startAddr);
      [rs[0]] + InsertRegion(rs[1..], r)
  }

  /** A start address present in a sequence stays present under a new head. */
  lemma HasStartCons(x: Region, rs: seq<Region>, a: nat)
    requires HasStart(rs, a)
    ensures HasStart([x] + rs, a)
  {
    var i :| 0 <= i < |rs| && rs[i].startAddr == a;
    assert ([x] + rs)[i + 1] == rs[i];
  }

  /** Inserting adds nothing but the new region. */
  lemma {:induction false} InsertRegionFrom(rs: seq<Region>, r: Region)
    ensures forall x :: x in InsertRegion(rs, r) ==> x == r || x in rs
    decreases |rs|
  {
    if rs != [] && r.startAddr > rs[0].startAddr {
      InsertRegionFrom(rs[1..], r);
      assert InsertRegion(rs, r) == [rs[0]] + InsertRegion(rs[1..], r);
      assert rs == [rs[0]] + rs[1..];
    }
  }

  /** Inserting keeps the set ordered. */
  lemma {:induction false} InsertRegionAscending(rs: seq<Region>, r: Region)
    requires Ascending(rs)
    ensures Ascending(InsertRegion(rs, r))
    decreases |rs|
  {
    if rs != [] && r.startAddr > rs[0].startAddr {
      var tail := InsertRegion(rs[1..], r);
      AscendingTail(rs);
      InsertRegionAscending(rs[1..], r);
      InsertRegionAboveHead(rs, r);
      InsertRegionPastHead(rs, r);
      var out := [rs[0]] + tail;
      forall i, j | 0 <= i < j < |out| ensures out[i].startAddr < out[j].startAddr {
        assert out[j] == tail[j - 1];
        if i > 0 {
          assert out[i] == tail[i - 1];
        }
      }
    }
  }

  /** Every region the rest of an ordered set becomes after an insert past its head starts after that head. */
  lemma InsertRegionAboveHead(rs: seq<Region>, r: Region)
    requires Ascending(rs) && rs != [] && rs[0].startAddr < r.startAddr
    ensures forall x :: x in InsertRegion(rs[1..], r) ==> rs[0].startAddr < x.startAddr
  {
    InsertRegionFrom(rs[1..], r);
    forall x | x in InsertRegion(rs[1..], r) ensures rs[0].startAddr < x.startAddr {
      if x != r {
        var k :| 0 <= k < |rs[1..]| && rs[1..][k] == x;
        assert rs[k + 1] == x;
      }
    }
  }

  /** Dropping the first region keeps the rest ordered. */
  lemma AscendingTail(rs: seq<Region>)
    requires rs != [] && Ascending(rs)
    ensures Ascending(rs[1..])
  {
    forall a, b | 0 <= a < b < |rs[1..]| ensures rs[1..][a].startAddr < rs[1..][b].startAddr {
      assert rs[1..][a] == rs[a + 1] && rs[1..][b] == rs[b + 1];
    }
  }

  /** A region whose start is already present leaves the set as it was. */
  lemma {:induction false} InsertRegionPresent(rs: seq<Region>, r: Region)
    requires Ascending(rs) && HasStart(rs, r.startAddr)
    ensures InsertRegion(rs, r) == rs
    decreases |rs|
  {
    var i :| 0 <= i < |rs| && rs[i].startAddr == r.startAddr;
    if i > 0 {
      var tail := rs[1..];
      assert rs[0].startAddr < rs[i].startAddr;
      assert tail[i - 1] == rs[i];
      assert HasStart(tail, r.startAddr);
      AscendingTail(rs);
      InsertRegionPresent(tail, r);
      InsertRegionPastHead(rs, r);
      assert rs == [rs[0]] + tail;
    }
  }

  /** A region starting after the first one is inserted into the rest. */
  lemma InsertRegionPastHead(rs: seq<Region>, r: Region)
    requires rs != [] && rs[0].startAddr < r.startAddr
    ensures InsertRegion(rs, r) == [rs[0]] + InsertRegion(rs[1..], r)
  {
  }

  /** A region with a new start is added, and nothing else changes. */
  lemma {:induction false} InsertRegionFresh(rs: seq<Region>, r: Region)
    requires Ascending(rs) && !HasStart(rs, r.startAddr)
    ensures multiset(InsertRegion(rs, r)) == multiset(rs) + multiset{r}
    decreases |rs|
  {
    if rs != [] && r.startAddr > rs[0].startAddr {
      assert rs == [rs[0]] + rs[1..];
      assert !HasStart(rs[1..], r.startAddr) by {
        forall i | 0 <= i < |rs[1..]| ensures rs[1..][i].startAddr != r.startAddr {
          assert rs[1..][i] == rs[i + 1];
        }
      }
      InsertRegionFresh(rs[1..], r);
    }
  }

  /** Each record is filed under its own handle and keeps its regions ordered. */
  predicate WellFormed(methods: map<MethodId, JitRecord>) {
    forall m :: m in methods ==> methods[m].methodId == m && Ascending(methods[m].regions)
  }

  /**
   * The registry after a compiled-method load of `m` at `region`: the record is
   * found or created, cleared, and given the one new region.
   */
  function Loaded(methods: map<MethodId, JitRecord>, m: MethodId, region: Region): (r: map<MethodId, JitRecord>)
    requires WellFormed(methods)
    ensures WellFormed(r)
    ensures r.Keys == methods.Keys + {m}
    ensures r[m] == JitRecord(m, [region])
    ensures forall k :: k in methods && k != m ==> r[k] == methods[k]
  {
    var rec := if m in methods then methods[m] else JitRecord(m, []);
    methods[m := rec.(regions := InsertRegion([], region))]
  }

  /** The registry after an unload of `m`: its record is gone, if it was there. */
  function Unloaded(methods: map<MethodId, JitRecord>, m: MethodId): (r: map<MethodId, JitRecord>)
    ensures r.Keys == methods.Keys - {m}
    ensures forall k :: k in r ==> r[k] == methods[k]
    ensures m !in methods ==> r == methods
  {
    methods - {m}
  }

  // ---------------------------------------------------------------------------
  // The dump, specified

  /** `k` is the least handle of `ks`. */
  ghost predicate IsLeast(k: MethodId, ks: set<MethodId>)
  {
    k in ks && forall j :: j in ks ==> k <= j
  }

  lemma {:induction false} MinExists(ks: set<MethodId>)
    requires ks != {}
    ensures exists k :: IsLeast(k, ks)
    decreases |ks|
  {
    var x :| x in ks;
    var rest := ks - {x};
    if rest == {} {
      forall j | j in ks
        ensures x <= j
      {
        assert j == x || j in rest;
      }
      assert IsLeast(x, ks);
    } else {
      MinExists(rest);
      var y :| IsLeast(y, rest);
      var z := if x < y then x else y;
      forall j | j in ks
        ensures z <= j
      {
        if j != x {
          assert j in rest;
        }
      }
      assert IsLeast(z, ks);
    }
  }

  ghost function MinKey(ks: set<MethodId>): (k: MethodId)
    requires ks != {}
    ensures k in ks && forall j :: j in ks ==> k <= j
  {
    MinExists(ks);
    var k :| IsLeast(k, ks);
    k
  }

  /** The regions of one record, each tagged with the record's handle. */
  function TagAll(m: MethodId, rs: seq<Region>): (t: seq<(MethodId, Region)>)
    ensures |t| == |rs|
    ensures forall i :: 0 <= i < |t| ==> t[i] == (m, rs[i])
  {
    seq(|rs|, i requires 0 <= i < |rs| => (m, rs[i]))
  }

  /** All stored regions, records in ascending handle order, regions in ascending address order. */
  ghost function Tagged(methods: map<MethodId, JitRecord>): seq<(MethodId, Region)>
    decreases |methods|
  {
    if methods == map[] then []
    else
      var k := MinKey(methods.Keys);
      assert (methods - {k}).Keys == methods.Keys - {k};
      TagAll(k, methods[k].regions) + Tagged(methods - {k})
  }

  /** Lexicographic order on (handle, start address). */
  predicate Before(a: (MethodId, Region), b: (MethodId, Region)) {
    a.0 < b.0 || (a.0 == b.0 && a.1.startAddr < b.1.startAddr)
  }

  function ToEntry(t: (MethodId, Region)): MapEntry {
    MapEntry(t.1.startAddr, t.1.length, t.1.name)
  }

  /** What the map file receives for a tagged sequence of regions. */
  function ToEntries(t: seq<(MethodId, Region)>): seq<MapEntry>
  {
    seq(|t|, i requires 0 <= i < |t| => ToEntry(t[i]))
  }

  /**
   * The dump holds every stored region exactly once, and nothing else, in
   * ascending handle order and, within a record, ascending start address.
   */
  lemma {:induction false} TaggedSpec(methods: map<MethodId, JitRecord>)
    requires WellFormed(methods)
    ensures forall i, j :: 0 <= i < j < |Tagged(methods)| ==> Before(Tagged(methods)[i], Tagged(methods)[j])
    ensures forall k, x :: (k, x) in Tagged(methods) <==> k in methods && x in methods[k].regions
    decreases |methods|
  {
    if methods != map[] {
      var k := MinKey(methods.Keys);
      var rest := methods - {k};
      assert rest.Keys == methods.Keys - {k};
      TaggedSpec(rest);
      var head := TagAll(k, methods[k].regions);
      var t := Tagged(methods);
      assert t == head + Tagged(rest);
      forall i, j | 0 <= i < j < |t|
        ensures Before(t[i], t[j])
      {
        if j < |head| {
        } else if i < |head| {
          assert t[j] in Tagged(rest);
        } else {
          assert t[i] == Tagged(rest)[i - |head|];
          assert t[j] == Tagged(rest)[j - |head|];
        }
      }
      forall k', x
        ensures (k', x) in t <==> k' in methods && x in methods[k'].regions
      {
        if k' == k {
          assert (k', x) !in Tagged(rest);
          if x in methods[k].regions {
            var i :| 0 <= i < |methods[k].regions| && methods[k].regions[i] == x;
            assert head[i] == (k, x);
          }
        } else {
          assert (k', x) !in head;
        }
      }
    }
  }

  /** The number of stored regions, summed over the records in any order. */
  ghost function RegionCount(methods: map<MethodId, JitRecord>): nat
    decreases |methods|
  {
    if methods == map[] then 0
    else
      var k :| k in methods;
      assert (methods - {k}).Keys == methods.Keys - {k};
      |methods[k].regions| + RegionCount(methods - {k})
  }

  lemma {:induction false} RegionCountRemove(methods: map<MethodId, JitRecord>, k: MethodId)
    requires k in methods
    ensures RegionCount(methods) == |methods[k].regions| + RegionCount(methods - {k})
    decreases |methods|
  {
    var k' :| k' in methods && RegionCount(methods) == |methods[k'].regions| + RegionCount(methods - {k'});
    if k' != k {
      assert (methods - {k'}).Keys == methods.Keys - {k'};
      assert (methods - {k}).Keys == methods.Keys - {k};
      RegionCountRemove(methods - {k'}, k);
      RegionCountRemove(methods - {k}, k');
      assert methods - {k'} - {k} == methods - {k} - {k'};
    }
  }

  /** The dump's total is the sum of the region-set sizes. */
  lemma {:induction false} DumpCount(methods: map<MethodId, JitRecord>)
    ensures |Tagged(methods)| == RegionCount(methods)
    decreases |methods|
  {
    if methods != map[] {
      var k := MinKey(methods.Keys);
      assert (methods - {k}).Keys == methods.Keys - {k};
      DumpCount(methods - {k});
      RegionCountRemove(methods, k);
    }
  }

  /** Loads only ever leave one region per record. */
  predicate OneRegionEach(methods: map<MethodId, JitRecord>) {
    forall k :: k in methods ==> |methods[k].regions| == 1
  }

  /** A registry built by loads and unloads dumps one entry per record. */
  lemma {:induction false} OneRegionEachCount(methods: map<MethodId, JitRecord>)
    requires OneRegionEach(methods)
    ensures |Tagged(methods)| == |methods|
    decreases |methods|
  {
    if methods != map[] {
      var k := MinKey(methods.Keys);
      assert (methods - {k}).Keys == methods.Keys - {k};
      OneRegionEachCount(methods - {k});
    }
  }

  /** Load and unload keep one region per record. */
  lemma LoadUnloadKeepOneRegion(methods: map<MethodId, JitRecord>, m: MethodId, region: Region)
    requires WellFormed(methods) && OneRegionEach(methods)
    ensures OneRegionEach(Loaded(methods, m, region))
    ensures OneRegionEach(Unloaded(methods, m))
  {
  }

  /** After two loads of `m`, the dump holds the second region for `m` and not the first. */
  lemma ReloadKeepsLatest(methods: map<MethodId, JitRecord>, m: MethodId, r1: Region, r2: Region)
    requires WellFormed(methods)
    ensures forall x :: (m, x) in Tagged(Loaded(Loaded(methods, m, r1), m, r2)) <==> x == r2
  {
    TaggedSpec(Loaded(Loaded(methods, m, r1), m, r2));
  }

  /** After an unload of `m`, the dump holds nothing for `m`, and the same for every other handle. */
  lemma UnloadRemovesFromDump(methods: map<MethodId, JitRecord>, m: MethodId)
    requires WellFormed(methods)
    ensures forall x :: (m, x) !in Tagged(Unloaded(methods, m))
    ensures forall k, x :: k != m ==> ((k, x) in Tagged(Unloaded(methods, m)) <==> (k, x) in Tagged(methods))
  {
    TaggedSpec(methods);
    TaggedSpec(Unloaded(methods, m));
  }

  /** The records whose handles are in `keys`. */
  ghost function Restrict(methods: map<MethodId, JitRecord>, keys: set<MethodId>): map<MethodId, JitRecord> {
    map k | k in keys && k in methods :: methods[k]
  }

  lemma TaggedRestrictStep(methods: map<MethodId, JitRecord>, remaining: set<MethodId>, m: MethodId)
    requires remaining <= methods.Keys && m in remaining
    requires forall j :: j in remaining ==> m <= j
    ensures Tagged(Restrict(methods, remaining))
         == TagAll(m, methods[m].regions) + Tagged(Restrict(methods, remaining - {m}))
  {
    var r := Restrict(methods, remaining);
    assert r.Keys == remaining;
    assert MinKey(r.Keys) == m;
    assert r - {m} == Restrict(methods, remaining - {m});
  }

  lemma ToEntriesAppend(a: seq<(MethodId, Region)>, b: seq<(MethodId, Region)>)
    ensures ToEntries(a + b) == ToEntries(a) + ToEntries(b)
  {
  }

  lemma TagAllSnoc(m: MethodId, rs: seq<Region>, i: nat)
    requires i < |rs|
    ensures ToEntries(TagAll(m, rs[..i + 1])) == ToEntries(TagAll(m, rs[..i])) + [MapEntry(rs[i].startAddr, rs[i].length, rs[i].name)]
  {
  }

  /** One round of the dump's outer loop: the least remaining record's regions come next. */
  lemma DumpStep(methods: map<MethodId, JitRecord>, remaining: set<MethodId>, m: MethodId, done: seq<MapEntry>)
    requires remaining <= methods.Keys && m in remaining
    requires forall j :: j in remaining ==> m <= j
    requires done + ToEntries(Tagged(Restrict(methods, remaining))) == ToEntries(Tagged(methods))
    ensures (done + ToEntries(TagAll(m, methods[m].regions))) + ToEntries(Tagged(Restrict(methods, remaining - {m})))
         == ToEntries(Tagged(methods))
  {
    TaggedRestrictStep(methods, remaining, m);
    var mine := TagAll(m, methods[m].regions);
    var rest := Tagged(Restrict(methods, remaining - {m}));
    ToEntriesAppend(mine, rest);
    assert ToEntries(Tagged(Restrict(methods, remaining))) == ToEntries(mine) + ToEntries(rest);
    assert (done + ToEntries(mine)) + ToEntries(rest) == done + (ToEntries(mine) + ToEntries(rest));
  }

  // ---------------------------------------------------------------------------
  // The registry as the agent keeps it

  class JitRegistry {
    /** The global `methods` map. */
    var methods: map<MethodId, JitRecord>

    ghost predicate Valid()
      reads this
    {
      WellFormed(methods)
    }

    constructor ()
      ensures Valid() && methods == map[]
    {
      methods := map[];
    }

    /** `get_jit_info`: finds the record of `m`, creating an empty one when there is none. */
    method GetJitInfo(m: MethodId) returns (rec: JitRecord)
      requires Valid()
      modifies this
      ensures Valid()
      ensures methods == if m in old(methods) then old(methods) else old(methods)[m := JitRecord(m, [])]
      ensures m in methods && rec == methods[m]
    {
      if m in methods {
        rec := methods[m];
      } else {
        rec := JitRecord(0, []);
        rec := rec.(methodId := m);
        methods := methods[m := rec];
      }
    }

    /** `remove_jit_info`: erases the record of `m` when there is one. */
    method RemoveJitInfo(m: MethodId)
      requires Valid()
      modifies this
      ensures Valid()
      ensures methods == Unloaded(old(methods), m)
    {
      if m in methods {
        methods := methods - {m};
      }
    }

    /** The registry part of `cbCompiledMethodLoad`. */
    method CompiledMethodLoad(m: MethodId, oracle: MetadataOracle, opts: AgentOptions.Options, codeSize: nat, codeAddr: nat)
      requires Valid()
      modifies this
      ensures Valid()
      ensures methods == Loaded(old(methods), m, Region(codeAddr, codeSize, Formatter.SigString(oracle(m), opts)))
    {
      var entry := Formatter.SigString(oracle(m), opts);
      var info := GetJitInfo(m);
      info := info.(regions := []);
      info := info.(regions := InsertRegion(info.regions, Region(codeAddr, codeSize, entry)));
      methods := methods[m := info];
    }

    /** `cbCompiledMethodUnLoad`. */
    method CompiledMethodUnload(m: MethodId)
      requires Valid()
      modifies this
      ensures Valid()
      ensures methods == Unloaded(old(methods), m)
    {
      RemoveJitInfo(m);
    }

    /**
     * `dump_perf_file`: writes one entry per stored region, records in ascending
     * handle order, and counts them.
     */
    method DumpPerfFile() returns (entries: seq<MapEntry>, total: int)
      requires Valid()
      ensures entries == ToEntries(Tagged(methods))
      ensures total == |entries|
    {
      entries, total := [], 0;
      var remaining := methods.Keys;
      assert Restrict(methods, remaining) == methods;
      while remaining != {}
        invariant remaining <= methods.Keys
        invariant entries + ToEntries(Tagged(Restrict(methods, remaining))) == ToEntries(Tagged(methods))
        invariant total == |entries|
        decreases |remaining|
      {
        MinExists(remaining);
        var m :| m in remaining && forall j :: j in remaining ==> m <= j;
        var regions := methods[m].regions;
        ghost var before := entries;
        var i := 0;
        while i < |regions|
          invariant 0 <= i <= |regions|
          invariant entries == before + ToEntries(TagAll(m, regions[..i]))
          invariant total == |entries|
        {
          entries := entries + [MapEntry(regions[i].startAddr, regions[i].length, regions[i].name)];
          total := total + 1;
          TagAllSnoc(m, regions, i);
          i := i + 1;
        }
        assert regions[..i] == regions;
        DumpStep(methods, remaining, m, before);
        remaining := remaining - {m};
      }
      assert Restrict(methods, {}) == map[];
    }
  }
}
