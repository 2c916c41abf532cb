/** The record-building half of `populate`: raw records are bucketed by name
    and then by type, in the nested insertion order of Python's
    `defaultdict(lambda: defaultdict(list))`, records of unsupported types are
    skipped, and every bucket becomes one framework record. */
module Grouping {
  import opened Wrappers
  import opened Names
  import opened Records
  import opened Decode
  import opened Seqs

  /** `values[name][type]`: the raw records of one type under one name. */
  datatype TypeGroup = TypeGroup(rtype: RecordType, records: seq<RawRecord>)

  /** `values[name]`: the type buckets under one name, in first-seen order. */
  datatype NameGroup = NameGroup(name: string, types: seq<TypeGroup>)

  /** One (name, type) bucket, as the record-building loop visits it. */
  datatype Group = Group(name: string, rtype: RecordType, records: seq<RawRecord>)

  predicate Matches(r: RawRecord, name: string, t: RecordType)
  {
    r.name == name && ParseType(r.rtype) == Some(t)
  }

  /** The raw records of `rs` with this name and supported type, in input order. */
  function Bucket(rs: seq<RawRecord>, name: string, t: RecordType): (b: seq<RawRecord>)
    ensures |b| <= |rs|
    ensures forall k :: 0 <= k < |b| ==> Matches(b[k], name, t)
  {
    if rs == [] then []
    else Bucket(rs[..|rs| - 1], name, t) + (if Matches(rs[|rs| - 1], name, t) then [rs[|rs| - 1]] else [])
  }

  /** The index of the bucket named `name`, or `|gs|`. */
  function FindName(gs: seq<NameGroup>, name: string): (i: nat)
    ensures i <= |gs|
    ensures i < |gs| ==> gs[i].name == name
    ensures forall j :: 0 <= j < i ==> gs[j].name != name
  {
    if gs == [] then 0
    else if gs[0].name == name then 0
    else 1 + FindName(gs[1..], name)
  }

  /** The index of the bucket of type `t`, or `|ts|`. */
  function FindType(ts: seq<TypeGroup>, t: RecordType): (j: nat)
    ensures j <= |ts|
    ensures j < |ts| ==> ts[j].rtype == t
    ensures forall k :: 0 <= k < j ==> ts[k].rtype != t
  {
    if ts == [] then 0
    else if ts[0].rtype == t then 0
    else 1 + FindType(ts[1..], t)
  }

  /** `values[name][t].append(r)` inside one name's buckets. */
  function AddType(ts: seq<TypeGroup>, t: RecordType, r: RawRecord): (ts': seq<TypeGroup>)
    ensures |ts'| == |ts| + (if FindType(ts, t) == |ts| then 1 else 0)
    ensures forall k :: 0 <= k < |ts| ==> ts'[k].rtype == ts[k].rtype
    ensures forall k :: 0 <= k < |ts| && k != FindType(ts, t) ==> ts'[k] == ts[k]
    ensures var j := FindType(ts, t);
      j < |ts'| && ts'[j].rtype == t && ts'[j].records == (if j < |ts| then ts[j].records else []) + [r]
  {
    var j := FindType(ts, t);
    if j == |ts| then ts + [TypeGroup(t, [r])]
    else ts[j := TypeGroup(t, ts[j].records + [r])]
  }

  /** `values[r["name"]][t].append(r)`. */
  function Add(gs: seq<NameGroup>, r: RawRecord, t: RecordType): (gs': seq<NameGroup>)
    ensures |gs'| == |gs| + (if FindName(gs, r.name) == |gs| then 1 else 0)
    ensures forall k :: 0 <= k < |gs| ==> gs'[k].name == gs[k].name
    ensures forall k :: 0 <= k < |gs| && k != FindName(gs, r.name) ==> gs'[k] == gs[k]
    ensures var i := FindName(gs, r.name);
      i < |gs'| && gs'[i].name == r.name && gs'[i].types == AddType(if i < |gs| then gs[i].types else [], t, r)
  {
    var i := FindName(gs, r.name);
    if i == |gs| then gs + [NameGroup(r.name, [TypeGroup(t, [r])])]
    else gs[i := NameGroup(r.name, AddType(gs[i].types, t, r))]
  }

  /** The nested buckets after the grouping loop has seen all of `rs`. */
  function Grouped(rs: seq<RawRecord>): (gs: seq<NameGroup>)
    ensures |gs| <= |rs|
    ensures DistinctNames(gs)
  {
    if rs == [] then []
    else
      var gs := Grouped(rs[..|rs| - 1]);
      var r := rs[|rs| - 1];
      match ParseType(r.rtype)
      case None => gs
      case Some(t) => DistinctAfterAdd(gs, r, t); Add(gs, r, t)
  }

  /** Whether the nested buckets hold a bucket for this name and type. */
  predicate Present(gs: seq<NameGroup>, name: string, t: RecordType)
  {
    var i := FindName(gs, name);
    i < |gs| && FindType(gs[i].types, t) < |gs[i].types|
  }

  predicate DistinctTypes(ts: seq<TypeGroup>)
  {
    forall j, k :: 0 <= j < k < |ts| ==> ts[j].rtype != ts[k].rtype
  }

  predicate DistinctNames(gs: seq<NameGroup>)
  {
    forall i, j :: 0 <= i < j < |gs| ==> gs[i].name != gs[j].name
  }

  /** The buckets under `name` are the non-empty type buckets of `rs`, once each. */
  predicate TypesOf(ts: seq<TypeGroup>, name: string, rs: seq<RawRecord>)
  {
    && |ts| > 0
    && DistinctTypes(ts)
    && forall j :: 0 <= j < |ts| ==> ts[j].records == Bucket(rs, name, ts[j].rtype) && |ts[j].records| > 0
  }

  /** `gs` is a faithful grouping of `rs`: one entry per name, one bucket per
      type, each bucket exactly the matching raw records, and every
      non-empty bucket present. */
  ghost predicate GroupsOf(gs: seq<NameGroup>, rs: seq<RawRecord>)
  {
    && DistinctNames(gs)
    && (forall i :: 0 <= i < |gs| ==> TypesOf(gs[i].types, gs[i].name, rs))
    && (forall n, t :: Bucket(rs, n, t) != [] ==> Present(gs, n, t))
  }

  lemma BucketSnoc(rs: seq<RawRecord>, r: RawRecord, n: string, t: RecordType)
    ensures Bucket(rs + [r], n, t) == Bucket(rs, n, t) + (if Matches(r, n, t) then [r] else [])
  {
    assert (rs + [r])[..|rs|] == rs;
  }

  lemma {:induction false} FindTypeAfterAdd(ts: seq<TypeGroup>, t: RecordType, r: RawRecord, u: RecordType)
    requires FindType(ts, u) < |ts| || u == t
    ensures FindType(AddType(ts, t, r), u) < |AddType(ts, t, r)|
  {
    var ts' := AddType(ts, t, r);
    var j := FindType(ts, t);
    var k := FindType(ts, u);
    if k < |ts| {
      assert ts'[k].rtype == u;
    } else {
      assert u == t && j == |ts|;
      assert ts'[|ts|].rtype == u;
    }
  }

  lemma AddTypePreserves(ts: seq<TypeGroup>, name: string, rs: seq<RawRecord>, r: RawRecord, t: RecordType)
    requires DistinctTypes(ts)
    requires forall j :: 0 <= j < |ts| ==> ts[j].records == Bucket(rs, name, ts[j].rtype) && |ts[j].records| > 0
    requires r.name == name && ParseType(r.rtype) == Some(t)
    requires Bucket(rs, name, t) != [] ==> FindType(ts, t) < |ts|
    ensures TypesOf(AddType(ts, t, r), name, rs + [r])
  {
    var ts' := AddType(ts, t, r);
    var j := FindType(ts, t);
    forall k | 0 <= k < |ts'|
      ensures ts'[k].records == Bucket(rs + [r], name, ts'[k].rtype) && |ts'[k].records| > 0
    {
      BucketSnoc(rs, r, name, ts'[k].rtype);
      if k == j && j == |ts| {
        assert ts'[k] == TypeGroup(t, [r]);
      }
    }
  }

  /** After adding `r`, every name's buckets are still its buckets. */
  /** A record of another name leaves a name's buckets as they were. */
  lemma TypesOfOther(ts: seq<TypeGroup>, name: string, rs: seq<RawRecord>, r: RawRecord)
    requires TypesOf(ts, name, rs) && r.name != name
    ensures TypesOf(ts, name, rs + [r])
  {
    forall k | 0 <= k < |ts| ensures ts[k].records == Bucket(rs + [r], name, ts[k].rtype) {
      BucketSnoc(rs, r, name, ts[k].rtype);
    }
  }

  lemma AddKeepsTypes(gs: seq<NameGroup>, rs: seq<RawRecord>, r: RawRecord, t: RecordType, m: nat)
    requires GroupsOf(gs, rs)
    requires ParseType(r.rtype) == Some(t)
    requires m < |Add(gs, r, t)|
    ensures TypesOf(Add(gs, r, t)[m].types, Add(gs, r, t)[m].name, rs + [r])
  {
    var i := FindName(gs, r.name);
    if m != i {
      TypesOfOther(gs[m].types, gs[m].name, rs, r);
    } else if i == |gs| {
      assert !Present(gs, r.name, t);
      AddTypePreserves([], r.name, rs, r, t);
    } else {
      assert Bucket(rs, r.name, t) != [] ==> Present(gs, r.name, t);
      AddTypePreserves(gs[i].types, r.name, rs, r, t);
    }
  }

  lemma AddPreserves(gs: seq<NameGroup>, rs: seq<RawRecord>, r: RawRecord, t: RecordType)
    requires GroupsOf(gs, rs)
    requires ParseType(r.rtype) == Some(t)
    ensures GroupsOf(Add(gs, r, t), rs + [r])
  {
    var gs' := Add(gs, r, t);
    DistinctAfterAdd(gs, r, t);
    forall m | 0 <= m < |gs'|
      ensures TypesOf(gs'[m].types, gs'[m].name, rs + [r])
    {
      AddKeepsTypes(gs, rs, r, t, m);
    }
    forall n, u | Bucket(rs + [r], n, u) != [] ensures Present(gs', n, u) {
      BucketSnoc(rs, r, n, u);
      PresentAfterAdd(gs, r, t, n, u);
    }
  }

  lemma {:induction false} FindNameUpdate(gs: seq<NameGroup>, i: nat, g: NameGroup, n: string)
    requires i < |gs| && g.name == gs[i].name
    ensures FindName(gs[i := g], n) == FindName(gs, n)
  {
    var gs' := gs[i := g];
    if gs[0].name != n {
      if i == 0 {
        assert gs'[1..] == gs[1..];
      } else {
        assert gs'[1..] == gs[1..][i - 1 := g];
        FindNameUpdate(gs[1..], i - 1, g, n);
      }
    }
  }

  lemma {:induction false} FindNameAppend(gs: seq<NameGroup>, g: NameGroup, n: string)
    ensures FindName(gs + [g], n) ==
      if FindName(gs, n) < |gs| then FindName(gs, n) else if g.name == n then |gs| else |gs| + 1
  {
    var gs' := gs + [g];
    if gs == [] {
      assert gs' == [g];
      assert gs'[1..] == [];
    } else if gs[0].name != n {
      TailSnoc(gs, g);
      FindNameAppend(gs[1..], g, n);
    }
  }

  lemma PresentAfterAdd(gs: seq<NameGroup>, r: RawRecord, t: RecordType, n: string, u: RecordType)
    requires DistinctNames(gs)
    requires Present(gs, n, u) || (r.name == n && t == u)
    ensures Present(Add(gs, r, t), n, u)
  {
    var gs' := Add(gs, r, t);
    var i := FindName(gs, r.name);
    var p := FindName(gs, n);
    if i < |gs| {
      FindNameUpdate(gs, i, NameGroup(r.name, AddType(gs[i].types, t, r)), n);
    } else {
      FindNameAppend(gs, NameGroup(r.name, [TypeGroup(t, [r])]), n);
    }
    if p < |gs| && FindType(gs[p].types, u) < |gs[p].types| {
      assert FindName(gs', n) == p;
      if p == i {
        FindTypeAfterAdd(gs[i].types, t, r, u);
      }
    } else {
      assert r.name == n && t == u;
      if i == |gs| {
        assert FindName(gs', n) == |gs|;
        assert gs'[|gs|].types[0].rtype == u;
      } else {
        assert FindName(gs', n) == i;
        FindTypeAfterAdd(gs[i].types, t, r, u);
      }
    }
  }

  lemma {:induction false} DistinctAfterAdd(gs: seq<NameGroup>, r: RawRecord, t: RecordType)
    requires DistinctNames(gs)
    ensures DistinctNames(Add(gs, r, t))
  {
  }

  /** The grouping loop's invariant holds of every prefix of the input. */
  lemma {:induction false} GroupedIsGrouping(rs: seq<RawRecord>)
    ensures GroupsOf(Grouped(rs), rs)
  {
    if rs != [] {
      var init := rs[..|rs| - 1];
      var r := rs[|rs| - 1];
      Snoc(rs);
      GroupedIsGrouping(init);
      match ParseType(r.rtype)
      case None =>
        forall n, u ensures Bucket(rs, n, u) == Bucket(init, n, u) {
          BucketSnoc(init, r, n, u);
        }
      case Some(t) =>
        AddPreserves(Grouped(init), init, r, t);
    }
  }

  /** One name's buckets as (name, type, records) triples, in type order. */
  function Expand(g: NameGroup): (fs: seq<Group>)
    ensures |fs| == |g.types|
    ensures forall j :: 0 <= j < |fs| ==> fs[j] == Group(g.name, g.types[j].rtype, g.types[j].records)
  {
    seq(|g.types|, j requires 0 <= j < |g.types| => Group(g.name, g.types[j].rtype, g.types[j].records))
  }

  /** The buckets in the order populate's nested loop visits them. */
  function Flatten(gs: seq<NameGroup>): seq<Group>
  {
    if gs == [] then [] else Flatten(gs[..|gs| - 1]) + Expand(gs[|gs| - 1])
  }

  /** How many groups of `fs` have this name and type. */
  function CountKey(fs: seq<Group>, n: string, t: RecordType): nat
  {
    if fs == [] then 0
    else CountKey(fs[..|fs| - 1], n, t) + (if fs[|fs| - 1].name == n && fs[|fs| - 1].rtype == t then 1 else 0)
  }

  lemma {:induction false} CountKeyAppend(a: seq<Group>, b: seq<Group>, n: string, t: RecordType)
    ensures CountKey(a + b, n, t) == CountKey(a, n, t) + CountKey(b, n, t)
  {
    if b == [] {
      AppendEmpty(a);
    } else {
      AppendInit(a, b);
      CountKeyAppend(a, b[..|b| - 1], n, t);
    }
  }

  lemma {:induction false} FindTypeSnoc(ts: seq<TypeGroup>, g: TypeGroup, t: RecordType)
    ensures FindType(ts + [g], t) ==
      if FindType(ts, t) < |ts| then FindType(ts, t) else if g.rtype == t then |ts| else |ts| + 1
  {
    var ts' := ts + [g];
    if ts == [] {
      assert ts' == [g];
      assert ts'[1..] == [];
    } else {
      assert ts'[0] == ts[0];
      if ts[0].rtype != t {
        assert FindType(ts', t) == 1 + FindType(ts'[1..], t);
        assert FindType(ts, t) == 1 + FindType(ts[1..], t);
        TailSnoc(ts, g);
        FindTypeSnoc(ts[1..], g, t);
      }
    }
  }

  /** A name's buckets end with the bucket of its last type. */
  lemma ExpandSnoc(g: NameGroup)
    requires |g.types| > 0
    ensures var last := g.types[|g.types| - 1];
      Expand(g) == Expand(NameGroup(g.name, g.types[..|g.types| - 1])) + [Group(g.name, last.rtype, last.records)]
  {
  }

  /** Counting a name's buckets: those before its last type, then the last. */
  lemma CountExpandSnoc(g: NameGroup, n: string, t: RecordType)
    requires |g.types| > 0
    ensures var last := g.types[|g.types| - 1];
      CountKey(Expand(g), n, t) ==
        CountKey(Expand(NameGroup(g.name, g.types[..|g.types| - 1])), n, t) + (if g.name == n && last.rtype == t then 1 else 0)
  {
    var last := g.types[|g.types| - 1];
    var single := [Group(g.name, last.rtype, last.records)];
    ExpandSnoc(g);
    CountKeyAppend(Expand(NameGroup(g.name, g.types[..|g.types| - 1])), single, n, t);
    assert single[..0] == [];
  }

  /** A list of distinct types holds `t` exactly when its init holds it or
      its last entry is `t`, never both. */
  lemma FindTypeLast(ts: seq<TypeGroup>, t: RecordType)
    requires |ts| > 0 && DistinctTypes(ts)
    ensures DistinctTypes(ts[..|ts| - 1])
    ensures var inInit := FindType(ts[..|ts| - 1], t) < |ts| - 1;
      (FindType(ts, t) < |ts| <==> inInit || ts[|ts| - 1].rtype == t) && !(inInit && ts[|ts| - 1].rtype == t)
  {
    var init := ts[..|ts| - 1];
    var last := ts[|ts| - 1];
    assert forall j :: 0 <= j < |init| ==> init[j] == ts[j];
    assert FindType(ts, t) == FindType(init + [last], t) by {
      Snoc(ts);
    }
    FindTypeSnoc(init, last, t);
  }

  /** Under one name, each type has at most one bucket. */
  lemma {:induction false} CountExpand(g: NameGroup, n: string, t: RecordType)
    requires DistinctTypes(g.types)
    ensures CountKey(Expand(g), n, t) == if g.name == n && FindType(g.types, t) < |g.types| then 1 else 0
    decreases |g.types|
  {
    var ts := g.types;
    if ts != [] {
      CountExpandSnoc(g, n, t);
      FindTypeLast(ts, t);
      CountExpand(NameGroup(g.name, ts[..|ts| - 1]), n, t);
    } else {
      assert Expand(g) == [];
    }
  }

  /** Over all names, each (name, type) pair has at most one bucket, and it
      has one exactly when the nested buckets hold it. */
  lemma {:induction false} FlattenCount(gs: seq<NameGroup>, n: string, t: RecordType)
    requires DistinctNames(gs)
    requires forall i :: 0 <= i < |gs| ==> DistinctTypes(gs[i].types)
    ensures CountKey(Flatten(gs), n, t) == if Present(gs, n, t) then 1 else 0
  {
    if gs != [] {
      var init := gs[..|gs| - 1];
      var last := gs[|gs| - 1];
      CountKeyAppend(Flatten(init), Expand(last), n, t);
      assert forall i :: 0 <= i < |init| ==> DistinctTypes(init[i].types) by {
        assert forall i :: 0 <= i < |init| ==> init[i] == gs[i];
      }
      PresentLast(gs, n, t);
      FlattenCount(init, n, t);
      CountExpand(last, n, t);
    }
  }

  /** A list of distinct names holds the pair (n, t) exactly when its init
      holds it or its last name is `n` with a bucket of type `t`, never both. */
  lemma PresentLast(gs: seq<NameGroup>, n: string, t: RecordType)
    requires |gs| > 0 && DistinctNames(gs)
    ensures DistinctNames(gs[..|gs| - 1])
    ensures var last := gs[|gs| - 1];
      var inInit := Present(gs[..|gs| - 1], n, t);
      var inLast := last.name == n && FindType(last.types, t) < |last.types|;
      (Present(gs, n, t) <==> inInit || inLast) && !(inInit && inLast)
  {
    var init := gs[..|gs| - 1];
    var last := gs[|gs| - 1];
    assert forall i :: 0 <= i < |init| ==> init[i] == gs[i];
    assert FindName(gs, n) == FindName(init + [last], n) by {
      Snoc(gs);
    }
    FindNameAppend(init, last, n);
  }

  /** Every visited bucket holds exactly the matching raw records, and at least one. */
  lemma {:induction false} FlattenRecords(gs: seq<NameGroup>, rs: seq<RawRecord>)
    requires forall i :: 0 <= i < |gs| ==> TypesOf(gs[i].types, gs[i].name, rs)
    ensures forall a :: 0 <= a < |Flatten(gs)| ==>
      Flatten(gs)[a].records == Bucket(rs, Flatten(gs)[a].name, Flatten(gs)[a].rtype) && |Flatten(gs)[a].records| > 0
  {
    if gs != [] {
      var init := gs[..|gs| - 1];
      var last := gs[|gs| - 1];
      FlattenRecords(init, rs);
      assert TypesOf(last.types, last.name, rs);
    }
  }

  /** Every bucket `populate` visits holds exactly the raw records of its
      (name, type) pair, in input order, and at least one. */
  lemma PopulateBuckets(rs: seq<RawRecord>)
    ensures forall a :: 0 <= a < |Flatten(Grouped(rs))| ==>
      Flatten(Grouped(rs))[a].records == Bucket(rs, Flatten(Grouped(rs))[a].name, Flatten(Grouped(rs))[a].rtype) &&
      |Flatten(Grouped(rs))[a].records| > 0
  {
    GroupedIsGrouping(rs);
    FlattenRecords(Grouped(rs), rs);
  }

  /** Every (name, type) pair of a supported type that occurs in the input
      has exactly one bucket, and every other pair (in particular every pair
      of an unsupported type) has none. */
  lemma PopulateUnique(rs: seq<RawRecord>, n: string, t: RecordType)
    ensures CountKey(Flatten(Grouped(rs)), n, t) == if Bucket(rs, n, t) != [] then 1 else 0
  {
    var gs := Grouped(rs);
    GroupedIsGrouping(rs);
    FlattenCount(gs, n, t);
    if Present(gs, n, t) {
      var i := FindName(gs, n);
      assert TypesOf(gs[i].types, n, rs);
    }
  }

  /** Every visited bucket holds at least one raw record. */
  predicate Filled(fs: seq<Group>)
  {
    forall a :: 0 <= a < |fs| ==> |fs[a].records| > 0
  }

  lemma {:induction false} FlattenAppend(a: seq<NameGroup>, b: seq<NameGroup>)
    ensures Flatten(a + b) == Flatten(a) + Flatten(b)
    decreases |b|
  {
    if b == [] {
      AppendEmpty(a);
    } else {
      var b' := b[..|b| - 1];
      AppendInit(a, b);
      FlattenAppend(a, b');
      Assoc(Flatten(a), Flatten(b'), Expand(b[|b| - 1]));
    }
  }

  lemma {:induction false} FilledFlatten(gs: seq<NameGroup>)
    requires forall i :: 0 <= i < |gs| ==> Filled(Expand(gs[i]))
    ensures Filled(Flatten(gs))
  {
    if gs != [] {
      FilledFlatten(gs[..|gs| - 1]);
    }
  }

  /** What the record-building loop has produced: the records added to the
      zone so far and, when a decoder raised, its error. */
  datatype Built = Built(added: seq<Record>, error: Option<Error>)

  /** The decoder's verdict on every bucket, in visiting order. */
  function Decodings(fs: seq<Group>): (ds: seq<Result<Data, Error>>)
    requires Filled(fs)
    ensures |ds| == |fs|
  {
    if fs == [] then []
    else
      assert forall a :: 0 <= a < |fs| - 1 ==> fs[..|fs| - 1][a] == fs[a];
      Decodings(fs[..|fs| - 1]) + [DataFor(fs[|fs| - 1].rtype, fs[|fs| - 1].records)]
  }

  lemma DecodingsLast(fs: seq<Group>)
    requires Filled(fs) && |fs| > 0
    ensures Filled(fs[..|fs| - 1])
    ensures Decodings(fs) == Decodings(fs[..|fs| - 1]) + [DataFor(fs[|fs| - 1].rtype, fs[|fs| - 1].records)]
  {
    assert forall k :: 0 <= k < |fs| - 1 ==> fs[..|fs| - 1][k] == fs[k];
  }

  /** Each verdict is the decoder's result on its own bucket. */
  lemma {:induction false} DecodingsAt(fs: seq<Group>, a: nat)
    requires Filled(fs) && a < |fs|
    ensures Decodings(fs)[a] == DataFor(fs[a].rtype, fs[a].records)
  {
    var init := fs[..|fs| - 1];
    DecodingsLast(fs);
    SnocAt(Decodings(init), DataFor(fs[|fs| - 1].rtype, fs[|fs| - 1].records), a);
    if a < |init| {
      DecodingsAt(init, a);
      assert init[a] == fs[a];
    }
  }

  /** The record-building loop over the visited buckets `fs`, given the
      decoder's verdict `ds` on each: one record per bucket, named with the
      apex mapped from "." to "", holding the bucket's decoded data; the
      first bucket that fails to decode stops the loop, and the records
      added before it stay in the zone. */
  function Build(zone: string, fs: seq<Group>, ds: seq<Result<Data, Error>>): (b: Built)
    requires |ds| == |fs|
    ensures |b.added| <= |fs|
    ensures b.error.None? <==> |b.added| == |fs|
    ensures b.error.Some? ==> ds[|b.added|] == Err(b.error.value)
  {
    if fs == [] then Built([], None)
    else
      var b := Build(zone, fs[..|fs| - 1], ds[..|ds| - 1]);
      if b.error.Some? then b
      else
        match ds[|ds| - 1]
        case Err(e) => Built(b.added, Some(e))
        case Ok(d) => Built(b.added + [Record(zone, ApexFromRaw(fs[|fs| - 1].name), d)], None)
  }

  /** The records built are those of a prefix of the buckets, one per
      bucket and in order; the build stops short of the end exactly when it
      raised, and the error is that of the first bucket not built. */
  lemma {:induction false} BuildSpec(zone: string, fs: seq<Group>, ds: seq<Result<Data, Error>>)
    requires |ds| == |fs|
    ensures var b := Build(zone, fs, ds);
      && |b.added| <= |fs|
      && (forall a :: 0 <= a < |b.added| ==> ds[a].Ok? && b.added[a] == Record(zone, ApexFromRaw(fs[a].name), ds[a].value))
      && (b.error.None? <==> |b.added| == |fs|)
      && (b.error.Some? ==> ds[|b.added|] == Err(b.error.value))
  {
    if fs != [] {
      var init := fs[..|fs| - 1];
      var dinit := ds[..|ds| - 1];
      BuildSpec(zone, init, dinit);
      var b0 := Build(zone, init, dinit);
      var b := Build(zone, fs, ds);
      forall a | 0 <= a < |b.added| ensures ds[a].Ok? && b.added[a] == Record(zone, ApexFromRaw(fs[a].name), ds[a].value) {
        if a < |b0.added| {
          assert fs[a] == init[a] && ds[a] == dinit[a];
          assert b.added[a] == b0.added[a];
        }
      }
    }
  }

  /** Building over `a + b` is building over `a` and, unless that raised,
      continuing over `b`. */
  lemma {:induction false} BuildAppend(zone: string, a: seq<Group>, b: seq<Group>, da: seq<Result<Data, Error>>, db: seq<Result<Data, Error>>)
    requires |da| == |a| && |db| == |b|
    ensures Build(zone, a + b, da + db) ==
      if Build(zone, a, da).error.Some? then Build(zone, a, da)
      else Built(Build(zone, a, da).added + Build(zone, b, db).added, Build(zone, b, db).error)
    decreases |b|
  {
    if b == [] {
      AppendEmpty(a);
      AppendEmpty(da);
    } else {
      AppendInit(a, b);
      AppendInit(da, db);
      BuildAppend(zone, a, b[..|b| - 1], da, db[..|db| - 1]);
    }
  }

  /** Once a bucket fails to decode, the buckets after it change nothing. */
  lemma BuildStops(zone: string, fs: seq<Group>, ds: seq<Result<Data, Error>>, k: nat)
    requires |ds| == |fs| && k <= |fs|
    requires Build(zone, fs[..k], ds[..k]).error.Some?
    ensures Build(zone, fs, ds) == Build(zone, fs[..k], ds[..k])
  {
    SplitAt(fs, k);
    SplitAt(ds, k);
    BuildAppend(zone, fs[..k], fs[k..], ds[..k], ds[k..]);
  }

  /** The record-building loop over the buckets `fs`, each decoded on the way. */
  function BuildAll(zone: string, fs: seq<Group>): (b: Built)
    requires Filled(fs)
    ensures b.error.None? <==> |b.added| == |fs|
    ensures b.error.Some? ==>
      |b.added| < |fs| && DataFor(fs[|b.added|].rtype, fs[|b.added|].records) == Err(b.error.value)
  {
    var b := Build(zone, fs, Decodings(fs));
    if b.error.Some? then DecodingsAt(fs, |b.added|); b else b
  }

  /** A build over `fs` that raised nothing added one record per bucket,
      each holding its bucket's decoded data. */
  lemma BuiltEvery(zone: string, fs: seq<Group>)
    requires Filled(fs) && BuildAll(zone, fs).error.None?
    ensures |BuildAll(zone, fs).added| == |fs|
    ensures forall a :: 0 <= a < |fs| ==>
      DataFor(fs[a].rtype, fs[a].records).Ok? &&
      BuildAll(zone, fs).added[a] == Record(zone, ApexFromRaw(fs[a].name), DataFor(fs[a].rtype, fs[a].records).value)
  {
    BuildSpec(zone, fs, Decodings(fs));
    forall a | 0 <= a < |fs| ensures Decodings(fs)[a] == DataFor(fs[a].rtype, fs[a].records) {
      DecodingsAt(fs, a);
    }
  }

  /** `ds` holds the decoder's verdict on each bucket of `fs`. */
  predicate DecodesTo(fs: seq<Group>, ds: seq<Result<Data, Error>>)
  {
    |ds| == |fs| && forall a :: 0 <= a < |fs| ==> DecodesAt(fs, ds, a)
  }

  /** `ds[a]` is the decoder's verdict on the non-empty bucket `fs[a]`. */
  predicate DecodesAt(fs: seq<Group>, ds: seq<Result<Data, Error>>, a: nat)
    requires a < |fs| && a < |ds|
  {
    |fs[a].records| > 0 && ds[a] == DataFor(fs[a].rtype, fs[a].records)
  }

  lemma DecodingsDecode(fs: seq<Group>)
    requires Filled(fs)
    ensures DecodesTo(fs, Decodings(fs))
  {
    forall a | 0 <= a < |fs| ensures DecodesAt(fs, Decodings(fs), a) {
      DecodingsAt(fs, a);
    }
  }

  /** `b` with `prefix` before the records it added. */
  function Prefixed(prefix: seq<Record>, b: Built): (r: Built)
    ensures r.error == b.error && |r.added| == |prefix| + |b.added|
  {
    Built(prefix + b.added, b.error)
  }

  /** The inner loop of the record-building loop, one bucket further: a
      decoder error on bucket `j` is the error of the whole build, and
      otherwise its record follows those built so far. */
  lemma BuildNextBucket(zone: string, fs: seq<Group>, ds: seq<Result<Data, Error>>, j: nat, start: seq<Record>, before: seq<Record>)
    requires |ds| == |fs| && j < |fs|
    requires Built(before, None) == Prefixed(start, Build(zone, fs[..j], ds[..j]))
    ensures ds[j].Err? ==> Built(before, Some(ds[j].error)) == Prefixed(start, Build(zone, fs, ds))
    ensures ds[j].Ok? ==>
      Built(before + [Record(zone, ApexFromRaw(fs[j].name), ds[j].value)], None) == Prefixed(start, Build(zone, fs[..j + 1], ds[..j + 1]))
  {
    assert fs[..j + 1][..j] == fs[..j] && ds[..j + 1][..j] == ds[..j];
    if ds[j].Err? {
      BuildStops(zone, fs, ds, j + 1);
    }
  }

  /** The buckets of the first `i` names are a prefix of all buckets. */
  lemma PrefixBuckets(gs: seq<NameGroup>, i: nat)
    requires i <= |gs|
    ensures |Flatten(gs[..i])| <= |Flatten(gs)|
    ensures Flatten(gs)[..|Flatten(gs[..i])|] == Flatten(gs[..i])
  {
    SplitAt(gs, i);
    FlattenAppend(gs[..i], gs[i..]);
  }

  /** The buckets of name `i` follow those of the names before it. */
  lemma NextBuckets(gs: seq<NameGroup>, i: nat)
    requires i < |gs|
    ensures Flatten(gs[..i + 1]) == Flatten(gs[..i]) + Expand(gs[i])
    ensures |Flatten(gs[..i + 1])| <= |Flatten(gs)|
  {
    assert gs[..i + 1][..i] == gs[..i];
    PrefixBuckets(gs, i + 1);
  }

  /** The build over the buckets of the first `i` names. */
  function BuiltNames(zone: string, gs: seq<NameGroup>, ds: seq<Result<Data, Error>>, i: nat): Built
    requires i <= |gs| && |Flatten(gs)| == |ds|
  {
    PrefixBuckets(gs, i);
    Build(zone, Flatten(gs[..i]), ds[..|Flatten(gs[..i])|])
  }

  /** The verdicts on the buckets of name `i`. */
  function NameDecodings(gs: seq<NameGroup>, ds: seq<Result<Data, Error>>, i: nat): (ns: seq<Result<Data, Error>>)
    requires i < |gs| && |Flatten(gs)| == |ds|
    ensures |ns| == |Expand(gs[i])|
  {
    NextBuckets(gs, i);
    ds[|Flatten(gs[..i])|..|Flatten(gs[..i + 1])|]
  }

  /** The verdicts on the buckets of name `i` are the decoder's. */
  lemma NameSlice(gs: seq<NameGroup>, ds: seq<Result<Data, Error>>, i: nat)
    requires i < |gs| && DecodesTo(Flatten(gs), ds)
    ensures DecodesTo(Expand(gs[i]), NameDecodings(gs, ds, i))
  {
    NextBuckets(gs, i);
    PrefixBuckets(gs, i + 1);
    DecodesSlice(Flatten(gs), ds, Flatten(gs[..i]), Expand(gs[i]));
  }

  /** The verdicts on a run `e` of buckets, which follows the run `f`, are
      the matching run of verdicts. */
  lemma ShiftedAt(all: seq<Group>, ds: seq<Result<Data, Error>>, e: seq<Group>, ns: seq<Result<Data, Error>>, n: nat, k: nat)
    requires n + k < |all| && n + k < |ds| && k < |e| && k < |ns|
    requires all[n + k] == e[k] && ds[n + k] == ns[k] && DecodesAt(all, ds, n + k)
    ensures DecodesAt(e, ns, k)
  {
  }

  lemma DecodesSlice(all: seq<Group>, ds: seq<Result<Data, Error>>, f: seq<Group>, e: seq<Group>)
    requires DecodesTo(all, ds) && |f + e| <= |all| && all[..|f + e|] == f + e
    ensures DecodesTo(e, ds[|f|..|f + e|])
  {
    var n := |f|;
    var m := |f + e|;
    var ns := ds[n..m];
    forall k | 0 <= k < |e| ensures DecodesAt(e, ns, k) {
      ShiftedAt(all, ds, e, ns, n, k);
    }
  }

  /** Building over the buckets of the first `i + 1` names is building over
      those of the first `i` and, unless that raised, continuing over those
      of name `i`. */
  lemma NameStep(zone: string, gs: seq<NameGroup>, ds: seq<Result<Data, Error>>, i: nat)
    requires i < |gs| && |Flatten(gs)| == |ds|
    ensures var b := BuiltNames(zone, gs, ds, i);
      var c := Build(zone, Expand(gs[i]), NameDecodings(gs, ds, i));
      BuiltNames(zone, gs, ds, i + 1) == if b.error.Some? then b else Built(b.added + c.added, c.error)
  {
    NextBuckets(gs, i);
    var f := Flatten(gs[..i]);
    var n := |f|;
    var m := |Flatten(gs[..i + 1])|;
    assert ds[..m] == ds[..n] + ds[n..m];
    BuildAppend(zone, f, Expand(gs[i]), ds[..n], ds[n..m]);
  }

  /** The outer loop of the record-building loop, one name further: building
      over its buckets continues the build so far, and a decoder error there
      is the error of the whole build. */
  lemma BuildNextName(zone: string, gs: seq<NameGroup>, ds: seq<Result<Data, Error>>, i: nat,
                      start: seq<Record>, before: seq<Record>, after: seq<Record>, err: Option<Error>)
    requires i < |gs| && |Flatten(gs)| == |ds|
    requires Built(before, None) == Prefixed(start, BuiltNames(zone, gs, ds, i))
    requires Built(after, err) == Prefixed(before, Build(zone, Expand(gs[i]), NameDecodings(gs, ds, i)))
    ensures err.None? ==> Built(after, None) == Prefixed(start, BuiltNames(zone, gs, ds, i + 1))
    ensures err.Some? ==> Built(after, err) == Prefixed(start, Build(zone, Flatten(gs), ds))
  {
    NameStep(zone, gs, ds, i);
    var b := BuiltNames(zone, gs, ds, i);
    var c := Build(zone, Expand(gs[i]), NameDecodings(gs, ds, i));
    assert after == start + (b.added + c.added);
    if err.Some? {
      NextBuckets(gs, i);
      PrefixBuckets(gs, i + 1);
      BuildStops(zone, Flatten(gs), ds, |Flatten(gs[..i + 1])|);
    }
  }

  /** After the last name the build covers all buckets. */
  lemma BuiltAllNames(zone: string, gs: seq<NameGroup>, ds: seq<Result<Data, Error>>)
    requires |Flatten(gs)| == |ds|
    ensures BuiltNames(zone, gs, ds, |gs|) == Build(zone, Flatten(gs), ds)
  {
    Whole(gs);
    Whole(ds);
  }
}
