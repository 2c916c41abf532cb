/** The provider's state machine, as pure functions of the state before a
    call: the memoised zone map, the per-zone cache of raw record listings,
    and the log of calls the provider has made to the DNS client. The class
    in `Provider` is proved to move between exactly these states. */
module Applicator {
  import opened Wrappers
  import opened Names
  import opened Records
  import opened Decode
  import opened Encode
  import opened Grouping
  import opened Seqs

  /** A call the provider makes to the DNS client. */
  datatype Call =
    | ListDnsDomains
    | ListDnsDomainRecords(domainId: string)
    | PostRecord(zone: string, params: Params)
    | DeleteRecord(zone: string, recordId: string)

  /** One entry of the domain listing. */
  datatype Domain = Domain(unicodeName: string, id: string)

  /** What the remote side answers: its domains, and each domain's raw
      records by domain id. */
  datatype Remote = Remote(domains: seq<Domain>, records: map<string, seq<RawRecord>>)

  /** The provider's two caches and the client's call log. */
  datatype State = State(
    zones: Option<map<string, string>>,
    zoneRecords: map<string, seq<RawRecord>>,
    calls: seq<Call>)

  /** The state after a call, and what the call returned or raised. */
  datatype Outcome<T> = Outcome(state: State, result: Result<T, Error>)

  /** The change kinds a plan holds; `Update` carries both sides. */
  datatype Change =
    | Create(newRecord: Record)
    | Delete(existing: Record)
    | Update(existing: Record, newRecord: Record)

  /** A freshly constructed provider: nothing cached, no call made. */
  const Initial: State := State(None, map[], [])

  /** Every state reached from `s`: the call log only grows, the zone map
      once listed is kept, and cached listings are neither dropped nor
      replaced. */
  predicate Grows(s: State, s': State)
  {
    && s.calls <= s'.calls
    && (s.zones.Some? ==> s'.zones == s.zones)
    && (forall z :: z in s.zoneRecords ==> z in s'.zoneRecords && s'.zoneRecords[z] == s.zoneRecords[z])
  }

  lemma GrowsTransitive(s: State, s': State, s'': State)
    requires Grows(s, s') && Grows(s', s'')
    ensures Grows(s, s'')
  {
  }

  lemma DotInjective(a: string, b: string)
    requires a + "." == b + "."
    ensures a == b
  {
    assert a == (a + ".")[..|a|];
    assert b == (b + ".")[..|b|];
  }

  /** The dictionary comprehension over the domain listing: each domain
      under its name with a trailing dot, a later entry overriding an
      earlier one of the same name. */
  function DomainMap(ds: seq<Domain>): (m: map<string, string>)
    ensures forall i :: 0 <= i < |ds| ==> ds[i].unicodeName + "." in m
    ensures forall k :: k in m ==> EndsWithDot(k)
  {
    if ds == [] then map[]
    else
      var d := ds[|ds| - 1];
      assert forall i :: 0 <= i < |ds| - 1 ==> ds[..|ds| - 1][i] == ds[i];
      DomainMap(ds[..|ds| - 1])[d.unicodeName + "." := d.id]
  }

  /** Every domain is a key of the zone map under its name with a trailing
      dot, and nothing else is. */
  lemma {:induction false} DomainMapKeys(ds: seq<Domain>)
    ensures DomainMap(ds).Keys == set i | 0 <= i < |ds| :: ds[i].unicodeName + "."
  {
    if ds != [] {
      var init := ds[..|ds| - 1];
      var d := ds[|ds| - 1];
      DomainMapKeys(init);
      var keys := set i | 0 <= i < |ds| :: ds[i].unicodeName + ".";
      forall k | k in DomainMap(ds) ensures k in keys {
        if k != d.unicodeName + "." {
          var i :| 0 <= i < |init| && init[i].unicodeName + "." == k;
          assert init[i] == ds[i];
        }
      }
    }
  }

  /** A domain whose name no later entry repeats maps to its own id. */
  lemma {:induction false} DomainMapLatest(ds: seq<Domain>, i: nat)
    requires i < |ds| && forall j :: i < j < |ds| ==> ds[j].unicodeName != ds[i].unicodeName
    ensures ds[i].unicodeName + "." in DomainMap(ds)
    ensures DomainMap(ds)[ds[i].unicodeName + "."] == ds[i].id
  {
    var init := ds[..|ds| - 1];
    var d := ds[|ds| - 1];
    if i < |init| {
      assert init[i] == ds[i];
      assert ds[i].unicodeName != d.unicodeName;
      if ds[i].unicodeName + "." == d.unicodeName + "." {
        DotInjective(ds[i].unicodeName, d.unicodeName);
      }
      forall j | i < j < |init| ensures init[j].unicodeName != init[i].unicodeName {
        assert init[j] == ds[j];
      }
      DomainMapLatest(init, i);
    }
  }

  /** The `zones` property: the domain map, listed on first use only. */
  function ZonesStep(s: State, remote: Remote): (o: Outcome<map<string, string>>)
    ensures o.result.Ok? && o.state.zones == Some(o.result.value)
    ensures s.zones.Some? ==> o == Outcome(s, Ok(s.zones.value))
    ensures s.zones.None? ==> o.state.calls == s.calls + [ListDnsDomains]
    ensures s.zones.None? ==> o.result.value == DomainMap(remote.domains)
    ensures Grows(s, o.state) && o.state.zoneRecords == s.zoneRecords
  {
    if s.zones.Some? then Outcome(s, Ok(s.zones.value))
    else
      var m := DomainMap(remote.domains);
      Outcome(s.(zones := Some(m), calls := s.calls + [ListDnsDomains]), Ok(m))
  }

  /** Asking for the zone map again returns the same map and costs no call. */
  lemma ZonesMemoised(s: State, remote: Remote)
    ensures var o := ZonesStep(s, remote);
      ZonesStep(o.state, remote) == Outcome(o.state, o.result)
  {
  }

  /** `zone_records(zone)`: the cached listing when there is one; otherwise
      the zone's id is looked up in the zone map (an unknown zone raises)
      and its records are listed once and cached. */
  function ZoneRecordsStep(s: State, remote: Remote, zone: string): (o: Outcome<seq<RawRecord>>)
    ensures zone in s.zoneRecords ==> o == Outcome(s, Ok(s.zoneRecords[zone]))
    ensures o.result.Ok? ==> zone in o.state.zoneRecords && o.state.zoneRecords[zone] == o.result.value
    ensures o.result.Err? ==> o.state.zoneRecords == s.zoneRecords
    ensures o.result.Err? ==> o.result.error == UnknownZone(zone) || o.result.error.TransportError?
    ensures zone !in s.zoneRecords ==> var m := ZonesStep(s, remote).result.value;
      (zone !in m ==> o.result == Err(UnknownZone(zone))) &&
      (zone in m && m[zone] in remote.records ==> o.result == Ok(remote.records[m[zone]])) &&
      (zone in m && m[zone] !in remote.records ==> o.result == Err(TransportError(m[zone])))
    ensures Grows(s, o.state)
    ensures forall z :: z in o.state.zoneRecords ==> z in s.zoneRecords || z == zone
  {
    if zone in s.zoneRecords then Outcome(s, Ok(s.zoneRecords[zone]))
    else
      var z := ZonesStep(s, remote);
      var zones := z.result.value;
      if zone !in zones then Outcome(z.state, Err(UnknownZone(zone)))
      else
        var id := zones[zone];
        var s1 := z.state.(calls := z.state.calls + [ListDnsDomainRecords(id)]);
        if id !in remote.records then Outcome(s1, Err(TransportError(id)))
        else Outcome(s1.(zoneRecords := s1.zoneRecords[zone := remote.records[id]]), Ok(remote.records[id]))
  }

  /** A listing is fetched at most once until it is invalidated: a second
      read returns the first read's records and makes no call. */
  lemma ZoneRecordsMemoised(s: State, remote: Remote, zone: string)
    requires ZoneRecordsStep(s, remote, zone).result.Ok?
    ensures var o := ZoneRecordsStep(s, remote, zone);
      ZoneRecordsStep(o.state, remote, zone) == Outcome(o.state, o.result)
  {
  }

  /** A read of an uncached zone whose id is known makes exactly one call,
      the listing of that id. */
  lemma ZoneRecordsFetchOnce(s: State, remote: Remote, zone: string)
    requires zone !in s.zoneRecords
    requires s.zones.Some? && zone in s.zones.value
    ensures ZoneRecordsStep(s, remote, zone).state.calls == s.calls + [ListDnsDomainRecords(s.zones.value[zone])]
  {
  }

  /** The raw record `_apply_delete` removes for `existing`: its `source` is
      the existing record's name with the apex spelled ".", and its type is
      the existing record's type. */
  predicate Targets(existing: Record, r: RawRecord): (b: bool)
    ensures existing.name == "" ==> (b <==> r.source == "." && r.rtype == TypeName(existing.data.rtype))
    ensures existing.name != "" ==> (b <==> r.source == existing.name && r.rtype == TypeName(existing.data.rtype))
  {
    r.source == GetRecordName(existing.name) && r.rtype == TypeName(existing.data.rtype)
  }

  /** The delete calls the loop of `_apply_delete` makes over the listing
      `rs`: one per targeted raw record, by id, in listing order, addressed
      to the zone without its trailing dot; untargeted records get none. */
  function DeleteCalls(existing: Record, rs: seq<RawRecord>): (cs: seq<Call>)
    ensures |cs| <= |rs|
    ensures forall k :: 0 <= k < |cs| ==> cs[k].DeleteRecord? && cs[k].zone == ZoneWithoutTrailingDot(existing.zone)
    ensures (forall i :: 0 <= i < |rs| ==> !Targets(existing, rs[i])) ==> cs == []
  {
    if rs == [] then []
    else
      var r := rs[|rs| - 1];
      DeleteCalls(existing, rs[..|rs| - 1]) +
        (if Targets(existing, r) then [DeleteRecord(ZoneWithoutTrailingDot(existing.zone), r.id)] else [])
  }

  /** One more listed record adds its delete call, if it is targeted. */
  lemma DeleteCallsNext(existing: Record, rs: seq<RawRecord>, k: nat)
    requires k < |rs|
    ensures DeleteCalls(existing, rs[..k + 1]) == DeleteCalls(existing, rs[..k]) +
      (if Targets(existing, rs[k]) then [DeleteRecord(ZoneWithoutTrailingDot(existing.zone), rs[k].id)] else [])
  {
    PrefixStep(rs, k);
  }

  /** The delete calls name exactly the targeted records, one call per
      targeted record, in listing order, each addressed to the zone without
      its trailing dot. */
  lemma {:induction false} DeleteCallsDoomed(existing: Record, rs: seq<RawRecord>)
    ensures |DeleteCalls(existing, rs)| == |Doomed(existing, rs)|
    ensures forall k :: 0 <= k < |DeleteCalls(existing, rs)| ==>
      && DeleteCalls(existing, rs)[k] == DeleteRecord(ZoneWithoutTrailingDot(existing.zone), Doomed(existing, rs)[k].id)
  {
    if rs != [] {
      DeleteCallsDoomed(existing, rs[..|rs| - 1]);
    }
  }

  /** The targeted raw records of a listing, in listing order. */
  function Doomed(existing: Record, rs: seq<RawRecord>): seq<RawRecord>
  {
    if rs == [] then []
    else
      var r := rs[|rs| - 1];
      Doomed(existing, rs[..|rs| - 1]) + (if Targets(existing, r) then [r] else [])
  }

  /** Each targeted record is doomed as often as it is listed, and no other
      record at all. */
  lemma {:induction false} DoomedSpec(existing: Record, rs: seq<RawRecord>)
    ensures forall r :: multiset(Doomed(existing, rs))[r] == if Targets(existing, r) then multiset(rs)[r] else 0
  {
    if rs != [] {
      var r := rs[|rs| - 1];
      Snoc(rs);
      DoomedSpec(existing, rs[..|rs| - 1]);
    }
  }

  /** The parameter set `_apply_create` posts: the apex source "." is sent as "". */
  function Posted(p: Params): (q: Params)
    ensures q.target == p.target && q.ttl == p.ttl && q.rtype == p.rtype
    ensures p.source == "." ==> q.source == ""
    ensures p.source != "." ==> q.source == p.source
  {
    p.(source := ApexFromRaw(p.source))
  }

  /** The post calls of `_apply_create`: one per parameter set of the new
      record, in order, to the zone without its trailing dot, each with the
      record's own name as `source` (the apex as "") and the encoder's
      target, ttl and type. */
  function CreateCalls(newRecord: Record): (cs: seq<Call>)
    requires WellFormed(newRecord.data)
    ensures |cs| == |ParamsFor(newRecord)|
  {
    var ps := ParamsFor(newRecord);
    seq(|ps|, k requires 0 <= k < |ps| => PostRecord(ZoneWithoutTrailingDot(newRecord.zone), Posted(ps[k])))
  }

  /** What each post call carries. */
  lemma CreateCallsSpec(newRecord: Record)
    requires WellFormed(newRecord.data)
    ensures var cs := CreateCalls(newRecord);
      forall k :: 0 <= k < |cs| ==>
        && cs[k].PostRecord?
        && cs[k].zone == ZoneWithoutTrailingDot(newRecord.zone)
        && cs[k].params.target == ParamsFor(newRecord)[k].target
        && cs[k].params.ttl == newRecord.data.ttl
        && cs[k].params.rtype == TypeName(newRecord.data.rtype)
        && (newRecord.name != "." ==> cs[k].params.source == newRecord.name)
        && (newRecord.name == "." ==> cs[k].params.source == "")
  {
    var cs := CreateCalls(newRecord);
    forall k | 0 <= k < |cs|
      ensures newRecord.name != "." ==> cs[k].params.source == newRecord.name
      ensures newRecord.name == "." ==> cs[k].params.source == ""
    {
      ApexRoundTrip(newRecord.name, ParamsFor(newRecord)[k].source);
    }
  }

  /** `_apply_delete`: reads the existing record's zone listing (which may
      fetch it), then deletes the targeted records. */
  function DeleteStep(s: State, remote: Remote, existing: Record): (o: Outcome<()>)
    ensures Grows(s, o.state)
    ensures forall z :: z in o.state.zoneRecords ==> z in s.zoneRecords || z == existing.zone
  {
    var l := ZoneRecordsStep(s, remote, existing.zone);
    if l.result.Err? then Outcome(l.state, Err(l.result.error))
    else Outcome(l.state.(calls := l.state.calls + DeleteCalls(existing, l.result.value)), Ok(()))
  }

  /** Whether the framework's record behind a change is well formed where
      the change encodes it. */
  predicate ChangeWellFormed(c: Change)
  {
    match c
    case Create(n) => WellFormed(n.data)
    case Delete(_) => true
    case Update(_, n) => WellFormed(n.data)
  }

  /** One change, dispatched on its kind; an update deletes the existing
      record and then creates the new one. */
  function ChangeStep(s: State, remote: Remote, c: Change): (o: Outcome<()>)
    requires ChangeWellFormed(c)
    ensures Grows(s, o.state)
  {
    match c
    case Create(n) => Outcome(s.(calls := s.calls + CreateCalls(n)), Ok(()))
    case Delete(e) => DeleteStep(s, remote, e)
    case Update(e, n) =>
      var d := DeleteStep(s, remote, e);
      if d.result.Err? then d
      else Outcome(d.state.(calls := d.state.calls + CreateCalls(n)), Ok(()))
  }

  /** The change loop of `_apply`: the changes in the given order; the first
      change that raises ends the loop with its error. */
  function ApplyChanges(s: State, remote: Remote, cs: seq<Change>): (o: Outcome<()>)
    requires forall k :: 0 <= k < |cs| ==> ChangeWellFormed(cs[k])
    ensures Grows(s, o.state)
  {
    if cs == [] then Outcome(s, Ok(()))
    else
      var o := ApplyChanges(s, remote, cs[..|cs| - 1]);
      if o.result.Err? then o
      else
        var o' := ChangeStep(o.state, remote, cs[|cs| - 1]);
        GrowsTransitive(s, o.state, o'.state);
        o'
  }

  /** `_apply(plan)`: the changes, then the desired zone's cached listing is
      dropped; when a change raises, nothing is dropped. */
  function ApplyStep(s: State, remote: Remote, desired: string, cs: seq<Change>): (o: Outcome<()>)
    requires forall k :: 0 <= k < |cs| ==> ChangeWellFormed(cs[k])
    ensures o.result == ApplyChanges(s, remote, cs).result
    ensures o.state.calls == ApplyChanges(s, remote, cs).state.calls
    ensures o.result.Ok? ==> desired !in o.state.zoneRecords
    ensures o.result.Err? ==> o.state == ApplyChanges(s, remote, cs).state
  {
    var o := ApplyChanges(s, remote, cs);
    if o.result.Err? then o
    else Outcome(o.state.(zoneRecords := o.state.zoneRecords - {desired}), Ok(()))
  }

  /** The changes are processed in order: applying `a + b` is applying `a`
      and then, unless it raised, applying `b` to the state it left. */
  lemma {:induction false} ApplyInOrder(s: State, remote: Remote, a: seq<Change>, b: seq<Change>)
    requires forall k :: 0 <= k < |a| ==> ChangeWellFormed(a[k])
    requires forall k :: 0 <= k < |b| ==> ChangeWellFormed(b[k])
    ensures forall k :: 0 <= k < |a + b| ==> ChangeWellFormed((a + b)[k])
    ensures ApplyChanges(s, remote, a + b) ==
      var o := ApplyChanges(s, remote, a);
      if o.result.Err? then o else ApplyChanges(o.state, remote, b)
    decreases |b|
  {
    assert forall k :: 0 <= k < |a + b| ==> ChangeWellFormed((a + b)[k]) by {
      forall k | 0 <= k < |a + b| ensures ChangeWellFormed((a + b)[k]) {
        if k < |a| { assert (a + b)[k] == a[k]; } else { assert (a + b)[k] == b[k - |a|]; }
      }
    }
    if b == [] {
      AppendEmpty(a);
    } else {
      AppendInit(a, b);
      ApplyInOrder(s, remote, a, b[..|b| - 1]);
    }
  }

  predicate AllWellFormed(cs: seq<Change>)
  {
    forall k :: 0 <= k < |cs| ==> ChangeWellFormed(cs[k])
  }

  /** The change loop one change further. */
  lemma ApplyNext(s: State, remote: Remote, cs: seq<Change>, i: nat)
    requires i < |cs| && forall k :: 0 <= k < |cs| ==> ChangeWellFormed(cs[k])
    ensures AllWellFormed(cs[..i]) && AllWellFormed(cs[..i + 1])
    ensures ApplyChanges(s, remote, cs[..i + 1]) ==
      var o := ApplyChanges(s, remote, cs[..i]);
      if o.result.Err? then o else ChangeStep(o.state, remote, cs[i])
  {
    PrefixStep(cs, i);
  }

  /** A change that raises ends the change loop: the changes after it are
      never applied. */
  lemma {:induction false} ApplyStopsAt(s: State, remote: Remote, cs: seq<Change>, n: nat, m: nat)
    requires n <= m <= |cs| && AllWellFormed(cs)
    requires ApplyChanges(s, remote, cs[..n]).result.Err?
    ensures ApplyChanges(s, remote, cs[..m]) == ApplyChanges(s, remote, cs[..n])
    decreases m - n
  {
    if n < m {
      ApplyStopsAt(s, remote, cs, n, m - 1);
      ApplyNext(s, remote, cs, m - 1);
    }
  }

  /** An update is exactly a delete of the existing record followed by a
      create of the new one. */
  lemma UpdateIsDeleteThenCreate(s: State, remote: Remote, e: Record, n: Record)
    requires WellFormed(n.data)
    ensures ApplyChanges(s, remote, [Update(e, n)]) == ApplyChanges(s, remote, [Delete(e), Create(n)])
  {
    assert [Delete(e), Create(n)][..1] == [Delete(e)];
    assert [Delete(e)][..0] == [];
    assert [Update(e, n)][..0] == [];
  }

  /** During one batch of changes every zone's listing is read at most once:
      a delete reads the listing cached by an earlier delete of the same
      batch, not a fresh one. */
  lemma BatchReadsOnce(s: State, remote: Remote, a: seq<Change>, e: Record)
    requires forall k :: 0 <= k < |a| ==> ChangeWellFormed(a[k])
    requires ApplyChanges(s, remote, a).result.Ok?
    requires e.zone in s.zoneRecords
    ensures var o := ApplyChanges(s, remote, a);
      DeleteStep(o.state, remote, e).state.calls ==
        o.state.calls + DeleteCalls(e, s.zoneRecords[e.zone])
  {
  }

  /** After a successful apply the desired zone's listing is no longer
      cached, even for an empty change list, and the other zones' cached
      listings are those the changes left. */
  lemma ApplyInvalidates(s: State, remote: Remote, desired: string, cs: seq<Change>)
    requires forall k :: 0 <= k < |cs| ==> ChangeWellFormed(cs[k])
    ensures var o := ApplyStep(s, remote, desired, cs);
      o.result.Ok? ==>
        && desired !in o.state.zoneRecords
        && o.state.calls == ApplyChanges(s, remote, cs).state.calls
        && forall z :: z != desired && z in ApplyChanges(s, remote, cs).state.zoneRecords ==>
             z in o.state.zoneRecords && o.state.zoneRecords[z] == ApplyChanges(s, remote, cs).state.zoneRecords[z]
    ensures cs == [] ==> ApplyStep(s, remote, desired, cs) == Outcome(s.(zoneRecords := s.zoneRecords - {desired}), Ok(()))
  {
  }

  /** The first read of the desired zone after a successful apply fetches
      its listing again, with exactly one call. */
  lemma RefetchAfterApply(s: State, remote: Remote, desired: string, cs: seq<Change>)
    requires forall k :: 0 <= k < |cs| ==> ChangeWellFormed(cs[k])
    requires ApplyStep(s, remote, desired, cs).result.Ok?
    requires s.zones.Some? && desired in s.zones.value
    ensures var o := ApplyStep(s, remote, desired, cs);
      ZoneRecordsStep(o.state, remote, desired).state.calls == o.state.calls + [ListDnsDomainRecords(s.zones.value[desired])]
  {
    var c := ApplyChanges(s, remote, cs);
    assert c.state.zones == s.zones;
  }

  /** The number of domain listings in a call log. */
  function ListCount(calls: seq<Call>): nat
  {
    if calls == [] then 0
    else ListCount(calls[..|calls| - 1]) + (if calls[|calls| - 1] == ListDnsDomains then 1 else 0)
  }

  lemma {:induction false} ListCountAppend(a: seq<Call>, b: seq<Call>)
    ensures ListCount(a + b) == ListCount(a) + ListCount(b)
    decreases |b|
  {
    if b == [] {
      AppendEmpty(a);
    } else {
      AppendInit(a, b);
      ListCountAppend(a, b[..|b| - 1]);
    }
  }

  lemma {:induction false} NoListings(cs: seq<Call>)
    requires forall k :: 0 <= k < |cs| ==> !cs[k].ListDnsDomains?
    ensures ListCount(cs) == 0
  {
    if cs != [] {
      NoListings(cs[..|cs| - 1]);
    }
  }

  /** The domains have been listed exactly once if the zone map is cached
      and never otherwise. */
  predicate ListedOnce(s: State)
  {
    ListCount(s.calls) == if s.zones.Some? then 1 else 0
  }

  lemma ListCountSnoc(a: seq<Call>, c: Call)
    ensures ListCount(a + [c]) == ListCount(a) + if c == ListDnsDomains then 1 else 0
  {
    assert (a + [c])[..|a|] == a;
  }

  lemma ZoneRecordsListsOnce(s: State, remote: Remote, zone: string)
    requires ListedOnce(s)
    ensures ListedOnce(ZoneRecordsStep(s, remote, zone).state)
  {
    if zone !in s.zoneRecords {
      var z := ZonesStep(s, remote);
      if s.zones.None? {
        ListCountSnoc(s.calls, ListDnsDomains);
      }
      assert ListedOnce(z.state);
      var zones := z.result.value;
      if zone in zones {
        ListCountSnoc(z.state.calls, ListDnsDomainRecords(zones[zone]));
      }
    }
  }

  lemma ChangeListsOnce(s: State, remote: Remote, c: Change)
    requires ChangeWellFormed(c) && ListedOnce(s)
    ensures ListedOnce(ChangeStep(s, remote, c).state)
  {
    match c
    case Create(n) =>
      CreateCallsSpec(n);
      NoListings(CreateCalls(n));
      ListCountAppend(s.calls, CreateCalls(n));
    case Delete(e) =>
      DeleteListsOnce(s, remote, e);
    case Update(e, n) =>
      DeleteListsOnce(s, remote, e);
      var d := DeleteStep(s, remote, e);
      CreateCallsSpec(n);
      NoListings(CreateCalls(n));
      ListCountAppend(d.state.calls, CreateCalls(n));
  }

  lemma DeleteListsOnce(s: State, remote: Remote, e: Record)
    requires ListedOnce(s)
    ensures ListedOnce(DeleteStep(s, remote, e).state)
  {
    ZoneRecordsListsOnce(s, remote, e.zone);
    var l := ZoneRecordsStep(s, remote, e.zone);
    if l.result.Ok? {
      DeleteCallsDoomed(e, l.result.value);
      NoListings(DeleteCalls(e, l.result.value));
      ListCountAppend(l.state.calls, DeleteCalls(e, l.result.value));
    }
  }

  /** `zones` lists the domains at most once per provider: every apply
      keeps the log holding exactly one listing once the map is cached and
      none before. */
  lemma {:induction false} ApplyListsOnce(s: State, remote: Remote, desired: string, cs: seq<Change>)
    requires forall k :: 0 <= k < |cs| ==> ChangeWellFormed(cs[k])
    requires ListedOnce(s)
    ensures ListedOnce(ApplyChanges(s, remote, cs).state)
    ensures ListedOnce(ApplyStep(s, remote, desired, cs).state)
    decreases |cs|
  {
    if cs != [] {
      ApplyListsOnce(s, remote, desired, cs[..|cs| - 1]);
      var o := ApplyChanges(s, remote, cs[..|cs| - 1]);
      if o.result.Ok? {
        ChangeListsOnce(o.state, remote, cs[|cs| - 1]);
      }
    }
  }

  /** What `populate` leaves behind: the state, the records it added to the
      zone (kept even when a later bucket raised), and its return value or
      error. */
  datatype Populated = Populated(state: State, added: seq<Record>, result: Result<bool, Error>)

  /** `populate(zone)`: read the zone's listing, group it, and build one
      record per bucket; the return value says whether the zone's listing is
      cached. */
  function PopulateStep(s: State, remote: Remote, zone: string): (p: Populated)
    ensures p.state == ZoneRecordsStep(s, remote, zone).state
  {
    var o := ZoneRecordsStep(s, remote, zone);
    if o.result.Err? then Populated(o.state, [], Err(o.result.error))
    else
      var rs := o.result.value;
      var fs := Flatten(Grouped(rs));
      PopulateBuckets(rs);
      var b := BuildAll(zone, fs);
      Populated(o.state, b.added, if b.error.Some? then Err(b.error.value) else Ok(zone in o.state.zoneRecords))
  }

  /** `populate` returns True whenever it returns normally. */
  lemma PopulateExists(s: State, remote: Remote, zone: string)
    ensures PopulateStep(s, remote, zone).result.Ok? ==> PopulateStep(s, remote, zone).result.value
  {
  }

  /** `added` holds exactly one record per (name, type) pair of a
      supported type occurring in the listing `rs`, in the buckets'
      visiting order, each named with the apex "." mapped to "", with the
      first member's ttl, decoded from the pair's raw records in listing
      order. */
  ghost predicate BuiltFrom(zone: string, rs: seq<RawRecord>, added: seq<Record>)
  {
    var fs := Flatten(Grouped(rs));
    && |added| == |fs|
    && (forall n, t :: CountKey(fs, n, t) == if Bucket(rs, n, t) != [] then 1 else 0)
    && forall a :: 0 <= a < |added| ==>
         var b := Bucket(rs, fs[a].name, fs[a].rtype);
         && |b| > 0
         && DataFor(fs[a].rtype, b).Ok?
         && added[a] == Record(zone, ApexFromRaw(fs[a].name), DataFor(fs[a].rtype, b).value)
         && added[a].data.ttl == b[0].ttl
         && added[a].data.rtype == fs[a].rtype
  }

  /** A record-building loop over a listing's buckets that raised nothing
      built the records `BuiltFrom` describes. */
  lemma ListingBuilds(zone: string, rs: seq<RawRecord>)
    requires Filled(Flatten(Grouped(rs))) && BuildAll(zone, Flatten(Grouped(rs))).error.None?
    ensures BuiltFrom(zone, rs, BuildAll(zone, Flatten(Grouped(rs))).added)
  {
    var fs := Flatten(Grouped(rs));
    PopulateBuckets(rs);
    BuiltEvery(zone, fs);
    forall n, t ensures CountKey(fs, n, t) == if Bucket(rs, n, t) != [] then 1 else 0 {
      PopulateUnique(rs, n, t);
    }
  }

  /** The records a successful `populate` adds are those `BuiltFrom`
      describes for the zone's listing. */
  lemma PopulateRecords(s: State, remote: Remote, zone: string)
    requires PopulateStep(s, remote, zone).result.Ok?
    ensures BuiltFrom(zone, ZoneRecordsStep(s, remote, zone).result.value, PopulateStep(s, remote, zone).added)
  {
    var rs := ZoneRecordsStep(s, remote, zone).result.value;
    PopulateBuckets(rs);
    ListingBuilds(zone, rs);
  }

  /** `populate` keeps the domain listing count. */
  lemma PopulateListsOnce(s: State, remote: Remote, zone: string)
    requires ListedOnce(s)
    ensures ListedOnce(PopulateStep(s, remote, zone).state)
  {
    ZoneRecordsListsOnce(s, remote, zone);
  }
}
