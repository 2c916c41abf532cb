/** The provider object itself: its zone-map and record-listing caches are
    fields it fills and empties, its loops post and delete records through
    a client that logs every call. Each method is proved to move the
    provider and its client to exactly the state the corresponding step of
    `Applicator` prescribes. */
module Provider {
  import opened Wrappers
  import opened Names
  import opened Records
  import opened Decode
  import opened Encode
  import opened Grouping
  import opened Seqs
  import opened Applicator

  /** The DNS client: it answers from a fixed remote and logs every call it receives. */
  class Client {
    const remote: Remote
    var calls: seq<Call>

    constructor(remote: Remote)
      ensures this.remote == remote && calls == []
    {
      this.remote := remote;
      calls := [];
    }

    method ListDnsDomains() returns (ds: seq<Domain>)
      modifies this
      ensures ds == remote.domains
      ensures calls == old(calls) + [Call.ListDnsDomains]
    {
      ds := remote.domains;
      calls := calls + [Call.ListDnsDomains];
    }

    /** Raises for a domain id the remote does not know. */
    method ListDnsDomainRecords(domainId: string) returns (r: Result<seq<RawRecord>, Error>)
      modifies this
      ensures r == if domainId in remote.records then Ok(remote.records[domainId]) else Err(TransportError(domainId))
      ensures calls == old(calls) + [Call.ListDnsDomainRecords(domainId)]
    {
      calls := calls + [Call.ListDnsDomainRecords(domainId)];
      if domainId in remote.records {
        r := Ok(remote.records[domainId]);
      } else {
        r := Err(TransportError(domainId));
      }
    }

    method PostRecord(zone: string, params: Params)
      modifies this
      ensures calls == old(calls) + [Call.PostRecord(zone, params)]
    {
      calls := calls + [Call.PostRecord(zone, params)];
    }

    method DeleteRecord(zone: string, recordId: string)
      modifies this
      ensures calls == old(calls) + [Call.DeleteRecord(zone, recordId)]
    {
      calls := calls + [Call.DeleteRecord(zone, recordId)];
    }
  }

  /** A framework zone: its name and the records populated into it. */
  class Zone {
    const name: string
    var records: seq<Record>

    constructor(name: string)
      ensures this.name == name && records == []
    {
      this.name := name;
      records := [];
    }
  }

  class ExoscaleProvider {
    const client: Client
    var zones: Option<map<string, string>>
    var zoneRecords: map<string, seq<RawRecord>>

    /** A new provider with its own client, nothing cached and no call made. */
    constructor(remote: Remote)
      ensures fresh(client) && client.remote == remote
      ensures Snapshot() == Initial
    {
      client := new Client(remote);
      zones := None;
      zoneRecords := map[];
    }

    /** The provider's caches together with its client's call log. */
    function Snapshot(): State
      reads this, client
    {
      State(zones, zoneRecords, client.calls)
    }

    /** The `zones` property. */
    method Zones() returns (m: map<string, string>)
      modifies this, client
      ensures Outcome(Snapshot(), Ok(m)) == ZonesStep(old(Snapshot()), client.remote)
    {
      if zones.None? {
        var ds := client.ListDnsDomains();
        var acc := map[];
        for i := 0 to |ds|
          invariant acc == DomainMap(ds[..i])
        {
          assert ds[..i + 1][..i] == ds[..i];
          acc := acc[ds[i].unicodeName + "." := ds[i].id];
        }
        assert ds[..|ds|] == ds;
        zones := Some(acc);
      }
      m := zones.value;
    }

    /** `zone_records(zone)`. */
    method ZoneRecords(zone: string) returns (r: Result<seq<RawRecord>, Error>)
      modifies this, client
      ensures Outcome(Snapshot(), r) == ZoneRecordsStep(old(Snapshot()), client.remote, zone)
    {
      if zone !in zoneRecords {
        var m := Zones();
        if zone !in m {
          return Err(UnknownZone(zone));
        }
        var listed := client.ListDnsDomainRecords(m[zone]);
        if listed.Err? {
          return Err(listed.error);
        }
        zoneRecords := zoneRecords[zone := listed.value];
      }
      r := Ok(zoneRecords[zone]);
    }

    /** The grouping loop of `populate`: `values[name][type].append(record)`
        for every listed record of a supported type. */
    method GroupRecords(rs: seq<RawRecord>) returns (values: seq<NameGroup>)
      ensures values == Grouped(rs)
    {
      values := [];
      for i := 0 to |rs|
        invariant values == Grouped(rs[..i])
      {
        assert rs[..i + 1][..i] == rs[..i];
        var t := ParseType(rs[i].rtype);
        if t.Some? {
          values := Add(values, rs[i], t.value);
        }
      }
      assert rs[..|rs|] == rs;
    }

    /** The record-building loop of `populate`: one record per bucket, in
        visiting order, added to `zone`; the first decoder error ends it.
        `ds` names the decoder's verdict on each bucket. */
    method BuildRecords(zone: Zone, values: seq<NameGroup>, ghost ds: seq<Result<Data, Error>>) returns (error: Option<Error>)
      requires DecodesTo(Flatten(values), ds)
      modifies zone
      ensures Built(zone.records, error) == Prefixed(old(zone.records), Build(zone.name, Flatten(values), ds))
    {
      for i := 0 to |values|
        invariant Built(zone.records, None) == Prefixed(old(zone.records), BuiltNames(zone.name, values, ds, i))
      {
        ghost var before := zone.records;
        NameSlice(values, ds, i);
        error := BuildName(zone, values[i], NameDecodings(values, ds, i));
        BuildNextName(zone.name, values, ds, i, old(zone.records), before, zone.records, error);
        if error.Some? {
          return;
        }
      }
      BuiltAllNames(zone.name, values, ds);
      error := None;
    }

    /** The inner loop of the record-building loop, over one name's buckets. */
    method BuildName(zone: Zone, g: NameGroup, ghost ds: seq<Result<Data, Error>>) returns (error: Option<Error>)
      requires DecodesTo(Expand(g), ds)
      modifies zone
      ensures Built(zone.records, error) == Prefixed(old(zone.records), Build(zone.name, Expand(g), ds))
    {
      var name := g.name;
      ghost var fs := Expand(g);
      for j := 0 to |g.types|
        invariant Built(zone.records, None) == Prefixed(old(zone.records), Build(zone.name, fs[..j], ds[..j]))
        invariant name == ApexFromRaw(g.name) || (j == 0 && name == g.name)
      {
        if name == "." {
          name := "";
        }
        var t := g.types[j];
        var data := DataForBucket(t, fs, ds, j);
        BuildNextBucket(zone.name, fs, ds, j, old(zone.records), zone.records);
        if data.Err? {
          return Some(data.error);
        }
        zone.records := zone.records + [Record(zone.name, name, data.value)];
      }
      Whole(fs);
      Whole(ds);
      error := None;
    }

    /** The decoder dispatch `_data_for_<type>(type, records)` on bucket `j`,
        whose verdict `ds` names. */
    method DataForBucket(t: TypeGroup, ghost fs: seq<Group>, ghost ds: seq<Result<Data, Error>>, ghost j: nat) returns (data: Result<Data, Error>)
      requires DecodesTo(fs, ds) && j < |fs| && fs[j].rtype == t.rtype && fs[j].records == t.records
      ensures data == ds[j]
    {
      assert DecodesAt(fs, ds, j);
      data := DataFor(t.rtype, t.records);
    }

    /** `populate(zone)`: the records it adds to `zone` and what it returns
        or raises are those of `PopulateStep`. */
    method Populate(zone: Zone) returns (r: Result<bool, Error>)
      modifies this, client, zone
      ensures var p := PopulateStep(old(Snapshot()), client.remote, zone.name);
        Snapshot() == p.state && zone.records == old(zone.records) + p.added && r == p.result
    {
      var listed := ZoneRecords(zone.name);
      if listed.Err? {
        return Err(listed.error);
      }
      var values := GroupRecords(listed.value);
      PopulateBuckets(listed.value);
      DecodingsDecode(Flatten(values));
      var error := BuildRecords(zone, values, Decodings(Flatten(values)));
      if error.Some? {
        return Err(error.value);
      }
      r := Ok(zone.name in zoneRecords);
    }

    /** `_apply_create`. */
    method ApplyCreate(newRecord: Record)
      requires WellFormed(newRecord.data)
      modifies client
      ensures Snapshot() == ChangeStep(old(Snapshot()), client.remote, Create(newRecord)).state
    {
      var ps := ParamsFor(newRecord);
      ghost var cs := CreateCalls(newRecord);
      for k := 0 to |ps|
        invariant client.calls == old(client.calls) + cs[..k]
      {
        var param := ps[k];
        if param.source == "." {
          param := param.(source := "");
        }
        client.PostRecord(ZoneWithoutTrailingDot(newRecord.zone), param);
        assert param == Posted(ps[k]);
        PrefixStep(cs, k);
        Assoc(old(client.calls), cs[..k], [cs[k]]);
      }
      Whole(cs);
    }

    /** `_apply_delete`. */
    method ApplyDelete(existing: Record) returns (r: Result<(), Error>)
      modifies this, client
      ensures Outcome(Snapshot(), r) == DeleteStep(old(Snapshot()), client.remote, existing)
    {
      var listed := ZoneRecords(existing.zone);
      if listed.Err? {
        return Err(listed.error);
      }
      var rs := listed.value;
      ghost var mid := Snapshot();
      for k := 0 to |rs|
        invariant Snapshot() == mid.(calls := mid.calls + DeleteCalls(existing, rs[..k]))
      {
        ghost var done := DeleteCalls(existing, rs[..k]);
        DeleteCallsNext(existing, rs, k);
        var name := existing.name;
        if name == "" {
          name := ".";
        }
        if name == rs[k].source && TypeName(existing.data.rtype) == rs[k].rtype {
          client.DeleteRecord(ZoneWithoutTrailingDot(existing.zone), rs[k].id);
          Assoc(mid.calls, done, [DeleteRecord(ZoneWithoutTrailingDot(existing.zone), rs[k].id)]);
        } else {
          AppendEmpty(done);
        }
      }
      Whole(rs);
      r := Ok(());
    }

    /** `_apply_update`. */
    method ApplyUpdate(existing: Record, newRecord: Record) returns (r: Result<(), Error>)
      requires WellFormed(newRecord.data)
      modifies this, client
      ensures Outcome(Snapshot(), r) == ChangeStep(old(Snapshot()), client.remote, Update(existing, newRecord))
    {
      r := ApplyDelete(existing);
      if r.Err? {
        return;
      }
      ApplyCreate(newRecord);
    }

    /** `_apply(plan)` for a plan whose desired zone is named `desired`. */
    method Apply(desired: string, changes: seq<Change>) returns (r: Result<(), Error>)
      requires forall k :: 0 <= k < |changes| ==> ChangeWellFormed(changes[k])
      modifies this, client
      ensures Outcome(Snapshot(), r) == ApplyStep(old(Snapshot()), client.remote, desired, changes)
    {
      for i := 0 to |changes|
        invariant Outcome(Snapshot(), Ok(())) == ApplyChanges(old(Snapshot()), client.remote, changes[..i])
      {
        ApplyNext(old(Snapshot()), client.remote, changes, i);
        var res: Result<(), Error>;
        match changes[i] {
          case Create(n) =>
            ApplyCreate(n);
            res := Ok(());
          case Delete(e) =>
            res := ApplyDelete(e);
          case Update(e, n) =>
            res := ApplyUpdate(e, n);
        }
        if res.Err? {
          ApplyStopsAt(old(Snapshot()), client.remote, changes, i + 1, |changes|);
          Whole(changes);
          return res;
        }
      }
      Whole(changes);
      zoneRecords := zoneRecords - {desired};
      r := Ok(());
    }
  }
}
