/** What decoding and encoding promise of each other: the structured types
    round-trip through the `target` string, and the A/AAAA/TXT escaping round-trips
    from the raw side. MX is deliberately absent: its
    decoder reads `content` and `priority`, its encoder writes
    "preference exchange" into `target`. */
module RoundTrip {
  import opened Wrappers
  import opened Text
  import opened Names
  import opened Records
  import opened Decode
  import opened Encode

  /** The structured types, whose decoders split `target` into fields. */
  predicate Structured(t: RecordType)
  {
    t == CAA || t == DS || t == SRV || t == SSHFP || t == TLSA
  }

  lemma {:induction false} RemoveQuotesAppend(a: string, b: string)
    ensures RemoveQuotes(a + b) == RemoveQuotes(a) + RemoveQuotes(b)
  {
    if a != [] {
      assert (a + b)[1..] == a[1..] + b;
      RemoveQuotesAppend(a[1..], b);
    } else {
      assert a + b == b;
    }
  }

  /** CAA: decoding the encoder's target restores the value. */
  lemma CaaRoundTrip(id: string, v: Value)
    requires v.Caa? && Canonical(v)
    ensures DecodeCaa(id, Target(v)) == Ok(v)
  {
    var quoted := "\"" + v.caaValue + "\"";
    var fields := [IntToString(v.flags), v.tag, quoted];
    assert Target(v) == Join(fields);
    SplitJoin(fields, 2);
    JoinCount(fields);
    assert Fields(id, Target(v), 3) == Ok(fields);
    assert Int(id, fields[0]) == Ok(v.flags);
    Unquote(v.caaValue);
  }

  lemma Unquote(s: string)
    requires '"' !in s
    ensures RemoveQuotes("\"" + s + "\"") == s
  {
    RemoveQuotesAppend("\"", s + "\"");
    RemoveQuotesAppend(s, "\"");
    assert "\"" + s + "\"" == "\"" + (s + "\"");
  }

  /** DS: decoding the encoder's target restores the value. */
  lemma DsRoundTrip(id: string, v: Value)
    requires v.Ds?
    ensures DecodeDs(id, Target(v)) == Ok(v)
  {
    var fields := [IntToString(v.keyTag), IntToString(v.algorithm), IntToString(v.digestType), v.digest];
    assert Target(v) == Join(fields);
    SplitJoin(fields, 3);
    JoinCount(fields);
  }

  /** SRV: decoding the encoder's target restores the value when the target
      is already fully qualified. */
  lemma SrvRoundTrip(id: string, v: Value)
    requires v.Srv? && Canonical(v)
    ensures DecodeSrv(id, Target(v)) == Ok(v)
  {
    var fields := [IntToString(v.priority), IntToString(v.weight), IntToString(v.port), v.srvTarget];
    assert Target(v) == Join(fields);
    SplitJoin(fields, 3);
    JoinCount(fields);
  }

  /** SSHFP: decoding the encoder's target restores the value when the
      fingerprint is already lower-case. */
  lemma SshfpRoundTrip(id: string, v: Value)
    requires v.Sshfp? && Canonical(v)
    ensures DecodeSshfp(id, Target(v)) == Ok(v)
  {
    var fields := [IntToString(v.algorithm), IntToString(v.fingerprintType), v.fingerprint];
    assert Target(v) == Join(fields);
    SplitJoin(fields, 2);
    JoinCount(fields);
  }

  /** TLSA: decoding the encoder's target restores the value. */
  lemma TlsaRoundTrip(id: string, v: Value)
    requires v.Tlsa?
    ensures DecodeTlsa(id, Target(v)) == Ok(v)
  {
    var fields := [IntToString(v.certificateUsage), IntToString(v.selector), IntToString(v.matchingType), v.associationData];
    assert Target(v) == Join(fields);
    SplitJoin(fields, 3);
    JoinCount(fields);
  }

  lemma {:induction false} JoinCount(fields: seq<string>)
    requires |fields| > 0
    ensures Count(Join(fields), ' ') >= |fields| - 1
  {
    if |fields| > 1 {
      var rest := Join(fields[1..]);
      JoinCount(fields[1..]);
      assert Join(fields) == fields[0] + (" " + rest);
      CountAppend(fields[0], " " + rest, ' ');
      CountAppend(" ", rest, ' ');
    }
  }

  /** One structured value survives encoding and decoding. */
  lemma ValueRoundTrip(t: RecordType, v: Value, r: RawRecord)
    requires Structured(t) && Fits(t, v) && Canonical(v)
    requires r.target == Target(v)
    ensures DecodeValue(t, r) == Ok(v)
  {
    match t
    case CAA => CaaRoundTrip(r.id, v);
    case DS => DsRoundTrip(r.id, v);
    case SRV => SrvRoundTrip(r.id, v);
    case SSHFP => SshfpRoundTrip(r.id, v);
    case TLSA => TlsaRoundTrip(r.id, v);
  }

  /** Record level, for CAA, DS, SRV, SSHFP and TLSA: the raw records created
      from a record's parameter sets (whatever their ids and names) decode to
      exactly that record's data. */
  lemma StructuredRoundTrip(rec: Record, raws: seq<RawRecord>)
    requires WellFormed(rec.data) && Structured(rec.data.rtype)
    requires |rec.data.body.values| > 0
    requires forall k :: 0 <= k < |rec.data.body.values| ==> Canonical(rec.data.body.values[k])
    requires |raws| == |ParamsFor(rec)|
    requires forall k :: 0 <= k < |raws| ==> raws[k].target == ParamsFor(rec)[k].target && raws[k].ttl == ParamsFor(rec)[k].ttl
    ensures DataFor(rec.data.rtype, raws) == Ok(rec.data)
  {
    var t := rec.data.rtype;
    var vs := rec.data.body.values;
    forall k | 0 <= k < |raws| ensures DecodeValue(t, raws[k]) == Ok(vs[k]) {
      ValueRoundTrip(t, vs[k], raws[k]);
    }
    var d := DecodeValues(t, raws);
    assert d.value == vs;
  }

  /** CNAME: the raw record created from a CNAME's single parameter set
      decodes back to its data when the value is fully qualified. */
  lemma CnameRoundTrip(rec: Record, raws: seq<RawRecord>)
    requires WellFormed(rec.data) && rec.data.rtype == CNAME
    requires EndsWithDot(rec.data.body.value)
    requires |raws| > 0 && raws[0].target == ParamsFor(rec)[0].target && raws[0].ttl == ParamsFor(rec)[0].ttl
    ensures DataFor(CNAME, raws) == Ok(rec.data)
  {
  }

  /** A, AAAA and TXT, from the raw side: decoding a group and encoding the
      record it yields gives parameter sets whose targets are the raw
      contents, in order, and whose ttl is the group's first ttl. */
  lemma EscapedRoundTrip(t: RecordType, zone: string, name: string, raws: seq<RawRecord>)
    requires t == A || t == AAAA || t == TXT
    requires |raws| > 0
    ensures DataFor(t, raws).Ok?
    ensures var ps := ParamsFor(Record(zone, name, DataFor(t, raws).value));
      |ps| == |raws| &&
      forall k :: 0 <= k < |ps| ==>
        ps[k].target == raws[k].content && ps[k].ttl == raws[0].ttl && ps[k].source == GetRecordName(name)
  {
    var d := DataFor(t, raws).value;
    var ps := ParamsFor(Record(zone, name, d));
    forall k | 0 <= k < |ps| ensures ps[k].target == raws[k].content {
      assert DecodeValue(t, raws[k]) == Ok(d.body.values[k]);
      UnescapeEscape(raws[k].content);
    }
  }

  /** Decoding, encoding and decoding again gives the first decoding. */
  lemma RawRoundTrip(t: RecordType, r: RawRecord, r': RawRecord)
    requires Structured(t) && DecodeValue(t, r).Ok?
    requires r'.target == Target(DecodeValue(t, r).value)
    ensures DecodeValue(t, r') == DecodeValue(t, r)
  {
    ValueRoundTrip(t, DecodeValue(t, r).value, r');
  }
}
