/** The `_data_for_<type>` decoders: a non-empty group of raw records of one
    name and type becomes the data of one framework record. */
module Decode {
  import opened Wrappers
  import opened Text
  import opened Names
  import opened Records

  /** Tuple unpacking of `target.split(" ", n - 1)` into `n` names: fails
      exactly when the target has fewer than `n - 1` spaces. */
  function Fields(id: string, target: string, n: nat): (r: Result<seq<string>, Error>)
    requires n > 0
    ensures r.Ok? <==> Count(target, ' ') >= n - 1
    ensures r.Err? ==> r.error == MalformedRecord(id)
    ensures r.Ok? ==> |r.value| == n && Join(r.value) == target
    ensures r.Ok? ==> forall k :: 0 <= k < n - 1 ==> ' ' !in r.value[k]
  {
    var parts := Split(target, n - 1);
    if |parts| < n then Err(MalformedRecord(id)) else Ok(parts)
  }

  /** `int(text)` inside the decoder of record `id`. */
  function Int(id: string, text: string): (r: Result<int, Error>)
    ensures r.Ok? <==> ParseInt(text).Some?
    ensures r.Ok? ==> Some(r.value) == ParseInt(text)
    ensures r.Err? ==> r.error == NotAnInteger(id, text)
  {
    match ParseInt(text)
    case Some(i) => Ok(i)
    case None => Err(NotAnInteger(id, text))
  }

  /** The values a decoder produces and the encoder writes back unchanged:
      a CAA tag without spaces and a CAA value without double quotes, an SRV
      target fully qualified, an SSHFP fingerprint lower-case. */
  predicate Canonical(v: Value)
  {
    match v
    case Caa(_, tag, caaValue) => ' ' !in tag && '"' !in caaValue
    case Srv(_, _, _, srvTarget) => EndsWithDot(srvTarget)
    case Sshfp(_, _, fingerprint) => forall k :: 0 <= k < |fingerprint| ==> !IsUpper(fingerprint[k])
    case Ds(_, _, _, _) => true
    case Tlsa(_, _, _, _) => true
    case Plain(_) => true
    case Mx(_, _) => true
  }

  /** `_data_for_CAA`, one record: `flags tag value`, quotes removed from the value. */
  function DecodeCaa(id: string, target: string): (r: Result<Value, Error>)
    ensures r == Err(MalformedRecord(id)) <==> Count(target, ' ') < 2
    ensures Count(target, ' ') >= 2 ==>
      (r.Ok? <==> ParseInt(Split(target, 2)[0]).Some?)
    ensures r.Ok? ==> r.value.Caa? && Canonical(r.value)
    ensures r.Ok? ==> var f := Split(target, 2);
      Some(r.value.flags) == ParseInt(f[0]) && r.value.tag == f[1] &&
      r.value.caaValue == RemoveQuotes(f[2])
  {
    var f :- Fields(id, target, 3);
    var flags :- Int(id, f[0]);
    Ok(Caa(flags, f[1], RemoveQuotes(f[2])))
  }

  /** `_data_for_DS`, one record: `key_tag algorithm digest_type digest`; the
      numbers are converted in the order the dictionary literal lists them. */
  function DecodeDs(id: string, target: string): (r: Result<Value, Error>)
    ensures r == Err(MalformedRecord(id)) <==> Count(target, ' ') < 3
    ensures Count(target, ' ') >= 3 ==> var f := Split(target, 3);
      (r.Ok? <==> ParseInt(f[1]).Some? && ParseInt(f[2]).Some? && ParseInt(f[0]).Some?)
    ensures r.Ok? ==> r.value.Ds? && Canonical(r.value)
    ensures r.Ok? ==> var f := Split(target, 3);
      Some(r.value.keyTag) == ParseInt(f[0]) && Some(r.value.algorithm) == ParseInt(f[1]) &&
      Some(r.value.digestType) == ParseInt(f[2]) && r.value.digest == f[3]
  {
    var f :- Fields(id, target, 4);
    var algorithm :- Int(id, f[1]);
    var digestType :- Int(id, f[2]);
    var keyTag :- Int(id, f[0]);
    Ok(Ds(keyTag, algorithm, digestType, f[3]))
  }

  /** `_data_for_SRV`, one record: `priority weight port target`, the target
      made fully qualified. */
  function DecodeSrv(id: string, target: string): (r: Result<Value, Error>)
    ensures r == Err(MalformedRecord(id)) <==> Count(target, ' ') < 3
    ensures Count(target, ' ') >= 3 ==> var f := Split(target, 3);
      (r.Ok? <==> ParseInt(f[0]).Some? && ParseInt(f[1]).Some? && ParseInt(f[2]).Some?)
    ensures r.Ok? ==> r.value.Srv? && Canonical(r.value)
    ensures r.Ok? ==> var f := Split(target, 3);
      Some(r.value.priority) == ParseInt(f[0]) && Some(r.value.weight) == ParseInt(f[1]) &&
      Some(r.value.port) == ParseInt(f[2]) &&
      (r.value.srvTarget == f[3] || r.value.srvTarget == f[3] + ".") &&
      (EndsWithDot(f[3]) ==> r.value.srvTarget == f[3])
  {
    var f :- Fields(id, target, 4);
    var priority :- Int(id, f[0]);
    var weight :- Int(id, f[1]);
    var port :- Int(id, f[2]);
    Ok(Srv(priority, weight, port, GetFqdn(f[3])))
  }

  /** `_data_for_SSHFP`, one record: `algorithm fingerprint_type fingerprint`,
      the fingerprint lower-cased. */
  function DecodeSshfp(id: string, target: string): (r: Result<Value, Error>)
    ensures r == Err(MalformedRecord(id)) <==> Count(target, ' ') < 2
    ensures Count(target, ' ') >= 2 ==> var f := Split(target, 2);
      (r.Ok? <==> ParseInt(f[0]).Some? && ParseInt(f[1]).Some?)
    ensures r.Ok? ==> r.value.Sshfp? && Canonical(r.value)
    ensures r.Ok? ==> var f := Split(target, 2);
      Some(r.value.algorithm) == ParseInt(f[0]) && Some(r.value.fingerprintType) == ParseInt(f[1]) &&
      r.value.fingerprint == Lower(f[2])
  {
    var f :- Fields(id, target, 3);
    var algorithm :- Int(id, f[0]);
    var fingerprintType :- Int(id, f[1]);
    Ok(Sshfp(algorithm, fingerprintType, Lower(f[2])))
  }

  /** `_data_for_TLSA`, one record:
      `certificate_usage selector matching_type certificate_association_data`. */
  function DecodeTlsa(id: string, target: string): (r: Result<Value, Error>)
    ensures r == Err(MalformedRecord(id)) <==> Count(target, ' ') < 3
    ensures Count(target, ' ') >= 3 ==> var f := Split(target, 3);
      (r.Ok? <==> ParseInt(f[0]).Some? && ParseInt(f[1]).Some? && ParseInt(f[2]).Some?)
    ensures r.Ok? ==> r.value.Tlsa? && Canonical(r.value)
    ensures r.Ok? ==> var f := Split(target, 3);
      Some(r.value.certificateUsage) == ParseInt(f[0]) && Some(r.value.selector) == ParseInt(f[1]) &&
      Some(r.value.matchingType) == ParseInt(f[2]) && r.value.associationData == f[3]
  {
    var f :- Fields(id, target, 4);
    var usage :- Int(id, f[0]);
    var selector :- Int(id, f[1]);
    var matchingType :- Int(id, f[2]);
    Ok(Tlsa(usage, selector, matchingType, f[3]))
  }

  /** The value one raw record contributes to a list-valued record of type `t`. */
  function DecodeValue(t: RecordType, r: RawRecord): (v: Result<Value, Error>)
    requires t != CNAME
    ensures v.Ok? ==> Fits(t, v.value) && Canonical(v.value)
    ensures t == A || t == AAAA || t == TXT ==>
      v.Ok? && v.value.Plain? && v.value.text == Escape(r.content) && Unescape(v.value.text) == r.content
    ensures t == NS ==>
      v.Ok? && v.value.Plain? && EndsWithDot(v.value.text) &&
      (v.value.text == r.content || v.value.text == r.content + ".") &&
      (EndsWithDot(r.content) ==> v.value.text == r.content)
    ensures t == MX ==>
      v.Ok? && v.value.Mx? && v.value.preference == r.priority && EndsWithDot(v.value.exchange) &&
      (v.value.exchange == r.content || v.value.exchange == r.content + ".") &&
      (EndsWithDot(r.content) ==> v.value.exchange == r.content)
  {
    match t
    case A => UnescapeEscape(r.content); Ok(Plain(Escape(r.content)))
    case AAAA => UnescapeEscape(r.content); Ok(Plain(Escape(r.content)))
    case TXT => UnescapeEscape(r.content); Ok(Plain(Escape(r.content)))
    case NS => Ok(Plain(GetFqdn(r.content)))
    case MX => Ok(Mx(r.priority, GetFqdn(r.content)))
    case CAA => DecodeCaa(r.id, r.target)
    case DS => DecodeDs(r.id, r.target)
    case SRV => DecodeSrv(r.id, r.target)
    case SSHFP => DecodeSshfp(r.id, r.target)
    case TLSA => DecodeTlsa(r.id, r.target)
  }

  /** The position of the first raw record of `rs` that does not decode, or
      `|rs|` when every one does. */
  function FirstFailure(t: RecordType, rs: seq<RawRecord>): (i: nat)
    requires t != CNAME
    ensures i <= |rs|
    ensures i < |rs| ==> DecodeValue(t, rs[i]).Err?
    ensures forall j :: 0 <= j < i ==> DecodeValue(t, rs[j]).Ok?
  {
    if rs == [] then 0
    else if DecodeValue(t, rs[0]).Err? then 0
    else
      var rest := rs[1..];
      var i := FirstFailure(t, rest);
      assert forall j :: 1 <= j < |rs| ==> rs[j] == rest[j - 1];
      assert i < |rest| ==> DecodeValue(t, rs[1 + i]) == DecodeValue(t, rest[i]);
      1 + i
  }

  /** Past a first record that decodes, the first failure is that of the rest. */
  lemma FirstFailureTail(t: RecordType, rs: seq<RawRecord>)
    requires t != CNAME && |rs| > 0 && DecodeValue(t, rs[0]).Ok?
    ensures FirstFailure(t, rs) == 1 + FirstFailure(t, rs[1..])
    ensures FirstFailure(t, rs[1..]) < |rs| - 1 ==> rs[FirstFailure(t, rs)] == rs[1..][FirstFailure(t, rs[1..])]
  {
  }

  /** The decoder loop over a group: values in input order; the first record
      that fails to decode aborts the loop with its error. */
  function DecodeValues(t: RecordType, rs: seq<RawRecord>): (r: Result<seq<Value>, Error>)
    requires t != CNAME
    ensures r.Ok? ==> |r.value| == |rs|
    ensures r.Ok? ==> forall k :: 0 <= k < |rs| ==> DecodeValue(t, rs[k]) == Ok(r.value[k])
    ensures r.Ok? <==> forall k :: 0 <= k < |rs| ==> DecodeValue(t, rs[k]).Ok?
    ensures r.Err? ==> FirstFailure(t, rs) < |rs| && DecodeValue(t, rs[FirstFailure(t, rs)]) == Err(r.error)
  {
    if rs == [] then Ok([])
    else
      match DecodeValue(t, rs[0])
      case Err(e) => Err(e)
      case Ok(v) =>
        match DecodeValues(t, rs[1..])
        case Err(e) =>
          assert forall k :: 1 <= k < |rs| ==> rs[k] == rs[1..][k - 1];
          FirstFailureTail(t, rs);
          Err(e)
        case Ok(vs) =>
          assert forall k :: 1 <= k < |rs| ==> rs[k] == rs[1..][k - 1];
          Ok([v] + vs)
  }

  /** `data_for(_type, records)`: the data of the single record a group
      decodes to. The ttl is the first raw record's; a CNAME takes its value
      from the first raw record alone. */
  function DataFor(t: RecordType, rs: seq<RawRecord>): (r: Result<Data, Error>)
    requires |rs| > 0
    ensures r.Ok? ==> r.value.ttl == rs[0].ttl && r.value.rtype == t && WellFormed(r.value)
    ensures t == CNAME ==> r == Ok(Data(rs[0].ttl, CNAME, Single(GetFqdn(rs[0].target))))
    ensures t != CNAME ==> (r.Ok? <==> DecodeValues(t, rs).Ok?)
    ensures t != CNAME && r.Ok? ==> r.value.body == Values(DecodeValues(t, rs).value)
    ensures t != CNAME && r.Err? ==> r.error == DecodeValues(t, rs).error
  {
    if t == CNAME then Ok(Data(rs[0].ttl, CNAME, Single(GetFqdn(rs[0].target))))
    else
      var vs :- DecodeValues(t, rs);
      Ok(Data(rs[0].ttl, t, Values(vs)))
  }
}
