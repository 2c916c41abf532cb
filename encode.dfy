/** The `_params_for_<type>` encoders: one framework record becomes the
    parameter sets of the raw records to create, one per value. */
module Encode {
  import opened Text
  import opened Names
  import opened Records

  /** The `target` string an encoder writes for one value. Plain values (A,
      AAAA, NS and TXT all go through `_params_for_multiple`) are unescaped;
      the structured ones are formatted field by field, separated by single
      spaces. MX embeds the preference in the target. */
  function Target(v: Value): (r: string)
    ensures v.Plain? ==> r == Unescape(v.text)
    ensures v.Caa? ==> r == Join([IntToString(v.flags), v.tag, "\"" + v.caaValue + "\""])
    ensures v.Ds? ==>
      r == Join([IntToString(v.keyTag), IntToString(v.algorithm), IntToString(v.digestType), v.digest])
    ensures v.Mx? ==> r == Join([IntToString(v.preference), v.exchange])
    ensures v.Srv? ==>
      r == Join([IntToString(v.priority), IntToString(v.weight), IntToString(v.port), v.srvTarget])
    ensures v.Sshfp? ==> r == Join([IntToString(v.algorithm), IntToString(v.fingerprintType), v.fingerprint])
    ensures v.Tlsa? ==>
      r == Join([IntToString(v.certificateUsage), IntToString(v.selector), IntToString(v.matchingType), v.associationData])
  {
    match v
    case Plain(text) => Unescape(text)
    case Caa(flags, tag, caaValue) =>
      var quoted := "\"" + caaValue + "\"";
      Join3(IntToString(flags), tag, quoted);
      IntToString(flags) + " " + tag + " " + quoted
    case Ds(keyTag, algorithm, digestType, digest) =>
      Join4(IntToString(keyTag), IntToString(algorithm), IntToString(digestType), digest);
      IntToString(keyTag) + " " + IntToString(algorithm) + " " + IntToString(digestType) + " " + digest
    case Mx(preference, exchange) =>
      Join2(IntToString(preference), exchange);
      IntToString(preference) + " " + exchange
    case Srv(priority, weight, port, srvTarget) =>
      Join4(IntToString(priority), IntToString(weight), IntToString(port), srvTarget);
      IntToString(priority) + " " + IntToString(weight) + " " + IntToString(port) + " " + srvTarget
    case Sshfp(algorithm, fingerprintType, fingerprint) =>
      Join3(IntToString(algorithm), IntToString(fingerprintType), fingerprint);
      IntToString(algorithm) + " " + IntToString(fingerprintType) + " " + fingerprint
    case Tlsa(certificateUsage, selector, matchingType, associationData) =>
      Join4(IntToString(certificateUsage), IntToString(selector), IntToString(matchingType), associationData);
      IntToString(certificateUsage) + " " + IntToString(selector) + " " + IntToString(matchingType) + " " + associationData
  }

  /** `params_for(record)`: exactly one parameter set per value, in the
      record's value order (exactly one for a CNAME), each carrying the
      raw-side name, the record's ttl and its type. */
  function ParamsFor(rec: Record): (ps: seq<Params>)
    requires WellFormed(rec.data)
    ensures forall k :: 0 <= k < |ps| ==>
      ps[k].source == GetRecordName(rec.name) && ps[k].ttl == rec.data.ttl && ps[k].rtype == TypeName(rec.data.rtype)
    ensures rec.data.body.Single? ==> |ps| == 1 && ps[0].target == rec.data.body.value
    ensures rec.data.body.Values? ==>
      |ps| == |rec.data.body.values| &&
      (forall k :: 0 <= k < |ps| ==> ps[k].target == Target(rec.data.body.values[k]))
  {
    var source := GetRecordName(rec.name);
    var ttl := rec.data.ttl;
    var rtype := TypeName(rec.data.rtype);
    match rec.data.body
    case Single(value) => [Params(source, value, ttl, rtype)]
    case Values(vs) => seq(|vs|, k requires 0 <= k < |vs| => Params(source, Target(vs[k]), ttl, rtype))
  }
}
