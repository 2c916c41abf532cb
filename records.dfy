/** The data the provider handles: the provider's raw records, the
    framework's normalised records and the parameter sets the provider posts.
    The closed `RecordType` enumeration stands for the SUPPORTS set and for
    the by-name dispatch to `_data_for_<type>` and `_params_for_<type>`. */
module Records {
  import opened Wrappers

  /** The record types of SUPPORTS. */
  datatype RecordType = A | AAAA | CAA | CNAME | DS | MX | NS | SRV | SSHFP | TLSA | TXT

  /** The type tag as the provider and the framework spell it. */
  function TypeName(t: RecordType): string
  {
    match t
    case A => "A"
    case AAAA => "AAAA"
    case CAA => "CAA"
    case CNAME => "CNAME"
    case DS => "DS"
    case MX => "MX"
    case NS => "NS"
    case SRV => "SRV"
    case SSHFP => "SSHFP"
    case TLSA => "TLSA"
    case TXT => "TXT"
  }

  /** The membership test `_type in SUPPORTS`, returning the type it names. */
  function ParseType(s: string): (r: Option<RecordType>)
    ensures r.Some? ==> TypeName(r.value) == s
    ensures r.None? ==> forall t :: TypeName(t) != s
  {
    if s == "A" then Some(A)
    else if s == "AAAA" then Some(AAAA)
    else if s == "CAA" then Some(CAA)
    else if s == "CNAME" then Some(CNAME)
    else if s == "DS" then Some(DS)
    else if s == "MX" then Some(MX)
    else if s == "NS" then Some(NS)
    else if s == "SRV" then Some(SRV)
    else if s == "SSHFP" then Some(SSHFP)
    else if s == "TLSA" then Some(TLSA)
    else if s == "TXT" then Some(TXT)
    else None
  }

  /** Every supported type is recognised under its own name. */
  lemma ParseTypeName(t: RecordType)
    ensures ParseType(TypeName(t)) == Some(t)
  {
  }

  /** A record as the provider's record listing returns it. The decoders read
      `content` (A, AAAA, TXT, MX, NS) or `target` (the other types), MX also
      the separate `priority`; grouping reads `name`, deletion reads `source`. */
  datatype RawRecord = RawRecord(
    id: string,
    name: string,
    source: string,
    rtype: string,
    ttl: int,
    content: string,
    target: string,
    priority: int)

  /** One value of a normalised record, one shape per family of types. */
  datatype Value =
    | Plain(text: string)                                      // A, AAAA, NS, TXT
    | Caa(flags: int, tag: string, caaValue: string)
    | Ds(keyTag: int, algorithm: int, digestType: int, digest: string)
    | Mx(preference: int, exchange: string)
    | Srv(priority: int, weight: int, port: int, srvTarget: string)
    | Sshfp(algorithm: int, fingerprintType: int, fingerprint: string)
    | Tlsa(certificateUsage: int, selector: int, matchingType: int, associationData: string)

  /** A CNAME carries a single value, every other type a list of values. */
  datatype Body = Single(value: string) | Values(values: seq<Value>)

  /** The data dictionary a decoder hands to the framework's record factory. */
  datatype Data = Data(ttl: int, rtype: RecordType, body: Body)

  /** A framework record: the zone it belongs to, its relative name and its data. */
  datatype Record = Record(zone: string, name: string, data: Data)

  /** One parameter set of a record to be created. */
  datatype Params = Params(source: string, target: string, ttl: int, rtype: string)

  /** The failures the provider lets escape to its caller. */
  datatype Error =
    | MalformedRecord(recordId: string)          // too few space-separated fields
    | NotAnInteger(recordId: string, text: string)  // int() of a numeric field fails
    | UnknownZone(zone: string)                  // the zone is absent from the zone list
    | TransportError(domainId: string)           // the client could not list the records

  /** The value shape each type carries. */
  predicate Fits(t: RecordType, v: Value)
  {
    match t
    case A => v.Plain?
    case AAAA => v.Plain?
    case NS => v.Plain?
    case TXT => v.Plain?
    case CAA => v.Caa?
    case DS => v.Ds?
    case MX => v.Mx?
    case SRV => v.Srv?
    case SSHFP => v.Sshfp?
    case TLSA => v.Tlsa?
    case CNAME => false
  }

  /** What the framework's record classes guarantee of a record's data. */
  predicate WellFormed(d: Data)
  {
    match d.body
    case Single(_) => d.rtype == CNAME
    case Values(vs) => d.rtype != CNAME && forall k :: 0 <= k < |vs| ==> Fits(d.rtype, vs[k])
  }
}
