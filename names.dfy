/** Name normalisation at the boundary between the provider's raw records and
    the framework's records: fully-qualified names, the two spellings of the
    zone apex ("." in raw records, "" in normalised records) and the zone name
    without its trailing dot that the record API expects. */
module Names {

  predicate EndsWithDot(s: string)
  {
    |s| > 0 && s[|s| - 1] == '.'
  }

  /** `_get_fqdn`: the name with exactly one trailing dot added when it has none. */
  function GetFqdn(name: string): (r: string)
    ensures EndsWithDot(r)
    ensures |name| <= |r| <= |name| + 1 && r[..|name|] == name
    ensures EndsWithDot(name) ==> r == name
  {
    if EndsWithDot(name) then name else name + "."
  }

  /** Normalising a name that is already fully qualified changes nothing. */
  lemma GetFqdnIdempotent(name: string)
    ensures GetFqdn(GetFqdn(name)) == GetFqdn(name)
  {
  }

  /** `_get_record_name`: the framework's apex name "" becomes the raw apex ".";
      every other name is kept. */
  function GetRecordName(recordName: string): (r: string)
    ensures r != ""
    ensures recordName == "" ==> r == "."
    ensures recordName != "" ==> r == recordName
  {
    if recordName != "" then recordName else "."
  }

  /** The reverse mapping, written inline twice in the provider: a raw name "."
      (a populate group, or the `source` of a parameter set about to be posted)
      becomes the framework's apex name "". */
  function ApexFromRaw(rawName: string): (r: string)
    ensures rawName == "." ==> r == ""
    ensures rawName != "." ==> r == rawName
  {
    if rawName == "." then "" else rawName
  }

  /** The two apex mappings are inverse to each other on the names each one
      can produce. */
  lemma ApexRoundTrip(recordName: string, rawName: string)
    ensures recordName != "." ==> ApexFromRaw(GetRecordName(recordName)) == recordName
    ensures rawName != "" ==> GetRecordName(ApexFromRaw(rawName)) == rawName
  {
  }

  /** `_get_zone_without_trailling_dot`, i.e. `zone.rstrip(".")`: every
      trailing dot removed. */
  function ZoneWithoutTrailingDot(zone: string): (r: string)
    ensures |r| <= |zone| && r == zone[..|r|]
    ensures !EndsWithDot(r)
    ensures forall k :: |r| <= k < |zone| ==> zone[k] == '.'
  {
    if EndsWithDot(zone) then ZoneWithoutTrailingDot(zone[..|zone| - 1]) else zone
  }

  /** Stripping twice is stripping once. */
  lemma ZoneWithoutTrailingDotIdempotent(zone: string)
    ensures ZoneWithoutTrailingDot(ZoneWithoutTrailingDot(zone)) == ZoneWithoutTrailingDot(zone)
  {
  }
}
