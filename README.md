# octodns-exoscale, modelled in Dafny

This project models `ExoscaleProvider`, the octoDNS provider that syncs DNS zones with Exoscale. It has three parts:

- **Record transcoder.** The `_data_for_<type>` decoders turn a group of the provider's raw records into the data of one framework record. The `_params_for_<type>` encoders turn a framework record back into parameter sets, one per value. The name helpers `_get_fqdn`, `_get_record_name` and `_get_zone_without_trailling_dot` connect the two sides.
- **Populate grouping.** `populate` puts the zone's raw records into buckets, first by name and then by type, in `defaultdict` insertion order. It skips unsupported types, maps the apex "." to "", and turns each bucket into one record.
- **Change applicator and caches.** `_apply_create`, `_apply_delete`, `_apply_update` and `_apply` make up the apply path. The `zones` map is listed once per provider. `zone_records` fills a per-zone cache on first use, and `_apply` drops the desired zone's cached listing at the end.

Modules, in dependency order:

| module | contents |
|---|---|
| `Wrappers` | `Option` and `Result` |
| `Seqs` | generic slicing and concatenation facts |
| `Text` | the Python string operations the provider uses: `split(" ", n)`, `" ".join`, the two `replace` escapes, quote removal, `lower()`, `int()`, `f"{i}"` |
| `Names` | the three name helpers and the reverse apex mapping |
| `Records` | raw records, framework records and parameter sets; a closed `RecordType` enumeration for SUPPORTS and the by-name dispatch |
| `Decode` | the decoders |
| `Encode` | the encoders |
| `RoundTrip` | what decoders and encoders promise each other |
| `Grouping` | the nested buckets and the record-building loop, as functions |
| `Applicator` | the provider's state machine as pure functions of the prior state: the two caches plus the log of client calls |
| `Provider` | the `Client`, `Zone` and `ExoscaleProvider` classes |

The methods of `ExoscaleProvider` have fields and loops, as in the source. Each method is proved to leave the provider, its client and the zone in exactly the state that the matching `Applicator` or `Grouping` function prescribes.

The model keeps the source's asymmetries:

- Decoders read `content` for A, AAAA, TXT, MX and NS, and `target` for the other types.
- Grouping reads `name`; deletion matches on `source`.
- NS decodes with its own decoder but encodes through `_params_for_multiple`.
- The CNAME decoder reads only the first raw record of its group.
- MX has no round-trip property. Its decoder reads `content` and `priority`, but its encoder writes "preference exchange" into `target`.

## Model

| member | source | states |
|---|---|---|
| Names.GetFqdn | octodns_exoscale/__init__.py:73-74 | the result ends in "."; it is the name itself when the name already ends in "."; otherwise it is the name with one dot appended |
| Names.GetFqdnIdempotent | octodns_exoscale/__init__.py:73-74 | applying `_get_fqdn` twice is applying it once |
| Names.GetRecordName | octodns_exoscale/__init__.py:76-77 | "" becomes "."; every other name is kept; the result is never empty |
| Names.ApexFromRaw | octodns_exoscale/__init__.py:105-106 | a raw "." becomes ""; every other name is kept |
| Names.ApexRoundTrip | octodns_exoscale/__init__.py:335-336 | the two apex mappings are inverses on the names each produces |
| Names.ZoneWithoutTrailingDot | octodns_exoscale/__init__.py:70-71 | the result is a prefix of the zone name, does not end in ".", and everything it drops is a dot |
| Names.ZoneWithoutTrailingDotIdempotent | octodns_exoscale/__init__.py:70-71 | stripping twice is stripping once |
| Records.ParseType | octodns_exoscale/__init__.py:93 | the SUPPORTS membership test: it recognises exactly the eleven type names and returns the type of that name |
| Records.ParseTypeName | octodns_exoscale/__init__.py:34-48 | every supported type is recognised under its own name |
| Text.Split | octodns_exoscale/__init__.py:152 | `split(" ", n)` gives 1 to n+1 parts, joined by single spaces back to the input; no part but the last holds a space; there are min(n, spaces)+1 parts |
| Text.SplitJoin | octodns_exoscale/__init__.py:152 | splitting the join of n+1 fields at n spaces restores the fields when only the last may hold spaces |
| Text.Escape | octodns_exoscale/__init__.py:140 | a backslash before each ";": the length grows by the number of ";" and a string without ";" is unchanged |
| Text.Unescape | octodns_exoscale/__init__.py:258 | `replace("\\;", ";")` never lengthens its input |
| Text.UnescapeEscape | octodns_exoscale/__init__.py:258 | unescaping the escaped form of any string gives the string back |
| Text.RemoveQuotes | octodns_exoscale/__init__.py:154 | the result has no `"`; a string without quotes is unchanged; the length drops by the number of quotes |
| Text.Lower | octodns_exoscale/__init__.py:227 | same length; each ASCII upper-case letter becomes its lower-case letter (code point plus 32) and every other character is kept, so no upper-case letter is left and a lower-case string is unchanged |
| Text.ParseInt | octodns_exoscale/__init__.py:154 | `int()` accepts only non-empty strings without spaces |
| Text.IntToString | octodns_exoscale/__init__.py:272 | the decimal spelling is non-empty, holds no space and no quote, and `int()` reads it back as the same integer |
| Decode.Fields | octodns_exoscale/__init__.py:152 | tuple unpacking of `split(" ", n-1)` succeeds exactly when there are at least n-1 spaces, yields n fields that join back to the target, and otherwise raises for that record |
| Decode.Int | octodns_exoscale/__init__.py:154 | succeeds exactly when `int()` parses; it raises with the record id and the text otherwise |
| Decode.DecodeCaa | octodns_exoscale/__init__.py:147-157 | it fails as malformed exactly when the target has fewer than 2 spaces; it succeeds exactly when the flags parse; the value then holds the parsed flags, the second field as tag and the rest with its quotes removed, so the tag has no spaces and the value no quotes |
| Decode.DecodeDs | octodns_exoscale/__init__.py:166-179 | it fails as malformed exactly when there are fewer than 3 spaces; otherwise it succeeds exactly when all three numbers parse, in the dictionary's conversion order; the value then holds the three parsed numbers in field order and the rest of the target as digest |
| Decode.DecodeSrv | octodns_exoscale/__init__.py:200-215 | it fails as malformed exactly when there are fewer than 3 spaces; otherwise it succeeds exactly when priority, weight and port parse; the value then holds those three parsed numbers, and its target is the fourth field, with a dot appended unless it already ends in one |
| Decode.DecodeSshfp | octodns_exoscale/__init__.py:217-231 | it fails as malformed exactly when there are fewer than 2 spaces; otherwise it succeeds exactly when both numbers parse; the value then holds the two parsed numbers and the lower-cased third field as fingerprint |
| Decode.DecodeTlsa | octodns_exoscale/__init__.py:233-250 | it fails as malformed exactly when there are fewer than 3 spaces; otherwise it succeeds exactly when the three numbers parse; the value then holds the three parsed numbers in field order and the rest of the target as association data |
| Decode.DecodeValue | octodns_exoscale/__init__.py:134-250 | for every non-CNAME type, a decoded value has that type's shape and is canonical; A, AAAA and TXT always decode to the content with a backslash before each ";", which unescapes back to the content; NS always decodes to the content made fully qualified, that is kept when it already ends in "." and given one trailing dot otherwise; MX always decodes to the record's priority as preference and the content made fully qualified in the same way as exchange |
| Decode.FirstFailure | octodns_exoscale/__init__.py:151-155 | the position of the first raw record that fails to decode; every earlier record decodes |
| Decode.DecodeValues | octodns_exoscale/__init__.py:150-157 | it succeeds exactly when every record decodes; the values are then one per record in input order; otherwise the error is that of the first failing record |
| Decode.DataFor | octodns_exoscale/__init__.py:159-164 | the ttl is the first raw record's; for CNAME the value is the first record's target made fully qualified; for the other types it succeeds and fails exactly as the value loop does; the data is well formed |
| Encode.Target | octodns_exoscale/__init__.py:258-325 | a plain value is written unescaped; each structured value is written as its fields in declaration order joined by single spaces, numbers in decimal and the CAA value in double quotes |
| Encode.ParamsFor | octodns_exoscale/__init__.py:252-328 | one parameter set per value, in value order, or exactly one for CNAME; each carries the raw-side name, the record's ttl and its type |
| RoundTrip.CaaRoundTrip | octodns_exoscale/__init__.py:268-275 | decoding the CAA target written by the encoder restores the value, given a tag without spaces and a value without quotes |
| RoundTrip.DsRoundTrip | octodns_exoscale/__init__.py:285-292 | decoding the DS target written by the encoder restores the value |
| RoundTrip.SrvRoundTrip | octodns_exoscale/__init__.py:303-310 | decoding the SRV target restores the value when the target is fully qualified |
| RoundTrip.SshfpRoundTrip | octodns_exoscale/__init__.py:312-319 | decoding the SSHFP target restores the value when the fingerprint is lower-case |
| RoundTrip.TlsaRoundTrip | octodns_exoscale/__init__.py:321-328 | decoding the TLSA target written by the encoder restores the value |
| RoundTrip.ValueRoundTrip | octodns_exoscale/__init__.py:147-250 | for CAA, DS, SRV, SSHFP and TLSA, every canonical value survives encoding and then decoding |
| RoundTrip.StructuredRoundTrip | octodns_exoscale/__init__.py:268-328 | raw records whose targets and ttls come from a structured record's parameter sets decode to exactly that record's data |
| RoundTrip.CnameRoundTrip | octodns_exoscale/__init__.py:277-283 | the raw record created from a fully qualified CNAME decodes back to its data |
| RoundTrip.EscapedRoundTrip | octodns_exoscale/__init__.py:252-261 | for A, AAAA and TXT, decoding a group and encoding the result gives one parameter set per raw record, whose target is that record's content and whose ttl is the group's first ttl |
| RoundTrip.RawRoundTrip | octodns_exoscale/__init__.py:147-250 | for the structured types, decoding, encoding and decoding again gives the first decoding |
| Grouping.Bucket | octodns_exoscale/__init__.py:98 | the listed records of one name and supported type, in input order |
| Grouping.FindName | octodns_exoscale/__init__.py:98 | the position of the bucket of that name, if any; no earlier bucket has that name |
| Grouping.FindType | octodns_exoscale/__init__.py:98 | the position of the bucket of that type under one name, if any; no earlier bucket has that type |
| Grouping.AddType | octodns_exoscale/__init__.py:98 | under one name, `r` is appended to the first bucket of its type, or a new bucket of that type holding only `r` is appended after the others; every other bucket and every bucket's type stay as they were |
| Grouping.Add | octodns_exoscale/__init__.py:98 | `r` goes into the buckets of its name through `AddType`, a new name being appended after the others with no buckets yet; every other name's buckets and every entry's name stay as they were |
| Grouping.Grouped | octodns_exoscale/__init__.py:87-98 | after the grouping loop there is at most one entry per listed record and no name has two entries |
| Grouping.AddPreserves | octodns_exoscale/__init__.py:98 | `values[name][type].append(record)` keeps the nested buckets a faithful grouping of the records seen so far |
| Grouping.GroupedIsGrouping | octodns_exoscale/__init__.py:87-98 | after the grouping loop, names are distinct, types under a name are distinct, every bucket is exactly its pair's records and every pair with records has a bucket |
| Grouping.PopulateBuckets | octodns_exoscale/__init__.py:101-102 | every visited bucket holds exactly the raw records of its (name, type) pair, in input order, and at least one |
| Grouping.PopulateUnique | octodns_exoscale/__init__.py:87-102 | each pair of a supported type in the listing is visited exactly once, and no other pair is visited |
| Grouping.FlattenCount | octodns_exoscale/__init__.py:101-102 | over distinct names and types, a pair is visited once when it is held and never otherwise |
| Grouping.CountExpand | octodns_exoscale/__init__.py:102 | under one name, each type is visited at most once |
| Grouping.DecodingsAt | octodns_exoscale/__init__.py:111 | each verdict is the decoder's result on its own bucket |
| Grouping.Build | octodns_exoscale/__init__.py:100-115 | the loop adds at most one record per bucket; it adds one for every bucket exactly when nothing raised; when a bucket raised, the error is that bucket's verdict |
| Grouping.BuildAll | octodns_exoscale/__init__.py:100-115 | with each bucket decoded on the way, the loop adds one record per bucket exactly when nothing raised; otherwise it stopped at a bucket whose decoder returned that error |
| Grouping.BuildSpec | octodns_exoscale/__init__.py:101-115 | the build adds one record per bucket for a prefix of the buckets, in order, each named via the apex mapping with its decoded data; it stops short exactly when a bucket raises, and the error is that bucket's |
| Grouping.BuildAppend | octodns_exoscale/__init__.py:101-115 | building over two runs of buckets is building over the first and, unless it raised, continuing over the second |
| Grouping.BuildStops | octodns_exoscale/__init__.py:108-115 | once a bucket fails to decode, later buckets add nothing |
| Grouping.BuiltEvery | octodns_exoscale/__init__.py:108-115 | a build that raised nothing added exactly one record per bucket, holding that bucket's decoded data |
| Applicator.ZonesStep | octodns_exoscale/__init__.py:59-68 | the domains are listed only while the map is not cached, and the map then built is `DomainMap` of the remote's domain listing; from then on it is cached and returned unchanged |
| Applicator.ZonesMemoised | octodns_exoscale/__init__.py:61 | asking for the zone map a second time returns the same map and makes no call |
| Applicator.DomainMap | octodns_exoscale/__init__.py:63-67 | every listed domain is a key under its name with a trailing dot, and every key ends in a dot |
| Applicator.DomainMapKeys | octodns_exoscale/__init__.py:63-67 | the keys of the zone map are exactly the listed domain names with a trailing dot |
| Applicator.DomainMapLatest | octodns_exoscale/__init__.py:65 | a domain whose name no later entry repeats maps to its own id |
| Applicator.ZoneRecordsStep | octodns_exoscale/__init__.py:126-132 | a cached listing is returned unchanged; for an uncached zone, a zone missing from the zone map raises `UnknownZone`, a known zone returns the remote's listing of its id, and an id the remote does not know raises; a successful read caches the listing; a raise leaves the cache as it was; the cache never loses entries and gains at most this zone |
| Applicator.ZoneRecordsMemoised | octodns_exoscale/__init__.py:127 | a second read of a zone returns the first read's records and makes no call |
| Applicator.ZoneRecordsFetchOnce | octodns_exoscale/__init__.py:128-130 | reading an uncached zone whose id is known makes exactly one call, the listing of that id |
| Applicator.Targets | octodns_exoscale/__init__.py:346-351 | the delete loop's test: for a record at the apex, the raw source must be "."; otherwise it must be the record's own name; in both cases the raw type must be the record's type |
| Applicator.DeleteCalls | octodns_exoscale/__init__.py:346-354 | at most one call per listed record; every call is a delete addressed to the zone without its trailing dot; a listing with no targeted record gives no call |
| Applicator.DeleteCallsDoomed | octodns_exoscale/__init__.py:346-354 | the delete loop sends one call per targeted record, in listing order, by id, to the zone without its trailing dot |
| Applicator.DoomedSpec | octodns_exoscale/__init__.py:351 | a record is deleted exactly as often as it is listed when its source is the apex-mapped name and its type matches, and never otherwise |
| Applicator.Posted | octodns_exoscale/__init__.py:335-336 | the posted parameter set has the encoder's target, ttl and type; a source of "." is sent as "" and any other source unchanged |
| Applicator.CreateCalls | octodns_exoscale/__init__.py:330-340 | one post call per parameter set |
| Applicator.CreateCallsSpec | octodns_exoscale/__init__.py:334-340 | each post goes to the zone without its trailing dot and carries the encoder's target, the ttl and the type; its source is the record's own name, so "." is sent as "" |
| Applicator.DeleteStep | octodns_exoscale/__init__.py:342-354 | a delete only adds entries to the cache, and only for the existing record's zone |
| Applicator.ChangeStep | octodns_exoscale/__init__.py:356-358 | a change never drops a cached listing or shortens the call log |
| Applicator.ApplyChanges | octodns_exoscale/__init__.py:365-368 | the change loop never drops a cached listing or shortens the call log |
| Applicator.ApplyInOrder | octodns_exoscale/__init__.py:365-368 | applying a + b is applying a and then, unless it raised, applying b to the state a left |
| Applicator.ApplyStopsAt | octodns_exoscale/__init__.py:365-368 | once a change raises, the later changes are never applied |
| Applicator.UpdateIsDeleteThenCreate | octodns_exoscale/__init__.py:356-358 | an update is exactly a delete of the existing record followed by a create of the new one |
| Applicator.BatchReadsOnce | octodns_exoscale/__init__.py:346 | within a batch, a delete whose zone is cached reads the cached listing and makes only its delete calls |
| Applicator.ApplyStep | octodns_exoscale/__init__.py:360-370 | the result and the call log are those of the change loop; on success the desired zone is no longer cached; when a change raised, the state is the one the loop left, cache included |
| Applicator.ApplyInvalidates | octodns_exoscale/__init__.py:370 | after a successful apply the desired zone is no longer cached, even for an empty change list; the call log and the other zones' cached listings are those the changes left |
| Applicator.RefetchAfterApply | octodns_exoscale/__init__.py:370 | the first read of the desired zone after an apply fetches it again, with exactly one call |
| Applicator.ZoneRecordsListsOnce | octodns_exoscale/__init__.py:126-132 | reading a zone's records keeps the domains listed once when the map is cached and never before |
| Applicator.ChangeListsOnce | octodns_exoscale/__init__.py:330-358 | each change kind keeps the domains listed at most once |
| Applicator.DeleteListsOnce | octodns_exoscale/__init__.py:342-354 | a delete keeps the domains listed at most once |
| Applicator.ApplyListsOnce | octodns_exoscale/__init__.py:360-370 | a whole apply lists the domains at most once per provider |
| Applicator.PopulateStep | octodns_exoscale/__init__.py:79-124 | `populate` changes the state only as `zone_records` does |
| Applicator.PopulateExists | octodns_exoscale/__init__.py:117-124 | `populate` returns True whenever it returns normally |
| Applicator.ListingBuilds | octodns_exoscale/__init__.py:87-115 | a build over a listing's buckets that raised nothing gives one record per (name, type) pair of a supported type, in visiting order, named via the apex mapping, with the first member's ttl and data decoded from the pair's records in listing order |
| Applicator.PopulateRecords | octodns_exoscale/__init__.py:87-115 | the records a successful `populate` adds are those `BuiltFrom` describes for the zone's listing |
| Applicator.PopulateListsOnce | octodns_exoscale/__init__.py:79-124 | `populate` keeps the domains listed at most once |
| Provider.Client.ListDnsDomains | octodns_exoscale/__init__.py:62 | returns the remote's domains and logs the call |
| Provider.Client.ListDnsDomainRecords | octodns_exoscale/__init__.py:128-130 | returns the remote's records for the id, or raises for an unknown id; logs the call either way |
| Provider.Client.PostRecord | octodns_exoscale/__init__.py:338-340 | logs the post |
| Provider.Client.DeleteRecord | octodns_exoscale/__init__.py:352-354 | logs the delete |
| Provider.ExoscaleProvider.constructor | octodns_exoscale/__init__.py:50-57 | a provider with its own client, nothing cached and no call made |
| Provider.ExoscaleProvider.Zones | octodns_exoscale/__init__.py:59-68 | the cache, the call log and the result are those of `ZonesStep` |
| Provider.ExoscaleProvider.ZoneRecords | octodns_exoscale/__init__.py:126-132 | the cache, the call log and the result or error are those of `ZoneRecordsStep` |
| Provider.ExoscaleProvider.GroupRecords | octodns_exoscale/__init__.py:87-98 | the grouping loop builds exactly the buckets of `Grouped` |
| Provider.ExoscaleProvider.BuildRecords | octodns_exoscale/__init__.py:100-115 | the nested record-building loop appends to the zone exactly the records of `Build` and stops with its error |
| Provider.ExoscaleProvider.BuildName | octodns_exoscale/__init__.py:102-115 | the inner loop over one name's buckets appends exactly the records of `Build` over those buckets |
| Provider.ExoscaleProvider.DataForBucket | octodns_exoscale/__init__.py:103-111 | the dispatched decoder returns the decoder's verdict on that bucket |
| Provider.ExoscaleProvider.Populate | octodns_exoscale/__init__.py:79-124 | the state, the records added to the zone and the result or error are those of `PopulateStep` |
| Provider.ExoscaleProvider.ApplyCreate | octodns_exoscale/__init__.py:330-340 | the client receives exactly the calls of `CreateCalls`, in order |
| Provider.ExoscaleProvider.ApplyDelete | octodns_exoscale/__init__.py:342-354 | the state and the result are those of `DeleteStep` |
| Provider.ExoscaleProvider.ApplyUpdate | octodns_exoscale/__init__.py:356-358 | the state and the result are those of an update in `ChangeStep` |
| Provider.ExoscaleProvider.Apply | octodns_exoscale/__init__.py:360-370 | the state and the result are those of `ApplyStep` |

## Left out

- The Exoscale client and the network. The client is a `Client` object answering from a fixed `Remote`, with a log of the calls it receives. Posts and deletes are logged but do not change the remote.
- Transport failures. The only one modelled is a listing for a domain id the remote does not know. A Python exception is modelled as a `Result` error that ends the operation, which is how it propagates out of the source's loops.
- `IdnaDict`. The zone map is a plain map keyed by the domain name with a trailing dot. IDNA and case normalisation of keys are not modelled.
- octoDNS's `Record.new` and `zone.add_record`. A record is its zone, name and data, and `add_record` is an append. The framework's value validation, its duplicate checks and the `lenient` flag are not modelled. The `target` parameter of `populate` is unused by the source.
- A record's ownership by its zone. The model carries the zone name in every record.
- A raw record missing a field (Python's `KeyError`). Every raw record has every field.
- `int()` accepts only an optional sign followed by ASCII digits. Surrounding whitespace, underscores and non-ASCII digits are not modelled.
- `lower()` folds only ASCII letters.
- Logging calls.
- Decode.Int and Decode.Fields: the errors are labelled with the record id (and the text that failed to parse) so that contracts can say which record raised. Python's `ValueError` from `int()` and from tuple unpacking carries no record id.
- Text.ParseInt: states only that an accepted string is non-empty and has no spaces; the digits-only rule is in its body.
- `__init__`'s id and credentials, and the client construction from them. The model's constructors take the remote directly.
- The live-API smoke test under `test/`, which asserts nothing.
