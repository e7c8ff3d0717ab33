/**
 * The Cloudflare DNS server actions (app/cloudflare/dns/actions.ts): list the zones of an
 * account, list the records of a zone with an optional search, create or update a record,
 * and delete one. The Cloudflare SDK is not part of this model: each action is given what
 * its SDK call returned or threw, and yields the request it made and its result.
 */
module DnsActions {
  import opened Wrappers
  import opened Strings
  import opened Http

  /** `CloudflareZone`: the three zone fields the dashboard keeps. */
  datatype Zone = Zone(id: string, name: string, status: string)

  /** A zone as the SDK lists it, with fields the dashboard drops. */
  datatype SdkZone = SdkZone(id: string, name: string, status: string, nameServers: seq<string>, paused: bool)

  /** `CloudflareDnsRecord`. */
  datatype DnsRecord = DnsRecord(id: string, recordType: string, name: string, content: string,
                                 proxied: Option<bool>, ttl: Option<int>)

  /** A record as the SDK returns it, with fields the dashboard drops. */
  datatype SdkRecord = SdkRecord(id: string, recordType: string, name: string, content: string,
                                 proxied: Option<bool>, ttl: Option<int>, comment: Option<string>, tags: seq<string>)

  /** The record part of an upsert input; `proxied` may be absent. */
  datatype RecordInput = RecordInput(recordType: string, name: string, content: string, proxied: Option<bool>)

  /** The body sent to create or update a record. */
  datatype RecordPayload = RecordPayload(zoneId: string, recordType: string, name: string, content: string,
                                         proxied: bool, ttl: int)

  /** Every SDK call the actions make, with its query options. */
  datatype SdkCall =
    | ListZones(token: string, accountId: string, perPage: nat, order: string, direction: string)
    | ListRecords(token: string, zoneId: string, perPage: nat, order: string, direction: string, search: Option<string>)
    | UpdateRecord(token: string, recordId: string, payload: RecordPayload)
    | CreateRecord(token: string, payload: RecordPayload)
    | DeleteRecord(token: string, recordId: string, zoneId: string)

  /** One action: the SDK call it made and what it returned or threw. */
  datatype ActionRun<T> = ActionRun(call: SdkCall, result: Call<T>)

  /** The TTL value Cloudflare reads as "automatic". */
  const AutomaticTtl: int := 1

  /** `mapRecord`: the six dashboard fields of an SDK record. */
  function MapRecord(record: SdkRecord): (r: DnsRecord)
    ensures r.id == record.id && r.recordType == record.recordType && r.name == record.name
    ensures r.content == record.content && r.proxied == record.proxied && r.ttl == record.ttl
  {
    DnsRecord(record.id, record.recordType, record.name, record.content, record.proxied, record.ttl)
  }

  /** A dashboard record with the dropped fields filled in as given. */
  function WithExtras(record: DnsRecord, comment: Option<string>, tags: seq<string>): SdkRecord {
    SdkRecord(record.id, record.recordType, record.name, record.content, record.proxied, record.ttl, comment, tags)
  }

  /** `mapRecord` loses nothing but the dropped fields: it undoes `WithExtras` whatever they held. */
  lemma MapRecordKeepsExactlySixFields(record: DnsRecord, comment: Option<string>, tags: seq<string>, sdk: SdkRecord)
    ensures MapRecord(WithExtras(record, comment, tags)) == record
    ensures MapRecord(sdk) == MapRecord(WithExtras(record, comment, tags)) <==>
              sdk == WithExtras(record, sdk.comment, sdk.tags)
  {
  }

  /** One zone's dashboard fields. */
  function MapZone(zone: SdkZone): (z: Zone)
    ensures z.id == zone.id && z.name == zone.name && z.status == zone.status
  {
    Zone(zone.id, zone.name, zone.status)
  }

  /** `zones.result.map(...)`: one zone per SDK zone, in the order the SDK listed them. */
  function MapZones(zones: seq<SdkZone>): (r: seq<Zone>)
    ensures |r| == |zones|
    ensures forall i :: 0 <= i < |zones| ==> r[i] == MapZone(zones[i])
  {
    seq(|zones|, i requires 0 <= i < |zones| => MapZone(zones[i]))
  }

  /** `recordEntities.result.map(mapRecord)`. */
  function MapRecords(records: seq<SdkRecord>): (r: seq<DnsRecord>)
    ensures |r| == |records|
    ensures forall i :: 0 <= i < |records| ==> r[i] == MapRecord(records[i])
  {
    seq(|records|, i requires 0 <= i < |records| => MapRecord(records[i]))
  }

  /** `listCloudflareZones`: up to 50 zones of the account, ordered by status, descending. */
  function ListCloudflareZones(token: string, accountId: string, reply: Call<seq<SdkZone>>): (run: ActionRun<seq<Zone>>)
    ensures run.call == ListZones(token, accountId, 50, "status", "desc")
    ensures reply.Threw? ==> run.result == Threw(reply.thrown)
    ensures reply.Returned? ==> run.result == Returned(MapZones(reply.value))
  {
    var call := ListZones(token, accountId, 50, "status", "desc");
    match reply
    case Threw(e) => ActionRun(call, Threw(e))
    case Returned(zones) => ActionRun(call, Returned(MapZones(zones)))
  }

  /** `search?.trim() || undefined`: the trimmed search, unless that is empty. */
  function SearchFilter(search: Option<string>): (filter: Option<string>)
    ensures filter.Some? <==> search.Some? && Trim(search.value) != ""
    ensures filter.Some? ==> filter.value == Trim(search.value)
  {
    if search.Some? && Trim(search.value) != "" then Some(Trim(search.value)) else None
  }

  /** Padding around a search never changes the filter sent, and the filter sent carries no padding. */
  lemma SearchFilterIgnoresPadding(search: string)
    ensures SearchFilter(Some(search)) == SearchFilter(Some(Trim(search)))
    ensures SearchFilter(Some(search)).Some? ==> IsTrimmed(SearchFilter(Some(search)).value)
  {
    TrimIdempotent(search);
  }

  /** `listCloudflareRecords`: up to 100 records of the zone, ordered by type, ascending. */
  function ListCloudflareRecords(token: string, zoneId: string, search: Option<string>, reply: Call<seq<SdkRecord>>)
    : (run: ActionRun<seq<DnsRecord>>)
    ensures run.call == ListRecords(token, zoneId, 100, "type", "asc", SearchFilter(search))
    ensures reply.Threw? ==> run.result == Threw(reply.thrown)
    ensures reply.Returned? ==> run.result == Returned(MapRecords(reply.value))
  {
    var call := ListRecords(token, zoneId, 100, "type", "asc", SearchFilter(search));
    match reply
    case Threw(e) => ActionRun(call, Threw(e))
    case Returned(records) => ActionRun(call, Returned(MapRecords(records)))
  }

  /** `toUpperCase` on one character, for the Latin letters a to z. */
  function UpperChar(c: char): (u: char)
    ensures 'a' <= c <= 'z' ==> u as int == c as int - 32
    ensures !('a' <= c <= 'z') ==> u == c
  {
    if 'a' <= c <= 'z' then (c as int - 32) as char else c
  }

  /** `toUpperCase`, letter by letter. */
  function Upper(s: string): (u: string)
    ensures |u| == |s|
    ensures forall i :: 0 <= i < |s| ==> u[i] == UpperChar(s[i])
  {
    seq(|s|, i requires 0 <= i < |s| => UpperChar(s[i]))
  }

  /** Upper-casing twice is upper-casing once, so a type typed in either case is sent alike. */
  lemma UpperIdempotent(s: string)
    ensures Upper(Upper(s)) == Upper(s)
  {
    var once := Upper(s);
    assert forall i :: 0 <= i < |s| ==> UpperChar(once[i]) == once[i];
  }

  /** The create or update body: the upper-cased type, `proxied` defaulting to false, automatic TTL. */
  function Payload(zoneId: string, record: RecordInput): (p: RecordPayload)
    ensures p.zoneId == zoneId && p.recordType == Upper(record.recordType)
    ensures p.name == record.name && p.content == record.content
    ensures p.proxied <==> record.proxied == Some(true)
    ensures p.ttl == AutomaticTtl
  {
    RecordPayload(zoneId, Upper(record.recordType), record.name, record.content, record.proxied.GetOr(false), AutomaticTtl)
  }

  /** The SDK call of `upsertCloudflareRecord`: an update exactly when a non-empty record id is given. */
  function UpsertCall(token: string, zoneId: string, recordId: Option<string>, record: RecordInput): (call: SdkCall)
    ensures call.UpdateRecord? <==> recordId.Some? && recordId.value != ""
    ensures call.UpdateRecord? ==> call == UpdateRecord(token, recordId.value, Payload(zoneId, record))
    ensures call.CreateRecord? <==> !call.UpdateRecord?
    ensures call.CreateRecord? ==> call == CreateRecord(token, Payload(zoneId, record))
  {
    if recordId.Some? && recordId.value != "" then UpdateRecord(token, recordId.value, Payload(zoneId, record))
    else CreateRecord(token, Payload(zoneId, record))
  }

  /** `upsertCloudflareRecord`: the record the SDK saved, mapped to the dashboard fields. */
  function UpsertCloudflareRecord(token: string, zoneId: string, recordId: Option<string>, record: RecordInput,
                                  reply: Call<SdkRecord>): (run: ActionRun<DnsRecord>)
    ensures run.call == UpsertCall(token, zoneId, recordId, record)
    ensures reply.Threw? ==> run.result == Threw(reply.thrown)
    ensures reply.Returned? ==> run.result == Returned(MapRecord(reply.value))
  {
    var call := UpsertCall(token, zoneId, recordId, record);
    match reply
    case Threw(e) => ActionRun(call, Threw(e))
    case Returned(saved) => ActionRun(call, Returned(MapRecord(saved)))
  }

  /** `deleteCloudflareRecord`: true once the SDK call returns. */
  function DeleteCloudflareRecord(token: string, zoneId: string, recordId: string, thrown: Option<Thrown>): (run: ActionRun<bool>)
    ensures run.call == DeleteRecord(token, recordId, zoneId)
    ensures thrown.None? <==> run.result == Returned(true)
    ensures thrown.Some? ==> run.result == Threw(thrown.value)
  {
    var call := DeleteRecord(token, recordId, zoneId);
    match thrown
    case None => ActionRun(call, Returned(true))
    case Some(e) => ActionRun(call, Threw(e))
  }

  /** Whether an upsert updates or creates depends on the record id alone, and both send the same body. */
  lemma UpsertSendsOneBody(token: string, zoneId: string, id: string, record: RecordInput)
    requires id != ""
    ensures var update := UpsertCall(token, zoneId, Some(id), record);
            var create := UpsertCall(token, zoneId, None, record);
            update.UpdateRecord? && create.CreateRecord? && update.payload == create.payload
            && UpsertCall(token, zoneId, Some(""), record) == create
  {
  }
}
