/**
 * The Cloudflare DNS page (app/cloudflare/dns/page.tsx): the zones of the account, the
 * records of the selected zone, a record form that creates or updates, and deletion. The
 * Cloudflare token and account id come from the hooks and are parameters; what each server
 * action returned or threw and the answer to the confirmation dialog are inputs. The open
 * toasts are the `toasts` field: `setMessage` adds one and `clearMessage` closes them all.
 */
module DnsPage {
  import opened Wrappers
  import opened Strings
  import opened Seqs
  import opened Http
  import opened Types
  import opened DnsActions

  const MissingToken: string := "Cloudflare token missing. Add it in Settings first."
  const MissingAccountId: string := "Cloudflare account ID missing. Provide it in Settings."
  const SelectDomain: string := "Select a domain first."
  const TypeRequired: string := "Record type is required."
  const NameAndContentRequired: string := "Record name and content are required."
  const RecordUpdated: string := "Record updated."
  const RecordCreated: string := "Record created."
  const RecordDeleted: string := "Record deleted."

  /** The values the record form starts from. */
  datatype FormDefaults = FormDefaults(recordType: string, name: string, content: string, proxied: bool)

  /** `resetRecordForm`'s values: an A record, proxied, with no name or content. */
  const EmptyForm: FormDefaults := FormDefaults("A", "", "", true)

  /** The submitted form: each text field may be missing, the switch is on or off. */
  datatype FormData = FormData(recordType: Option<string>, recordName: Option<string>, recordContent: Option<string>,
                               recordProxied: bool)

  /** An external link of the page header. */
  datatype Link = Link(title: string, url: string)

  /** The server actions the page calls, with the arguments it passes. */
  datatype PageCall =
    | FetchZones(token: string, accountId: string)
    | FetchRecords(token: string, zoneId: string, search: string)
    | SaveRecord(token: string, zoneId: string, editingId: Option<string>, record: RecordInput)
    | RemoveRecord(token: string, zoneId: string, recordId: string)

  function ErrorToast(text: string): StatusMessage { StatusMessage(ErrorMessage, text) }
  function SuccessToast(text: string): StatusMessage { StatusMessage(SuccessMessage, text) }

  /** `zones.find(zone => zone.id === id)`: the first zone with that id. */
  function FindZone(zones: seq<Zone>, id: string): (found: Option<Zone>)
    ensures found.None? <==> forall i :: 0 <= i < |zones| ==> zones[i].id != id
    ensures found.Some? ==> exists i :: 0 <= i < |zones| && zones[i] == found.value
                              && zones[i].id == id && forall j :: 0 <= j < i ==> zones[j].id != id
  {
    if zones == [] then None
    else if zones[0].id == id then Some(zones[0])
    else
      var rest := FindZone(zones[1..], id);
      assert rest.Some? ==> exists i :: 1 <= i < |zones| && zones[i] == rest.value
                              && zones[i].id == id && forall j :: 1 <= j < i ==> zones[j].id != id;
      rest
  }

  /** `externalLinks`: none without an account id; the dashboard, then the zone's DNS page when a zone is selected. */
  function ExternalLinks(accountId: string, zones: seq<Zone>, selectedZoneId: string): (links: Option<seq<Link>>)
    ensures links.None? <==> accountId == ""
    ensures links.Some? ==>
              && 1 <= |links.value| <= 2
              && links.value[0] == Link("Dashboard", "https://dash.cloudflare.com/" + accountId + "/home")
              && (|links.value| == 2 <==> FindZone(zones, selectedZoneId).Some?)
    ensures links.Some? && |links.value| == 2 ==>
      var name := FindZone(zones, selectedZoneId).value.name;
      links.value[1] == Link("DNS records (" + name + ")", "https://dash.cloudflare.com/" + accountId + "/" + name + "/dns/records")
  {
    if accountId == "" then None
    else
      var dashboard := Link("Dashboard", "https://dash.cloudflare.com/" + accountId + "/home");
      match FindZone(zones, selectedZoneId)
      case None => Some([dashboard])
      case Some(zone) =>
        Some([dashboard, Link("DNS records (" + zone.name + ")",
                              "https://dash.cloudflare.com/" + accountId + "/" + zone.name + "/dns/records")])
  }

  /** The Load zones button: disabled before both hooks are ready or without a token and an account id. */
  function LoadZonesDisabled(isReady: bool, token: string, accountId: string): (disabled: bool)
    ensures !disabled <==> isReady && token != "" && accountId != ""
  {
    !isReady || !(token != "" && accountId != "")
  }

  /** Whether `handleLoadRecords` gets past its checks: a token and a zone id that is not blank. */
  predicate FetchesRecords(token: string, zoneId: string) {
    token != "" && Trim(zoneId) != ""
  }

  /** The first check of `handleSubmitRecord` that fails, if any: a zone, a type, then a name and a content. */
  function SubmitGuard(selectedZoneId: string, form: FormData): (error: Option<string>)
    ensures error.None? <==>
      selectedZoneId != "" && form.recordType.Some? && Trim(form.recordType.value) != ""
      && Trim(form.recordName.GetOr("")) != "" && Trim(form.recordContent.GetOr("")) != ""
    ensures selectedZoneId == "" ==> error == Some(SelectDomain)
    ensures selectedZoneId != "" && (form.recordType.None? || Trim(form.recordType.value) == "") ==> error == Some(TypeRequired)
    ensures selectedZoneId != "" && form.recordType.Some? && Trim(form.recordType.value) != ""
            && (Trim(form.recordName.GetOr("")) == "" || Trim(form.recordContent.GetOr("")) == "") ==>
              error == Some(NameAndContentRequired)
  {
    if selectedZoneId == "" then Some(SelectDomain)
    else if form.recordType.None? || Trim(form.recordType.value) == "" then Some(TypeRequired)
    else if Trim(form.recordName.GetOr("")) == "" || Trim(form.recordContent.GetOr("")) == "" then Some(NameAndContentRequired)
    else None
  }

  /** The record a submitted form sends: every text field trimmed, `proxied` from the switch. */
  function SubmittedRecord(form: FormData): (record: RecordInput)
    ensures record.recordType == Trim(form.recordType.GetOr(""))
    ensures record.name == Trim(form.recordName.GetOr("")) && record.content == Trim(form.recordContent.GetOr(""))
    ensures record.proxied == Some(form.recordProxied)
  {
    RecordInput(Trim(form.recordType.GetOr("")), Trim(form.recordName.GetOr("")), Trim(form.recordContent.GetOr("")),
                Some(form.recordProxied))
  }

  /** The success toast of a save: "updated" while a record is being edited, "created" otherwise. */
  function SavedText(editingRecordId: Option<string>): (text: string)
    ensures text == RecordUpdated <==> editingRecordId.Some? && editingRecordId.value != ""
    ensures text == RecordCreated <==> !(editingRecordId.Some? && editingRecordId.value != "")
  {
    if editingRecordId.Some? && editingRecordId.value != "" then RecordUpdated else RecordCreated
  }

  /** The confirmation question of `handleDeleteRecord`, naming the record when it has a recordLabel. */
  function ConfirmText(recordLabel: Option<string>): (text: string)
    ensures StartsWith(text, "Delete DNS record") && EndsWith(text, "? This cannot be undone.")
    ensures recordLabel.Some? && recordLabel.value != "" ==>
              |text| == 17 + 1 + |recordLabel.value| + 24 && text[17] == ' ' && text[18..|text| - 24] == recordLabel.value
    ensures !(recordLabel.Some? && recordLabel.value != "") ==> |text| == 17 + 24
  {
    "Delete DNS record" + (if recordLabel.Some? && recordLabel.value != "" then " " + recordLabel.value else "") + "? This cannot be undone."
  }

  /** The filter of a successful delete. */
  function KeepOthers(recordId: string): DnsRecord -> bool {
    (record: DnsRecord) => record.id != recordId
  }

  /** The form `handleEditRecord` fills from a record. */
  function EditDefaults(record: DnsRecord): (form: FormDefaults)
    ensures form.recordType == record.recordType && form.name == record.name && form.content == record.content
    ensures form.proxied <==> record.proxied == Some(true)
  {
    FormDefaults(record.recordType, record.name, record.content, record.proxied == Some(true))
  }

  /**
   * A form submitted as `handleEditRecord` filled it, while that record is being edited,
   * updates that record through the action with the same fields, its type upper-cased.
   */
  lemma EditedRecordSubmitsUpdate(token: string, zoneId: string, record: DnsRecord)
    requires record.id != "" && zoneId != ""
    requires record.recordType != "" && IsTrimmed(record.recordType)
    requires record.name != "" && IsTrimmed(record.name) && record.content != "" && IsTrimmed(record.content)
    ensures var defaults := EditDefaults(record);
            var form := FormData(Some(defaults.recordType), Some(defaults.name), Some(defaults.content), defaults.proxied);
            && SubmitGuard(zoneId, form).None?
            && UpsertCall(token, zoneId, Some(record.id), SubmittedRecord(form))
               == UpdateRecord(token, record.id,
                               RecordPayload(zoneId, Upper(record.recordType), record.name, record.content,
                                             record.proxied == Some(true), AutomaticTtl))
  {
    TrimOfTrimmed(record.recordType);
    TrimOfTrimmed(record.name);
    TrimOfTrimmed(record.content);
  }

  /** A form that passes the checks sends its trimmed, upper-cased type, trimmed name and content, the switch, and the automatic TTL. */
  lemma SubmittedPayload(zoneId: string, form: FormData)
    requires SubmitGuard(zoneId, form).None?
    ensures DnsActions.Payload(zoneId, SubmittedRecord(form))
         == RecordPayload(zoneId, Upper(Trim(form.recordType.value)), Trim(form.recordName.value),
                          Trim(form.recordContent.value), form.recordProxied, AutomaticTtl)
  {
    assert Trim("") == "";
    assert form.recordName.Some? && form.recordContent.Some?;
    var record := SubmittedRecord(form);
    assert record == RecordInput(Trim(form.recordType.value), Trim(form.recordName.value), Trim(form.recordContent.value),
                                 Some(form.recordProxied));
  }

  /** `prev || firstZoneId`: the selection after the zones are refreshed. */
  function SelectionAfterRefresh(previous: string, zones: seq<Zone>): (selected: string)
    requires zones != []
    ensures previous != "" ==> selected == previous
    ensures previous == "" ==> selected == zones[0].id
  {
    if previous != "" then previous else zones[0].id
  }

  /** The zone whose records `handleLoadZones` loads as written: always the first. */
  function RecordsZoneAsWritten(previous: string, zones: seq<Zone>): (zoneId: string)
    requires zones != []
    ensures zoneId == zones[0].id
  {
    zones[0].id
  }

  /**
   * As written, refreshing the zones while another zone is selected keeps that selection
   * but lists the records of the first zone under it.
   */
  lemma RefreshListsFirstZoneUnderSelection(previous: string, zones: seq<Zone>)
    requires zones != [] && previous != "" && previous != zones[0].id
    ensures SelectionAfterRefresh(previous, zones) == previous
    ensures RecordsZoneAsWritten(previous, zones) != SelectionAfterRefresh(previous, zones)
  {
  }

  /** The concrete case: zone "b" selected, zones "a" and "b" listed. */
  lemma RefreshListsFirstZoneExample()
    ensures var zones := [Zone("a", "a.example", "active"), Zone("b", "b.example", "active")];
            SelectionAfterRefresh("b", zones) == "b" && RecordsZoneAsWritten("b", zones) == "a"
  {
  }

  class DnsPage {
    var zones: seq<Zone>
    var isLoadingZones: bool
    var selectedZoneId: string
    var records: seq<DnsRecord>
    var isLoadingRecords: bool
    var isSavingRecord: bool
    var deletingRecordId: Option<string>
    var searchTerm: string
    var formDefaults: FormDefaults
    var formResetKey: nat
    var editingRecordId: Option<string>
    var toasts: seq<StatusMessage>

    /** The first render: nothing loaded or selected, the empty form, no toasts. */
    constructor()
      ensures zones == [] && selectedZoneId == "" && records == [] && searchTerm == ""
      ensures !isLoadingZones && !isLoadingRecords && !isSavingRecord && deletingRecordId.None?
      ensures formDefaults == EmptyForm && formResetKey == 0 && editingRecordId.None? && toasts == []
    {
      zones := [];
      isLoadingZones := false;
      selectedZoneId := "";
      records := [];
      isLoadingRecords := false;
      isSavingRecord := false;
      deletingRecordId := None;
      searchTerm := "";
      formDefaults := EmptyForm;
      formResetKey := 0;
      editingRecordId := None;
      toasts := [];
    }

    /** `resetRecordForm`: the empty form, remounted, and nothing being edited. */
    method ResetRecordForm()
      modifies this`formDefaults, this`formResetKey, this`editingRecordId
      ensures formDefaults == EmptyForm && formResetKey == old(formResetKey) + 1 && editingRecordId.None?
    {
      formDefaults := EmptyForm;
      formResetKey := formResetKey + 1;
      editingRecordId := None;
    }

    /**
     * `handleLoadRecords(zoneId, showErrors)`: without a token only an optional toast; with a
     * blank zone id nothing; otherwise the records of the trimmed zone id are fetched as
     * `FetchRecordsOf` says.
     */
    method LoadRecords(zoneId: string, showErrors: bool, token: string, reply: Call<seq<DnsRecord>>)
      returns (calls: seq<PageCall>)
      modifies this`toasts, this`isLoadingRecords, this`records, this`editingRecordId, this`formDefaults, this`formResetKey
      ensures !FetchesRecords(token, zoneId) ==>
                && calls == [] && records == old(records) && isLoadingRecords == old(isLoadingRecords)
                && editingRecordId == old(editingRecordId) && formDefaults == old(formDefaults) && formResetKey == old(formResetKey)
                && toasts == old(toasts) + (if token == "" && showErrors then [ErrorToast(MissingToken)] else [])
      ensures FetchesRecords(token, zoneId) ==>
                calls == [FetchRecords(token, Trim(zoneId), old(searchTerm))] && !isLoadingRecords
      ensures FetchesRecords(token, zoneId) && reply.Returned? ==>
                && records == reply.value && toasts == []
                && editingRecordId.None? && formDefaults == EmptyForm && formResetKey == old(formResetKey) + 1
      ensures FetchesRecords(token, zoneId) && reply.Threw? ==>
                && records == old(records) && toasts == [ErrorToast(DisplayText(reply.thrown))]
                && editingRecordId == old(editingRecordId) && formDefaults == old(formDefaults) && formResetKey == old(formResetKey)
    {
      if token == "" {
        if showErrors {
          toasts := toasts + [ErrorToast(MissingToken)];
        }
        return [];
      }
      var trimmedZoneId := Trim(zoneId);
      if trimmedZoneId == "" {
        return [];
      }
      calls := FetchRecordsOf(trimmedZoneId, token, reply);
    }

    /**
     * The part of `handleLoadRecords` after its checks: the toasts close, the records of the
     * zone are fetched with the search term, and a success replaces the list and resets the
     * form while a failure toasts its message.
     */
    method FetchRecordsOf(zoneId: string, token: string, reply: Call<seq<DnsRecord>>) returns (calls: seq<PageCall>)
      modifies this`toasts, this`isLoadingRecords, this`records, this`editingRecordId, this`formDefaults, this`formResetKey
      ensures calls == [FetchRecords(token, zoneId, old(searchTerm))] && !isLoadingRecords
      ensures reply.Returned? ==>
                && records == reply.value && toasts == []
                && editingRecordId.None? && formDefaults == EmptyForm && formResetKey == old(formResetKey) + 1
      ensures reply.Threw? ==>
                && records == old(records) && toasts == [ErrorToast(DisplayText(reply.thrown))]
                && editingRecordId == old(editingRecordId) && formDefaults == old(formDefaults) && formResetKey == old(formResetKey)
    {
      calls := [FetchRecords(token, zoneId, searchTerm)];
      match reply {
        case Returned(fetched) =>
          records, toasts, isLoadingRecords := fetched, [], false;
          ResetRecordForm();
        case Threw(e) =>
          toasts, isLoadingRecords := [ErrorToast(DisplayText(e))], false;
      }
    }

    /**
     * `handleLoadZones`, with the records loaded for the zone left selected (see the
     * finding on `RecordsZoneAsWritten`): the token and then the account id are checked;
     * the zones replace the list, and a non-empty list keeps the selection or selects its
     * first zone.
     */
    method HandleLoadZones(token: string, accountId: string, zonesReply: Call<seq<Zone>>, recordsReply: Call<seq<DnsRecord>>)
      returns (calls: seq<PageCall>)
      modifies this`zones, this`isLoadingZones, this`selectedZoneId, this`toasts, this`isLoadingRecords, this`records,
               this`editingRecordId, this`formDefaults, this`formResetKey
      ensures token == "" || accountId == "" ==>
                && calls == [] && zones == old(zones) && selectedZoneId == old(selectedZoneId) && records == old(records)
                && isLoadingZones == old(isLoadingZones)
                && toasts == old(toasts) + [ErrorToast(if token == "" then MissingToken else MissingAccountId)]
      ensures token != "" && accountId != "" ==> |calls| >= 1 && calls[0] == FetchZones(token, accountId) && !isLoadingZones
      ensures token != "" && accountId != "" && zonesReply.Threw? ==>
                && calls == [FetchZones(token, accountId)] && toasts == [ErrorToast(DisplayText(zonesReply.thrown))]
                && zones == old(zones) && selectedZoneId == old(selectedZoneId) && records == old(records)
      ensures token != "" && accountId != "" && zonesReply.Returned? && zonesReply.value == [] ==>
                && calls == [FetchZones(token, accountId)] && toasts == []
                && zones == [] && selectedZoneId == old(selectedZoneId) && records == old(records)
      ensures token != "" && accountId != "" && zonesReply.Returned? && zonesReply.value != [] ==>
                && zones == zonesReply.value
                && selectedZoneId == SelectionAfterRefresh(old(selectedZoneId), zonesReply.value)
                && calls == [FetchZones(token, accountId)]
                            + (if Trim(selectedZoneId) != "" then [FetchRecords(token, Trim(selectedZoneId), old(searchTerm))] else [])
                && (Trim(selectedZoneId) != "" && recordsReply.Returned? ==> records == recordsReply.value && toasts == [])
                && (Trim(selectedZoneId) != "" && recordsReply.Threw? ==>
                      records == old(records) && toasts == [ErrorToast(DisplayText(recordsReply.thrown))])
    {
      if token == "" {
        toasts := toasts + [ErrorToast(MissingToken)];
        return [];
      }
      if accountId == "" {
        toasts := toasts + [ErrorToast(MissingAccountId)];
        return [];
      }
      calls := [FetchZones(token, accountId)];
      match zonesReply {
        case Threw(e) =>
          toasts := [ErrorToast(DisplayText(e))];
        case Returned(fetched) =>
          toasts := [];
          if fetched == [] {
            zones := [];
          } else {
            var more := AdoptZones(fetched, token, recordsReply);
            calls := calls + more;
          }
      }
      isLoadingZones := false;
    }

    /** A non-empty zone list replaces the old one, the selection follows it, and the selected zone's records are reloaded quietly. */
    method AdoptZones(fetched: seq<Zone>, token: string, recordsReply: Call<seq<DnsRecord>>) returns (calls: seq<PageCall>)
      requires fetched != [] && token != ""
      modifies this`zones, this`selectedZoneId, this`toasts, this`isLoadingRecords, this`records,
               this`editingRecordId, this`formDefaults, this`formResetKey
      ensures zones == fetched && selectedZoneId == SelectionAfterRefresh(old(selectedZoneId), fetched)
      ensures calls == (if Trim(selectedZoneId) != "" then [FetchRecords(token, Trim(selectedZoneId), old(searchTerm))] else [])
      ensures Trim(selectedZoneId) == "" ==> records == old(records) && toasts == old(toasts)
      ensures Trim(selectedZoneId) != "" && recordsReply.Returned? ==> records == recordsReply.value && toasts == []
      ensures Trim(selectedZoneId) != "" && recordsReply.Threw? ==>
                records == old(records) && toasts == [ErrorToast(DisplayText(recordsReply.thrown))]
    {
      zones, selectedZoneId := fetched, SelectionAfterRefresh(selectedZoneId, fetched);
      calls := LoadRecords(selectedZoneId, false, token, recordsReply);
    }

    /**
     * The part of `handleSubmitRecord` after its checks: the record is sent with the id of
     * the record being edited, and a success toasts, reloads the selected zone's records
     * quietly and resets the form. The reload closes every toast, so when it runs and
     * succeeds no toast stays open.
     */
    method SaveAndRefresh(record: RecordInput, token: string, saved: Call<DnsRecord>, recordsReply: Call<seq<DnsRecord>>)
      returns (calls: seq<PageCall>)
      modifies this`toasts, this`isSavingRecord, this`isLoadingRecords, this`records, this`editingRecordId,
               this`formDefaults, this`formResetKey
      ensures |calls| >= 1 && calls[0] == SaveRecord(token, old(selectedZoneId), old(editingRecordId), record)
      ensures !isSavingRecord
      ensures saved.Threw? ==>
                && |calls| == 1 && toasts == [ErrorToast(DisplayText(saved.thrown))] && records == old(records)
                && editingRecordId == old(editingRecordId) && formDefaults == old(formDefaults) && formResetKey == old(formResetKey)
      ensures saved.Threw? ==> isLoadingRecords == old(isLoadingRecords)
      ensures saved.Returned? ==>
                && editingRecordId.None? && formDefaults == EmptyForm
                && formResetKey == old(formResetKey) + (if FetchesRecords(token, old(selectedZoneId)) && recordsReply.Returned? then 2 else 1)
                && isLoadingRecords == (old(isLoadingRecords) && !FetchesRecords(token, old(selectedZoneId)))
                && calls[1..] == (if FetchesRecords(token, old(selectedZoneId))
                                  then [FetchRecords(token, Trim(old(selectedZoneId)), old(searchTerm))] else [])
                && (!FetchesRecords(token, old(selectedZoneId)) ==>
                      records == old(records) && toasts == [SuccessToast(SavedText(old(editingRecordId)))])
                && (FetchesRecords(token, old(selectedZoneId)) && recordsReply.Returned? ==> records == recordsReply.value && toasts == [])
                && (FetchesRecords(token, old(selectedZoneId)) && recordsReply.Threw? ==>
                      records == old(records) && toasts == [ErrorToast(DisplayText(recordsReply.thrown))])
    {
      calls := [SaveRecord(token, selectedZoneId, editingRecordId, record)];
      match saved {
        case Threw(e) =>
          toasts, isSavingRecord := [ErrorToast(DisplayText(e))], false;
        case Returned(_) =>
          var more := RefreshAfterSave(token, recordsReply);
          calls := calls + more;
      }
    }

    /** A successful save: its toast, a quiet reload of the selected zone's records, the form reset, the saving flag down. */
    method RefreshAfterSave(token: string, recordsReply: Call<seq<DnsRecord>>) returns (calls: seq<PageCall>)
      modifies this`toasts, this`isSavingRecord, this`isLoadingRecords, this`records, this`editingRecordId,
               this`formDefaults, this`formResetKey
      ensures !isSavingRecord && editingRecordId.None? && formDefaults == EmptyForm
      ensures formResetKey == old(formResetKey) + (if FetchesRecords(token, old(selectedZoneId)) && recordsReply.Returned? then 2 else 1)
      ensures isLoadingRecords == (old(isLoadingRecords) && !FetchesRecords(token, old(selectedZoneId)))
      ensures calls == (if FetchesRecords(token, old(selectedZoneId))
                        then [FetchRecords(token, Trim(old(selectedZoneId)), old(searchTerm))] else [])
      ensures !FetchesRecords(token, old(selectedZoneId)) ==>
                records == old(records) && toasts == [SuccessToast(SavedText(old(editingRecordId)))]
      ensures FetchesRecords(token, old(selectedZoneId)) && recordsReply.Returned? ==> records == recordsReply.value && toasts == []
      ensures FetchesRecords(token, old(selectedZoneId)) && recordsReply.Threw? ==>
                records == old(records) && toasts == [ErrorToast(DisplayText(recordsReply.thrown))]
    {
      toasts := [SuccessToast(SavedText(editingRecordId))];
      calls := LoadRecords(selectedZoneId, false, token, recordsReply);
      ResetRecordForm();
      isSavingRecord := false;
    }

    /** `handleSubmitRecord`: a failed check only toasts; otherwise the trimmed record is saved as `SaveAndRefresh` says. */
    method HandleSubmitRecord(form: FormData, token: string, saved: Call<DnsRecord>, recordsReply: Call<seq<DnsRecord>>)
      returns (calls: seq<PageCall>)
      modifies this`toasts, this`isSavingRecord, this`isLoadingRecords, this`records, this`editingRecordId,
               this`formDefaults, this`formResetKey
      ensures SubmitGuard(old(selectedZoneId), form).Some? ==>
                && calls == [] && toasts == old(toasts) + [ErrorToast(SubmitGuard(old(selectedZoneId), form).value)]
                && records == old(records) && isSavingRecord == old(isSavingRecord)
                && editingRecordId == old(editingRecordId) && formDefaults == old(formDefaults) && formResetKey == old(formResetKey)
      ensures SubmitGuard(old(selectedZoneId), form).None? ==>
                && |calls| >= 1 && calls[0] == SaveRecord(token, old(selectedZoneId), old(editingRecordId), SubmittedRecord(form))
                && !isSavingRecord
      ensures SubmitGuard(old(selectedZoneId), form).None? && saved.Threw? ==>
                && |calls| == 1 && toasts == [ErrorToast(DisplayText(saved.thrown))] && records == old(records)
                && editingRecordId == old(editingRecordId) && formDefaults == old(formDefaults) && formResetKey == old(formResetKey)
                && isLoadingRecords == old(isLoadingRecords)
      ensures SubmitGuard(old(selectedZoneId), form).None? && saved.Returned? ==>
                && editingRecordId.None? && formDefaults == EmptyForm
                && formResetKey == old(formResetKey) + (if FetchesRecords(token, old(selectedZoneId)) && recordsReply.Returned? then 2 else 1)
                && isLoadingRecords == (old(isLoadingRecords) && !FetchesRecords(token, old(selectedZoneId)))
                && calls[1..] == (if FetchesRecords(token, old(selectedZoneId))
                                  then [FetchRecords(token, Trim(old(selectedZoneId)), old(searchTerm))] else [])
                && (!FetchesRecords(token, old(selectedZoneId)) ==>
                      records == old(records) && toasts == [SuccessToast(SavedText(old(editingRecordId)))])
                && (FetchesRecords(token, old(selectedZoneId)) && recordsReply.Returned? ==> records == recordsReply.value && toasts == [])
                && (FetchesRecords(token, old(selectedZoneId)) && recordsReply.Threw? ==>
                      records == old(records) && toasts == [ErrorToast(DisplayText(recordsReply.thrown))])
    {
      var error := SubmitGuard(selectedZoneId, form);
      if error.Some? {
        toasts := toasts + [ErrorToast(error.value)];
        return [];
      }
      calls := SaveAndRefresh(SubmittedRecord(form), token, saved, recordsReply);
    }

    /**
     * `handleDeleteRecord(recordId, recordLabel)`: with a zone selected it asks for confirmation;
     * once confirmed the record is deleted, and a success removes exactly the records with
     * that id from the list and keeps the others in order.
     */
    method HandleDeleteRecord(recordId: string, recordLabel: Option<string>, confirmed: bool, token: string, thrown: Option<Thrown>)
      returns (question: Option<string>, calls: seq<PageCall>)
      modifies this`deletingRecordId, this`toasts, this`records
      ensures selectedZoneId == "" ==> question.None?
      ensures selectedZoneId != "" ==> question == Some(ConfirmText(recordLabel))
      ensures selectedZoneId == "" || !confirmed ==>
                calls == [] && records == old(records) && toasts == old(toasts) && deletingRecordId == old(deletingRecordId)
      ensures selectedZoneId != "" && confirmed ==>
                calls == [RemoveRecord(token, selectedZoneId, recordId)] && deletingRecordId.None?
      ensures selectedZoneId != "" && confirmed && thrown.None? ==>
                && records == Filter(old(records), KeepOthers(recordId)) && toasts == [SuccessToast(RecordDeleted)]
                && (forall i :: 0 <= i < |records| ==> records[i].id != recordId)
                && (forall r :: r in old(records) && r.id != recordId ==> r in records)
      ensures selectedZoneId != "" && confirmed && thrown.Some? ==>
                records == old(records) && toasts == [ErrorToast(DisplayText(thrown.value))]
    {
      if selectedZoneId == "" {
        return None, [];
      }
      question := Some(ConfirmText(recordLabel));
      if !confirmed {
        return question, [];
      }
      deletingRecordId := Some(recordId);
      toasts := [];
      calls := [RemoveRecord(token, selectedZoneId, recordId)];
      match thrown {
        case None =>
          records := Filter(records, KeepOthers(recordId));
          toasts := toasts + [SuccessToast(RecordDeleted)];
        case Some(e) =>
          toasts := toasts + [ErrorToast(DisplayText(e))];
      }
      deletingRecordId := None;
    }

    /** `handleSelectZone`: the zone is selected, the list emptied, the form reset, and its records loaded with errors shown. */
    method HandleSelectZone(zoneId: string, token: string, reply: Call<seq<DnsRecord>>) returns (calls: seq<PageCall>)
      modifies this`selectedZoneId, this`records, this`toasts, this`isLoadingRecords, this`editingRecordId,
               this`formDefaults, this`formResetKey
      ensures selectedZoneId == zoneId && editingRecordId.None? && formDefaults == EmptyForm
      ensures !FetchesRecords(token, zoneId) ==>
                && calls == [] && records == [] && formResetKey == old(formResetKey) + 1
                && toasts == old(toasts) + (if token == "" then [ErrorToast(MissingToken)] else [])
      ensures FetchesRecords(token, zoneId) ==> calls == [FetchRecords(token, Trim(zoneId), searchTerm)]
      ensures FetchesRecords(token, zoneId) && reply.Returned? ==>
                records == reply.value && toasts == [] && formResetKey == old(formResetKey) + 2
      ensures FetchesRecords(token, zoneId) && reply.Threw? ==>
                records == [] && toasts == [ErrorToast(DisplayText(reply.thrown))] && formResetKey == old(formResetKey) + 1
    {
      selectedZoneId := zoneId;
      records := [];
      ResetRecordForm();
      calls := LoadRecords(zoneId, true, token, reply);
    }

    /** `handleEditRecord`: the record becomes the one being edited and fills the form. */
    method HandleEditRecord(record: DnsRecord)
      modifies this`editingRecordId, this`formDefaults, this`formResetKey
      ensures editingRecordId == Some(record.id) && formDefaults == EditDefaults(record)
      ensures formResetKey == old(formResetKey) + 1
    {
      editingRecordId := Some(record.id);
      formDefaults := EditDefaults(record);
      formResetKey := formResetKey + 1;
    }
  }
}
