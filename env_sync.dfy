/**
 * The per-entry sync both the GitLab variables page and the GitHub secrets page run: a
 * status per key ("pending" or "skipped" before a sync), then one pass over the parsed
 * entries in input order that skips empty values when asked, sends every other entry and
 * records its success or failure without stopping. `outcomes(i)` is what the request for
 * the i-th entry throws (None when it resolves); a failure is shown by its display text.
 */
module EnvSync {
  import opened Wrappers
  import opened Types
  import opened Http
  import opened EnvParser

  /** `skipEmpty && !value.length`. */
  predicate ShouldSkip(skipEmpty: bool, e: EnvEntry) {
    skipEmpty && e.value == ""
  }

  /** A status table written entry by entry, later entries with the same key overwriting earlier ones. */
  function AssignAll(prev: map<string, VariableStatus>, entries: seq<EnvEntry>, status: (nat, EnvEntry) -> VariableStatus): (t: map<string, VariableStatus>)
    ensures prev.Keys <= t.Keys
    decreases |entries|
  {
    if entries == [] then prev
    else
      var n := |entries| - 1;
      AssignAll(prev, entries[..n], status)[entries[n].key := status(n, entries[n])]
  }

  /** The table holds the previous keys and every entry's key, and nothing else. */
  lemma {:induction false} AssignAllKeys(prev: map<string, VariableStatus>, entries: seq<EnvEntry>, status: (nat, EnvEntry) -> VariableStatus)
    ensures AssignAll(prev, entries, status).Keys == prev.Keys + set i | 0 <= i < |entries| :: entries[i].key
    decreases |entries|
  {
    if entries != [] {
      var n := |entries| - 1;
      AssignAllKeys(prev, entries[..n], status);
      assert forall i :: 0 <= i < n ==> entries[..n][i] == entries[i];
    }
  }

  /** A key ends with the status its last entry was given. */
  lemma {:induction false} AssignAllLastWins(prev: map<string, VariableStatus>, entries: seq<EnvEntry>, status: (nat, EnvEntry) -> VariableStatus, i: nat)
    requires i < |entries|
    requires forall j :: i < j < |entries| ==> entries[j].key != entries[i].key
    ensures entries[i].key in AssignAll(prev, entries, status)
    ensures AssignAll(prev, entries, status)[entries[i].key] == status(i, entries[i])
    decreases |entries|
  {
    var n := |entries| - 1;
    if i < n {
      assert entries[..n][i] == entries[i];
      AssignAllLastWins(prev, entries[..n], status, i);
    }
  }

  /** A key no entry carries keeps its previous status. */
  lemma {:induction false} AssignAllUntouched(prev: map<string, VariableStatus>, entries: seq<EnvEntry>, status: (nat, EnvEntry) -> VariableStatus, k: string)
    requires k in prev
    requires forall j :: 0 <= j < |entries| ==> entries[j].key != k
    ensures k in AssignAll(prev, entries, status) && AssignAll(prev, entries, status)[k] == prev[k]
    decreases |entries|
  {
    if entries != [] {
      AssignAllUntouched(prev, entries[..|entries| - 1], status, k);
    }
  }

  /** The status an entry has before any sync. */
  function InitialStatus(skipEmpty: bool): (status: (nat, EnvEntry) -> VariableStatus)
    ensures forall i: nat, e: EnvEntry :: status(i, e) == Skipped <==> ShouldSkip(skipEmpty, e)
    ensures forall i: nat, e: EnvEntry :: status(i, e) != Skipped ==> status(i, e) == Pending
  {
    (i: nat, e: EnvEntry) => if ShouldSkip(skipEmpty, e) then Skipped else Pending
  }

  /** The status an entry ends a sync with. */
  function FinalStatus(skipEmpty: bool, outcomes: nat -> Option<Thrown>): (status: (nat, EnvEntry) -> VariableStatus)
    ensures forall i: nat, e: EnvEntry :: status(i, e) == Skipped <==> ShouldSkip(skipEmpty, e)
    ensures forall i: nat, e: EnvEntry :: status(i, e) != Pending && status(i, e) != InProgress
    ensures forall i: nat, e: EnvEntry :: !ShouldSkip(skipEmpty, e) ==> (status(i, e) == Success <==> outcomes(i).None?)
  {
    (i: nat, e: EnvEntry) => if ShouldSkip(skipEmpty, e) then Skipped else if outcomes(i).None? then Success else Error
  }

  /** The status effect: every key of the entries, "skipped" when its (last) value is skipped and "pending" otherwise. */
  method InitialStatuses(entries: seq<EnvEntry>, skipEmpty: bool) returns (statuses: map<string, VariableStatus>)
    ensures statuses == AssignAll(map[], entries, InitialStatus(skipEmpty))
  {
    statuses := map[];
    var i := 0;
    while i < |entries|
      invariant 0 <= i <= |entries|
      invariant statuses == AssignAll(map[], entries[..i], InitialStatus(skipEmpty))
    {
      assert entries[..i + 1][..i] == entries[..i];
      statuses := statuses[entries[i].key := if ShouldSkip(skipEmpty, entries[i]) then Skipped else Pending];
      i := i + 1;
    }
    assert entries[..i] == entries;
  }

  /** Before a sync, a key is "skipped" exactly when skipping is on and its last value is empty, and "pending" otherwise. */
  lemma InitialStatusOfKey(entries: seq<EnvEntry>, skipEmpty: bool, i: nat)
    requires i < |entries|
    requires forall j :: i < j < |entries| ==> entries[j].key != entries[i].key
    ensures var t := AssignAll(map[], entries, InitialStatus(skipEmpty));
            entries[i].key in t && var s := t[entries[i].key];
            (s == Skipped <==> skipEmpty && entries[i].value == "") && (s != Skipped ==> s == Pending)
  {
    AssignAllLastWins(map[], entries, InitialStatus(skipEmpty), i);
  }

  /** The entries a sync sends, in input order. */
  function Sent(entries: seq<EnvEntry>, skipEmpty: bool): (sent: seq<EnvEntry>)
    ensures |sent| <= |entries|
    decreases |entries|
  {
    if entries == [] then []
    else
      var n := |entries| - 1;
      Sent(entries[..n], skipEmpty) + (if ShouldSkip(skipEmpty, entries[n]) then [] else [entries[n]])
  }

  /** Nothing skipped is sent, and everything not skipped is. */
  lemma {:induction false} SentExactlyUnskipped(entries: seq<EnvEntry>, skipEmpty: bool)
    ensures forall e :: e in Sent(entries, skipEmpty) <==> e in entries && !ShouldSkip(skipEmpty, e)
    decreases |entries|
  {
    if entries != [] {
      var n := |entries| - 1;
      SentExactlyUnskipped(entries[..n], skipEmpty);
      assert entries == entries[..n] + [entries[n]];
    }
  }

  /** Without skipping, every entry is sent, in input order. */
  lemma {:induction false} SentAllUnlessSkipping(entries: seq<EnvEntry>)
    ensures Sent(entries, false) == entries
    decreases |entries|
  {
    if entries != [] {
      var n := |entries| - 1;
      SentAllUnlessSkipping(entries[..n]);
      assert entries == entries[..n] + [entries[n]];
    }
  }

  /** Some sent entry failed. */
  predicate HasErrors(entries: seq<EnvEntry>, skipEmpty: bool, outcomes: nat -> Option<Thrown>) {
    exists i :: 0 <= i < |entries| && !ShouldSkip(skipEmpty, entries[i]) && outcomes(i).Some?
  }

  /** "Failed for KEY: message". */
  function FailureText(key: string, message: string): string {
    "Failed for " + key + ": " + message
  }

  /** The alert left by the last failure of a sync, if any. */
  function LastFailure(entries: seq<EnvEntry>, skipEmpty: bool, outcomes: nat -> Option<Thrown>): (failure: Option<StatusMessage>)
    ensures failure.Some? ==> failure.value.kind == ErrorMessage
    decreases |entries|
  {
    if entries == [] then None
    else
      var n := |entries| - 1;
      if !ShouldSkip(skipEmpty, entries[n]) && outcomes(n).Some? then Some(StatusMessage(ErrorMessage, FailureText(entries[n].key, DisplayText(outcomes(n).value))))
      else LastFailure(entries[..n], skipEmpty, outcomes)
  }

  /** There is a failure alert exactly when some sent entry failed. */
  lemma {:induction false} LastFailureIffErrors(entries: seq<EnvEntry>, skipEmpty: bool, outcomes: nat -> Option<Thrown>)
    ensures LastFailure(entries, skipEmpty, outcomes).Some? <==> HasErrors(entries, skipEmpty, outcomes)
    decreases |entries|
  {
    if entries != [] {
      var n := |entries| - 1;
      LastFailureIffErrors(entries[..n], skipEmpty, outcomes);
      if HasErrors(entries[..n], skipEmpty, outcomes) {
        var i :| 0 <= i < n && !ShouldSkip(skipEmpty, entries[..n][i]) && outcomes(i).Some?;
        assert entries[i] == entries[..n][i];
      }
      if HasErrors(entries, skipEmpty, outcomes) && !(!ShouldSkip(skipEmpty, entries[n]) && outcomes(n).Some?) {
        var i :| 0 <= i < |entries| && !ShouldSkip(skipEmpty, entries[i]) && outcomes(i).Some?;
        assert i < n && entries[..n][i] == entries[i];
      }
    }
  }

  /** The failure alert names a sent entry whose request failed, with that failure's text. */
  lemma {:induction false} LastFailureIsSomeFailure(entries: seq<EnvEntry>, skipEmpty: bool, outcomes: nat -> Option<Thrown>)
    requires LastFailure(entries, skipEmpty, outcomes).Some?
    ensures var m := LastFailure(entries, skipEmpty, outcomes).value;
            m.kind == ErrorMessage
            && exists i :: 0 <= i < |entries| && !ShouldSkip(skipEmpty, entries[i]) && outcomes(i).Some?
                 && m.text == FailureText(entries[i].key, DisplayText(outcomes(i).value))
    decreases |entries|
  {
    var n := |entries| - 1;
    if !(!ShouldSkip(skipEmpty, entries[n]) && outcomes(n).Some?) {
      LastFailureIsSomeFailure(entries[..n], skipEmpty, outcomes);
      var m := LastFailure(entries, skipEmpty, outcomes).value;
      var i :| 0 <= i < n && !ShouldSkip(skipEmpty, entries[..n][i]) && outcomes(i).Some?
                 && m.text == FailureText(entries[..n][i].key, DisplayText(outcomes(i).value));
      assert entries[..n][i] == entries[i];
    }
  }

  /** After a sync no key is left "pending" or "in-progress": each ends skipped, succeeded or failed as its last entry did. */
  lemma FinalStatusOfKey(prev: map<string, VariableStatus>, entries: seq<EnvEntry>, skipEmpty: bool, outcomes: nat -> Option<Thrown>, i: nat)
    requires i < |entries|
    requires forall j :: i < j < |entries| ==> entries[j].key != entries[i].key
    ensures var t := AssignAll(prev, entries, FinalStatus(skipEmpty, outcomes));
            entries[i].key in t && var s := t[entries[i].key];
            && (s == Skipped <==> ShouldSkip(skipEmpty, entries[i]))
            && (!ShouldSkip(skipEmpty, entries[i]) ==> (s == Success <==> outcomes(i).None?) && (s == Error <==> outcomes(i).Some?))
            && s != Pending && s != InProgress
  {
    AssignAllLastWins(prev, entries, FinalStatus(skipEmpty, outcomes), i);
  }

  /** Taking one more entry extends each of the pass's results by that entry alone. */
  lemma SyncStep(prev: map<string, VariableStatus>, entries: seq<EnvEntry>, skipEmpty: bool, outcomes: nat -> Option<Thrown>, i: nat)
    requires i < |entries|
    ensures var e, failed := entries[i], !ShouldSkip(skipEmpty, entries[i]) && outcomes(i).Some?;
            && AssignAll(prev, entries[..i + 1], FinalStatus(skipEmpty, outcomes))
               == AssignAll(prev, entries[..i], FinalStatus(skipEmpty, outcomes))[e.key := FinalStatus(skipEmpty, outcomes)(i, e)]
            && Sent(entries[..i + 1], skipEmpty) == Sent(entries[..i], skipEmpty) + (if ShouldSkip(skipEmpty, e) then [] else [e])
            && (HasErrors(entries[..i + 1], skipEmpty, outcomes) <==> HasErrors(entries[..i], skipEmpty, outcomes) || failed)
            && LastFailure(entries[..i + 1], skipEmpty, outcomes)
               == if failed then Some(StatusMessage(ErrorMessage, FailureText(e.key, DisplayText(outcomes(i).value))))
                  else LastFailure(entries[..i], skipEmpty, outcomes)
  {
    assert entries[..i + 1][..i] == entries[..i];
    assert entries[..i + 1][i] == entries[i];
    if HasErrors(entries[..i], skipEmpty, outcomes) {
      var j :| 0 <= j < i && !ShouldSkip(skipEmpty, entries[..i][j]) && outcomes(j).Some?;
      assert entries[..i + 1][j] == entries[..i][j];
    }
    if HasErrors(entries[..i + 1], skipEmpty, outcomes) && !(!ShouldSkip(skipEmpty, entries[i]) && outcomes(i).Some?) {
      var j :| 0 <= j < i + 1 && !ShouldSkip(skipEmpty, entries[..i + 1][j]) && outcomes(j).Some?;
      assert j < i && entries[..i][j] == entries[..i + 1][j];
    }
  }

  /** What one pass over the entries produces. */
  datatype SyncResult = SyncResult(
    statuses: map<string, VariableStatus>, sent: seq<EnvEntry>, hasErrors: bool, failure: Option<StatusMessage>)

  /**
   * One pass of the loop: a skipped entry is marked so; any other is marked in progress,
   * sent, and marked by how its request ended, a failure giving the alert it leaves.
   */
  method SyncEntry(statuses: map<string, VariableStatus>, e: EnvEntry, i: nat, skipEmpty: bool, outcomes: nat -> Option<Thrown>)
    returns (after: map<string, VariableStatus>, sent: bool, failure: Option<StatusMessage>)
    ensures after == statuses[e.key := FinalStatus(skipEmpty, outcomes)(i, e)]
    ensures sent <==> !ShouldSkip(skipEmpty, e)
    ensures failure.Some? <==> sent && outcomes(i).Some?
    ensures failure.Some? ==> failure.value == StatusMessage(ErrorMessage, FailureText(e.key, DisplayText(outcomes(i).value)))
  {
    sent, failure := false, None;
    if ShouldSkip(skipEmpty, e) {
      after := statuses[e.key := Skipped];
      return;
    }
    after := statuses[e.key := InProgress];
    sent := true;
    match outcomes(i) {
      case None =>
        after := after[e.key := Success];
      case Some(error) =>
        after := after[e.key := Error];
        failure := Some(StatusMessage(ErrorMessage, FailureText(e.key, DisplayText(error))));
    }
  }

  /**
   * The loop of `handleSync`: each entry in order is skipped, or marked in progress, sent,
   * and marked by how its request ended; a failure is remembered and the loop goes on.
   */
  method SyncEntries(statuses0: map<string, VariableStatus>, entries: seq<EnvEntry>, skipEmpty: bool, outcomes: nat -> Option<Thrown>)
    returns (r: SyncResult)
    ensures r.statuses == AssignAll(statuses0, entries, FinalStatus(skipEmpty, outcomes))
    ensures r.sent == Sent(entries, skipEmpty)
    ensures r.hasErrors <==> HasErrors(entries, skipEmpty, outcomes)
    ensures r.failure == LastFailure(entries, skipEmpty, outcomes)
  {
    var statuses := statuses0;
    var sent: seq<EnvEntry> := [];
    var hasErrors := false;
    var failure: Option<StatusMessage> := None;
    var i := 0;
    while i < |entries|
      invariant 0 <= i <= |entries|
      invariant statuses == AssignAll(statuses0, entries[..i], FinalStatus(skipEmpty, outcomes))
      invariant sent == Sent(entries[..i], skipEmpty)
      invariant hasErrors <==> HasErrors(entries[..i], skipEmpty, outcomes)
      invariant failure == LastFailure(entries[..i], skipEmpty, outcomes)
    {
      var e := entries[i];
      SyncStep(statuses0, entries, skipEmpty, outcomes, i);
      var after, sentNow, failed := SyncEntry(statuses, e, i, skipEmpty, outcomes);
      statuses := after;
      if sentNow {
        sent := sent + [e];
      }
      if failed.Some? {
        hasErrors, failure := true, failed;
      }
      i := i + 1;
    }
    assert entries[..i] == entries;
    r := SyncResult(statuses, sent, hasErrors, failure);
  }

  /** The alert a sync that got past its checks ends with: the last failure, or the success message when there was none. */
  function SyncAlert(entries: seq<EnvEntry>, skipEmpty: bool, outcomes: nat -> Option<Thrown>, synced: string): (alert: StatusMessage)
    ensures alert.kind == ErrorMessage <==> LastFailure(entries, skipEmpty, outcomes).Some?
    ensures alert.kind == SuccessMessage ==> alert.text == synced
  {
    LastFailure(entries, skipEmpty, outcomes).GetOr(StatusMessage(SuccessMessage, synced))
  }

  /** A sync ends with the success message exactly when no request failed, and otherwise with the text of a failed request. */
  lemma SyncAlertReportsFailures(entries: seq<EnvEntry>, skipEmpty: bool, outcomes: nat -> Option<Thrown>, synced: string)
    ensures var a := SyncAlert(entries, skipEmpty, outcomes, synced);
            && (a == StatusMessage(SuccessMessage, synced) <==> !HasErrors(entries, skipEmpty, outcomes))
            && (a.kind == ErrorMessage <==> HasErrors(entries, skipEmpty, outcomes))
            && (a.kind == ErrorMessage ==>
                  exists i :: 0 <= i < |entries| && !ShouldSkip(skipEmpty, entries[i]) && outcomes(i).Some?
                    && a.text == FailureText(entries[i].key, DisplayText(outcomes(i).value)))
  {
    LastFailureIffErrors(entries, skipEmpty, outcomes);
    if HasErrors(entries, skipEmpty, outcomes) {
      LastFailureIsSomeFailure(entries, skipEmpty, outcomes);
    }
  }

  /** What a page's `handleSync` leaves behind: the requests it issued, the statuses and the alert. */
  datatype SyncRun<C> = SyncRun(calls: seq<C>, statuses: map<string, VariableStatus>, alert: StatusMessage)
}
