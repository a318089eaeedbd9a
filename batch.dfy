/** The record store's answers, and the one procedure every adapter uses to turn the answer
    of a create, update or delete into a value or a thrown message. */
module Batch {
  import opened Wrappers

  datatype FieldError = FieldError(fieldLabel: string, message: string)

  /** One entry of `response.results`. A failed entry's `errors` list may be empty (an empty
      array is truthy, but `forEach` over it throws nothing); an empty `message` is absent. */
  datatype RecordResult<W> = Succeeded(data: W) | Failed(errors: seq<FieldError>, message: string)

  /** The answer to createRecord, updateRecord or deleteRecord. */
  datatype BatchResponse<W> = BatchResponse(success: bool, message: string, results: Option<seq<RecordResult<W>>>)

  /** The answer to fetchRecords. */
  datatype FetchResponse<W> = FetchResponse(success: bool, message: string, data: seq<W>)

  /** The answer to getRecordById; `data == None` is a falsy `response.data`. */
  datatype FetchOneResponse<W> = FetchOneResponse(success: bool, data: Option<W>)

  const NoSuccessMessage: string := "No successful records returned"

  /** A failed entry makes a create or update throw when it has a field error or a message. */
  predicate ThrowsOnSave<W>(r: RecordResult<W>) {
    r.Failed? && (|r.errors| > 0 || r.message != "")
  }

  /** What such an entry throws: `"fieldLabel: message"` of its first field error, else its message. */
  function SaveErrorText<W>(r: RecordResult<W>): string
    requires r.Failed?
  {
    if |r.errors| > 0 then r.errors[0].fieldLabel + ": " + r.errors[0].message else r.message
  }

  /** A delete throws only on a failed entry's message; field errors are not looked at. */
  predicate ThrowsOnDelete<W>(r: RecordResult<W>) {
    r.Failed? && r.message != ""
  }

  /** The error thrown by the first failed entry that throws, scanning in order. */
  function FirstSaveError<W>(rs: seq<RecordResult<W>>): (e: Option<string>)
    ensures e.None? <==> forall i :: 0 <= i < |rs| ==> !ThrowsOnSave(rs[i])
    ensures e.Some? ==> exists k :: 0 <= k < |rs| && ThrowsOnSave(rs[k]) && e.value == SaveErrorText(rs[k])
                                  && forall j :: 0 <= j < k ==> !ThrowsOnSave(rs[j])
  {
    if rs == [] then None
    else if ThrowsOnSave(rs[0]) then Some(SaveErrorText(rs[0]))
    else
      var e := FirstSaveError(rs[1..]);
      assert forall i :: 1 <= i < |rs| ==> rs[i] == rs[1..][i - 1];
      e
  }

  function FirstDeleteError<W>(rs: seq<RecordResult<W>>): (e: Option<string>)
    ensures e.None? <==> forall i :: 0 <= i < |rs| ==> !ThrowsOnDelete(rs[i])
    ensures e.Some? ==> exists k :: 0 <= k < |rs| && ThrowsOnDelete(rs[k]) && e.value == rs[k].message
                                  && forall j :: 0 <= j < k ==> !ThrowsOnDelete(rs[j])
  {
    if rs == [] then None
    else if ThrowsOnDelete(rs[0]) then Some(rs[0].message)
    else
      var e := FirstDeleteError(rs[1..]);
      assert forall i :: 1 <= i < |rs| ==> rs[i] == rs[1..][i - 1];
      e
  }

  /** `successful[0].data`. */
  function FirstSucceeded<W>(rs: seq<RecordResult<W>>): (d: Option<W>)
    ensures d.None? <==> forall i :: 0 <= i < |rs| ==> rs[i].Failed?
    ensures d.Some? ==> exists k :: 0 <= k < |rs| && rs[k] == Succeeded(d.value)
                                  && forall j :: 0 <= j < k ==> rs[j].Failed?
  {
    if rs == [] then None
    else if rs[0].Succeeded? then Some(rs[0].data)
    else
      var d := FirstSucceeded(rs[1..]);
      assert forall i :: 1 <= i < |rs| ==> rs[i] == rs[1..][i - 1];
      d
  }

  /** The decision of `create` and `update`: a top-level failure throws its message; then the
      first failed entry that has something to say throws it; then the first successful entry
      is returned; and with no results or no successes the call throws NoSuccessMessage. */
  function SaveOutcome<W>(resp: BatchResponse<W>): (r: Result<W, string>)
    ensures !resp.success ==> r == Failure(resp.message)
    ensures resp.success && resp.results.None? ==> r == Failure(NoSuccessMessage)
    ensures r.Success? <==>
              && resp.success && resp.results.Some?
              && (forall i :: 0 <= i < |resp.results.value| ==> !ThrowsOnSave(resp.results.value[i]))
              && (exists i :: 0 <= i < |resp.results.value| && resp.results.value[i].Succeeded?)
    ensures r.Success? ==>
              exists k :: 0 <= k < |resp.results.value| && resp.results.value[k] == Succeeded(r.value)
                          && forall j :: 0 <= j < k ==> resp.results.value[j].Failed?
    ensures resp.success && resp.results.Some?
            && (exists i :: 0 <= i < |resp.results.value| && ThrowsOnSave(resp.results.value[i])) ==>
              exists k :: 0 <= k < |resp.results.value| && ThrowsOnSave(resp.results.value[k])
                          && r == Failure(SaveErrorText(resp.results.value[k]))
                          && forall j :: 0 <= j < k ==> !ThrowsOnSave(resp.results.value[j])
    ensures resp.success && resp.results.Some?
            && (forall i :: 0 <= i < |resp.results.value| ==> !ThrowsOnSave(resp.results.value[i])) ==>
              r.Success? || r == Failure(NoSuccessMessage)
  {
    if !resp.success then Failure(resp.message)
    else if resp.results.None? then Failure(NoSuccessMessage)
    else
      match FirstSaveError(resp.results.value)
      case Some(e) => Failure(e)
      case None =>
        match FirstSucceeded(resp.results.value)
        case Some(d) => Success(d)
        case None => Failure(NoSuccessMessage)
  }

  /** The decision of `delete`: a top-level failure throws its message; no results is `false`;
      then the first failed entry with a message throws it; otherwise the answer is whether
      some entry succeeded. */
  function DeleteOutcome<W>(resp: BatchResponse<W>): (r: Result<bool, string>)
    ensures !resp.success ==> r == Failure(resp.message)
    ensures resp.success && resp.results.None? ==> r == Success(false)
    ensures r == Success(true) <==>
              && resp.success && resp.results.Some?
              && (forall i :: 0 <= i < |resp.results.value| ==> !ThrowsOnDelete(resp.results.value[i]))
              && (exists i :: 0 <= i < |resp.results.value| && resp.results.value[i].Succeeded?)
    ensures resp.success && resp.results.Some?
            && (exists i :: 0 <= i < |resp.results.value| && ThrowsOnDelete(resp.results.value[i])) ==>
              exists k :: 0 <= k < |resp.results.value| && ThrowsOnDelete(resp.results.value[k])
                          && r == Failure(resp.results.value[k].message)
                          && forall j :: 0 <= j < k ==> !ThrowsOnDelete(resp.results.value[j])
    ensures resp.success && resp.results.Some?
            && (forall i :: 0 <= i < |resp.results.value| ==> !ThrowsOnDelete(resp.results.value[i])) ==>
              r == Success(exists i :: 0 <= i < |resp.results.value| && resp.results.value[i].Succeeded?)
  {
    if !resp.success then Failure(resp.message)
    else if resp.results.None? then Success(false)
    else
      match FirstDeleteError(resp.results.value)
      case Some(e) => Failure(e)
      case None => Success(FirstSucceeded(resp.results.value).Some?)
  }

  /** A throwing failed entry makes the whole save fail even when another entry succeeded:
      the records that were saved are not reported. */
  lemma {:induction false} SaveFailsOnAnyThrowingEntry<W>(resp: BatchResponse<W>, k: nat)
    requires resp.results.Some? && k < |resp.results.value|
    requires ThrowsOnSave(resp.results.value[k])
    ensures SaveOutcome(resp).Failure?
  {
  }

  /** Failed entries with neither field errors nor a message are passed over silently: the
      save returns the first successful entry, or throws NoSuccessMessage when there is none. */
  lemma {:induction false} SaveSkipsSilentFailures<W>(m: string, rs: seq<RecordResult<W>>)
    requires forall i :: 0 <= i < |rs| ==> rs[i].Failed? ==> rs[i].errors == [] && rs[i].message == ""
    ensures (exists i :: 0 <= i < |rs| && rs[i].Succeeded?) ==>
              exists k :: 0 <= k < |rs| && rs[k].Succeeded?
                          && SaveOutcome(BatchResponse(true, m, Some(rs))) == Success(rs[k].data)
                          && forall j :: 0 <= j < k ==> rs[j].Failed?
    ensures (forall i :: 0 <= i < |rs| ==> rs[i].Failed?) ==>
              SaveOutcome(BatchResponse(true, m, Some(rs))) == Failure(NoSuccessMessage)
  {
    assert FirstSaveError(rs) == None;
  }

  /** Field errors alone never make a delete throw; the delete then reports whether anything
      succeeded. */
  lemma {:induction false} DeleteIgnoresFieldErrors<W>(resp: BatchResponse<W>)
    requires resp.success && resp.results.Some?
    requires forall i :: 0 <= i < |resp.results.value| ==> resp.results.value[i].Failed? ==> resp.results.value[i].message == ""
    ensures DeleteOutcome(resp).Success?
  {
  }
}
