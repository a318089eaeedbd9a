/** The deal adapter: wire records of table `deal_c` to deals and back, the stage-only update,
    and the handling of the store's answers. The store calls are not modelled: their answers
    are parameters. */
module DealService {
  import opened Wrappers
  import opened JsValues
  import Batch

  const DefaultStage: string := "Lead"

  /** A deal as the store returns it; `contact_id_c` may arrive bare or expanded. */
  datatype DealWire = DealWire(
    Id: int,
    Name: Option<string>,
    title_c: Option<string>,
    value_c: Option<int>,
    stage_c: Option<string>,
    probability_c: Option<int>,
    expected_close_date_c: Option<Time>,
    contact_id_c: Option<Ref>,
    created_at_c: Option<Time>,
    CreatedOn: Option<Time>)

  /** A deal as the pages use it. */
  datatype Deal = Deal(
    Id: int,
    title: string,
    value: int,
    stage: string,
    probability: int,
    expectedCloseDate: Option<Time>,
    contactId: Option<Ref>,
    createdAt: Time)

  function DealId(d: Deal): int {
    d.Id
  }

  function DealValue(d: Deal): int {
    d.value
  }

  /** The inbound mapping; `now` stands for `new Date()`. */
  function FromWire(w: DealWire, now: Time): Deal {
    Deal(
      w.Id,
      OrStr(w.title_c, OrStr(w.Name, "")),
      OrNum(w.value_c, 0),
      OrStr(w.stage_c, DefaultStage),
      OrNum(w.probability_c, 0),
      w.expected_close_date_c,
      Unwrap(w.contact_id_c),
      w.created_at_c.GetOr(w.CreatedOn.GetOr(now)))
  }

  /** The defaults of the inbound mapping: the title falls back to `Name` and then `''`, numbers
      to 0, the stage to Lead, the contact to the nested id or the raw value, and the creation
      time to `CreatedOn` and then now. */
  lemma {:induction false} FromWireDefaults(w: DealWire, now: Time)
    ensures var d := FromWire(w, now);
      && d.Id == w.Id
      && d.title == (if TruthyStr(w.title_c) then w.title_c.value else if TruthyStr(w.Name) then w.Name.value else "")
      && (TruthyNum(w.value_c) ==> d.value == w.value_c.value) && (!TruthyNum(w.value_c) ==> d.value == 0)
      && (TruthyStr(w.stage_c) ==> d.stage == w.stage_c.value) && (!TruthyStr(w.stage_c) ==> d.stage == DefaultStage)
      && d.stage != ""
      && (TruthyNum(w.probability_c) ==> d.probability == w.probability_c.value)
      && (!TruthyNum(w.probability_c) ==> d.probability == 0)
      && d.expectedCloseDate == w.expected_close_date_c
      && (d.contactId.None? <==> !TruthyRef(w.contact_id_c))
      && (CarriedId(w.contact_id_c).Some? ==> d.contactId == Some(Scalar(CarriedId(w.contact_id_c).value)))
      && d.createdAt == (if w.created_at_c.Some? then w.created_at_c.value
                         else if w.CreatedOn.Some? then w.CreatedOn.value else now)
  {
  }

  /** The fields handed to `create` and `update`. The numbers are what `parseFloat`/`parseInt`
      made of the form's text (`None` is `NaN` or `undefined`); a date is `None` when absent. */
  datatype DealDraft = DealDraft(
    title: Option<string>,
    value: Option<int>,
    stage: Option<string>,
    probability: Option<int>,
    expectedCloseDate: Option<Time>,
    contactId: Option<int>)

  /** The record sent to the store: only the updateable fields. */
  datatype DealRecord = DealRecord(
    Id: Option<int>,
    Name: string,
    title_c: string,
    value_c: int,
    stage_c: string,
    probability_c: int,
    expected_close_date_c: Option<Time>,
    contact_id_c: Option<int>,
    created_at_c: Option<Time>)

  /** The updateable fields of a draft, as `create` and `update` both write them. */
  function Fields(id: Option<int>, d: DealDraft, created: Option<Time>): DealRecord {
    DealRecord(id, OrStr(d.title, ""), OrStr(d.title, ""), OrNum(d.value, 0), OrStr(d.stage, DefaultStage),
               OrNum(d.probability, 0), d.expectedCloseDate, NumOrNull(d.contactId), created)
  }

  /** The record `create` sends: no id, and the creation time. */
  function CreateRecord(d: DealDraft, now: Time): (r: DealRecord)
    ensures r.Id == None && r.created_at_c == Some(now)
    ensures r.Name == r.title_c
    ensures r.stage_c != ""
    ensures r.contact_id_c.None? || r.contact_id_c.value != 0
  {
    Fields(None, d, Some(now))
  }

  /** The record `update(id, d)` sends: the id, and no creation time. */
  function UpdateRecord(id: int, d: DealDraft): (r: DealRecord)
    ensures r.Id == Some(id) && r.created_at_c == None
    ensures r.Name == r.title_c
    ensures r.stage_c != ""
  {
    Fields(Some(id), d, None)
  }

  /** `create` and `update` write the same fields. */
  lemma {:induction false} CreateAndUpdateAgree(id: int, d: DealDraft, now: Time)
    ensures UpdateRecord(id, d) == CreateRecord(d, now).(Id := Some(id), created_at_c := None)
  {
  }

  /** `updateStage(id, stage)` is `update(id, { stage })`. */
  function StageDraft(stage: string): DealDraft {
    DealDraft(None, None, Some(stage), None, None, None)
  }

  /** The record `updateStage` sends: the new stage (Lead when empty), and every other
      updateable field reset to its default, since the draft holds nothing else. */
  function UpdateStageRecord(id: int, stage: string): (r: DealRecord)
    ensures r.Id == Some(id)
    ensures r.stage_c == (if stage == "" then DefaultStage else stage)
    ensures r.Name == "" && r.title_c == "" && r.value_c == 0 && r.probability_c == 0
    ensures r.expected_close_date_c == None && r.contact_id_c == None && r.created_at_c == None
  {
    UpdateRecord(id, StageDraft(stage))
  }

  /** The record the store answers with after writing `rec` under `id`; the contact comes back
      as a bare id. */
  function Stored(rec: DealRecord, id: int): DealWire {
    DealWire(id, Some(rec.Name), Some(rec.title_c), Some(rec.value_c), Some(rec.stage_c),
             Some(rec.probability_c), rec.expected_close_date_c,
             if rec.contact_id_c.Some? then Some(Scalar(rec.contact_id_c.value)) else None,
             rec.created_at_c, None)
  }

  /** Outbound then inbound: a created deal reads back with the draft's values, or their
      defaults, and with the creation time. */
  lemma {:induction false} CreateReadsBack(d: DealDraft, id: int, now: Time, later: Time)
    ensures var r := FromWire(Stored(CreateRecord(d, now), id), later);
      && r.Id == id
      && r.title == OrStr(d.title, "")
      && r.value == OrNum(d.value, 0) && r.probability == OrNum(d.probability, 0)
      && r.stage == OrStr(d.stage, DefaultStage)
      && r.expectedCloseDate == d.expectedCloseDate
      && CarriedId(r.contactId) == NumOrNull(d.contactId)
      && r.createdAt == now
  {
  }

  /** The record the store answers with after applying the update `rec` to the stored `prior`:
      the fields sent overwrite, the others are kept. */
  function Updated(prior: DealWire, rec: DealRecord): DealWire {
    prior.(Name := Some(rec.Name), title_c := Some(rec.title_c), value_c := Some(rec.value_c),
           stage_c := Some(rec.stage_c), probability_c := Some(rec.probability_c),
           expected_close_date_c := rec.expected_close_date_c,
           contact_id_c := if rec.contact_id_c.Some? then Some(Scalar(rec.contact_id_c.value)) else None,
           created_at_c := if rec.created_at_c.Some? then rec.created_at_c else prior.created_at_c)
  }

  /** Moving a deal to another stage through `updateStage` wipes it: whatever it held before,
      it reads back with no title, value 0, probability 0, no close date and no contact; only
      its id, its creation time and the new stage survive. */
  lemma {:induction false} StageChangeClearsDeal(prior: DealWire, stage: string, now: Time)
    requires stage != ""
    ensures var r := FromWire(Updated(prior, UpdateStageRecord(prior.Id, stage)), now);
      && r.Id == prior.Id && r.stage == stage
      && r.title == "" && r.value == 0 && r.probability == 0
      && r.expectedCloseDate == None && r.contactId == None
      && r.createdAt == FromWire(prior, now).createdAt
  {
  }

  /** An edit that sends the deal's own values back keeps them, its creation time included. */
  lemma {:induction false} UpdateKeepsUnchanged(prior: DealWire, d: DealDraft, now: Time)
    requires d.title.Some? && d.title.value != "" && d.stage.Some? && d.stage.value != ""
    ensures var r := FromWire(Updated(prior, UpdateRecord(prior.Id, d)), now);
      && r.Id == prior.Id && r.title == d.title.value && r.stage == d.stage.value
      && r.value == OrNum(d.value, 0) && r.probability == OrNum(d.probability, 0)
      && r.expectedCloseDate == d.expectedCloseDate
      && CarriedId(r.contactId) == NumOrNull(d.contactId)
      && r.createdAt == FromWire(prior, now).createdAt
  {
  }

  /** `getAll`: a failed fetch throws its message; otherwise every record is mapped, in order. */
  function GetAll(resp: Batch.FetchResponse<DealWire>, now: Time): (r: Result<seq<Deal>, string>)
    ensures !resp.success ==> r == Failure(resp.message)
    ensures resp.success ==> r.Success? && |r.value| == |resp.data|
    ensures resp.success ==> forall i :: 0 <= i < |resp.data| ==> r.value[i] == FromWire(resp.data[i], now)
  {
    if !resp.success then Failure(resp.message)
    else Success(seq(|resp.data|, i requires 0 <= i < |resp.data| => FromWire(resp.data[i], now)))
  }

  /** `getById`: null, never an error, when the fetch fails or finds nothing. */
  function GetById(resp: Batch.FetchOneResponse<DealWire>, now: Time): (r: Option<Deal>)
    ensures r.None? <==> !resp.success || resp.data.None?
    ensures r.Some? ==> r.value == FromWire(resp.data.value, now)
  {
    if !resp.success || resp.data.None? then None else Some(FromWire(resp.data.value, now))
  }

  /** What `create`, `update` and `updateStage` return or throw, given the store's answer. */
  function SaveResult(resp: Batch.BatchResponse<DealWire>, now: Time): (r: Result<Deal, string>)
    ensures r.Success? <==> Batch.SaveOutcome(resp).Success?
    ensures r.Success? ==> r.value == FromWire(Batch.SaveOutcome(resp).value, now)
    ensures r.Failure? ==> r.error == Batch.SaveOutcome(resp).error
  {
    match Batch.SaveOutcome(resp)
    case Success(w) => Success(FromWire(w, now))
    case Failure(e) => Failure(e)
  }
}
