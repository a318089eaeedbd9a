/** The activity adapter: wire records of table `activity_c` to activities and back, the
    per-contact fetch, and the handling of the store's answers. The store calls are not
    modelled: their answers are parameters. */
module ActivityService {
  import opened Wrappers
  import opened JsValues
  import Batch

  const DefaultType: string := "call"

  /** An activity as the store returns it; the two relations may arrive bare or expanded. */
  datatype ActivityWire = ActivityWire(
    Id: int,
    Name: Option<string>,
    type_c: Option<string>,
    title_c: Option<string>,
    description_c: Option<string>,
    contact_id_c: Option<Ref>,
    deal_id_c: Option<Ref>,
    date_c: Option<Time>,
    completed_c: Option<bool>)

  /** An activity as the pages use it. */
  datatype Activity = Activity(
    Id: int,
    kind: string,
    title: string,
    description: string,
    contactId: Option<Ref>,
    dealId: Option<Ref>,
    date: Time,
    completed: bool)

  function ActivityId(a: Activity): int {
    a.Id
  }

  function ActivityDate(a: Activity): int {
    a.date
  }

  /** The inbound mapping; `now` stands for `new Date()`. */
  function FromWire(w: ActivityWire, now: Time): Activity {
    Activity(
      w.Id,
      OrStr(w.type_c, DefaultType),
      OrStr(w.title_c, OrStr(w.Name, "")),
      OrStr(w.description_c, ""),
      Unwrap(w.contact_id_c),
      Unwrap(w.deal_id_c),
      w.date_c.GetOr(now),
      TruthyBool(w.completed_c))
  }

  /** The defaults of the inbound mapping: the type falls back to call, the title to `Name`
      and then `''`, the relations to their nested id or raw value, the date to now, and
      `completed` is true only when the store says true. */
  lemma {:induction false} FromWireDefaults(w: ActivityWire, now: Time)
    ensures var a := FromWire(w, now);
      && a.Id == w.Id
      && (TruthyStr(w.type_c) ==> a.kind == w.type_c.value) && (!TruthyStr(w.type_c) ==> a.kind == DefaultType)
      && a.kind != ""
      && a.title == (if TruthyStr(w.title_c) then w.title_c.value else if TruthyStr(w.Name) then w.Name.value else "")
      && (TruthyStr(w.description_c) ==> a.description == w.description_c.value)
      && (!TruthyStr(w.description_c) ==> a.description == "")
      && (a.contactId.None? <==> !TruthyRef(w.contact_id_c))
      && (CarriedId(w.contact_id_c).Some? ==> a.contactId == Some(Scalar(CarriedId(w.contact_id_c).value)))
      && (a.dealId.None? <==> !TruthyRef(w.deal_id_c))
      && (CarriedId(w.deal_id_c).Some? ==> a.dealId == Some(Scalar(CarriedId(w.deal_id_c).value)))
      && a.date == (if w.date_c.Some? then w.date_c.value else now)
      && (a.completed <==> w.completed_c == Some(true))
  {
  }

  /** The fields handed to `create` and `update`. A relation is a number (from the form), an
      object (an activity passed back as it was mapped) or `None` for null and `NaN`. */
  datatype ActivityDraft = ActivityDraft(
    kind: Option<string>,
    title: Option<string>,
    description: Option<string>,
    contactId: Option<Ref>,
    dealId: Option<Ref>,
    date: Option<Time>,
    completed: bool)

  /** The record sent to the store: only the updateable fields. `None` in a relation is null
      or `NaN`. */
  datatype ActivityRecord = ActivityRecord(
    Id: Option<int>,
    Name: string,
    type_c: string,
    title_c: string,
    description_c: string,
    contact_id_c: Option<int>,
    deal_id_c: Option<int>,
    date_c: Time,
    completed_c: bool)

  /** The updateable fields of a draft, as `create` and `update` both write them:
      `parseInt(contactId) || null`, and `dealId ? parseInt(dealId) : null`. */
  function Fields(id: Option<int>, d: ActivityDraft, now: Time): ActivityRecord {
    ActivityRecord(id, OrStr(d.title, ""), OrStr(d.kind, DefaultType), OrStr(d.title, ""), OrStr(d.description, ""),
                   NumOrNull(ParseRef(d.contactId)),
                   if TruthyRef(d.dealId) then ParseRef(d.dealId) else None,
                   d.date.GetOr(now), d.completed)
  }

  /** The record `create` sends: no id; `Name` and the title are the draft's title or `''`, the
      type falls back to call, the description to `''`; the contact is sent only when it is a
      non-zero number, and so is the deal; the date falls back to now. */
  function CreateRecord(d: ActivityDraft, now: Time): (r: ActivityRecord)
    ensures r.Id == None && r.Name == r.title_c && r.type_c != ""
    ensures r.title_c == (if TruthyStr(d.title) then d.title.value else "")
    ensures r.type_c == (if TruthyStr(d.kind) then d.kind.value else DefaultType)
    ensures r.description_c == (if TruthyStr(d.description) then d.description.value else "")
    ensures r.completed_c == d.completed
    ensures r.contact_id_c.Some? <==> d.contactId.Some? && d.contactId.value.Scalar? && d.contactId.value.id != 0
    ensures r.deal_id_c.Some? <==> d.dealId.Some? && d.dealId.value.Scalar? && d.dealId.value.id != 0
    ensures r.contact_id_c.Some? ==> r.contact_id_c.value == d.contactId.value.id
    ensures r.deal_id_c.Some? ==> r.deal_id_c.value == d.dealId.value.id
    ensures r.date_c == (if d.date.Some? then d.date.value else now)
  {
    Fields(None, d, now)
  }

  /** The record `update(id, d)` sends: `create`'s fields and the id. */
  function UpdateRecord(id: int, d: ActivityDraft, now: Time): (r: ActivityRecord)
    ensures r == CreateRecord(d, now).(Id := Some(id))
  {
    Fields(Some(id), d, now)
  }

  /** The record the store answers with after writing `rec` under `id`; relations come back
      as bare ids. */
  function Stored(rec: ActivityRecord, id: int): ActivityWire {
    ActivityWire(id, Some(rec.Name), Some(rec.type_c), Some(rec.title_c), Some(rec.description_c),
                 if rec.contact_id_c.Some? then Some(Scalar(rec.contact_id_c.value)) else None,
                 if rec.deal_id_c.Some? then Some(Scalar(rec.deal_id_c.value)) else None,
                 Some(rec.date_c), Some(rec.completed_c))
  }

  /** Outbound then inbound: a created activity reads back with the draft's values, or their
      defaults; a relation comes back exactly when the draft held a non-zero number, and then
      with that number. */
  lemma {:induction false} CreateReadsBack(d: ActivityDraft, id: int, now: Time, later: Time)
    ensures var r := FromWire(Stored(CreateRecord(d, now), id), later);
      && r.Id == id
      && r.kind == OrStr(d.kind, DefaultType)
      && r.title == OrStr(d.title, "")
      && r.description == OrStr(d.description, "")
      && r.date == (if d.date.Some? then d.date.value else now)
      && r.completed == d.completed
      && (r.contactId.Some? <==> d.contactId.Some? && d.contactId.value.Scalar? && d.contactId.value.id != 0)
      && (r.contactId.Some? ==> r.contactId.value == d.contactId.value)
      && (r.dealId.Some? <==> d.dealId.Some? && d.dealId.value.Scalar? && d.dealId.value.id != 0)
      && (r.dealId.Some? ==> r.dealId.value == d.dealId.value)
  {
  }

  /** The draft `handleToggleComplete` sends: the activity as mapped, with `completed` flipped. */
  function ToggleDraft(a: Activity): ActivityDraft {
    ActivityDraft(Some(a.kind), Some(a.title), Some(a.description), a.contactId, a.dealId, Some(a.date), !a.completed)
  }

  /** Toggling an activity flips `completed` and keeps its type, title, description, date and
      the ids its relations carried. A relation that came expanded without an id is lost. */
  lemma {:induction false} ToggleReadsBack(w: ActivityWire, now: Time, later: Time)
    ensures var a := FromWire(w, now);
      var r := FromWire(Stored(UpdateRecord(a.Id, ToggleDraft(a), later), a.Id), later);
      && r.Id == a.Id && r.completed == !a.completed
      && r.kind == a.kind && r.title == a.title && r.description == a.description && r.date == a.date
      && CarriedId(r.contactId) == CarriedId(w.contact_id_c) && CarriedId(r.dealId) == CarriedId(w.deal_id_c)
      && (CarriedId(w.contact_id_c).Some? ==> r.contactId == a.contactId)
      && (CarriedId(w.contact_id_c).None? ==> r.contactId == None)
  {
    UnwrapThenParse(w.contact_id_c);
    UnwrapThenParse(w.deal_id_c);
  }

  /** Toggling twice gives back the activity read after the first write. */
  lemma {:induction false} ToggleTwice(w: ActivityWire, now: Time, later: Time)
    ensures var a := FromWire(w, now);
      var once := FromWire(Stored(UpdateRecord(a.Id, ToggleDraft(a), later), a.Id), later);
      var twice := FromWire(Stored(UpdateRecord(once.Id, ToggleDraft(once), later), once.Id), later);
      twice == once.(completed := a.completed)
  {
    ToggleReadsBack(w, now, later);
  }

  /** `getAll`: a failed fetch throws its message; otherwise every record is mapped, in order. */
  function GetAll(resp: Batch.FetchResponse<ActivityWire>, now: Time): (r: Result<seq<Activity>, string>)
    ensures !resp.success ==> r == Failure(resp.message)
    ensures resp.success ==> r.Success? && |r.value| == |resp.data|
    ensures resp.success ==> forall i :: 0 <= i < |resp.data| ==> r.value[i] == FromWire(resp.data[i], now)
  {
    if !resp.success then Failure(resp.message)
    else Success(seq(|resp.data|, i requires 0 <= i < |resp.data| => FromWire(resp.data[i], now)))
  }

  /** `getById`: null, never an error, when the fetch fails or finds nothing. */
  function GetById(resp: Batch.FetchOneResponse<ActivityWire>, now: Time): (r: Option<Activity>)
    ensures r.None? <==> !resp.success || resp.data.None?
    ensures r.Some? ==> r.value == FromWire(resp.data.value, now)
  {
    if !resp.success || resp.data.None? then None else Some(FromWire(resp.data.value, now))
  }

  /** The condition `getByContactId(contactId)` asks the store for: `contact_id_c` equal to the
      id. */
  predicate MatchesContact(w: ActivityWire, contactId: int) {
    CarriedId(w.contact_id_c) == Some(contactId)
  }

  /** `getByContactId`: the mapped records, or `[]` when the fetch fails (the error is
      swallowed, not thrown). */
  function GetByContactId(resp: Batch.FetchResponse<ActivityWire>, now: Time): (r: seq<Activity>)
    ensures !resp.success ==> r == []
    ensures resp.success ==> GetAll(resp, now) == Success(r)
  {
    if !resp.success then [] else GetAll(resp, now).value
  }

  /** When the store honours the condition, every activity returned belongs to the contact. */
  lemma {:induction false} ByContactBelongs(resp: Batch.FetchResponse<ActivityWire>, contactId: int, now: Time)
    requires forall i :: 0 <= i < |resp.data| ==> MatchesContact(resp.data[i], contactId)
    ensures forall i :: 0 <= i < |GetByContactId(resp, now)| ==>
              GetByContactId(resp, now)[i].contactId == Some(Scalar(contactId))
  {
  }

  /** What `create` and `update` return or throw, given the store's answer. */
  function SaveResult(resp: Batch.BatchResponse<ActivityWire>, now: Time): (r: Result<Activity, string>)
    ensures r.Success? <==> Batch.SaveOutcome(resp).Success?
    ensures r.Success? ==> r.value == FromWire(Batch.SaveOutcome(resp).value, now)
    ensures r.Failure? ==> r.error == Batch.SaveOutcome(resp).error
  {
    match Batch.SaveOutcome(resp)
    case Success(w) => Success(FromWire(w, now))
    case Failure(e) => Failure(e)
  }
}
