/** The contact adapter: wire records of table `contact_c` to contacts and back, and the
    handling of the store's answers. The store calls themselves are not modelled: their
    answers are parameters. */
module ContactService {
  import opened Wrappers
  import opened JsValues
  import Text
  import Batch

  /** A contact as the store returns it. */
  datatype ContactWire = ContactWire(
    Id: int,
    Name: Option<string>,
    email_c: Option<string>,
    phone_c: Option<string>,
    company_c: Option<string>,
    Tags: Option<string>,
    created_at_c: Option<Time>,
    updated_at_c: Option<Time>,
    CreatedOn: Option<Time>,
    ModifiedOn: Option<Time>)

  /** A contact as the pages use it. */
  datatype Contact = Contact(
    Id: int,
    name: string,
    email: string,
    phone: string,
    company: string,
    tags: seq<string>,
    createdAt: Time,
    updatedAt: Time)

  function ContactId(c: Contact): int {
    c.Id
  }

  /** `Tags ? Tags.split(',').map(tag => tag.trim()) : []`. */
  function TagsFromWire(t: Option<string>): seq<string> {
    if TruthyStr(t) then Text.TrimEach(Text.Split(t.value, ',')) else []
  }

  /** The inbound mapping; `now` stands for `new Date()`. */
  function FromWire(w: ContactWire, now: Time): Contact {
    Contact(
      w.Id,
      OrStr(w.Name, ""),
      OrStr(w.email_c, ""),
      OrStr(w.phone_c, ""),
      OrStr(w.company_c, ""),
      TagsFromWire(w.Tags),
      w.created_at_c.GetOr(w.CreatedOn.GetOr(now)),
      w.updated_at_c.GetOr(w.ModifiedOn.GetOr(now)))
  }

  /** The inbound tag list is empty exactly when `Tags` is falsy; every tag in it is trimmed
      and comma-free. */
  lemma {:induction false} TagsFromWireShape(t: Option<string>)
    ensures TagsFromWire(t) == [] <==> !TruthyStr(t)
    ensures forall i :: 0 <= i < |TagsFromWire(t)| ==> ',' !in TagsFromWire(t)[i] && Text.IsTrimmed(TagsFromWire(t)[i])
  {
    if TruthyStr(t) {
      var pieces := Text.Split(t.value, ',');
      forall i | 0 <= i < |pieces|
        ensures ',' !in Text.Trim(pieces[i])
      {
        Text.TrimKeepsOut(pieces[i], ',');
      }
    }
  }

  /** The defaults of the inbound mapping: a falsy text field becomes `''` and a truthy one is
      kept; each timestamp is the first present one of its fallback chain, ending at now. */
  lemma {:induction false} FromWireDefaults(w: ContactWire, now: Time)
    ensures var c := FromWire(w, now);
      && c.Id == w.Id
      && (TruthyStr(w.Name) ==> c.name == w.Name.value) && (!TruthyStr(w.Name) ==> c.name == "")
      && (TruthyStr(w.email_c) ==> c.email == w.email_c.value) && (!TruthyStr(w.email_c) ==> c.email == "")
      && (TruthyStr(w.phone_c) ==> c.phone == w.phone_c.value) && (!TruthyStr(w.phone_c) ==> c.phone == "")
      && (TruthyStr(w.company_c) ==> c.company == w.company_c.value) && (!TruthyStr(w.company_c) ==> c.company == "")
      && c.createdAt == (if w.created_at_c.Some? then w.created_at_c.value
                         else if w.CreatedOn.Some? then w.CreatedOn.value else now)
      && c.updatedAt == (if w.updated_at_c.Some? then w.updated_at_c.value
                         else if w.ModifiedOn.Some? then w.ModifiedOn.value else now)
  {
  }

  /** What `create`/`update` receive for `tags`: an array, some other (string) value, or nothing. */
  datatype TagsValue = TagList(list: seq<string>) | TagText(text: string) | NoTags

  /** `Array.isArray(tags) ? tags.join(',') : (tags || '')`. */
  function TagsToWire(t: TagsValue): string {
    match t
    case TagList(xs) => Text.Join(xs, ",")
    case TagText(s) => s
    case NoTags => ""
  }

  /** A tag list that survives the comma-joined wire form: no commas, no surrounding blanks,
      and not the single empty tag (which joins to `''`, read back as no tags). */
  predicate WireSafeTags(tags: seq<string>) {
    && tags != [""]
    && forall i :: 0 <= i < |tags| ==> ',' !in tags[i] && Text.IsTrimmed(tags[i])
  }

  /** Tags written by `create`/`update` read back unchanged, the empty list included. */
  lemma {:induction false} TagsRoundTrip(tags: seq<string>)
    requires WireSafeTags(tags)
    ensures TagsFromWire(Some(TagsToWire(TagList(tags)))) == tags
  {
    if tags != [] {
      Text.JoinEmpty(tags, ",");
      Text.SplitJoinTrimmed(tags, "", ',');
      assert [','] + "" == ",";
    }
  }

  /** The single empty tag is the one list the wire form loses. */
  lemma {:induction false} SingleEmptyTagIsLost()
    ensures TagsFromWire(Some(TagsToWire(TagList([""])))) == []
  {
  }

  /** The fields the pages hand to `create` and `update`; `None` is `undefined`. */
  datatype ContactDraft = ContactDraft(
    name: Option<string>,
    email: Option<string>,
    phone: Option<string>,
    company: Option<string>,
    tags: TagsValue)

  /** The record sent to the store: only the updateable fields. */
  datatype ContactRecord = ContactRecord(
    Id: Option<int>,
    Name: string,
    email_c: string,
    phone_c: string,
    company_c: string,
    Tags: string,
    created_at_c: Option<Time>,
    updated_at_c: Time)

  /** The record `create` sends. */
  function CreateRecord(d: ContactDraft, now: Time): ContactRecord {
    ContactRecord(None, OrStr(d.name, ""), OrStr(d.email, ""), OrStr(d.phone, ""), OrStr(d.company, ""),
                  TagsToWire(d.tags), Some(now), now)
  }

  /** The record `update(id, d)` sends; `id` is already a number, so `parseInt(id)` is `id`. */
  function UpdateRecord(id: int, d: ContactDraft, now: Time): ContactRecord {
    ContactRecord(Some(id), OrStr(d.name, ""), OrStr(d.email, ""), OrStr(d.phone, ""), OrStr(d.company, ""),
                  TagsToWire(d.tags), None, now)
  }

  /** `create` and `update` send the same fields; `create` stamps both timestamps and no id,
      `update` sends the id and stamps only `updated_at_c`. */
  lemma {:induction false} CreateAndUpdateRecords(id: int, d: ContactDraft, now: Time)
    ensures CreateRecord(d, now).Id == None
    ensures CreateRecord(d, now).created_at_c == Some(now) && CreateRecord(d, now).updated_at_c == now
    ensures UpdateRecord(id, d, now).Id == Some(id)
    ensures UpdateRecord(id, d, now).created_at_c == None && UpdateRecord(id, d, now).updated_at_c == now
    ensures UpdateRecord(id, d, now) == CreateRecord(d, now).(Id := Some(id), created_at_c := None)
  {
  }

  /** The record the store answers with after writing `rec` under `id`: the written fields,
      and no store-side timestamps. */
  function Stored(rec: ContactRecord, id: int): ContactWire {
    ContactWire(id, Some(rec.Name), Some(rec.email_c), Some(rec.phone_c), Some(rec.company_c), Some(rec.Tags),
                rec.created_at_c, Some(rec.updated_at_c), None, None)
  }

  /** Outbound then inbound: a created contact reads back with the draft's text fields (absent
      ones as `''`), its tags, and both timestamps equal to the creation time. */
  lemma {:induction false} CreateReadsBack(d: ContactDraft, id: int, now: Time, later: Time)
    requires d.tags.TagList? ==> WireSafeTags(d.tags.list)
    requires d.tags.TagText? ==> d.tags.text == ""
    ensures var c := FromWire(Stored(CreateRecord(d, now), id), later);
      && c.Id == id
      && c.name == OrStr(d.name, "") && c.email == OrStr(d.email, "")
      && c.phone == OrStr(d.phone, "") && c.company == OrStr(d.company, "")
      && c.tags == (if d.tags.TagList? then d.tags.list else [])
      && c.createdAt == now && c.updatedAt == now
  {
    if d.tags.TagList? {
      TagsRoundTrip(d.tags.list);
    }
  }

  /** `getAll`: a failed fetch throws its message; otherwise every record is mapped, in order. */
  function GetAll(resp: Batch.FetchResponse<ContactWire>, now: Time): (r: Result<seq<Contact>, string>)
    ensures !resp.success ==> r == Failure(resp.message)
    ensures resp.success ==> r.Success? && |r.value| == |resp.data|
    ensures resp.success ==> forall i :: 0 <= i < |resp.data| ==> r.value[i] == FromWire(resp.data[i], now)
  {
    if !resp.success then Failure(resp.message)
    else Success(seq(|resp.data|, i requires 0 <= i < |resp.data| => FromWire(resp.data[i], now)))
  }

  /** `getById`: null, never an error, when the fetch fails or finds nothing. */
  function GetById(resp: Batch.FetchOneResponse<ContactWire>, now: Time): (r: Option<Contact>)
    ensures r.None? <==> !resp.success || resp.data.None?
    ensures r.Some? ==> r.value == FromWire(resp.data.value, now)
  {
    if !resp.success || resp.data.None? then None else Some(FromWire(resp.data.value, now))
  }

  /** What `create` and `update` return or throw, given the store's answer. */
  function SaveResult(resp: Batch.BatchResponse<ContactWire>, now: Time): (r: Result<Contact, string>)
    ensures r.Success? <==> Batch.SaveOutcome(resp).Success?
    ensures r.Success? ==> r.value == FromWire(Batch.SaveOutcome(resp).value, now)
    ensures r.Failure? ==> r.error == Batch.SaveOutcome(resp).error
  {
    match Batch.SaveOutcome(resp)
    case Success(w) => Success(FromWire(w, now))
    case Failure(e) => Failure(e)
  }
}
