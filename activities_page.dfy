/** The Activities page: the type table, the search and the type and status filters with the
    newest-first order, the modal form, and the page state the handlers update. */
module ActivitiesPage {
  import opened Wrappers
  import opened JsValues
  import Text
  import Lists
  import Batch
  import ContactService
  import DealService
  import ActivityService
  import Lookups

  type Activity = ActivityService.Activity
  type Contact = ContactService.Contact
  type Deal = DealService.Deal

  const LoadError: string := "Failed to load activities. Please try again."
  const Completed: string := "completed"
  const Pending: string := "pending"

  /** One entry of the type table. */
  datatype TypeConfig = TypeConfig(value: string, caption: string, icon: string, color: string)

  const ActivityTypes: seq<TypeConfig> := [
    TypeConfig("call", "Call", "Phone", "bg-blue-100 text-blue-800"),
    TypeConfig("email", "Email", "Mail", "bg-green-100 text-green-800"),
    TypeConfig("meeting", "Meeting", "Calendar", "bg-purple-100 text-purple-800"),
    TypeConfig("note", "Note", "FileText", "bg-gray-100 text-gray-800")
  ]

  predicate HasValue(kind: string, t: TypeConfig) {
    t.value == kind
  }

  /** `getActivityTypeConfig`: the entry of the type, or the call entry for any other type. */
  function TypeConfigOf(kind: string): (r: TypeConfig)
    ensures r in ActivityTypes
    ensures (exists i :: 0 <= i < |ActivityTypes| && ActivityTypes[i].value == kind) ==> r.value == kind
    ensures (forall i :: 0 <= i < |ActivityTypes| ==> ActivityTypes[i].value != kind) ==> r == ActivityTypes[0]
  {
    Lists.Find(ActivityTypes, t => HasValue(kind, t)).GetOr(ActivityTypes[0])
  }

  /** The type table and the contact timeline's icons agree on calls, emails and meetings,
      the first three entries of the table. */
  lemma {:induction false} IconsAgree(i: nat)
    requires i < 3
    ensures TypeConfigOf(ActivityTypes[i].value).icon == Lookups.ActivityIcon(ActivityTypes[i].value)
  {
    TypeConfigAt(i);
    if i == 0 {
      assert ActivityTypes[i].value == "call";
    } else if i == 1 {
      assert ActivityTypes[i].value == "email";
    } else {
      assert ActivityTypes[i].value == "meeting";
    }
  }

  /** A note is drawn with "FileText" here and with "Activity" on the contact timeline. */
  lemma {:induction false} NoteIconsDiffer()
    ensures TypeConfigOf("note").icon == "FileText" && Lookups.ActivityIcon("note") == "Activity"
  {
    TypeConfigAt(3);
  }

  /** No two entries of the type table share a type. */
  lemma TypesDistinct()
    ensures forall i, j :: 0 <= i < j < |ActivityTypes| ==> ActivityTypes[i].value != ActivityTypes[j].value
  {
  }

  /** Every entry of the type table is the one its own type finds: the types are distinct. */
  lemma {:induction false} TypeConfigAt(i: nat)
    requires i < |ActivityTypes|
    ensures TypeConfigOf(ActivityTypes[i].value) == ActivityTypes[i]
  {
    var r := TypeConfigOf(ActivityTypes[i].value);
    assert r.value == ActivityTypes[i].value;
    var j :| 0 <= j < |ActivityTypes| && ActivityTypes[j] == r;
    TypesDistinct();
  }

  /** The search box: title, description or the contact's name holds the term, ignoring case. */
  predicate MatchesSearch(a: Activity, contacts: seq<Contact>, term: string) {
    || Text.IncludesIgnoringCase(a.title, term)
    || Text.IncludesIgnoringCase(a.description, term)
    || Text.IncludesIgnoringCase(Lookups.ContactName(contacts, a.contactId), term)
  }

  predicate MatchesType(a: Activity, filterType: string) {
    filterType == "" || a.kind == filterType
  }

  predicate MatchesStatus(a: Activity, filterStatus: string) {
    || filterStatus == ""
    || (filterStatus == Completed && a.completed)
    || (filterStatus == Pending && !a.completed)
  }

  predicate Shows(a: Activity, contacts: seq<Contact>, term: string, filterType: string, filterStatus: string) {
    MatchesSearch(a, contacts, term) && MatchesType(a, filterType) && MatchesStatus(a, filterStatus)
  }

  /** The activities that pass the search and both filters, in list order. */
  function Matching(activities: seq<Activity>, contacts: seq<Contact>, term: string, filterType: string,
                    filterStatus: string): seq<Activity>
  {
    Lists.Filter(activities, a => Shows(a, contacts, term, filterType, filterStatus))
  }

  /** `filteredActivities`: exactly the activities that pass the search and both filters,
      newest first. */
  function FilteredActivities(activities: seq<Activity>, contacts: seq<Contact>, term: string,
                              filterType: string, filterStatus: string): (r: seq<Activity>)
    ensures Lists.SortedDesc(r, ActivityService.ActivityDate)
    ensures multiset(r) == multiset(Matching(activities, contacts, term, filterType, filterStatus))
    ensures forall i :: 0 <= i < |r| ==> Shows(r[i], contacts, term, filterType, filterStatus)
    ensures forall i :: 0 <= i < |activities| && Shows(activities[i], contacts, term, filterType, filterStatus) ==>
              activities[i] in r
  {
    var m := Matching(activities, contacts, term, filterType, filterStatus);
    var r := Lists.SortDesc(m, ActivityService.ActivityDate);
    Lists.SameMembers(r, m);
    r
  }

  /** The list shows an activity exactly when it is in the list and passes the search and both
      filters. */
  lemma {:induction false} ShowsExactly(activities: seq<Activity>, contacts: seq<Contact>, term: string,
                                        filterType: string, filterStatus: string)
    ensures forall a :: a in FilteredActivities(activities, contacts, term, filterType, filterStatus) <==>
                        a in activities && Shows(a, contacts, term, filterType, filterStatus)
  {
    var m := Matching(activities, contacts, term, filterType, filterStatus);
    var r := FilteredActivities(activities, contacts, term, filterType, filterStatus);
    forall a
      ensures a in r <==> a in m
    {
      assert a in r <==> a in multiset(r);
      assert a in m <==> a in multiset(m);
    }
  }

  predicate IsCompleted(a: Activity) {
    a.completed
  }

  predicate IsPending(a: Activity) {
    !a.completed
  }

  /** With the same search and type, the completed and the pending views together hold
      exactly the activities of the view with no status filter, each as often. */
  lemma {:induction false} StatusViewsPartition(activities: seq<Activity>, contacts: seq<Contact>, term: string, filterType: string)
    ensures multiset(FilteredActivities(activities, contacts, term, filterType, Completed))
          + multiset(FilteredActivities(activities, contacts, term, filterType, Pending))
         == multiset(FilteredActivities(activities, contacts, term, filterType, ""))
    ensures |FilteredActivities(activities, contacts, term, filterType, Completed)|
          + |FilteredActivities(activities, contacts, term, filterType, Pending)|
         == |FilteredActivities(activities, contacts, term, filterType, "")|
  {
    var all := Matching(activities, contacts, term, filterType, "");
    Lists.FilterConj(activities, a => Shows(a, contacts, term, filterType, ""), IsCompleted,
                     a => Shows(a, contacts, term, filterType, Completed));
    Lists.FilterConj(activities, a => Shows(a, contacts, term, filterType, ""), IsPending,
                     a => Shows(a, contacts, term, filterType, Pending));
    Lists.FilterPartition(all, IsCompleted, IsPending);
    var c := FilteredActivities(activities, contacts, term, filterType, Completed);
    var p := FilteredActivities(activities, contacts, term, filterType, Pending);
    var e := FilteredActivities(activities, contacts, term, filterType, "");
    assert |c| == |multiset(c)| && |p| == |multiset(p)| && |e| == |multiset(e)|;
  }

  /** The modal form. A relation is the text of its id, `""` for none; the date is `None` for
      an empty field. */
  datatype ActivityForm = ActivityForm(
    kind: string,
    title: string,
    description: string,
    contactId: string,
    dealId: string,
    date: Option<Time>,
    completed: bool)

  const EmptyForm: ActivityForm := ActivityForm("call", "", "", "", "", None, false)

  /** `x ? x.toString() : ""` for a relation. */
  function RelationText(x: Option<Ref>): string {
    if TruthyRef(x) then Lookups.RefText(x.value) else ""
  }

  /** The form `openModal(activity)` fills in; the date keeps only its day. */
  function FormOf(a: Activity): ActivityForm {
    ActivityForm(a.kind, a.title, a.description, RelationText(a.contactId), RelationText(a.dealId),
                 Some(DayStart(a.date)), a.completed)
  }

  /** A parsed number as a relation value. */
  function AsRef(n: Option<int>): Option<Ref> {
    if n.Some? then Some(Scalar(n.value)) else None
  }

  /** The data `handleFormSubmit` hands to the adapter: the contact parsed, the deal parsed
      when given, and the date, or now when the field is empty. */
  function DraftOf(f: ActivityForm, now: Time): ActivityService.ActivityDraft {
    ActivityService.ActivityDraft(
      Some(f.kind), Some(f.title), Some(f.description),
      AsRef(Text.ParseInt(f.contactId)),
      if f.dealId != "" then AsRef(Text.ParseInt(f.dealId)) else None,
      Some(if f.date.Some? then f.date.value else now),
      f.completed)
  }

  /** A relation shown in the form and parsed back carries the id it carried before. */
  lemma {:induction false} RelationTextRoundTrip(x: Option<Ref>)
    ensures NumOrNull(ParseRef(AsRef(Text.ParseInt(RelationText(x))))) == NumOrNull(ParseRef(x))
  {
    if TruthyRef(x) {
      Lookups.ParseRefText(x.value);
    } else {
      Text.ParseIntBlank("");
    }
  }

  /** Opening an activity for editing and saving the form unchanged keeps its type, title,
      description, status and the ids its relations carried, but moves its date to midnight
      of its day: the form holds only the day. */
  lemma {:induction false} UnchangedEditTruncatesDate(w: ActivityService.ActivityWire, t0: Time, t1: Time)
    ensures var a := ActivityService.FromWire(w, t0);
      var rec := ActivityService.UpdateRecord(a.Id, DraftOf(FormOf(a), t1), t1);
      var r := ActivityService.FromWire(ActivityService.Stored(rec, a.Id), t1);
      && r.Id == a.Id && r.kind == a.kind && r.title == a.title && r.description == a.description
      && r.completed == a.completed
      && CarriedId(r.contactId) == CarriedId(w.contact_id_c) && CarriedId(r.dealId) == CarriedId(w.deal_id_c)
      && r.date == DayStart(a.date)
  {
    var a := ActivityService.FromWire(w, t0);
    RelationTextRoundTrip(a.contactId);
    RelationTextRoundTrip(a.dealId);
    UnwrapThenParse(w.contact_id_c);
    UnwrapThenParse(w.deal_id_c);
  }

  /** So an activity that is not at midnight changes its time when saved unchanged. */
  lemma {:induction false} UnchangedEditMovesTime(w: ActivityService.ActivityWire, t0: Time, t1: Time)
    requires ActivityService.FromWire(w, t0).date % DayMillis != 0
    ensures var a := ActivityService.FromWire(w, t0);
      var rec := ActivityService.UpdateRecord(a.Id, DraftOf(FormOf(a), t1), t1);
      ActivityService.FromWire(ActivityService.Stored(rec, a.Id), t1).date != a.date
  {
    UnchangedEditTruncatesDate(w, t0, t1);
  }

  /** The adapter call `handleFormSubmit` makes, with the form it sends as `DraftOf(form, now)`. */
  datatype SaveCall = Create(form: ActivityForm) | Update(id: int, form: ActivityForm)

  class Page {
    var activities: seq<Activity>
    var contacts: seq<Contact>
    var deals: seq<Deal>
    var loading: bool
    var error: string
    var searchTerm: string
    var filterType: string
    var filterStatus: string
    var isModalOpen: bool
    var isEditing: bool
    var selected: Option<Activity>
    var form: ActivityForm

    /** The list as shown. */
    function Shown(): seq<Activity>
      reads this
    {
      FilteredActivities(activities, contacts, searchTerm, filterType, filterStatus)
    }

    constructor()
      ensures activities == [] && contacts == [] && deals == [] && loading && error == ""
      ensures searchTerm == "" && filterType == "" && filterStatus == ""
      ensures !isModalOpen && !isEditing && selected == None && form == EmptyForm
    {
      activities := [];
      contacts := [];
      deals := [];
      loading := true;
      error := "";
      searchTerm := "";
      filterType := "";
      filterStatus := "";
      isModalOpen := false;
      isEditing := false;
      selected := None;
      form := EmptyForm;
    }

    /** `loadData`: the three fetches together; if any fails, none of the lists changes and
        the load error shows. Loading ends either way. */
    method LoadData(ra: Batch.FetchResponse<ActivityService.ActivityWire>,
                    rc: Batch.FetchResponse<ContactService.ContactWire>,
                    rd: Batch.FetchResponse<DealService.DealWire>, now: Time)
      modifies this
      ensures !loading
      ensures var ok := ra.success && rc.success && rd.success;
        && (ok ==> activities == ActivityService.GetAll(ra, now).value && contacts == ContactService.GetAll(rc, now).value
                   && deals == DealService.GetAll(rd, now).value && error == "")
        && (!ok ==> activities == old(activities) && contacts == old(contacts) && deals == old(deals)
                    && error == LoadError)
      ensures searchTerm == old(searchTerm) && filterType == old(filterType) && filterStatus == old(filterStatus)
      ensures isModalOpen == old(isModalOpen) && isEditing == old(isEditing) && selected == old(selected)
      ensures form == old(form)
    {
      loading := true;
      error := "";
      var a := ActivityService.GetAll(ra, now);
      var c := ContactService.GetAll(rc, now);
      var d := DealService.GetAll(rd, now);
      if a.Success? && c.Success? && d.Success? {
        activities := a.value;
        contacts := c.value;
        deals := d.value;
      } else {
        error := LoadError;
      }
      loading := false;
    }

    /** `handleFormSubmit`. It returns the adapter call it makes (`None` when editing with no
        activity selected, which throws before any call) and takes what that call resolved
        to or threw. On success an edit patches the list, a creation appends, and the modal
        closes with an empty form; on failure nothing changes. */
    method HandleFormSubmit(outcome: Result<Activity, string>) returns (call: Option<SaveCall>)
      modifies this
      ensures isEditing == old(isEditing) && selected == old(selected)
      ensures old(isEditing) && old(selected).None? ==> call == None
      ensures old(isEditing) && old(selected).Some? ==> call == Some(Update(old(selected).value.Id, old(form)))
      ensures !old(isEditing) ==> call == Some(Create(old(form)))
      ensures call.None? || outcome.Failure? ==>
                activities == old(activities) && isModalOpen == old(isModalOpen) && form == old(form)
      ensures call.Some? && outcome.Success? ==> !isModalOpen && form == EmptyForm
      ensures call.Some? && outcome.Success? && isEditing ==>
                activities == Lists.ReplaceById(old(activities), ActivityService.ActivityId, outcome.value)
      ensures call.Some? && outcome.Success? && !isEditing ==> activities == old(activities) + [outcome.value]
      ensures contacts == old(contacts) && deals == old(deals) && loading == old(loading) && error == old(error)
      ensures searchTerm == old(searchTerm) && filterType == old(filterType) && filterStatus == old(filterStatus)
    {
      if isEditing && selected.None? {
        return None;
      }
      call := Some(if isEditing then Update(selected.value.Id, form) else Create(form));
      if outcome.Failure? {
        return;
      }
      if isEditing {
        activities := Lists.ReplaceById(activities, ActivityService.ActivityId, outcome.value);
      } else {
        activities := activities + [outcome.value];
      }
      isModalOpen := false;
      form := EmptyForm;
    }

    /** `handleDelete`: after confirmation, unless the delete throws, the activity leaves the
        list (also when the store reports nothing deleted). */
    method HandleDelete(a: Activity, confirmed: bool, resp: Batch.BatchResponse<ActivityService.ActivityWire>)
      modifies this
      ensures confirmed && Batch.DeleteOutcome(resp).Success? ==>
                activities == Lists.RemoveById(old(activities), ActivityService.ActivityId, a.Id)
      ensures !(confirmed && Batch.DeleteOutcome(resp).Success?) ==> activities == old(activities)
      ensures contacts == old(contacts) && deals == old(deals) && loading == old(loading) && error == old(error)
      ensures searchTerm == old(searchTerm) && filterType == old(filterType) && filterStatus == old(filterStatus)
      ensures isModalOpen == old(isModalOpen) && isEditing == old(isEditing) && selected == old(selected)
      ensures form == old(form)
    {
      if confirmed && Batch.DeleteOutcome(resp).Success? {
        activities := Lists.RemoveById(activities, ActivityService.ActivityId, a.Id);
      }
    }

    /** `handleToggleComplete`. It returns the draft it sends (the activity with `completed`
        flipped) and takes what the update resolved to or threw; on success the list is
        patched, on failure nothing changes. */
    method HandleToggleComplete(a: Activity, outcome: Result<Activity, string>)
      returns (sent: ActivityService.ActivityDraft)
      modifies this
      ensures sent == ActivityService.ToggleDraft(a) && sent.completed == !a.completed
      ensures outcome.Success? ==> activities == Lists.ReplaceById(old(activities), ActivityService.ActivityId, outcome.value)
      ensures outcome.Failure? ==> activities == old(activities)
      ensures contacts == old(contacts) && deals == old(deals) && loading == old(loading) && error == old(error)
      ensures searchTerm == old(searchTerm) && filterType == old(filterType) && filterStatus == old(filterStatus)
      ensures isModalOpen == old(isModalOpen) && isEditing == old(isEditing) && selected == old(selected)
      ensures form == old(form)
    {
      sent := ActivityService.ToggleDraft(a);
      if outcome.Success? {
        activities := Lists.ReplaceById(activities, ActivityService.ActivityId, outcome.value);
      }
    }

    /** `openModal(activity)`: editing it, with its fields in the form; `openModal()`:
        creating, with an empty form. */
    method OpenModal(a: Option<Activity>)
      modifies this
      ensures isModalOpen
      ensures a.Some? ==> isEditing && selected == a && form == FormOf(a.value)
      ensures a.None? ==> !isEditing && selected == old(selected) && form == EmptyForm
      ensures activities == old(activities) && contacts == old(contacts) && deals == old(deals)
      ensures loading == old(loading) && error == old(error)
      ensures searchTerm == old(searchTerm) && filterType == old(filterType) && filterStatus == old(filterStatus)
    {
      if a.Some? {
        isEditing := true;
        selected := a;
        form := FormOf(a.value);
      } else {
        isEditing := false;
        ResetForm();
      }
      isModalOpen := true;
    }

    /** `resetForm`: a call, every other field empty, not completed. */
    method ResetForm()
      modifies this
      ensures form == EmptyForm
      ensures activities == old(activities) && contacts == old(contacts) && deals == old(deals)
      ensures loading == old(loading) && error == old(error)
      ensures searchTerm == old(searchTerm) && filterType == old(filterType) && filterStatus == old(filterStatus)
      ensures isModalOpen == old(isModalOpen) && isEditing == old(isEditing) && selected == old(selected)
    {
      form := EmptyForm;
    }

    /** Typing in the search box: the list then shows exactly the activities the new term and
        the current filters let through. */
    method SetSearchTerm(term: string)
      modifies this
      ensures searchTerm == term && filterType == old(filterType) && filterStatus == old(filterStatus)
      ensures forall a :: a in Shown() <==> a in activities && Shows(a, contacts, term, filterType, filterStatus)
      ensures activities == old(activities) && contacts == old(contacts) && deals == old(deals)
      ensures loading == old(loading) && error == old(error)
      ensures isModalOpen == old(isModalOpen) && isEditing == old(isEditing) && selected == old(selected)
      ensures form == old(form)
    {
      searchTerm := term;
      ShowsExactly(activities, contacts, term, filterType, filterStatus);
    }

    /** Choosing a type in the type filter. */
    method SetFilterType(kind: string)
      modifies this
      ensures filterType == kind && searchTerm == old(searchTerm) && filterStatus == old(filterStatus)
      ensures forall a :: a in Shown() <==> a in activities && Shows(a, contacts, searchTerm, kind, filterStatus)
      ensures activities == old(activities) && contacts == old(contacts) && deals == old(deals)
      ensures loading == old(loading) && error == old(error)
      ensures isModalOpen == old(isModalOpen) && isEditing == old(isEditing) && selected == old(selected)
      ensures form == old(form)
    {
      filterType := kind;
      ShowsExactly(activities, contacts, searchTerm, kind, filterStatus);
    }

    /** Choosing a status in the status filter. */
    method SetFilterStatus(status: string)
      modifies this
      ensures filterStatus == status && searchTerm == old(searchTerm) && filterType == old(filterType)
      ensures forall a :: a in Shown() <==> a in activities && Shows(a, contacts, searchTerm, filterType, status)
      ensures activities == old(activities) && contacts == old(contacts) && deals == old(deals)
      ensures loading == old(loading) && error == old(error)
      ensures isModalOpen == old(isModalOpen) && isEditing == old(isEditing) && selected == old(selected)
      ensures form == old(form)
    {
      filterStatus := status;
      ShowsExactly(activities, contacts, searchTerm, filterType, status);
    }
  }
}
