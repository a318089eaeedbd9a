/** The Contacts page: the search over contacts, the tag text of the form, and the page state
    the handlers update (list, selection, activity timeline, modal and form). */
module ContactsPage {
  import opened Wrappers
  import opened JsValues
  import Text
  import Lists
  import Batch
  import ContactService
  import ActivityService

  type Contact = ContactService.Contact
  type Activity = ActivityService.Activity

  const LoadError: string := "Failed to load contacts. Please try again."
  const TimelineLength: nat := 5

  /** The search test: the term occurs in the name, email, company or one of the tags,
      ignoring case. */
  predicate Matches(c: Contact, term: string) {
    || Text.IncludesIgnoringCase(c.name, term)
    || Text.IncludesIgnoringCase(c.email, term)
    || Text.IncludesIgnoringCase(c.company, term)
    || exists i :: 0 <= i < |c.tags| && Text.IncludesIgnoringCase(c.tags[i], term)
  }

  /** `filteredContacts`: the contacts that match, each as often as it is listed (the order is
      `FilteredContactsInOrder`). */
  function FilteredContacts(contacts: seq<Contact>, term: string): (r: seq<Contact>)
    ensures forall i :: 0 <= i < |r| ==> r[i] in contacts && Matches(r[i], term)
    ensures forall i :: 0 <= i < |contacts| && Matches(contacts[i], term) ==> contacts[i] in r
    ensures multiset(r) <= multiset(contacts)
    ensures forall c :: c in contacts ==> multiset(r)[c] == if Matches(c, term) then multiset(contacts)[c] else 0
  {
    Lists.FilterCount(contacts, c => Matches(c, term));
    Lists.Filter(contacts, c => Matches(c, term))
  }

  /** The search keeps the list order: a contact is shown in front of the rest when it matches,
      and the contacts of two lists joined are shown as the two lists' shown contacts joined. */
  lemma {:induction false} FilteredContactsInOrder(a: seq<Contact>, b: seq<Contact>, c: Contact, term: string)
    ensures FilteredContacts([c] + b, term) == (if Matches(c, term) then [c] else []) + FilteredContacts(b, term)
    ensures FilteredContacts(a + b, term) == FilteredContacts(a, term) + FilteredContacts(b, term)
  {
    Lists.FilterCons(c, b, x => Matches(x, term));
    Lists.FilterAppend(a, b, x => Matches(x, term));
  }

  /** An empty search shows every contact. */
  lemma {:induction false} EmptySearchShowsAll(contacts: seq<Contact>)
    ensures FilteredContacts(contacts, "") == contacts
  {
    forall i | 0 <= i < |contacts|
      ensures Matches(contacts[i], "")
    {
      Text.IncludesEmpty(Text.Lower(contacts[i].name));
    }
    Lists.FilterAll(contacts, c => Matches(c, ""));
  }

  /** The search ignores the case of the term. */
  lemma {:induction false} SearchIgnoresCase(contacts: seq<Contact>, term: string)
    ensures FilteredContacts(contacts, Text.Lower(term)) == FilteredContacts(contacts, term)
  {
    Text.LowerIdempotent(term);
    Lists.FilterExt(contacts, c => Matches(c, Text.Lower(term)), c => Matches(c, term));
  }

  /** A contact whose name, email, company or a tag holds the term as typed is shown. */
  lemma {:induction false} ExactOccurrenceShown(contacts: seq<Contact>, term: string, k: nat)
    requires k < |contacts|
    requires Text.Includes(contacts[k].name, term) || Text.Includes(contacts[k].email, term)
             || Text.Includes(contacts[k].company, term)
             || exists i :: 0 <= i < |contacts[k].tags| && Text.Includes(contacts[k].tags[i], term)
    ensures contacts[k] in FilteredContacts(contacts, term)
  {
    var c := contacts[k];
    if Text.Includes(c.name, term) {
      Text.IncludesLower(c.name, term);
    } else if Text.Includes(c.email, term) {
      Text.IncludesLower(c.email, term);
    } else if Text.Includes(c.company, term) {
      Text.IncludesLower(c.company, term);
    } else {
      var i :| 0 <= i < |c.tags| && Text.Includes(c.tags[i], term);
      Text.IncludesLower(c.tags[i], term);
    }
  }

  predicate IsNonEmpty(t: string) {
    t != ""
  }

  /** `tags.split(",").map(tag => tag.trim()).filter(tag => tag)`: the typed tags, trimmed,
      blanks dropped. */
  function ParseTagInput(s: string): (r: seq<string>)
    ensures forall i :: 0 <= i < |r| ==> r[i] != "" && ',' !in r[i] && Text.IsTrimmed(r[i])
  {
    var pieces := Text.TrimEach(Text.Split(s, ','));
    var r := Lists.Filter(pieces, IsNonEmpty);
    assert forall j :: 0 <= j < |pieces| ==> ',' !in pieces[j] && Text.IsTrimmed(pieces[j]) by {
      forall j | 0 <= j < |pieces|
        ensures ',' !in pieces[j]
      {
        Text.TrimKeepsOut(Text.Split(s, ',')[j], ',');
      }
    }
    r
  }

  /** `tags.join(", ")`: the tag text the edit form starts with. */
  function FormatTags(tags: seq<string>): string {
    Text.Join(tags, ", ")
  }

  /** Trimmed, comma-free tags shown in the form and read back from it come back in order,
      with the blank ones dropped. */
  lemma {:induction false} BlankTagsDropped(tags: seq<string>)
    requires forall i :: 0 <= i < |tags| ==> ',' !in tags[i] && Text.IsTrimmed(tags[i])
    ensures ParseTagInput(FormatTags(tags)) == Lists.Filter(tags, IsNonEmpty)
  {
    if tags == [] {
      assert Text.TrimEach(Text.Split("", ',')) == [""];
    } else {
      assert [','] + " " == ", ";
      Text.SplitJoinTrimmed(tags, " ", ',');
    }
  }

  /** Tags that are non-empty, trimmed and comma-free survive being shown in the form and read
      back from it. */
  lemma {:induction false} TagTextRoundTrip(tags: seq<string>)
    requires forall i :: 0 <= i < |tags| ==> tags[i] != "" && ',' !in tags[i] && Text.IsTrimmed(tags[i])
    ensures ParseTagInput(FormatTags(tags)) == tags
  {
    BlankTagsDropped(tags);
    Lists.FilterAll(tags, IsNonEmpty);
  }

  /** The modal form: every field is text. */
  datatype ContactForm = ContactForm(name: string, email: string, phone: string, company: string, tags: string)

  const EmptyForm: ContactForm := ContactForm("", "", "", "", "")

  /** The form `openModal(contact)` fills in. */
  function FormOf(c: Contact): ContactForm {
    ContactForm(c.name, c.email, c.phone, c.company, FormatTags(c.tags))
  }

  /** The data `handleFormSubmit` hands to the adapter. */
  function DraftOf(f: ContactForm): ContactService.ContactDraft {
    ContactService.ContactDraft(Some(f.name), Some(f.email), Some(f.phone), Some(f.company),
                                ContactService.TagList(ParseTagInput(f.tags)))
  }

  /** Opening a contact for editing and saving the form unchanged writes the contact's own
      fields back: the update reads back with the same name, email, phone, company and tags,
      provided no tag is blank. */
  lemma {:induction false} UnchangedEditKeepsContact(c: Contact, now: Time, later: Time)
    requires forall i :: 0 <= i < |c.tags| ==> c.tags[i] != "" && ',' !in c.tags[i] && Text.IsTrimmed(c.tags[i])
    ensures var r := ContactService.FromWire(
              ContactService.Stored(ContactService.UpdateRecord(c.Id, DraftOf(FormOf(c)), now), c.Id), later);
      && r.Id == c.Id && r.name == c.name && r.email == c.email && r.phone == c.phone
      && r.company == c.company && r.tags == c.tags
  {
    TagTextRoundTrip(c.tags);
    var d := DraftOf(FormOf(c));
    assert d.tags == ContactService.TagList(c.tags);
    var rec := ContactService.UpdateRecord(c.Id, d, now);
    assert ContactService.WireSafeTags(c.tags);
    ContactService.TagsRoundTrip(c.tags);
    assert ContactService.TagsFromWire(Some(rec.Tags)) == c.tags;
  }

  /** The activity timeline shows the first five activities of the selected contact. */
  function Timeline(activities: seq<Activity>): (r: seq<Activity>)
    ensures |r| == if |activities| < TimelineLength then |activities| else TimelineLength
    ensures r == activities[..|r|]
  {
    Lists.Take(activities, TimelineLength)
  }

  /** The adapter call `handleFormSubmit` makes, with the form it sends as `DraftOf(form)`. */
  datatype SaveCall = Create(form: ContactForm) | Update(id: int, form: ContactForm)

  class Page {
    var contacts: seq<Contact>
    var activities: seq<Activity>
    var loading: bool
    var error: string
    var searchTerm: string
    var selected: Option<Contact>
    var isModalOpen: bool
    var isEditing: bool
    var form: ContactForm

    /** The list as shown: the contacts that match the search term. */
    function Shown(): seq<Contact>
      reads this
    {
      FilteredContacts(contacts, searchTerm)
    }

    constructor()
      ensures contacts == [] && activities == [] && loading && error == "" && searchTerm == ""
      ensures selected == None && !isModalOpen && !isEditing && form == EmptyForm
    {
      contacts := [];
      activities := [];
      loading := true;
      error := "";
      searchTerm := "";
      selected := None;
      isModalOpen := false;
      isEditing := false;
      form := EmptyForm;
    }

    /** `loadContacts`: the fetched contacts replace the list; a failed fetch keeps the old
        list and shows the load error. Loading ends either way. */
    method LoadContacts(resp: Batch.FetchResponse<ContactService.ContactWire>, now: Time)
      modifies this
      ensures !loading
      ensures resp.success ==> contacts == ContactService.GetAll(resp, now).value && error == ""
      ensures !resp.success ==> contacts == old(contacts) && error == LoadError
      ensures activities == old(activities) && searchTerm == old(searchTerm) && selected == old(selected)
      ensures isModalOpen == old(isModalOpen) && isEditing == old(isEditing) && form == old(form)
    {
      loading := true;
      error := "";
      match ContactService.GetAll(resp, now) {
        case Success(cs) =>
          contacts := cs;
        case Failure(_) =>
          error := LoadError;
      }
      loading := false;
    }

    /** A click on a contact card selects it. */
    method SelectContact(c: Contact)
      modifies this
      ensures selected == Some(c)
      ensures contacts == old(contacts) && activities == old(activities) && form == old(form)
      ensures isModalOpen == old(isModalOpen) && isEditing == old(isEditing)
      ensures loading == old(loading) && error == old(error) && searchTerm == old(searchTerm)
    {
      selected := Some(c);
    }

    /** The effect that runs whenever the selection changes: with a contact selected it asks
        for that contact's activities (`query` is the id it asks for) and they replace the
        list, or none when the fetch failed; with no contact selected nothing is fetched. */
    method LoadContactActivities(resp: Batch.FetchResponse<ActivityService.ActivityWire>, now: Time)
      returns (query: Option<int>)
      modifies this
      ensures query == (if old(selected).Some? then Some(old(selected).value.Id) else None)
      ensures query.Some? ==> activities == ActivityService.GetByContactId(resp, now)
      ensures query.Some? && !resp.success ==> activities == []
      ensures query.Some? && (forall i :: 0 <= i < |resp.data| ==> ActivityService.MatchesContact(resp.data[i], query.value)) ==>
                forall i :: 0 <= i < |activities| ==> activities[i].contactId == Some(JsValues.Scalar(query.value))
      ensures query.None? ==> activities == old(activities)
      ensures contacts == old(contacts) && selected == old(selected) && form == old(form)
      ensures isModalOpen == old(isModalOpen) && isEditing == old(isEditing)
      ensures loading == old(loading) && error == old(error) && searchTerm == old(searchTerm)
    {
      if selected.Some? {
        query := Some(selected.value.Id);
        activities := ActivityService.GetByContactId(resp, now);
        if forall i :: 0 <= i < |resp.data| ==> ActivityService.MatchesContact(resp.data[i], selected.value.Id) {
          ActivityService.ByContactBelongs(resp, selected.value.Id, now);
        }
      } else {
        query := None;
      }
    }

    /** `handleFormSubmit`. It returns the adapter call it makes (`None` when editing with no
        contact selected, which throws before any call) and takes what that call resolved to
        or threw. On success an edit patches the list and the selection, a creation appends,
        and the modal closes with an empty form; on failure nothing changes. */
    method HandleFormSubmit(outcome: Result<Contact, string>) returns (call: Option<SaveCall>)
      modifies this
      ensures isEditing == old(isEditing)
      ensures old(isEditing) && old(selected).None? ==> call == None
      ensures old(isEditing) && old(selected).Some? ==> call == Some(Update(old(selected).value.Id, old(form)))
      ensures !old(isEditing) ==> call == Some(Create(old(form)))
      ensures call.None? || outcome.Failure? ==>
                contacts == old(contacts) && selected == old(selected) && isModalOpen == old(isModalOpen)
                && form == old(form)
      ensures call.Some? && outcome.Success? ==> !isModalOpen && form == EmptyForm
      ensures call.Some? && outcome.Success? && isEditing ==>
                contacts == Lists.ReplaceById(old(contacts), ContactService.ContactId, outcome.value)
                && selected == Some(outcome.value)
      ensures call.Some? && outcome.Success? && !isEditing ==>
                contacts == old(contacts) + [outcome.value] && selected == old(selected)
      ensures activities == old(activities) && loading == old(loading) && error == old(error)
      ensures searchTerm == old(searchTerm)
    {
      if isEditing && selected.None? {
        return None;
      }
      call := Some(if isEditing then Update(selected.value.Id, form) else Create(form));
      if outcome.Failure? {
        return;
      }
      if isEditing {
        contacts := Lists.ReplaceById(contacts, ContactService.ContactId, outcome.value);
        selected := Some(outcome.value);
      } else {
        contacts := contacts + [outcome.value];
      }
      isModalOpen := false;
      form := EmptyForm;
    }

    /** `handleDelete`: after confirmation, unless the delete throws, the contact leaves the
        list (also when the store reports nothing deleted) and, if it was selected, the
        selection. */
    method HandleDelete(c: Contact, confirmed: bool, resp: Batch.BatchResponse<ContactService.ContactWire>)
      modifies this
      ensures var removed := confirmed && Batch.DeleteOutcome(resp).Success?;
        && (removed ==> contacts == Lists.RemoveById(old(contacts), ContactService.ContactId, c.Id))
        && (removed && old(selected).Some? && old(selected).value.Id == c.Id ==> selected == None)
        && (!removed ==> contacts == old(contacts))
        && (!(removed && old(selected).Some? && old(selected).value.Id == c.Id) ==> selected == old(selected))
      ensures activities == old(activities) && form == old(form)
      ensures isModalOpen == old(isModalOpen) && isEditing == old(isEditing)
      ensures loading == old(loading) && error == old(error) && searchTerm == old(searchTerm)
    {
      if !confirmed || Batch.DeleteOutcome(resp).Failure? {
        return;
      }
      contacts := Lists.RemoveById(contacts, ContactService.ContactId, c.Id);
      if selected.Some? && selected.value.Id == c.Id {
        selected := None;
      }
    }

    /** `openModal(contact)`: editing that contact, selected, with its fields in the form;
        `openModal()`: creating, with an empty form. */
    method OpenModal(c: Option<Contact>)
      modifies this
      ensures isModalOpen
      ensures c.Some? ==> isEditing && selected == c && form == FormOf(c.value)
      ensures c.None? ==> !isEditing && selected == old(selected) && form == EmptyForm
      ensures contacts == old(contacts) && activities == old(activities)
      ensures loading == old(loading) && error == old(error) && searchTerm == old(searchTerm)
    {
      if c.Some? {
        isEditing := true;
        selected := c;
        form := FormOf(c.value);
      } else {
        isEditing := false;
        ResetForm();
      }
      isModalOpen := true;
    }

    /** `resetForm`: every field empty. */
    method ResetForm()
      modifies this
      ensures form == EmptyForm
      ensures contacts == old(contacts) && activities == old(activities) && selected == old(selected)
      ensures isModalOpen == old(isModalOpen) && isEditing == old(isEditing)
      ensures loading == old(loading) && error == old(error) && searchTerm == old(searchTerm)
    {
      form := EmptyForm;
    }

    /** Typing in the search box: the list then shows exactly the contacts that match the new
        term. */
    method SetSearchTerm(term: string)
      modifies this
      ensures searchTerm == term
      ensures forall c :: c in Shown() <==> c in contacts && Matches(c, term)
      ensures contacts == old(contacts) && activities == old(activities) && selected == old(selected)
      ensures isModalOpen == old(isModalOpen) && isEditing == old(isEditing)
      ensures loading == old(loading) && error == old(error) && form == old(form)
    {
      searchTerm := term;
    }
  }
}
