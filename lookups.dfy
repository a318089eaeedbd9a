/** The small lookups several pages define alike: a contact's name and a deal's title by id,
    the icon of an activity type, and the text a relation id is shown as in a form. */
module Lookups {
  import opened Wrappers
  import opened JsValues
  import Text
  import Lists
  import ContactService
  import DealService

  const UnknownContact: string := "Unknown Contact"
  const ObjectText: string := "[object Object]"

  /** `record.Id === id` for a relation value: only a bare number can equal an id. */
  predicate HasId(recordId: int, id: Option<Ref>) {
    id == Some(Scalar(recordId))
  }

  predicate ContactHasId(id: Option<Ref>, c: ContactService.Contact) {
    HasId(c.Id, id)
  }

  predicate DealHasId(id: Option<Ref>, d: DealService.Deal) {
    HasId(d.Id, id)
  }

  /** `getContactName`: the name of the first contact with that id, else "Unknown Contact". */
  function ContactName(contacts: seq<ContactService.Contact>, id: Option<Ref>): (r: string)
    ensures (forall i :: 0 <= i < |contacts| ==> !HasId(contacts[i].Id, id)) ==> r == UnknownContact
    ensures forall k :: (0 <= k < |contacts| && HasId(contacts[k].Id, id) &&
                         forall j :: 0 <= j < k ==> !HasId(contacts[j].Id, id)) ==> r == contacts[k].name
  {
    match Lists.Find(contacts, c => ContactHasId(id, c))
    case Some(c) => c.name
    case None => UnknownContact
  }

  /** A relation that is null or came expanded never names a contact. */
  lemma {:induction false} ContactNameOfNonNumber(contacts: seq<ContactService.Contact>, id: Option<Ref>)
    requires id.None? || id.value.Expanded?
    ensures ContactName(contacts, id) == UnknownContact
  {
  }

  /** `getDealTitle`: the title of the first deal with that id, else null. */
  function DealTitle(deals: seq<DealService.Deal>, id: Option<Ref>): (r: Option<string>)
    ensures r.None? <==> forall i :: 0 <= i < |deals| ==> !HasId(deals[i].Id, id)
    ensures forall k :: (0 <= k < |deals| && HasId(deals[k].Id, id) &&
                         forall j :: 0 <= j < k ==> !HasId(deals[j].Id, id)) ==> r == Some(deals[k].title)
  {
    match Lists.Find(deals, d => DealHasId(id, d))
    case Some(d) => Some(d.title)
    case None => None
  }

  /** `getActivityIcon` of the contact timeline and the dashboard. */
  function ActivityIcon(kind: string): (r: string)
    ensures kind == "call" <==> r == "Phone"
    ensures kind == "email" <==> r == "Mail"
    ensures kind == "meeting" <==> r == "Calendar"
    ensures r in {"Phone", "Mail", "Calendar", "Activity"}
  {
    match kind
    case "call" => "Phone"
    case "email" => "Mail"
    case "meeting" => "Calendar"
    case _ => "Activity"
  }

  /** `x.toString()` of a relation value: a number's numeral, or "[object Object]". */
  function RefText(x: Ref): string {
    match x
    case Scalar(n) => Text.IntToString(n)
    case Expanded(_) => ObjectText
  }

  /** `parseInt` of the text a relation is shown as gives back the number it was, and `NaN`
      for an object. */
  lemma {:induction false} ParseRefText(x: Ref)
    ensures Text.ParseInt(RefText(x)) == ParseRef(Some(x))
  {
    if x.Scalar? {
      Text.ParseIntToString(x.id);
    } else {
      assert Text.TrimStart(ObjectText) == ObjectText;
      assert Text.DigitPrefix(ObjectText) == [];
    }
  }
}
