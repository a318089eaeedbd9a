/** The Deals page: the five pipeline stages and their columns, the moves between adjacent
    stages, the badge colours, the modal form, and the page state the handlers update. */
module DealsPage {
  import opened Wrappers
  import opened JsValues
  import Text
  import Lists
  import Batch
  import ContactService
  import DealService
  import Lookups

  type Deal = DealService.Deal
  type Contact = ContactService.Contact

  const LoadError: string := "Failed to load deals. Please try again."
  const FallbackColor: string := "bg-gray-100 text-gray-800"

  /** One pipeline stage: its name and its badge colour. */
  datatype StageConfig = StageConfig(name: string, color: string)

  const Stages: seq<StageConfig> := [
    StageConfig("Lead", "bg-gray-100 text-gray-800"),
    StageConfig("Qualified", "bg-blue-100 text-blue-800"),
    StageConfig("Proposal", "bg-yellow-100 text-yellow-800"),
    StageConfig("Negotiation", "bg-orange-100 text-orange-800"),
    StageConfig("Closed", "bg-green-100 text-green-800")
  ]

  predicate Named(name: string, s: StageConfig) {
    s.name == name
  }

  /** The test `s => s.name === name` the stage lookups share. */
  function IsNamed(name: string): StageConfig -> bool {
    s => Named(name, s)
  }

  /** `stages.findIndex(s => s.name === name)`. */
  function StageIndex(name: string): (r: int)
    ensures -1 <= r < |Stages|
    ensures r == -1 <==> forall i :: 0 <= i < |Stages| ==> Stages[i].name != name
    ensures r >= 0 ==> Stages[r].name == name
  {
    Lists.FindIndex(Stages, IsNamed(name))
  }

  /** Every stage is found at its own place: the names are distinct. */
  lemma {:induction false} StageIndexOfStage(k: nat)
    requires k < |Stages|
    ensures StageIndex(Stages[k].name) == k
  {
    var r := StageIndex(Stages[k].name);
    assert Stages[r].name == Stages[k].name;
  }

  /** The target of a column's left arrow: the previous stage, none in the first column. */
  function LeftOf(name: string): (r: Option<string>)
    ensures r.Some? <==> StageIndex(name) > 0
    ensures r.Some? ==> r.value == Stages[StageIndex(name) - 1].name
  {
    var i := StageIndex(name);
    if i > 0 then Some(Stages[i - 1].name) else None
  }

  /** The target of a column's right arrow: the next stage, none in the last column. */
  function RightOf(name: string): (r: Option<string>)
    ensures r.Some? <==> StageIndex(name) < |Stages| - 1
    ensures r.Some? ==> r.value == Stages[StageIndex(name) + 1].name
  {
    var i := StageIndex(name);
    if i < |Stages| - 1 then Some(Stages[i + 1].name) else None
  }

  /** Lead has no left arrow and Closed no right arrow; every other column has both. */
  lemma {:induction false} ArrowsAtTheEnds(k: nat)
    requires k < |Stages|
    ensures LeftOf(Stages[k].name).None? <==> k == 0
    ensures RightOf(Stages[k].name).None? <==> k == |Stages| - 1
  {
    StageIndexOfStage(k);
  }

  /** A move right goes to the next column, and a move left from there comes back. */
  lemma {:induction false} MoveRightIsUndone(k: nat)
    requires k < |Stages| - 1
    ensures RightOf(Stages[k].name) == Some(Stages[k + 1].name)
    ensures LeftOf(RightOf(Stages[k].name).value) == Some(Stages[k].name)
  {
    StageIndexOfStage(k);
    StageIndexOfStage(k + 1);
  }

  /** A move left goes to the previous column, and a move right from there comes back. */
  lemma {:induction false} MoveLeftIsUndone(k: nat)
    requires 0 < k < |Stages|
    ensures LeftOf(Stages[k].name) == Some(Stages[k - 1].name)
    ensures RightOf(LeftOf(Stages[k].name).value) == Some(Stages[k].name)
  {
    StageIndexOfStage(k);
    StageIndexOfStage(k - 1);
  }

  /** `getStageBadgeColor`: the stage's colour, or grey for a name that is no stage. */
  function StageBadgeColor(stage: string): (r: string)
    ensures StageIndex(stage) >= 0 ==> r == Stages[StageIndex(stage)].color
    ensures StageIndex(stage) == -1 ==> r == FallbackColor
  {
    Lists.FindAt(Stages, IsNamed(stage));
    match Lists.Find(Stages, IsNamed(stage))
    case Some(s) => s.color
    case None => FallbackColor
  }

  /** A deal in an unknown stage wears the Lead colour. */
  lemma {:induction false} UnknownStageLooksLikeLead(stage: string)
    requires forall i :: 0 <= i < |Stages| ==> Stages[i].name != stage
    ensures StageBadgeColor(stage) == StageBadgeColor("Lead")
  {
    StageIndexOfStage(0);
  }

  /** The deals of one column: those of the stage, each as often as it is listed (the order is
      `ColumnInOrder`). */
  function Column(deals: seq<Deal>, stage: string): (r: seq<Deal>)
    ensures |r| <= |deals|
    ensures forall i :: 0 <= i < |r| ==> r[i] in deals && r[i].stage == stage
    ensures forall i :: 0 <= i < |deals| && deals[i].stage == stage ==> deals[i] in r
    ensures forall d :: d in deals ==> multiset(r)[d] == if d.stage == stage then multiset(deals)[d] else 0
  {
    Lists.FilterCount(deals, (d: Deal) => d.stage == stage);
    Lists.Filter(deals, (d: Deal) => d.stage == stage)
  }

  /** A column keeps the list order: a deal heads the column of its stage, and the column of two
      lists joined is their two columns joined. */
  lemma {:induction false} ColumnInOrder(a: seq<Deal>, b: seq<Deal>, d: Deal, stage: string)
    ensures Column([d] + b, stage) == (if d.stage == stage then [d] else []) + Column(b, stage)
    ensures Column(a + b, stage) == Column(a, stage) + Column(b, stage)
  {
    Lists.FilterCons(d, b, (x: Deal) => x.stage == stage);
    Lists.FilterAppend(a, b, (x: Deal) => x.stage == stage);
  }

  /** A column's total value. */
  function ColumnValue(deals: seq<Deal>, stage: string): int {
    Lists.Sum(Column(deals, stage), DealService.DealValue)
  }

  /** Whether a deal shows in some column: its stage is one of the five. */
  predicate OnBoard(d: Deal) {
    d.stage == "Lead" || d.stage == "Qualified" || d.stage == "Proposal" || d.stage == "Negotiation"
    || d.stage == "Closed"
  }

  /** The five stages are found at their places. */
  lemma {:induction false} StageIndices()
    ensures StageIndex("Lead") == 0 && StageIndex("Qualified") == 1 && StageIndex("Proposal") == 2
    ensures StageIndex("Negotiation") == 3 && StageIndex("Closed") == 4
  {
    StageIndexOfStage(0);
    StageIndexOfStage(1);
    StageIndexOfStage(2);
    StageIndexOfStage(3);
    StageIndexOfStage(4);
  }

  /** A deal is on the board exactly when its stage is found among the stages. */
  lemma {:induction false} OnBoardIsStage(d: Deal)
    ensures OnBoard(d) <==> StageIndex(d.stage) >= 0
  {
    if OnBoard(d) {
      StageIndices();
    }
  }

  /** The number of deals on the board, column by column. */
  function BoardCount(deals: seq<Deal>): int {
    |Column(deals, "Lead")| + |Column(deals, "Qualified")| + |Column(deals, "Proposal")|
    + |Column(deals, "Negotiation")| + |Column(deals, "Closed")|
  }

  /** The value on the board, column by column. */
  function BoardValue(deals: seq<Deal>): int {
    ColumnValue(deals, "Lead") + ColumnValue(deals, "Qualified") + ColumnValue(deals, "Proposal")
    + ColumnValue(deals, "Negotiation") + ColumnValue(deals, "Closed")
  }

  /** The first deal is in the column of its stage only. */
  lemma {:induction false} ColumnStep(deals: seq<Deal>, stage: string)
    requires deals != []
    ensures |Column(deals, stage)| == |Column(deals[1..], stage)| + (if deals[0].stage == stage then 1 else 0)
    ensures ColumnValue(deals, stage)
         == ColumnValue(deals[1..], stage) + (if deals[0].stage == stage then deals[0].value else 0)
  {
    Lists.FilterStep(deals, (d: Deal) => d.stage == stage, DealService.DealValue);
  }

  /** Each deal whose stage is one of the five is counted in exactly one column. */
  lemma {:induction false} ColumnsCount(deals: seq<Deal>)
    ensures BoardCount(deals) == |Lists.Filter(deals, OnBoard)|
  {
    if deals != [] {
      ColumnsCount(deals[1..]);
      ColumnStep(deals, "Lead");
      ColumnStep(deals, "Qualified");
      ColumnStep(deals, "Proposal");
      ColumnStep(deals, "Negotiation");
      ColumnStep(deals, "Closed");
      Lists.FilterStep(deals, OnBoard, DealService.DealValue);
    }
  }

  /** Each deal whose stage is one of the five has its value summed in exactly one column. */
  lemma {:induction false} ColumnsValue(deals: seq<Deal>)
    ensures BoardValue(deals) == Lists.Sum(Lists.Filter(deals, OnBoard), DealService.DealValue)
  {
    if deals != [] {
      ColumnsValue(deals[1..]);
      ColumnStep(deals, "Lead");
      ColumnStep(deals, "Qualified");
      ColumnStep(deals, "Proposal");
      ColumnStep(deals, "Negotiation");
      ColumnStep(deals, "Closed");
      Lists.FilterStep(deals, OnBoard, DealService.DealValue);
    }
  }

  /** The modal form: all text, but the close date, which is `None` for an empty field. */
  datatype DealForm = DealForm(
    title: string,
    value: string,
    stage: string,
    contactId: string,
    probability: string,
    expectedCloseDate: Option<Time>)

  const EmptyForm: DealForm := DealForm("", "", "Lead", "", "", None)

  /** The form `openModal(deal)` fills in, for a deal with a contact; the close date keeps only
      its day. */
  function FormOf(d: Deal): DealForm
    requires d.contactId.Some?
  {
    DealForm(d.title, Text.IntToString(d.value), d.stage, Lookups.RefText(d.contactId.value),
             Text.IntToString(d.probability),
             if d.expectedCloseDate.Some? then Some(DayStart(d.expectedCloseDate.value)) else None)
  }

  /** The data `handleFormSubmit` hands to the adapter: the numbers parsed from the text. */
  function DraftOf(f: DealForm): DealService.DealDraft {
    DealService.DealDraft(Some(f.title), Text.ParseInt(f.value), Some(f.stage), Text.ParseInt(f.probability),
                          f.expectedCloseDate, Text.ParseInt(f.contactId))
  }

  /** Opening a deal for editing and saving the form unchanged keeps its title, value, stage,
      probability, creation time and the contact id it carried, but moves its close date to
      midnight of its day. */
  lemma {:induction false} UnchangedEditKeepsDeal(w: DealService.DealWire, now: Time)
    requires DealService.FromWire(w, now).contactId.Some?
    ensures var d := DealService.FromWire(w, now);
      var r := DealService.FromWire(DealService.Updated(w, DealService.UpdateRecord(d.Id, DraftOf(FormOf(d)))), now);
      && r.Id == d.Id && r.title == d.title && r.value == d.value && r.stage == d.stage
      && r.probability == d.probability && r.createdAt == d.createdAt
      && CarriedId(r.contactId) == CarriedId(w.contact_id_c)
      && r.expectedCloseDate == (if d.expectedCloseDate.Some? then Some(DayStart(d.expectedCloseDate.value)) else None)
  {
    var d := DealService.FromWire(w, now);
    Text.ParseIntToString(d.value);
    Text.ParseIntToString(d.probability);
    Lookups.ParseRefText(d.contactId.value);
    UnwrapThenParse(w.contact_id_c);
  }

  /** The adapter call `handleFormSubmit` makes, with the form it sends as `DraftOf(form)`. */
  datatype SaveCall = Create(form: DealForm) | Update(id: int, form: DealForm)

  class Page {
    var deals: seq<Deal>
    var contacts: seq<Contact>
    var loading: bool
    var error: string
    var isModalOpen: bool
    var isEditing: bool
    var selected: Option<Deal>
    var form: DealForm

    constructor()
      ensures deals == [] && contacts == [] && loading && error == ""
      ensures !isModalOpen && !isEditing && selected == None && form == EmptyForm
    {
      deals := [];
      contacts := [];
      loading := true;
      error := "";
      isModalOpen := false;
      isEditing := false;
      selected := None;
      form := EmptyForm;
    }

    /** `loadData`: both fetches together; if either fails, neither list changes and the
        load error shows. Loading ends either way. */
    method LoadData(rd: Batch.FetchResponse<DealService.DealWire>,
                    rc: Batch.FetchResponse<ContactService.ContactWire>, now: Time)
      modifies this
      ensures !loading
      ensures rd.success && rc.success ==>
                deals == DealService.GetAll(rd, now).value && contacts == ContactService.GetAll(rc, now).value
                && error == ""
      ensures !(rd.success && rc.success) ==> deals == old(deals) && contacts == old(contacts) && error == LoadError
      ensures isModalOpen == old(isModalOpen) && isEditing == old(isEditing) && selected == old(selected)
      ensures form == old(form)
    {
      loading := true;
      error := "";
      var d := DealService.GetAll(rd, now);
      var c := ContactService.GetAll(rc, now);
      if d.Success? && c.Success? {
        deals := d.value;
        contacts := c.value;
      } else {
        error := LoadError;
      }
      loading := false;
    }

    /** `handleFormSubmit`. It returns the adapter call it makes (`None` when editing with no
        deal selected, which throws before any call) and takes what that call resolved to or
        threw. On success an edit patches the list, a creation appends, and the modal closes
        with an empty form; on failure nothing changes. */
    method HandleFormSubmit(outcome: Result<Deal, string>) returns (call: Option<SaveCall>)
      modifies this
      ensures isEditing == old(isEditing) && selected == old(selected)
      ensures old(isEditing) && old(selected).None? ==> call == None
      ensures old(isEditing) && old(selected).Some? ==> call == Some(Update(old(selected).value.Id, old(form)))
      ensures !old(isEditing) ==> call == Some(Create(old(form)))
      ensures call.None? || outcome.Failure? ==>
                deals == old(deals) && isModalOpen == old(isModalOpen) && form == old(form)
      ensures call.Some? && outcome.Success? ==> !isModalOpen && form == EmptyForm
      ensures call.Some? && outcome.Success? && isEditing ==>
                deals == Lists.ReplaceById(old(deals), DealService.DealId, outcome.value)
      ensures call.Some? && outcome.Success? && !isEditing ==> deals == old(deals) + [outcome.value]
      ensures contacts == old(contacts) && loading == old(loading) && error == old(error)
    {
      if isEditing && selected.None? {
        return None;
      }
      call := Some(if isEditing then Update(selected.value.Id, form) else Create(form));
      if outcome.Failure? {
        return;
      }
      if isEditing {
        deals := Lists.ReplaceById(deals, DealService.DealId, outcome.value);
      } else {
        deals := deals + [outcome.value];
      }
      isModalOpen := false;
      form := EmptyForm;
    }

    /** `handleDelete`: after confirmation, unless the delete throws, the deal leaves the list
        (also when the store reports nothing deleted). */
    method HandleDelete(d: Deal, confirmed: bool, resp: Batch.BatchResponse<DealService.DealWire>)
      modifies this
      ensures confirmed && Batch.DeleteOutcome(resp).Success? ==>
                deals == Lists.RemoveById(old(deals), DealService.DealId, d.Id)
      ensures !(confirmed && Batch.DeleteOutcome(resp).Success?) ==> deals == old(deals)
      ensures contacts == old(contacts) && loading == old(loading) && error == old(error)
      ensures isModalOpen == old(isModalOpen) && isEditing == old(isEditing) && selected == old(selected)
      ensures form == old(form)
    {
      if confirmed && Batch.DeleteOutcome(resp).Success? {
        deals := Lists.RemoveById(deals, DealService.DealId, d.Id);
      }
    }

    /** `handleStageChange(dealId, newStage)`. It returns the draft `updateStage` sends (the
        stage alone) and takes what the update resolved to or threw; on success the list is
        patched, on failure nothing changes. */
    method HandleStageChange(dealId: int, newStage: string, outcome: Result<Deal, string>)
      returns (sent: DealService.DealDraft)
      modifies this
      ensures sent == DealService.StageDraft(newStage)
      ensures outcome.Success? ==> deals == Lists.ReplaceById(old(deals), DealService.DealId, outcome.value)
      ensures outcome.Failure? ==> deals == old(deals)
      ensures contacts == old(contacts) && loading == old(loading) && error == old(error)
      ensures isModalOpen == old(isModalOpen) && isEditing == old(isEditing) && selected == old(selected)
      ensures form == old(form)
    {
      sent := DealService.StageDraft(newStage);
      if outcome.Success? {
        deals := Lists.ReplaceById(deals, DealService.DealId, outcome.value);
      }
    }

    /** `openModal(deal)`: editing the deal, selected, with its fields in the form. A deal
        without a contact makes `contactId.toString()` throw after the deal was selected for
        editing: the form keeps its old content and the modal stays closed. `openModal()`:
        creating, with an empty form. */
    method OpenModal(d: Option<Deal>) returns (threw: bool)
      modifies this
      ensures threw <==> d.Some? && d.value.contactId.None?
      ensures d.Some? ==> isEditing && selected == d
      ensures d.Some? && !threw ==> form == FormOf(d.value) && isModalOpen
      ensures threw ==> form == old(form) && isModalOpen == old(isModalOpen)
      ensures d.None? ==> !isEditing && selected == old(selected) && form == EmptyForm && isModalOpen
      ensures deals == old(deals) && contacts == old(contacts) && loading == old(loading) && error == old(error)
    {
      threw := false;
      if d.Some? {
        isEditing := true;
        selected := d;
        if d.value.contactId.None? {
          threw := true;
          return;
        }
        form := FormOf(d.value);
      } else {
        isEditing := false;
        ResetForm();
      }
      isModalOpen := true;
    }

    /** `resetForm`: every field empty, the stage Lead. */
    method ResetForm()
      modifies this
      ensures form == EmptyForm
      ensures deals == old(deals) && contacts == old(contacts) && loading == old(loading) && error == old(error)
      ensures isModalOpen == old(isModalOpen) && isEditing == old(isEditing) && selected == old(selected)
    {
      form := EmptyForm;
    }
  }
}
