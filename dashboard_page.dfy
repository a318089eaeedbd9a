/** The Dashboard page: the deal totals, the recent and upcoming activities, the four-stage
    pipeline overview, and the page state its load and its render update. */
module DashboardPage {
  import opened Wrappers
  import opened JsValues
  import Lists
  import Batch
  import ContactService
  import DealService
  import ActivityService
  import DealsPage

  type Deal = DealService.Deal
  type Activity = ActivityService.Activity
  type Contact = ContactService.Contact

  const LoadError: string := "Failed to load dashboard data. Please try again."
  const ClosedStage: string := "Closed"
  const RecentLength: nat := 5
  const UpcomingLength: nat := 3

  /** The stages the overview lists: every stage of the board but Closed. */
  const OverviewStages: seq<string> := ["Lead", "Qualified", "Proposal", "Negotiation"]

  /** `totalDealsValue`: the sum of every deal's value. */
  function TotalDealsValue(deals: seq<Deal>): int {
    Lists.Sum(deals, DealService.DealValue)
  }

  predicate IsClosed(d: Deal) {
    d.stage == ClosedStage
  }

  predicate IsActive(d: Deal) {
    d.stage != ClosedStage
  }

  /** `closedDeals`. */
  function ClosedDeals(deals: seq<Deal>): seq<Deal> {
    Lists.Filter(deals, IsClosed)
  }

  /** The deals the "Active Deals" card counts. */
  function ActiveDeals(deals: seq<Deal>): seq<Deal> {
    Lists.Filter(deals, IsActive)
  }

  /** `pipelineValue`: the sum over the deals not Closed. */
  function PipelineValue(deals: seq<Deal>): int {
    Lists.Sum(ActiveDeals(deals), DealService.DealValue)
  }

  /** Every deal is either closed or active: the two counts add up to the number of deals,
      and the total value is the pipeline value plus the value of the closed deals. */
  lemma {:induction false} DealTotals(deals: seq<Deal>)
    ensures |ClosedDeals(deals)| + |ActiveDeals(deals)| == |deals|
    ensures TotalDealsValue(deals) == PipelineValue(deals) + Lists.Sum(ClosedDeals(deals), DealService.DealValue)
  {
    Lists.FilterSplit(deals, IsClosed, IsActive, DealService.DealValue);
  }

  /** The closed deals are the Closed column of the board. */
  lemma {:induction false} ClosedIsLastColumn(deals: seq<Deal>)
    ensures ClosedDeals(deals) == DealsPage.Column(deals, ClosedStage)
  {
    Lists.FilterExt(deals, IsClosed, (d: Deal) => d.stage == ClosedStage);
  }

  /** `recentActivities`: the activities sorted latest first, cut to five. Every activity left
      out is no later than every one shown. */
  function RecentActivities(activities: seq<Activity>): (r: seq<Activity>)
    ensures |r| == if |activities| < RecentLength then |activities| else RecentLength
    ensures Lists.SortedDesc(r, ActivityService.ActivityDate)
    ensures multiset(r) <= multiset(activities)
    ensures forall x :: x in multiset(activities) - multiset(r) ==>
              forall j :: 0 <= j < |r| ==> ActivityService.ActivityDate(x) <= ActivityService.ActivityDate(r[j])
  {
    Lists.TopOf(activities, RecentLength, ActivityService.ActivityDate);
    Lists.Take(Lists.SortDesc(activities, ActivityService.ActivityDate), RecentLength)
  }

  /** The test of `upcomingActivities`: dated after now and not completed. */
  predicate IsUpcoming(now: Time, a: Activity) {
    a.date > now && !a.completed
  }

  /** `upcomingActivities`: the first three activities of the list that are upcoming; with
      fewer than three of them, all of them. */
  function UpcomingActivities(activities: seq<Activity>, now: Time): (r: seq<Activity>)
    ensures |r| <= UpcomingLength
    ensures forall i :: 0 <= i < |r| ==> r[i] in activities && IsUpcoming(now, r[i])
    ensures |r| < UpcomingLength ==>
              forall i :: 0 <= i < |activities| && IsUpcoming(now, activities[i]) ==> activities[i] in r
    ensures exists k :: 0 <= k <= |activities| && r == Lists.Filter(activities[..k], a => IsUpcoming(now, a))
  {
    var u := Lists.Filter(activities, a => IsUpcoming(now, a));
    var r := Lists.Take(u, UpcomingLength);
    Lists.FilterTakePrefix(activities, a => IsUpcoming(now, a), |r|);
    assert r == Lists.Filter(activities[..Lists.PassPrefix(activities, a => IsUpcoming(now, a), |r|)], a => IsUpcoming(now, a));
    r
  }

  /** Sorting a list already latest first leaves it as it is. */
  lemma {:induction false} SortSorted(xs: seq<Activity>)
    requires Lists.SortedDesc(xs, ActivityService.ActivityDate)
    ensures Lists.SortDesc(xs, ActivityService.ActivityDate) == xs
  {
    if xs != [] {
      SortSorted(xs[1..]);
      assert xs == [xs[0]] + xs[1..];
    }
  }

  /** After the render has sorted the activities in place, the upcoming ones are taken from
      the sorted list: the three shown are the latest upcoming ones, not the soonest. */
  lemma {:induction false} UpcomingAreLatest(activities: seq<Activity>, now: Time)
    requires Lists.SortedDesc(activities, ActivityService.ActivityDate)
    ensures var r := UpcomingActivities(activities, now);
      forall i, j :: 0 <= i < |activities| && IsUpcoming(now, activities[i]) && activities[i] !in r && 0 <= j < |r| ==>
        activities[i].date <= r[j].date
  {
    var u := Lists.Filter(activities, a => IsUpcoming(now, a));
    var r := UpcomingActivities(activities, now);
    Lists.FilterSorted(activities, a => IsUpcoming(now, a), ActivityService.ActivityDate);
    assert r == u[..|r|];
    forall i, j | 0 <= i < |activities| && IsUpcoming(now, activities[i]) && activities[i] !in r && 0 <= j < |r|
      ensures activities[i].date <= r[j].date
    {
      var k :| 0 <= k < |u| && u[k] == activities[i];
      assert u[j] == r[j];
    }
  }

  /** One row of the pipeline overview: a stage, its number of deals and their value. */
  datatype StageSummary = StageSummary(stage: string, count: int, value: int)

  /** The pipeline overview: each of the four stages with the count and value of its deals. */
  function Overview(deals: seq<Deal>): (r: seq<StageSummary>)
    ensures |r| == |OverviewStages|
    ensures forall i :: 0 <= i < |r| ==> r[i].stage == OverviewStages[i]
    ensures forall i :: 0 <= i < |r| ==>
              r[i].count == |DealsPage.Column(deals, OverviewStages[i])|
              && r[i].value == DealsPage.ColumnValue(deals, OverviewStages[i])
  {
    seq(|OverviewStages|, i requires 0 <= i < |OverviewStages| =>
      StageSummary(OverviewStages[i], |DealsPage.Column(deals, OverviewStages[i])|,
                   DealsPage.ColumnValue(deals, OverviewStages[i])))
  }

  /** The overview lists the board's stages in order, leaving out the last, Closed. */
  lemma {:induction false} OverviewIsBoardButClosed()
    ensures |OverviewStages| + 1 == |DealsPage.Stages|
    ensures forall i :: 0 <= i < |OverviewStages| ==> OverviewStages[i] == DealsPage.Stages[i].name
    ensures DealsPage.Stages[|OverviewStages|].name == ClosedStage
  {
  }

  /** When every deal is in one of the five stages, the overview accounts for every active
      deal: its counts add up to the "Active Deals" card and its values to the pipeline
      value. A deal in any other stage is active but in no row. */
  lemma {:induction false} OverviewCoversPipeline(deals: seq<Deal>)
    requires forall i :: 0 <= i < |deals| ==> DealsPage.OnBoard(deals[i])
    ensures var o := Overview(deals);
      o[0].count + o[1].count + o[2].count + o[3].count == |ActiveDeals(deals)|
    ensures var o := Overview(deals);
      o[0].value + o[1].value + o[2].value + o[3].value == PipelineValue(deals)
  {
    DealsPage.ColumnsCount(deals);
    DealsPage.ColumnsValue(deals);
    Lists.FilterAll(deals, DealsPage.OnBoard);
    DealTotals(deals);
    ClosedIsLastColumn(deals);
  }

  /** What the page shows once loaded: the four cards, the two activity lists and the
      overview. */
  datatype View = View(
    totalContacts: int,
    activeDeals: int,
    pipelineValue: int,
    closedDeals: int,
    recent: seq<Activity>,
    upcoming: seq<Activity>,
    overview: seq<StageSummary>)

  class Page {
    var contacts: seq<Contact>
    var deals: seq<Deal>
    var activities: seq<Activity>
    var loading: bool
    var error: string

    constructor()
      ensures contacts == [] && deals == [] && activities == [] && loading && error == ""
    {
      contacts := [];
      deals := [];
      activities := [];
      loading := true;
      error := "";
    }

    /** `loadData`: the three fetches together; if any fails, no list changes and the load
        error shows. Loading ends either way. */
    method LoadData(rc: Batch.FetchResponse<ContactService.ContactWire>,
                    rd: Batch.FetchResponse<DealService.DealWire>,
                    ra: Batch.FetchResponse<ActivityService.ActivityWire>, now: Time)
      modifies this
      ensures !loading
      ensures rc.success && rd.success && ra.success ==>
                contacts == ContactService.GetAll(rc, now).value && deals == DealService.GetAll(rd, now).value
                && activities == ActivityService.GetAll(ra, now).value && error == ""
      ensures !(rc.success && rd.success && ra.success) ==>
                contacts == old(contacts) && deals == old(deals) && activities == old(activities)
                && error == LoadError
    {
      loading := true;
      error := "";
      var c := ContactService.GetAll(rc, now);
      var d := DealService.GetAll(rd, now);
      var a := ActivityService.GetAll(ra, now);
      if c.Success? && d.Success? && a.Success? {
        contacts := c.value;
        deals := d.value;
        activities := a.value;
      } else {
        error := LoadError;
      }
      loading := false;
    }

    /** The render: nothing while loading or after an error. Otherwise the activities are
        sorted latest first in place (the state list itself), and the view is computed from
        the sorted list. */
    method Render(now: Time) returns (view: Option<View>)
      modifies this
      ensures loading || error != "" ==> view == None && activities == old(activities)
      ensures !loading && error == "" ==>
                activities == Lists.SortDesc(old(activities), ActivityService.ActivityDate)
                && view == Some(View(|contacts|, |ActiveDeals(deals)|, PipelineValue(deals),
                                     |ClosedDeals(deals)|, RecentActivities(old(activities)),
                                     UpcomingActivities(activities, now), Overview(deals)))
      ensures contacts == old(contacts) && deals == old(deals) && loading == old(loading) && error == old(error)
    {
      if loading || error != "" {
        return None;
      }
      activities := Lists.SortDesc(activities, ActivityService.ActivityDate);
      var recent := Lists.Take(activities, RecentLength);
      assert recent == RecentActivities(old(activities));
      view := Some(View(|contacts|, |ActiveDeals(deals)|, PipelineValue(deals), |ClosedDeals(deals)|,
                        recent, UpcomingActivities(activities, now), Overview(deals)));
    }
  }

  /** A second render shows the same as the first: the sort in place does not move anything
      once the list is sorted. */
  lemma {:induction false} RenderAgain(activities: seq<Activity>)
    ensures var s := Lists.SortDesc(activities, ActivityService.ActivityDate);
      Lists.SortDesc(s, ActivityService.ActivityDate) == s && RecentActivities(s) == RecentActivities(activities)
  {
    var s := Lists.SortDesc(activities, ActivityService.ActivityDate);
    SortSorted(s);
  }
}
