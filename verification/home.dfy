/** The page (src/pages/index.tsx): the append-only list of reports, the selected categories
    with select/deselect, the derived list of reports shown on the map, and the wiring of the
    report form's submission to the page. */
module Home {
  import opened Wrappers
  import opened Seqs
  import ReportForm

  /** Coordinates are carried, never computed with. */
  datatype Location = Location(latitude: real, longitude: real)

  datatype Report = Report(description: string, category: string, location: Location)

  /** `filteredReports`: the reports whose category is currently selected, in report order. */
  function FilterReports(reports: seq<Report>, selected: seq<string>): (shown: seq<Report>)
    ensures |shown| <= |reports|
    ensures forall r :: r in shown <==> r in reports && r.category in selected
  {
    FilterMembers(reports, (r: Report) => r.category in selected);
    Filter(reports, (r: Report) => r.category in selected)
  }

  /** The deselect update: `selected` without any occurrence of `category`. */
  function Without(selected: seq<string>, category: string): (rest: seq<string>)
    ensures |rest| <= |selected|
    ensures category !in rest
    ensures forall c :: c in rest <==> c in selected && c != category
  {
    FilterMembers(selected, (c: string) => c != category);
    Filter(selected, (c: string) => c != category)
  }

  /** The map shows exactly the reports at the positions whose category is selected, listed
      in increasing position order. */
  lemma ShownInReportOrder(reports: seq<Report>, selected: seq<string>) returns (idx: seq<int>)
    ensures Increasing(idx) && Picks(FilterReports(reports, selected), reports, idx)
    ensures forall i :: i in idx <==> 0 <= i < |reports| && reports[i].category in selected
  {
    idx := FilterPositions(reports, (r: Report) => r.category in selected);
  }

  /** The map's reports are a subsequence of all reports. */
  lemma ShownIsSubsequence(reports: seq<Report>, selected: seq<string>)
    ensures IsSubsequence(FilterReports(reports, selected), reports)
  {
    FilterIsSubsequence(reports, (r: Report) => r.category in selected);
  }

  /** Filtering the shown reports again with the same selection changes nothing. */
  lemma FilterReportsIdempotent(reports: seq<Report>, selected: seq<string>)
    ensures FilterReports(FilterReports(reports, selected), selected) == FilterReports(reports, selected)
  {
    FilterIdempotent(reports, (r: Report) => r.category in selected);
  }

  /** Deselecting keeps exactly the other categories at their positions, in their order. */
  lemma DeselectKeepsOrder(selected: seq<string>, category: string) returns (idx: seq<int>)
    ensures Increasing(idx) && Picks(Without(selected, category), selected, idx)
    ensures forall i :: i in idx <==> 0 <= i < |selected| && selected[i] != category
  {
    idx := FilterPositions(selected, (c: string) => c != category);
  }

  /** Deselecting a category that is not selected leaves the selection as it is. */
  lemma DeselectAbsent(selected: seq<string>, category: string)
    requires category !in selected
    ensures Without(selected, category) == selected
  {
    FilterKeepsAll(selected, (c: string) => c != category);
  }

  /** Deselecting twice is deselecting once. */
  lemma DeselectIdempotent(selected: seq<string>, category: string)
    ensures Without(Without(selected, category), category) == Without(selected, category)
  {
    FilterIdempotent(selected, (c: string) => c != category);
  }

  /** After deselecting a category none of its reports is shown; selecting it again shows
      every report of that category. */
  lemma DeselectHidesSelectShows(reports: seq<Report>, selected: seq<string>, category: string)
    ensures forall r :: r in FilterReports(reports, Without(selected, category)) ==> r.category != category
    ensures forall r :: r in reports && r.category == category ==> r in FilterReports(reports, Without(selected, category) + [category])
  {
  }

  /** Selection is not de-duplicated, but selecting an already selected category does not
      change what the map shows. */
  lemma ReselectShowsSame(reports: seq<Report>, selected: seq<string>, category: string)
    requires category in selected
    ensures FilterReports(reports, selected + [category]) == FilterReports(reports, selected)
  {
    FilterCongruent(reports, (r: Report) => r.category in selected + [category], (r: Report) => r.category in selected);
  }

  /** A newly appended report joins the end of the map's list exactly when its category is
      selected; the reports already shown stay as they were. */
  lemma SubmitExtendsShown(reports: seq<Report>, selected: seq<string>, report: Report)
    ensures FilterReports(reports + [report], selected)
         == FilterReports(reports, selected) + (if report.category in selected then [report] else [])
  {
    FilterSnoc(reports, report, (r: Report) => r.category in selected);
  }

  /** The page's state. */
  class Page {
    var reports: seq<Report>
    var selectedCategories: seq<string>
    var isHeatmapVisible: bool

    /** Initial state: no reports, every report category selected in list order, heatmap off. */
    constructor ()
      ensures reports == []
      ensures selectedCategories == ReportForm.ReportCategories
      ensures !isHeatmapVisible
    {
      reports := [];
      selectedCategories := ReportForm.ReportCategories;
      isHeatmapVisible := false;
    }

    /** `handleCategoryChange`: selecting appends the category (no de-duplication);
        deselecting removes every occurrence, keeping the others in order. */
    method HandleCategoryChange(category: string, isSelected: bool)
      modifies this
      ensures isSelected ==> selectedCategories == old(selectedCategories) + [category]
      ensures !isSelected ==> selectedCategories == Without(old(selectedCategories), category)
      ensures category in selectedCategories <==> isSelected
      ensures reports == old(reports) && isHeatmapVisible == old(isHeatmapVisible)
    {
      if isSelected {
        selectedCategories := selectedCategories + [category];
      } else {
        selectedCategories := Without(selectedCategories, category);
      }
    }

    /** The filter panel's heatmap switch, forwarded to the state setter. */
    method SetHeatmapVisible(visible: bool)
      modifies this
      ensures isHeatmapVisible == visible
      ensures reports == old(reports) && selectedCategories == old(selectedCategories)
    {
      isHeatmapVisible := visible;
    }

    /** `handleReportSubmit`: once the position is known the report is appended at the end.
        `position` is the argument of the geolocation success callback; `None` means that
        callback never runs (no error callback is installed), so nothing is appended. */
    method HandleReportSubmit(description: string, category: string, position: Option<Location>)
      modifies this
      ensures position.Some? ==> reports == old(reports) + [Report(description, category, position.value)]
      ensures position.None? ==> reports == old(reports)
      ensures selectedCategories == old(selectedCategories) && isHeatmapVisible == old(isHeatmapVisible)
    {
      if position.Some? {
        reports := reports + [Report(description, category, position.value)];
      }
    }

    /** The form rendered with `onSubmit={handleReportSubmit}`. A non-blank description is
        forwarded. When `navigator.geolocation` exists (`geolocationPresent`), the form's
        description is cleared and one new report of the form's category is appended once the
        position arrives; the clear happens even when the position never arrives. When it is
        absent, reading it throws inside the callback: no report is added and the description
        is kept. A blank description changes nothing. */
    method SubmitFromForm(form: ReportForm.Form, geolocationPresent: bool, position: Option<Location>)
      requires form.Valid()
      modifies this, form
      ensures form.Valid() && form.category == old(form.category)
      ensures ReportForm.AllWhiteSpace(old(form.description)) || !geolocationPresent ==>
                form.description == old(form.description) && reports == old(reports)
      ensures !ReportForm.AllWhiteSpace(old(form.description)) && geolocationPresent ==>
                form.description == "" &&
                reports == old(reports) + (if position.Some?
                  then [Report(old(form.description), old(form.category), position.value)]
                  else [])
      ensures forall r :: r in reports && r !in old(reports) ==> r.category in ReportForm.ReportCategories
      ensures selectedCategories == old(selectedCategories) && isHeatmapVisible == old(isHeatmapVisible)
    {
      var sent := form.HandleSubmit(geolocationPresent);
      if sent.Some? && geolocationPresent {
        HandleReportSubmit(sent.value.description, sent.value.category, position);
      }
    }
  }
}
