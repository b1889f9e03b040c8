/** The state of the `Admin` page component and the operations that update it. */
module AdminPage {
  import opened Text
  import opened Submissions
  import Distribution
  import Export

  /** What a `getDocs` call delivers: the documents, or a rejection, after
      which the awaiting load never reaches its state setters. */
  datatype Fetch<T> = Loaded(data: T) | FetchFailed

  /** How `addItem` ends: refused by the blank guard before the store is
      called, or after an `addDoc` of a document whose `name` is given,
      which the store accepted or rejected. */
  datatype AddOutcome = Blank | Stored(name: string) | StoreFailed(name: string)

  /** No registered label is blank. */
  ghost predicate NoBlankLabels(cats: seq<string>)
  {
    forall i :: 0 <= i < |cats| ==> Trim(cats[i]) != []
  }

  class Admin {
    var submissions: seq<Submission>
    var filteredSubmissions: seq<Submission>
    var categoryFilter: string
    var categories: seq<string>

    /** The table shows what the selector asks for over the loaded submissions. */
    ghost predicate InSync()
      reads this
    {
      filteredSubmissions == View(categoryFilter, submissions)
    }

    /** The initial `useState` values. */
    constructor ()
      ensures submissions == [] && filteredSubmissions == [] && categoryFilter == All && categories == []
      ensures InSync()
    {
      submissions := [];
      filteredSubmissions := [];
      categoryFilter := All;
      categories := [];
    }

    /** `fetchSubmissions`: a successful load replaces the submissions wholesale
        and shows all of them, whatever the selector holds; a failed one changes nothing. */
    method FetchSubmissions(response: Fetch<seq<Submission>>)
      modifies this
      ensures response.Loaded? ==> submissions == response.data && filteredSubmissions == response.data
      ensures response.FetchFailed? ==>
                submissions == old(submissions) && filteredSubmissions == old(filteredSubmissions)
      ensures categoryFilter == old(categoryFilter) && categories == old(categories)
      ensures response.Loaded? && categoryFilter == All ==> InSync()
      ensures response.FetchFailed? && old(InSync()) ==> InSync()
    {
      if response.Loaded? {
        var data := response.data;
        submissions := data;
        filteredSubmissions := data;
      }
    }

    /** `fetchCategories`: a successful load replaces the registry wholesale
        with the loaded names in order; a failed one changes nothing. */
    method FetchCategories(response: Fetch<seq<string>>)
      modifies this
      ensures categories == if response.Loaded? then response.data else old(categories)
      ensures submissions == old(submissions) && filteredSubmissions == old(filteredSubmissions)
      ensures categoryFilter == old(categoryFilter)
      ensures old(InSync()) ==> InSync()
    {
      if response.Loaded? {
        categories := response.data;
      }
    }

    /** `handleCategoryChange`: records the selection and shows all submissions
        for the sentinel, otherwise exactly those carrying the selected label,
        in order. Submissions and categories are untouched. */
    method HandleCategoryChange(category: string)
      modifies this
      ensures categoryFilter == category
      ensures category == All ==> filteredSubmissions == submissions
      ensures category != All ==> filteredSubmissions == Filter(submissions, category)
      ensures IsSubsequence(filteredSubmissions, submissions)
      ensures category != All ==> forall x :: x in filteredSubmissions <==> x in submissions && x.category == category
      ensures submissions == old(submissions) && categories == old(categories)
      ensures InSync()
    {
      categoryFilter := category;
      if category == All {
        filteredSubmissions := submissions;
        SubsequenceRefl(submissions);
      } else {
        filteredSubmissions := Filter(submissions, category);
        FilterIsSubsequence(submissions, category);
        forall x ensures x in filteredSubmissions <==> x in submissions && x.category == category {
          FilterMembership(submissions, category, x);
        }
      }
    }

    /** `addItem`: a blank label is refused before the store is called; any
        other label, untrimmed, is sent to the store and appended at the end of
        the registry, without deduplication, only once the store accepts it. */
    method AddItem(category: string, storeAccepts: bool) returns (outcome: AddOutcome)
      modifies this
      ensures outcome.Blank? <==> Trim(category) == []
      ensures !outcome.Blank? ==> outcome.name == category
      ensures outcome.Stored? <==> Trim(category) != [] && storeAccepts
      ensures categories == if outcome.Stored? then old(categories) + [category] else old(categories)
      ensures NoBlankLabels(old(categories)) ==> NoBlankLabels(categories)
      ensures submissions == old(submissions) && filteredSubmissions == old(filteredSubmissions)
      ensures categoryFilter == old(categoryFilter)
    {
      if Trim(category) == [] {
        return Blank;
      }
      if storeAccepts {
        categories := categories + [category];
        outcome := Stored(category);
      } else {
        outcome := StoreFailed(category);
      }
    }

    /** `categoryCounts`: keyed by exactly the registered labels, each mapping
        to the number of loaded submissions carrying it. */
    method CategoryCounts() returns (counts: map<string, nat>)
      ensures counts.Keys == set c | c in categories
      ensures forall c :: c in categories ==> counts[c] == Occurrences(submissions, c)
    {
      counts := Distribution.CategoryCounts(categories, submissions);
      Distribution.CategoryCountsSpec(categories, submissions);
    }

    /** `csvData` of `exportToCSV`: one row per shown submission, in order,
        carrying its four fields. */
    method CsvData() returns (rows: seq<Export.CsvRecord>)
      ensures |rows| == |filteredSubmissions|
      ensures forall i :: 0 <= i < |rows| ==>
                rows[i] == Export.CsvRecord(filteredSubmissions[i].name, filteredSubmissions[i].email,
                                            filteredSubmissions[i].message, filteredSubmissions[i].category)
    {
      rows := Export.CsvData(filteredSubmissions);
      forall i | 0 <= i < |rows|
        ensures rows[i] == Export.CsvRecord(filteredSubmissions[i].name, filteredSubmissions[i].email,
                                            filteredSubmissions[i].message, filteredSubmissions[i].category)
      {
        Export.CsvDataAt(filteredSubmissions, i);
      }
    }
  }

  /** A filter selected before the submissions arrive is not re-applied by the
      load: the selector keeps a registered label while the table shows every
      submission. */
  method StaleFilterAfterLoad()
  {
    var page := new Admin();
    page.FetchCategories(Loaded(["Roads"]));
    page.HandleCategoryChange("Roads");
    var late := Submission("A", "a@x.com", "pothole", "Parks");
    page.FetchSubmissions(Loaded([late]));
    assert page.categoryFilter == "Roads" && page.filteredSubmissions == [late];
    assert "Roads" in page.categories;
    assert Filter(page.submissions, "Roads") == [];
    assert !page.InSync();
  }

  /** The two loads write disjoint fields, so the order in which they
      complete does not matter. */
  method LoadOrderIrrelevant(subs: seq<Submission>, cats: seq<string>)
  {
    var first := new Admin();
    first.FetchSubmissions(Loaded(subs));
    first.FetchCategories(Loaded(cats));
    var second := new Admin();
    second.FetchCategories(Loaded(cats));
    second.FetchSubmissions(Loaded(subs));
    assert first.submissions == second.submissions == first.filteredSubmissions == second.filteredSubmissions == subs;
    assert first.categories == second.categories == cats;
    assert first.categoryFilter == second.categoryFilter == All;
    assert first.InSync() && second.InSync();
  }
}
