/** Complaint submissions and the category filter of the admin page
    (`submissions.filter(submission => submission.category === category)`). */
module Submissions {

  /** One complaint record as loaded from the "complaints" collection. */
  datatype Submission = Submission(name: string, email: string, message: string, category: string)

  /** The filter value of the "All Categories" entry. */
  const All: string := ""

  /** The submissions whose category is exactly `category`, in their original order. */
  function Filter(subs: seq<Submission>, category: string): (r: seq<Submission>)
    ensures |r| <= |subs|
    ensures forall i :: 0 <= i < |r| ==> r[i].category == category
    ensures multiset(r) <= multiset(subs)
  {
    if subs == [] then []
    else
      assert subs == [subs[0]] + subs[1..];
      if subs[0].category == category then [subs[0]] + Filter(subs[1..], category)
      else Filter(subs[1..], category)
  }

  /** The table's contents for a selector value: everything for the sentinel,
      otherwise exactly the submissions carrying the selected label, in order,
      each as often as it occurs among the submissions. */
  function View(filter: string, subs: seq<Submission>): (r: seq<Submission>)
    ensures filter == All ==> r == subs
    ensures filter != All ==> forall x :: x in r <==> x in subs && x.category == filter
    ensures filter != All ==> |r| == Occurrences(subs, filter)
    ensures IsSubsequence(r, subs)
  {
    if filter == All then
      SubsequenceRefl(subs);
      subs
    else
      FilterIsSubsequence(subs, filter);
      FilterLength(subs, filter);
      assert forall x :: x in Filter(subs, filter) <==> x in subs && x.category == filter by {
        forall x { FilterMembership(subs, filter, x); }
      }
      Filter(subs, filter)
  }

  /** `r` is obtained from `s` by deleting elements, keeping the order of the rest. */
  ghost predicate IsSubsequence<T>(r: seq<T>, s: seq<T>)
  {
    if r == [] then true
    else if s == [] then false
    else (r[0] == s[0] && IsSubsequence(r[1..], s[1..])) || IsSubsequence(r, s[1..])
  }

  /** The category labels of the submissions, in order. */
  function CategoriesOf(subs: seq<Submission>): (r: seq<string>)
    ensures |r| == |subs|
  {
    if subs == [] then [] else [subs[0].category] + CategoriesOf(subs[1..])
  }

  /** How many submissions carry the label `category`. */
  function Occurrences(subs: seq<Submission>, category: string): nat
  {
    multiset(CategoriesOf(subs))[category]
  }

  /** A submission is in the filtered view exactly when it is one of the
      submissions and its category equals the selection. */
  lemma {:induction false} FilterMembership(subs: seq<Submission>, category: string, x: Submission)
    ensures x in Filter(subs, category) <==> x in subs && x.category == category
  {
    if subs != [] {
      FilterMembership(subs[1..], category, x);
      assert x in subs <==> x == subs[0] || x in subs[1..];
    }
  }

  /** Filtering commutes with concatenation: the relative order of the
      submissions is what the filtered view keeps. */
  lemma {:induction false} FilterAppend(a: seq<Submission>, b: seq<Submission>, category: string)
    ensures Filter(a + b, category) == Filter(a, category) + Filter(b, category)
  {
    if a == [] {
      assert a + b == b;
    } else {
      assert (a + b)[1..] == a[1..] + b;
      FilterAppend(a[1..], b, category);
    }
  }

  /** The filtered view is an order-preserving subsequence of the submissions. */
  lemma {:induction false} FilterIsSubsequence(subs: seq<Submission>, category: string)
    ensures IsSubsequence(Filter(subs, category), subs)
  {
    if subs != [] {
      FilterIsSubsequence(subs[1..], category);
      var r := Filter(subs, category);
      if subs[0].category == category {
        assert r[0] == subs[0] && r[1..] == Filter(subs[1..], category);
      }
    }
  }

  /** The filter keeps everything exactly when every submission carries the label. */
  lemma {:induction false} FilterKeepsAllIff(subs: seq<Submission>, category: string)
    ensures Filter(subs, category) == subs <==> forall i :: 0 <= i < |subs| ==> subs[i].category == category
  {
    if subs != [] && forall i :: 0 <= i < |subs| ==> subs[i].category == category {
      assert forall i :: 0 <= i < |subs[1..]| ==> subs[1..][i].category == subs[i + 1].category;
      FilterKeepsAllIff(subs[1..], category);
      assert subs == [subs[0]] + subs[1..];
    }
  }

  /** A label no submission carries selects the empty sequence, and only such a label does. */
  lemma {:induction false} FilterEmptyIff(subs: seq<Submission>, category: string)
    ensures Filter(subs, category) == [] <==> forall i :: 0 <= i < |subs| ==> subs[i].category != category
  {
    if subs != [] {
      FilterEmptyIff(subs[1..], category);
      assert forall i :: 1 <= i < |subs| ==> subs[i] == subs[1..][i - 1];
    }
  }

  /** Re-applying the same filter to the filtered view changes nothing. */
  lemma FilterIdempotent(subs: seq<Submission>, category: string)
    ensures Filter(Filter(subs, category), category) == Filter(subs, category)
  {
  }

  /** The filtered view has one element per submission carrying the label. */
  lemma {:induction false} FilterLength(subs: seq<Submission>, category: string)
    ensures |Filter(subs, category)| == Occurrences(subs, category)
  {
    if subs != [] {
      FilterLength(subs[1..], category);
      assert multiset(CategoriesOf(subs)) == multiset{subs[0].category} + multiset(CategoriesOf(subs[1..]));
    }
  }

  /** Every sequence is a subsequence of itself. */
  lemma {:induction false} SubsequenceRefl<T>(s: seq<T>)
    ensures IsSubsequence(s, s)
  {
    if s != [] {
      SubsequenceRefl(s[1..]);
    }
  }
}
