/** The per-category distribution shown in the pie chart: the admin page's
    `categories.reduce((acc, category) => { acc[category] = ...length; return acc }, {})`. */
module Distribution {
  import opened Submissions

  /** The reduce step by step: every label in `cats`, from left to right,
      writes the number of submissions carrying it into the accumulator. */
  function Tally(acc: map<string, nat>, cats: seq<string>, subs: seq<Submission>): map<string, nat>
    decreases cats
  {
    if cats == [] then acc
    else Tally(acc[cats[0] := |Filter(subs, cats[0])|], cats[1..], subs)
  }

  /** The `categoryCounts` object, starting from the empty accumulator `{}`. */
  function CategoryCounts(cats: seq<string>, subs: seq<Submission>): map<string, nat>
  {
    Tally(map[], cats, subs)
  }

  /** What the reduce produces from any accumulator: the keys gain exactly the
      labels of `cats`, each label maps to its count, and every other key keeps its value. */
  lemma {:induction false} TallySpec(acc: map<string, nat>, cats: seq<string>, subs: seq<Submission>)
    ensures Tally(acc, cats, subs).Keys == acc.Keys + set c | c in cats
    ensures forall c :: c in cats ==> Tally(acc, cats, subs)[c] == |Filter(subs, c)|
    ensures forall c :: c in acc && c !in cats ==> Tally(acc, cats, subs)[c] == acc[c]
    decreases cats
  {
    if cats != [] {
      var acc' := acc[cats[0] := |Filter(subs, cats[0])|];
      TallySpec(acc', cats[1..], subs);
      assert forall c :: c in cats <==> c == cats[0] || c in cats[1..];
    }
  }

  /** The distribution is keyed by exactly the registered labels; each maps to
      the number of submissions carrying it (0 when none does). A submission
      whose label is not registered appears under no key. */
  lemma CategoryCountsSpec(cats: seq<string>, subs: seq<Submission>)
    ensures CategoryCounts(cats, subs).Keys == set c | c in cats
    ensures forall c :: c in cats ==> CategoryCounts(cats, subs)[c] == Occurrences(subs, c)
    ensures forall c :: c in cats && (forall i :: 0 <= i < |subs| ==> subs[i].category != c) ==>
                        CategoryCounts(cats, subs)[c] == 0
    ensures forall i :: 0 <= i < |subs| && subs[i].category !in cats ==> subs[i].category !in CategoryCounts(cats, subs)
  {
    TallySpec(map[], cats, subs);
    forall c | c in cats ensures CategoryCounts(cats, subs)[c] == Occurrences(subs, c) {
      FilterLength(subs, c);
    }
    forall c | c in cats && (forall i :: 0 <= i < |subs| ==> subs[i].category != c)
      ensures CategoryCounts(cats, subs)[c] == 0
    {
      FilterEmptyIff(subs, c);
    }
  }

  /** One more submission adds one to the count of its own label when that
      label is registered and changes nothing else; an unregistered label
      contributes to no count. */
  lemma CountsAfterSubmission(cats: seq<string>, subs: seq<Submission>, x: Submission)
    ensures CategoryCounts(cats, subs).Keys == CategoryCounts(cats, subs + [x]).Keys == set c | c in cats
    ensures forall c :: c in cats ==>
              CategoryCounts(cats, subs + [x])[c] == CategoryCounts(cats, subs)[c] + (if x.category == c then 1 else 0)
  {
    TallySpec(map[], cats, subs);
    TallySpec(map[], cats, subs + [x]);
    forall c | c in cats
      ensures CategoryCounts(cats, subs + [x])[c] == CategoryCounts(cats, subs)[c] + (if x.category == c then 1 else 0)
    {
      FilterAppend(subs, [x], c);
    }
  }

  /** Registering a label twice does not change the distribution: the second
      write of the reduce stores the same count again. */
  lemma DuplicateLabelHarmless(cats: seq<string>, subs: seq<Submission>, name: string)
    requires name in cats
    ensures CategoryCounts(cats + [name], subs) == CategoryCounts(cats, subs)
  {
    var m, m' := CategoryCounts(cats, subs), CategoryCounts(cats + [name], subs);
    TallySpec(map[], cats, subs);
    TallySpec(map[], cats + [name], subs);
    forall c ensures c in m' <==> c in m {
      assert c in cats + [name] <==> c in cats;
    }
    forall c | c in m ensures m'[c] == m[c] {
      assert c in cats + [name];
    }
    assert m' == m;
  }
}
