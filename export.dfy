/** The rows handed to the CSV encoder on export: the admin page's
    `filteredSubmissions.map(submission => ({ Name, Email, Message, Category }))`. */
module Export {
  import opened Submissions

  /** One exported row, with the column names the encoder writes as its header. */
  datatype CsvRecord = CsvRecord(Name: string, Email: string, Message: string, Category: string)

  /** The row of one submission: its four fields under the column names. */
  function ToRecord(s: Submission): (r: CsvRecord)
    ensures FromRecord(r) == s
  {
    CsvRecord(s.name, s.email, s.message, s.category)
  }

  /** The `csvData` array: one row per submission, in the same order. */
  function CsvData(subs: seq<Submission>): (rows: seq<CsvRecord>)
    ensures |rows| == |subs|
  {
    if subs == [] then [] else [ToRecord(subs[0])] + CsvData(subs[1..])
  }

  function FromRecord(r: CsvRecord): Submission
  {
    Submission(r.Name, r.Email, r.Message, r.Category)
  }

  /** Reads exported rows back as submissions. */
  function Restore(rows: seq<CsvRecord>): (subs: seq<Submission>)
    ensures |subs| == |rows|
  {
    if rows == [] then [] else [FromRecord(rows[0])] + Restore(rows[1..])
  }

  /** Row `i` carries the name, email, message and category of submission `i`. */
  lemma {:induction false} CsvDataAt(subs: seq<Submission>, i: nat)
    requires i < |subs|
    ensures CsvData(subs)[i] == CsvRecord(subs[i].name, subs[i].email, subs[i].message, subs[i].category)
  {
    if i > 0 {
      CsvDataAt(subs[1..], i - 1);
    }
  }

  /** The projection loses nothing: the four columns determine the submission. */
  lemma {:induction false} CsvDataLossless(subs: seq<Submission>)
    ensures Restore(CsvData(subs)) == subs
  {
    if subs != [] {
      CsvDataLossless(subs[1..]);
      assert CsvData(subs)[1..] == CsvData(subs[1..]);
    }
  }

  /** Exporting a concatenation exports the parts one after the other. */
  lemma {:induction false} CsvDataAppend(a: seq<Submission>, b: seq<Submission>)
    ensures CsvData(a + b) == CsvData(a) + CsvData(b)
  {
    if a == [] {
      assert a + b == b;
    } else {
      assert (a + b)[1..] == a[1..] + b;
      CsvDataAppend(a[1..], b);
    }
  }
}
