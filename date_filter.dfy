/**
 * The date filter of `actionable_ritm.py`: a set of open dates is read from a
 * file of lines, and the records whose desired completion date is one of them
 * are kept, in order and unchanged.
 */
module DateFilter {
  import opened Wrappers
  import opened Text
  import opened Seqs
  import opened Records

  /** `load_open_dates` after the file is opened: every line, stripped, unless that leaves nothing. */
  method LoadOpenDates(lines: seq<string>) returns (dates: set<string>)
    ensures forall d :: d in dates <==> d != [] && exists i :: 0 <= i < |lines| && Strip(lines[i]) == d
    ensures "" !in dates
  {
    dates := {};
    for k := 0 to |lines|
      invariant forall d :: d in dates <==> d != [] && exists i :: 0 <= i < k && Strip(lines[i]) == d
    {
      var date := Strip(lines[k]);
      if date != [] {
        dates := dates + {date};
      }
    }
  }

  /** The record's desired completion date, or the empty string when the key is missing. */
  function CompletionKey(r: JsonRecord): string
  {
    r.desiredCompletionDate.GetOr("")
  }

  /** The records whose completion date is in `dates`, in input order. */
  function Kept(records: seq<JsonRecord>, dates: set<string>): seq<JsonRecord>
  {
    if records == [] then []
    else
      var prev := Kept(records[..|records| - 1], dates);
      var r := records[|records| - 1];
      if CompletionKey(r) in dates then prev + [r] else prev
  }

  /** `filter_valid_records`. */
  method FilterValidRecords(records: seq<JsonRecord>, dates: set<string>) returns (valid: seq<JsonRecord>)
    ensures valid == Kept(records, dates)
  {
    valid := [];
    for i := 0 to |records|
      invariant valid == Kept(records[..i], dates)
    {
      assert records[..i + 1][..i] == records[..i];
      var completionDate := CompletionKey(records[i]);
      if completionDate in dates {
        valid := valid + [records[i]];
      }
    }
    assert records[..|records|] == records;
  }

  /** The kept records are records of the input, unmodified and in their input order. */
  lemma {:induction false} KeptSubseq(records: seq<JsonRecord>, dates: set<string>)
    ensures IsSubseq(Kept(records, dates), records)
  {
    if records != [] {
      var prev := records[..|records| - 1];
      KeptSubseq(prev, dates);
      var k := Kept(records, dates);
      if CompletionKey(records[|records| - 1]) in dates {
        assert k[..|k| - 1] == Kept(prev, dates);
      }
    }
  }

  lemma KeptLength(records: seq<JsonRecord>, dates: set<string>)
    ensures |Kept(records, dates)| <= |records|
  {
    KeptSubseq(records, dates);
    SubseqLength(Kept(records, dates), records);
  }

  /** A record is kept exactly when it is in the input and its completion date is open. */
  lemma {:induction false} KeptMembers(records: seq<JsonRecord>, dates: set<string>, r: JsonRecord)
    ensures r in Kept(records, dates) <==> r in records && CompletionKey(r) in dates
  {
    if records != [] {
      var prev := records[..|records| - 1];
      KeptMembers(prev, dates, r);
      assert records == prev + [records[|records| - 1]];
    }
  }

  /** Filtering the output again with the same set changes nothing. */
  lemma {:induction false} KeptIdempotent(records: seq<JsonRecord>, dates: set<string>)
    ensures Kept(Kept(records, dates), dates) == Kept(records, dates)
  {
    if records != [] {
      var prev := records[..|records| - 1];
      KeptIdempotent(prev, dates);
      var k := Kept(records, dates);
      if CompletionKey(records[|records| - 1]) in dates {
        assert k[..|k| - 1] == Kept(prev, dates);
      }
    }
  }

  /** With no open dates nothing is kept. */
  lemma {:induction false} KeptNone(records: seq<JsonRecord>)
    ensures Kept(records, {}) == []
  {
    if records != [] {
      KeptNone(records[..|records| - 1]);
    }
  }

  /** Filtering distributes over concatenation of the record list. */
  lemma {:induction false} KeptAppend(a: seq<JsonRecord>, b: seq<JsonRecord>, dates: set<string>)
    ensures Kept(a + b, dates) == Kept(a, dates) + Kept(b, dates)
    decreases |b|
  {
    if b == [] {
      assert a + b == a;
    } else {
      var b' := b[..|b| - 1];
      assert (a + b)[..|a + b| - 1] == a + b';
      KeptAppend(a, b', dates);
    }
  }

  /** Against a set loaded by `load_open_dates`, which never holds "", a record without a
      completion date is never kept. */
  lemma MissingDateNeverKept(records: seq<JsonRecord>, dates: set<string>, r: JsonRecord)
    requires "" !in dates && r.desiredCompletionDate.None?
    ensures r !in Kept(records, dates)
  {
    KeptMembers(records, dates, r);
  }
}
