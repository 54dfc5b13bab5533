/**
 * `group_records_by_date` of `roller.py`: records are grouped by their
 * close-of-business date; each group lists its request numbers in input order
 * and the files its records name, each exact spelling once, in first-seen order.
 * A record whose completion date is missing or not a real date raises, and the
 * whole grouping is lost.
 */
module Grouping {
  import opened Wrappers
  import opened Text
  import opened Seqs
  import opened Records
  import opened CobDate
  import LineParser

  /** One group of the result: `{"ritms": ..., "files": ...}`. */
  datatype Entry = Entry(ritms: seq<string>, files: seq<string>)

  /** One group while it is being built, with the `seen_files` set beside the list. */
  datatype Building = Building(ritms: seq<string>, files: seq<string>, seen: set<string>)

  /** Files are compared exactly, with no case folding. */
  function Id(s: string): string
  {
    s
  }

  /** The COB date of a record, or `None` when the key is missing (KeyError) or the date
      does not parse (ValueError). */
  function CobOf(r: JsonRecord): Option<string>
  {
    match r.desiredCompletionDate
    case None => None
    case Some(s) => ParseCobDate(s)
  }

  /** The record's number, or "N/A" when the key is missing. */
  function NumberOf(r: JsonRecord): string
  {
    r.number.GetOr("N/A")
  }

  /** The record's files, or none when the key is missing. */
  function FilesOf(r: JsonRecord): seq<string>
  {
    r.files.GetOr([])
  }

  /** The group after one more record joins it. */
  function AddRecord(e: Entry, r: JsonRecord): Entry
  {
    Entry(e.ritms + [NumberOf(r)], DedupOnto(e.files, FilesOf(r), Id))
  }

  /** The grouping, record by record; `None` once a record cannot be dated. */
  function GroupAll(records: seq<JsonRecord>, cob: JsonRecord -> Option<string>): Option<map<string, Entry>>
  {
    if records == [] then Some(map[])
    else
      match GroupAll(records[..|records| - 1], cob)
      case None => None
      case Some(g) =>
        var r := records[|records| - 1];
        match cob(r)
        case None => None
        case Some(k) => Some(g[k := AddRecord(if k in g then g[k] else Entry([], []), r)])
  }

  /** The records whose COB date is `k`, in input order. */
  function InGroup(records: seq<JsonRecord>, cob: JsonRecord -> Option<string>, k: string): seq<JsonRecord>
  {
    if records == [] then []
    else
      var prev := InGroup(records[..|records| - 1], cob, k);
      var r := records[|records| - 1];
      if cob(r) == Some(k) then prev + [r] else prev
  }

  function Numbers(records: seq<JsonRecord>): seq<string>
  {
    if records == [] then [] else Numbers(records[..|records| - 1]) + [NumberOf(records[|records| - 1])]
  }

  /** The files of the records, one record after another. */
  function AllFiles(records: seq<JsonRecord>): seq<string>
  {
    if records == [] then [] else AllFiles(records[..|records| - 1]) + FilesOf(records[|records| - 1])
  }

  /** The dict comprehension at the end: the entries without their `seen_files`. */
  function Project(grouped: map<string, Building>): map<string, Entry>
  {
    map k | k in grouped :: Entry(grouped[k].ritms, grouped[k].files)
  }

  /** `group_records_by_date`. */
  method GroupRecordsByDate(records: seq<JsonRecord>) returns (result: Option<map<string, Entry>>)
    ensures result == GroupAll(records, CobOf)
  {
    result := GroupRecordsWith(records, CobOf);
  }

  /** The loops of `group_records_by_date`, for any way `cob` of dating a record. */
  method GroupRecordsWith(records: seq<JsonRecord>, cob: JsonRecord -> Option<string>)
      returns (result: Option<map<string, Entry>>)
    ensures result == GroupAll(records, cob)
  {
    var grouped: map<string, Building> := map[];
    for i := 0 to |records|
      invariant GroupAll(records[..i], cob) == Some(Project(grouped))
      invariant forall k :: k in grouped ==> grouped[k].seen == Keys(grouped[k].files, Id)
    {
      var record := records[i];
      assert records[..i + 1][..i] == records[..i];
      var cobDate := cob(record);
      if cobDate.None? {
        FailureSticks(records[..i + 1], records[i + 1..], cob);
        assert records[..i + 1] + records[i + 1..] == records;
        return None;
      }
      var key := cobDate.value;
      var entry := if key in grouped then grouped[key] else Building([], [], {});
      var ritms := entry.ritms + [NumberOf(record)];
      var files, seen := AddFiles(entry.files, entry.seen, FilesOf(record));
      ghost var g := Project(grouped);
      assert Entry(ritms, files) == AddRecord(if key in g then g[key] else Entry([], []), record);
      ProjectUpdate(grouped, key, Building(ritms, files, seen));
      grouped := grouped[key := Building(ritms, files, seen)];
    }
    assert records[..|records|] == records;
    return Some(Project(grouped));
  }

  lemma ProjectUpdate(grouped: map<string, Building>, k: string, b: Building)
    ensures Project(grouped[k := b]) == Project(grouped)[k := Entry(b.ritms, b.files)]
  {
  }

  /** The inner loop: each file of the record not seen yet in its group is appended and marked seen. */
  method AddFiles(files0: seq<string>, seen0: set<string>, recordFiles: seq<string>)
      returns (files: seq<string>, seen: set<string>)
    requires seen0 == Keys(files0, Id)
    ensures files == DedupOnto(files0, recordFiles, Id)
    ensures seen == Keys(files, Id)
  {
    files, seen := files0, seen0;
    for j := 0 to |recordFiles|
      invariant files == DedupOnto(files0, recordFiles[..j], Id)
      invariant seen == Keys(files, Id)
    {
      var f := recordFiles[j];
      assert recordFiles[..j + 1][..j] == recordFiles[..j];
      if f !in seen {
        files := files + [f];
        seen := seen + {f};
        assert files[..|files| - 1] == DedupOnto(files0, recordFiles[..j], Id);
      }
    }
    assert recordFiles[..|recordFiles|] == recordFiles;
  }

  lemma {:induction false} FailureSticks(a: seq<JsonRecord>, b: seq<JsonRecord>, cob: JsonRecord -> Option<string>)
    requires GroupAll(a, cob).None?
    ensures GroupAll(a + b, cob).None?
    decreases |b|
  {
    if b == [] {
      assert a + b == a;
    } else {
      assert (a + b)[..|a + b| - 1] == a + b[..|b| - 1];
      FailureSticks(a, b[..|b| - 1], cob);
    }
  }

  /** The grouping is lost exactly when some record cannot be dated. */
  lemma {:induction false} GroupFails(records: seq<JsonRecord>, cob: JsonRecord -> Option<string>)
    ensures GroupAll(records, cob).None? <==> exists i :: 0 <= i < |records| && cob(records[i]).None?
  {
    if records != [] {
      var prev := records[..|records| - 1];
      GroupFails(prev, cob);
      if exists i :: 0 <= i < |prev| && cob(prev[i]).None? {
        var i :| 0 <= i < |prev| && cob(prev[i]).None?;
        assert records[i] == prev[i];
      }
      if exists i :: 0 <= i < |records| && cob(records[i]).None? {
        var i :| 0 <= i < |records| && cob(records[i]).None?;
        if i < |prev| {
          assert prev[i] == records[i];
        }
      }
    }
  }

  /** The keys of the result are exactly the COB dates of the records. */
  lemma {:induction false} GroupKeys(records: seq<JsonRecord>, cob: JsonRecord -> Option<string>, k: string)
    requires GroupAll(records, cob).Some?
    ensures k in GroupAll(records, cob).value <==> exists i :: 0 <= i < |records| && cob(records[i]) == Some(k)
  {
    if records != [] {
      var prev := records[..|records| - 1];
      GroupKeys(prev, cob, k);
      if exists i :: 0 <= i < |prev| && cob(prev[i]) == Some(k) {
        var i :| 0 <= i < |prev| && cob(prev[i]) == Some(k);
        assert records[i] == prev[i];
      }
      if exists i :: 0 <= i < |records| && cob(records[i]) == Some(k) {
        var i :| 0 <= i < |records| && cob(records[i]) == Some(k);
        if i < |prev| {
          assert prev[i] == records[i];
        }
      }
    }
  }

  /** A date no record has has no records in its group. */
  lemma {:induction false} InGroupEmpty(records: seq<JsonRecord>, cob: JsonRecord -> Option<string>, k: string)
    requires forall i :: 0 <= i < |records| ==> cob(records[i]) != Some(k)
    ensures InGroup(records, cob, k) == []
  {
    if records != [] {
      InGroupEmpty(records[..|records| - 1], cob, k);
    }
  }

  /** Each group lists the numbers of its records in input order, and the deduplicated
      concatenation of their files. */
  lemma {:induction false} GroupEntry(records: seq<JsonRecord>, cob: JsonRecord -> Option<string>, k: string)
    requires GroupAll(records, cob).Some? && k in GroupAll(records, cob).value
    ensures GroupAll(records, cob).value[k] == Entry(Numbers(InGroup(records, cob, k)), DedupBy(AllFiles(InGroup(records, cob, k)), Id))
  {
    var prev := records[..|records| - 1];
    var r := records[|records| - 1];
    var g := GroupAll(prev, cob).value;
    var kr := cob(r).value;
    if kr == k {
      var e := if k in g then g[k] else Entry([], []);
      if k in g {
        GroupEntry(prev, cob, k);
      } else {
        forall i | 0 <= i < |prev|
          ensures cob(prev[i]) != Some(k)
        {
          GroupKeys(prev, cob, k);
        }
        InGroupEmpty(prev, cob, k);
      }
      DedupOntoAppend([], AllFiles(InGroup(prev, cob, k)), FilesOf(r), Id);
    } else {
      GroupEntry(prev, cob, k);
    }
  }

  /** The facts of one group's file list: no exact duplicates, every file of every record of
      the group present, and the first-seen order of those files kept. */
  lemma GroupFiles(records: seq<JsonRecord>, cob: JsonRecord -> Option<string>, k: string)
    requires GroupAll(records, cob).Some? && k in GroupAll(records, cob).value
    ensures var files := GroupAll(records, cob).value[k].files; var all := AllFiles(InGroup(records, cob, k));
      && DistinctKeys(files, Id)
      && (forall f :: f in files <==> f in all)
      && IsSubseq(files, all)
      && (forall i :: 0 <= i < |files| ==> files[i] in Keys(all, Id))
      && (forall i, j :: 0 <= i < j < |files| ==> FirstIndex(all, files[i], Id) < FirstIndex(all, files[j], Id))
  {
    GroupEntry(records, cob, k);
    var all := AllFiles(InGroup(records, cob, k));
    var files := DedupBy(all, Id);
    DedupDistinct(all, Id);
    DedupCovers(all, Id);
    DedupSubseq(all, Id);
    DedupOrder(all, Id);
    forall f
      ensures f in files <==> f in all
    {
      KeysMember(files, Id, f);
      KeysMember(all, Id, f);
    }
  }

  /** The hand-over between the stages: a record the line parser built from a "DD/MM/YYYY"
      completion token and stored as JSON is dated by its reordered token, and gets a COB key
      exactly when that token is a real date, the key being "YYYYMMDD". */
  lemma StoredCob(r: Record, d: nat, m: nat, y: nat)
    requires y < 10000 && m < 100 && d < 100
    requires LineParser.ParseDate(Pad2(d) + "/" + Pad2(m) + "/" + Digits4(y)) == Some(r.desiredCompletionDate)
    ensures CobOf(Store(r)) == ParseCobDate(r.desiredCompletionDate)
    ensures CobOf(Store(r)) == if ValidDate(y, m, d) then Some(Digits4(y) + Pad2(m) + Pad2(d)) else None
  {
    ReorderedDate(d, m, y);
  }

  /** The number of request numbers over all groups. */
  ghost function TotalRitms(g: map<string, Entry>): nat
    decreases |g.Keys|
  {
    if g == map[] then 0
    else
      var k :| k in g;
      |g[k].ritms| + TotalRitms(g - {k})
  }

  /** The total does not depend on which key is taken first. */
  lemma {:induction false} TotalRemove(g: map<string, Entry>, k: string)
    requires k in g
    ensures TotalRitms(g) == |g[k].ritms| + TotalRitms(g - {k})
    decreases |g.Keys|
  {
    var k' :| k' in g && TotalRitms(g) == |g[k'].ritms| + TotalRitms(g - {k'});
    if k' != k {
      var h := g - {k'};
      assert k in h;
      TotalRemove(h, k);
      assert h - {k} == (g - {k}) - {k'};
      TotalRemove(g - {k}, k');
    }
  }

  lemma TotalUpdate(g: map<string, Entry>, k: string, e: Entry)
    ensures TotalRitms(g[k := e]) == |e.ritms| + TotalRitms(g - {k})
  {
    TotalRemove(g[k := e], k);
    assert g[k := e] - {k} == g - {k};
  }

  /** Every record is listed in exactly one group: the groups' lists together are as long as
      the input. */
  lemma {:induction false} GroupTotal(records: seq<JsonRecord>, cob: JsonRecord -> Option<string>)
    requires GroupAll(records, cob).Some?
    ensures TotalRitms(GroupAll(records, cob).value) == |records|
  {
    if records != [] {
      var prev := records[..|records| - 1];
      var g := GroupAll(prev, cob).value;
      var r := records[|records| - 1];
      var k := cob(r).value;
      GroupTotal(prev, cob);
      var e := if k in g then g[k] else Entry([], []);
      TotalUpdate(g, k, AddRecord(e, r));
      if k in g {
        TotalRemove(g, k);
      } else {
        assert g - {k} == g;
      }
    }
  }

  /** The groups are keyed by real dates written as eight digits "YYYYMMDD". */
  lemma CobKeys(records: seq<JsonRecord>, k: string)
    requires GroupAll(records, CobOf).Some? && k in GroupAll(records, CobOf).value
    ensures |k| == 8 && AllDigits(k) && ValidDate(NumOf(k[..4]), NumOf(k[4..6]), NumOf(k[6..]))
  {
    GroupKeys(records, CobOf, k);
    var i :| 0 <= i < |records| && CobOf(records[i]) == Some(k);
  }
}
