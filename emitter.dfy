/**
 * The manifest emitter of `roller.py`: the groups are visited in ascending
 * COB-date order; each group that lists files has its manifest written to the
 * shared staging file `tmp/DEALS.DAT`, which is then copied into the group's
 * directory `w_bypass/<cob>`.
 *
 * The file system is a `Disk`: the contents of the regular files by path, and
 * the set of directories that have been created.
 */
module Emitter {
  import opened Text
  import opened Grouping

  /** `os.path.join(a, b)` on POSIX: an absolute `b` replaces `a`; otherwise one '/' separates them. */
  function PathJoin(a: string, b: string): string
  {
    if |b| > 0 && b[0] == '/' then b
    else if a == [] || a[|a| - 1] == '/' then a + b
    else a + "/" + b
  }

  const BaseDir: string := ""
  const TmpDir: string := PathJoin(BaseDir, "tmp")
  const WBypassDir: string := PathJoin(BaseDir, "w_bypass")
  const DealsDat: string := PathJoin(TmpDir, "DEALS.DAT")

  /** The directory a COB date's manifest is copied to. */
  function DestDir(cob: string): string
  {
    PathJoin(WBypassDir, cob)
  }

  /** Where `shutil.copy` puts the staging file: the directory plus the file's base name. */
  function DestFile(cob: string): string
  {
    PathJoin(DestDir(cob), "DEALS.DAT")
  }

  /** With BASE_DIR empty the paths are relative: "tmp/DEALS.DAT" and "w_bypass/<cob>/DEALS.DAT". */
  lemma Paths(cob: string)
    requires cob != [] && '/' !in cob
    ensures DealsDat == "tmp/DEALS.DAT"
    ensures DestDir(cob) == "w_bypass/" + cob
    ensures DestFile(cob) == "w_bypass/" + cob + "/DEALS.DAT"
  {
    assert cob[0] in cob;
    assert cob[|cob| - 1] in cob;
    assert ("w_bypass/" + cob)[|"w_bypass/" + cob| - 1] == cob[|cob| - 1];
  }

  /** Distinct dates get distinct destinations, and none of them is the staging file. */
  lemma DestFileDistinct(a: string, b: string)
    requires a != [] && '/' !in a && b != [] && '/' !in b
    ensures DestFile(a) != DealsDat
    ensures a != b ==> DestFile(a) != DestFile(b)
  {
    Paths(a);
    Paths(b);
    assert DestFile(a)[0] == 'w';
    if DestFile(a) == DestFile(b) {
      assert |a| == |b|;
      assert a == DestFile(a)[9..9 + |a|];
      assert b == DestFile(b)[9..9 + |b|];
    }
  }

  /** What `write_deals_dat` writes: the files, one per line, each line ended by a newline. */
  function Manifest(files: seq<string>): string
  {
    Join("\n", files) + "\n"
  }

  lemma {:induction false} JoinSnoc(sep: string, ps: seq<string>, x: string)
    requires ps != []
    ensures Join(sep, ps + [x]) == Join(sep, ps) + sep + x
    decreases |ps|
  {
    if |ps| == 1 {
      assert (ps + [x])[1..] == [x];
    } else {
      assert (ps + [x])[1..] == ps[1..] + [x];
      JoinSnoc(sep, ps[1..], x);
    }
  }

  /** Reading the manifest back line by line gives the files, then the empty text after the
      final newline. */
  lemma ManifestLines(files: seq<string>)
    requires files != [] && forall i :: 0 <= i < |files| ==> '\n' !in files[i]
    ensures SplitOn(Manifest(files), '\n') == files + [""]
  {
    JoinSnoc("\n", files, "");
    assert Join("\n", files) + "\n" + "" == Manifest(files);
    SplitOnJoin(files + [""], '\n');
  }

  /** Each element is below the next, by Python's string order. */
  predicate StrictlyAscending(keys: seq<string>)
  {
    forall i, j :: 0 <= i < j < |keys| ==> StrLess(keys[i], keys[j])
  }

  /** The keys of `grouped` in ascending order: `sorted(grouped.items())` compares the keys
      alone, since they are distinct. */
  method SortedKeys(grouped: map<string, Entry>) returns (keys: seq<string>)
    ensures StrictlyAscending(keys)
    ensures forall k :: k in keys <==> k in grouped
  {
    var remaining := grouped.Keys;
    keys := [];
    while remaining != {}
      invariant remaining <= grouped.Keys
      invariant forall k :: k in keys <==> k in grouped && k !in remaining
      invariant StrictlyAscending(keys)
      invariant forall i, y :: 0 <= i < |keys| && y in remaining ==> StrLess(keys[i], y)
      decreases |remaining|
    {
      LeastExists(remaining);
      var m :| m in remaining && forall x :: x in remaining ==> !StrLess(x, m);
      forall y | y in remaining - {m}
        ensures StrLess(m, y)
      {
        StrLessTotal(m, y);
      }
      keys := keys + [m];
      remaining := remaining - {m};
    }
  }

  /** The keys of `keys` whose group lists at least one file, in the same order. */
  function Emittable(keys: seq<string>, grouped: map<string, Entry>): seq<string>
  {
    if keys == [] then []
    else
      var prev := Emittable(keys[..|keys| - 1], grouped);
      var k := keys[|keys| - 1];
      if k in grouped && grouped[k].files != [] then prev + [k] else prev
  }

  lemma {:induction false} EmittableMembers(keys: seq<string>, grouped: map<string, Entry>, k: string)
    ensures k in Emittable(keys, grouped) <==> k in keys && k in grouped && grouped[k].files != []
  {
    if keys != [] {
      var prev := keys[..|keys| - 1];
      EmittableMembers(prev, grouped, k);
      assert keys == prev + [keys[|keys| - 1]];
    }
  }

  /** Leaving keys out of an ascending list keeps it ascending. */
  lemma {:induction false} EmittableAscending(keys: seq<string>, grouped: map<string, Entry>)
    requires StrictlyAscending(keys)
    ensures StrictlyAscending(Emittable(keys, grouped))
  {
    if keys != [] {
      var prev := keys[..|keys| - 1];
      var k := keys[|keys| - 1];
      var e := Emittable(prev, grouped);
      EmittableAscending(prev, grouped);
      if k in grouped && grouped[k].files != [] {
        forall i | 0 <= i < |e|
          ensures StrLess(e[i], k)
        {
          EmittableMembers(prev, grouped, e[i]);
          var j :| 0 <= j < |prev| && prev[j] == e[i];
          assert keys[j] == e[i];
        }
      }
    }
  }

  /** The contents after the groups of `emitted` have been written and copied, in order. */
  function EmitAll(contents: map<string, string>, emitted: seq<string>, grouped: map<string, Entry>): map<string, string>
    requires forall k :: k in emitted ==> k in grouped
  {
    if emitted == [] then contents
    else
      var k := emitted[|emitted| - 1];
      var manifest := Manifest(grouped[k].files);
      EmitAll(contents, emitted[..|emitted| - 1], grouped)[DealsDat := manifest][DestFile(k) := manifest]
  }

  /** The directories the same emission creates. */
  function EmitDirs(emitted: seq<string>): set<string>
  {
    if emitted == [] then {} else EmitDirs(emitted[..|emitted| - 1]) + {TmpDir, DestDir(emitted[|emitted| - 1])}
  }

  /** The file system as far as these stages touch it. */
  class Disk {
    var contents: map<string, string>
    var dirs: set<string>

    constructor (contents0: map<string, string>, dirs0: set<string>)
      ensures contents == contents0 && dirs == dirs0
    {
      contents := contents0;
      dirs := dirs0;
    }

    /** `write_deals_dat`: make the staging directory and overwrite the staging file. */
    method WriteDealsDat(files: seq<string>)
      modifies this
      ensures dirs == old(dirs) + {TmpDir}
      ensures contents == old(contents)[DealsDat := Manifest(files)]
    {
      dirs := dirs + {TmpDir};
      contents := contents[DealsDat := Manifest(files)];
    }

    /** `copy_deals_dat`: make the destination directory, then copy the staging file into it.
        Without a staging file the copy raises; `ok` is false and no file changes. */
    method CopyDealsDat(cob: string) returns (ok: bool)
      modifies this
      ensures dirs == old(dirs) + {DestDir(cob)}
      ensures ok <==> DealsDat in old(contents)
      ensures ok ==> contents == old(contents)[DestFile(cob) := old(contents)[DealsDat]]
      ensures !ok ==> contents == old(contents)
    {
      dirs := dirs + {DestDir(cob)};
      if DealsDat !in contents {
        return false;
      }
      contents := contents[DestFile(cob) := contents[DealsDat]];
      return true;
    }

    /** `process_grouped`: every group with files, in ascending key order, is written to the
        staging file and copied to its directory; `emitted` lists those keys in that order. */
    method ProcessGrouped(grouped: map<string, Entry>) returns (emitted: seq<string>)
      modifies this
      ensures StrictlyAscending(emitted)
      ensures forall k :: k in emitted <==> k in grouped && grouped[k].files != []
      ensures contents == EmitAll(old(contents), emitted, grouped)
      ensures dirs == old(dirs) + EmitDirs(emitted)
    {
      var keys := SortedKeys(grouped);
      emitted := [];
      for i := 0 to |keys|
        invariant emitted == Emittable(keys[..i], grouped)
        invariant forall k :: k in emitted ==> k in grouped
        invariant contents == EmitAll(old(contents), emitted, grouped)
        invariant dirs == old(dirs) + EmitDirs(emitted)
      {
        assert keys[..i + 1][..i] == keys[..i];
        var cobDate := keys[i];
        var files := grouped[cobDate].files;
        if files == [] {
          continue;
        }
        WriteDealsDat(files);
        var ok := CopyDealsDat(cobDate);
        emitted := emitted + [cobDate];
        assert emitted[..|emitted| - 1] == Emittable(keys[..i], grouped);
      }
      assert keys[..|keys|] == keys;
      EmittableAscending(keys, grouped);
      forall k
        ensures k in emitted <==> k in grouped && grouped[k].files != []
      {
        EmittableMembers(keys, grouped, k);
      }
    }
  }

  /** Dates as `parse_cob_date` produces them: non-empty and free of '/'. */
  predicate PlainDates(emitted: seq<string>)
  {
    forall i :: 0 <= i < |emitted| ==> emitted[i] != [] && '/' !in emitted[i]
  }

  /** After the emission, each emitted date's directory holds that group's manifest. */
  lemma {:induction false} EmitAllDest(contents: map<string, string>, emitted: seq<string>, grouped: map<string, Entry>, k: string)
    requires (forall x :: x in emitted ==> x in grouped) && PlainDates(emitted)
    requires k in emitted
    ensures DestFile(k) in EmitAll(contents, emitted, grouped)
    ensures EmitAll(contents, emitted, grouped)[DestFile(k)] == Manifest(grouped[k].files)
  {
    var last := emitted[|emitted| - 1];
    var prev := emitted[..|emitted| - 1];
    if k != last {
      assert k in prev;
      EmitAllDest(contents, prev, grouped, k);
      DestFileDistinct(k, last);
      assert k in emitted;
    }
  }

  /** After the emission, the staging file holds the manifest of the last emitted group. */
  lemma EmitAllStaging(contents: map<string, string>, emitted: seq<string>, grouped: map<string, Entry>)
    requires (forall x :: x in emitted ==> x in grouped) && PlainDates(emitted)
    requires emitted != []
    ensures EmitAll(contents, emitted, grouped)[DealsDat] == Manifest(grouped[emitted[|emitted| - 1]].files)
  {
    DestFileDistinct(emitted[|emitted| - 1], emitted[|emitted| - 1]);
  }

  /** No other file is touched. */
  lemma {:induction false} EmitAllElsewhere(contents: map<string, string>, emitted: seq<string>, grouped: map<string, Entry>, p: string)
    requires forall x :: x in emitted ==> x in grouped
    requires p != DealsDat && forall i :: 0 <= i < |emitted| ==> p != DestFile(emitted[i])
    ensures p in EmitAll(contents, emitted, grouped) <==> p in contents
    ensures p in contents ==> EmitAll(contents, emitted, grouped)[p] == contents[p]
  {
    if emitted != [] {
      EmitAllElsewhere(contents, emitted[..|emitted| - 1], grouped, p);
    }
  }

  /** The directories created are the staging directory and one per emitted date. */
  lemma {:induction false} EmitDirsMembers(emitted: seq<string>, d: string)
    ensures d in EmitDirs(emitted) <==> (emitted != [] && d == TmpDir) || exists i :: 0 <= i < |emitted| && d == DestDir(emitted[i])
  {
    if emitted != [] {
      var prev := emitted[..|emitted| - 1];
      EmitDirsMembers(prev, d);
      if exists i :: 0 <= i < |prev| && d == DestDir(prev[i]) {
        var i :| 0 <= i < |prev| && d == DestDir(prev[i]);
        assert emitted[i] == prev[i];
      }
      if exists i :: 0 <= i < |emitted| && d == DestDir(emitted[i]) {
        var i :| 0 <= i < |emitted| && d == DestDir(emitted[i]);
        if i < |prev| {
          assert prev[i] == emitted[i];
        }
      }
    }
  }

  /** Eight-digit keys, as the grouping produces, are plain dates wherever they are emitted. */
  lemma DigitKeysArePlain(grouped: map<string, Entry>, emitted: seq<string>)
    requires forall k :: k in grouped ==> |k| == 8 && AllDigits(k)
    requires forall k :: k in emitted ==> k in grouped
    ensures PlainDates(emitted)
  {
    forall i | 0 <= i < |emitted|
      ensures emitted[i] != [] && '/' !in emitted[i]
    {
      var k := emitted[i];
      assert k in grouped;
      assert forall j :: 0 <= j < |k| ==> k[j] != '/';
    }
  }
}
