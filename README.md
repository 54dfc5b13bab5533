# parse_to_json in Dafny

This is a model of the three-stage request pipeline of `parse_to_json`, with proofs about it:

1. **Line parser** (`parse_data_to_json.py`). A whitespace-delimited service-request line becomes a record. The fields are:
   - the request number;
   - a category of at most two tokens, picked by a capitalisation and vocabulary test;
   - a requester name that runs up to the first date-shaped token;
   - five date/time tokens, with `D/M/Y` reordered to `Y/M/D`;
   - the free-text details, and the `.DAT` file names found in them, deduplicated case-insensitively.
2. **Date filter** (`actionable_ritm.py`). A set of open dates is read from lines. The records whose desired completion date is in that set are kept, in order.
3. **Grouper and manifest emitter** (`roller.py`). Records are grouped by close-of-business (COB) date: the completion date, checked against the calendar and written `YYYYMMDD`. Then, in ascending date order, every group that names files has its manifest written to a shared staging file, and that file is copied into `w_bypass/<cob>`.

Modules, one per file:

| file | module | contents |
|---|---|---|
| `wrappers.dfy` | `Wrappers` | `Option` |
| `text.dfy` | `Text` | Python string primitives: `strip`, `split()`, `split(c)`, `join`, ASCII `upper`, string order |
| `seqs.dfy` | `Seqs` | order-keeping deduplication by a key, subsequences |
| `records.dfy` | `Records` | the parsed `Record`, and the `JsonRecord` that a later stage reads, where any key may be missing |
| `line_parser.dfy` | `LineParser` | `parse_date`, `parse_datetime`, `extract_files`, `parse_line` and the loop of `parse_file` |
| `date_filter.dfy` | `DateFilter` | `load_open_dates`, `filter_valid_records` |
| `cob_date.dfy` | `CobDate` | `parse_cob_date`, with the `strptime` field grammar and the Gregorian calendar |
| `grouping.dfy` | `Grouping` | `group_records_by_date` |
| `emitter.dfy` | `Emitter` | paths, `write_deals_dat`, `copy_deals_dat`, `process_grouped` over a `Disk` class |

Each stage that loops in the source is a method with loop invariants. Each such method is proved equal to a specification function, and the properties are lemmas about that function:

| method | specification function |
|---|---|
| `ParseLine` | `Outcome` |
| `ParseFile` | `Collect` of the per-line `Outcomes`, described by `Accepted` / `HasSplitError` |
| `FilterValidRecords` | `Kept` |
| `GroupRecordsByDate` | `GroupAll` |
| `ProcessGrouped` | `EmitAll` / `EmitDirs` |

`ProcessGrouped` is a method of the `Disk` class. `Disk` holds the contents of regular files by path and the set of created directories.

Exceptions are outcomes:
- `LineOutcome.DateSplitError` is the `ValueError` of a date token that does not split into exactly three pieces. That error escapes `parse_line`, and `parse_file` then returns `None` (`FileOutcome.ReadFailure`).
- `None` from `CobOf` and `GroupAll` is the `KeyError` or `ValueError` that aborts the whole grouping.

Behaviour of the code that is easy to misread, as the model states it:
- **Date block needs 6 tokens, not 5.** The test at parse_data_to_json.py:89 rejects a line unless at least **six** tokens remain from the first date-shaped token: the five date and time tokens and at least one token of request text, the last field of the format line in the docstring of `parse_line`. So the details are never empty (`LineParser.ParsedLayout`, `LineParser.DateBlock`).
- **Only the first date token is checked.** Its shape is checked by a *prefix* match. The other date tokens are not checked at all. A date token with the wrong number of '/' raises, and that loses the whole file instead of rejecting one line (`LineParser.ParseFile`).
- **Category test as written.** Python's `and` binds tighter than `or`, so the loop condition at parse_data_to_json.py:73 reads "(not `RITM`-prefixed and not upper-initial) or a known word". `LineParser.CategoryTokenGrouping` proves it equal to the other grouping, "not `RITM`-prefixed and (not upper-initial or a known word)", because both known words start with `R` but not `RITM`. Nothing in the test looks for digits, so a leading date-shaped token can become part of the category (`LineParser.DigitInitialIsCategoryToken`).

## Model

| member | source | states |
|---|---|---|
| LineParser.ParseDate | parse_data_to_json.py:18-21 | the reordering succeeds exactly when the token holds exactly two '/' |
| LineParser.ParseDateOfParts | parse_data_to_json.py:18-21 | "d/m/y" with '/'-free pieces becomes "y/m/d" |
| LineParser.ParseDateInvolution | parse_data_to_json.py:18-21 | reordering a reordered date gives the original token back |
| LineParser.ParseDateTime | parse_data_to_json.py:12-15 | succeeds exactly when the date has two '/', and is then the reordered date, a space and the time |
| LineParser.CategoryTokenGrouping | parse_data_to_json.py:73 | the category test as Python groups it equals the reading "not RITM-prefixed and (not upper-initial or a known word)" |
| LineParser.DigitInitialIsCategoryToken | parse_data_to_json.py:73 | a token starting with a digit passes the category test |
| LineParser.CategoryEnd | parse_data_to_json.py:71-77 | the category loop stops at index 1 to 3; every token it took passes the test; it stops early only at a token that fails it |
| LineParser.NameEnd | parse_data_to_json.py:82-84 | the name loop stops at the first date-shaped token from its start, or at the end; no token before it is date-shaped |
| LineParser.ExtractFiles | parse_data_to_json.py:38-46 | the loop with its seen set returns the found names deduplicated by their upper-case form, first spelling kept |
| LineParser.CategoryLoop | parse_data_to_json.py:71-77 | the first loop ends at `CategoryEnd`, having collected exactly the tokens from 1 up to it |
| LineParser.NameLoop | parse_data_to_json.py:82-84 | the second loop ends at `NameEnd`, having collected exactly the tokens from the category end up to it |
| LineParser.AssembleRecord | parse_data_to_json.py:93-119 | the three conversions and the record: a split failure in any of them, or the record `Assemble` describes |
| LineParser.ParseLine | parse_data_to_json.py:49-119 | `parse_line` computes exactly the outcome `Outcome` describes, for every line |
| LineParser.EarlyRejection | parse_data_to_json.py:54-63 | a line is `Blank` exactly when it is all whitespace, and `TooFewFields` exactly when it is not blank but has fewer than 8 tokens |
| LineParser.DateBlock | parse_data_to_json.py:82-105 | the stop index is at a date-shaped token or at the end; the line is rejected for missing dates exactly when fewer than 6 tokens remain there; a split error happens exactly when one of the three date tokens lacks exactly two '/'; otherwise it parses |
| LineParser.ParsedLayout | parse_data_to_json.py:59-119 | on acceptance: number is token 0; the category has at most 2 tokens, each passing the test; no name token is date-shaped and the next one is; category, name, the five date/time tokens and the details laid end to end are the tokens after the number; the details are the single-space join of the tail and are non-empty; the dates are the reordered tokens; the files are the deduplicated scan of the details |
| LineParser.ParseFile | parse_data_to_json.py:133-146 | the loop calls `parse_line` on every line in order, keeps each record, skips each rejection, and gives up with `None` at the first split error |
| LineParser.CollectOutcome | parse_data_to_json.py:133-146 | the result is `None` exactly when some line raises the split error; otherwise it is the records of the accepted lines in line order |
| LineParser.CollectFailureSticks | parse_data_to_json.py:144-146 | once a line has raised, no later line can bring the records back |
| LineParser.AcceptedAppend | parse_data_to_json.py:137-140 | the records of two consecutive pieces of a file are the records of each part, concatenated |
| LineParser.AcceptedLine | parse_data_to_json.py:138-140 | one line contributes its record when it parses, and nothing otherwise |
| LineParser.AcceptedLength | parse_data_to_json.py:137-140 | there are no more records than lines |
| LineParser.AcceptedFromLines | parse_data_to_json.py:137-140 | every record is the parse of some input line |
| Seqs.DedupDistinct | parse_data_to_json.py:38-46 | no two kept names are equal after upper-casing (and, with the identity key, no two files of a group are equal) |
| Seqs.DedupSubseq | parse_data_to_json.py:38-46 | the kept names are a subsequence of the found ones, in order |
| Seqs.DedupCovers | parse_data_to_json.py:38-46 | every found name's upper-case form is represented, and no other |
| Seqs.DedupFirstSeen | parse_data_to_json.py:41-44 | each kept name is the first found name with its upper-case form |
| Seqs.DedupOrder | parse_data_to_json.py:38-46 | the kept names come in the order in which their upper-case forms first appear among the found names (with the identity key, the same for a group's files) |
| Seqs.DedupIdempotent | parse_data_to_json.py:38-46 | deduplicating the result again changes nothing |
| DateFilter.LoadOpenDates | actionable_ritm.py:23-30 | the set holds exactly the stripped input lines that are non-empty, so never "" |
| DateFilter.FilterValidRecords | actionable_ritm.py:83-91 | the loop returns the records whose completion date, "" when missing, is in the set, in input order |
| DateFilter.KeptSubseq | actionable_ritm.py:83-89 | the kept records are unmodified input records in input order |
| DateFilter.KeptLength | actionable_ritm.py:83-91 | at most as many records come out as go in |
| DateFilter.KeptMembers | actionable_ritm.py:86-89 | a record is kept exactly when it is in the input and its completion date is in the set |
| DateFilter.KeptIdempotent | actionable_ritm.py:72-91 | filtering the output again with the same set returns it unchanged |
| DateFilter.KeptNone | actionable_ritm.py:72-91 | with an empty set nothing is kept |
| DateFilter.KeptAppend | actionable_ritm.py:85-89 | filtering distributes over concatenation of record lists |
| DateFilter.MissingDateNeverKept | actionable_ritm.py:29 | against a set without "" (as loaded), a record lacking the completion date is never kept |
| CobDate.MatchMonth | roller.py:14 | the month field matched before '/' is 1 or 2 digits denoting 1 to 12 |
| CobDate.MatchDay | roller.py:14 | a day field that uses up the rest denotes 1 to 31 |
| CobDate.Strptime | roller.py:14 | a successful parse has four year digits and a valid Gregorian date |
| CobDate.ParseCobDate | roller.py:13-15 | a result is 8 digits that start with the year as read and denote a valid Gregorian date |
| CobDate.CanonicalDate | roller.py:13-15 | "YYYY/MM/DD" with any whitespace around is accepted exactly when it is a valid date (year from 1; month 13, 30 February, 29 February of a common year refused) and then gives "YYYYMMDD" |
| CobDate.ShortFields | roller.py:14-15 | one-digit month and day are accepted too and come out zero-padded |
| CobDate.ReorderedDate | roller.py:13-15 | a "DD/MM/YYYY" token reordered by the line parser is accepted exactly when it is a valid date, giving "YYYYMMDD" |
| Grouping.StoredCob | roller.py:34-35 | a parsed record written out as JSON is dated by its reordered completion token, and gets a COB key exactly when that token is a valid date |
| Grouping.GroupRecordsByDate | roller.py:31-46 | the nested loops and the projection compute exactly `GroupAll` with the COB-date function |
| Grouping.GroupRecordsWith | roller.py:32-46 | the same loops, for any dating function |
| Grouping.AddFiles | roller.py:40-43 | the inner loop appends each not-yet-seen file of the record, exactly, keeping `seen_files` equal to the listed files |
| Grouping.FailureSticks | roller.py:34-35 | once a record cannot be dated, no later record brings the grouping back |
| Grouping.GroupFails | roller.py:34-36 | the grouping is lost exactly when some record has no (valid) completion date |
| Grouping.GroupKeys | roller.py:35-36 | the keys are exactly the COB dates of the records |
| Grouping.GroupEntry | roller.py:36-46 | each group lists the numbers ("N/A" when missing) of its records in input order, and the deduplicated concatenation of their files (none when missing) |
| Grouping.GroupFiles | roller.py:40-43 | a group's files have no exact duplicates, are exactly the files of its records, are a subsequence of them, and are in the order of each file's first appearance among them |
| Grouping.GroupTotal | roller.py:38 | the groups' number lists together are as long as the input |
| Grouping.CobKeys | roller.py:35 | every key is eight digits denoting a valid date |
| Emitter.Paths | roller.py:8-11 | with an empty base directory the staging file is "tmp/DEALS.DAT" and a destination is "w_bypass/<cob>/DEALS.DAT" |
| Emitter.DestFileDistinct | roller.py:25-27 | distinct dates have distinct destination files, none of them the staging file |
| Emitter.ManifestLines | roller.py:21 | the manifest read back line by line is the files followed by the empty text after the last newline |
| Emitter.SortedKeys | roller.py:50 | the keys come out strictly ascending by Python's string order, each key exactly once |
| Emitter.EmittableMembers | roller.py:60-62 | a key is emitted exactly when it is a key whose group lists files |
| Emitter.EmittableAscending | roller.py:50-62 | skipping keys keeps the emission strictly ascending |
| Emitter.Disk.WriteDealsDat | roller.py:18-21 | the staging directory exists and the staging file holds the manifest; nothing else changes |
| Emitter.Disk.CopyDealsDat | roller.py:24-28 | the destination directory exists; the destination file gets the staging contents, or nothing changes when there is no staging file |
| Emitter.Disk.ProcessGrouped | roller.py:49-67 | keys are emitted strictly ascending, exactly those whose group lists files; the files and directories are those of writing and copying the emitted groups in order |
| Emitter.EmitAllDest | roller.py:64-66 | after the emission each emitted date's directory holds its group's manifest |
| Emitter.EmitAllStaging | roller.py:64 | after the emission the staging file holds the manifest of the last emitted group |
| Emitter.EmitAllElsewhere | roller.py:49-67 | no other file is created or changed |
| Emitter.EmitDirsMembers | roller.py:19-26 | the directories created are the staging directory and one per emitted date |
| Emitter.DigitKeysArePlain | roller.py:35 | eight-digit keys, as the grouping makes them, are non-empty and free of '/' wherever they are emitted |

## Left out

- The regular expression that finds `.DAT` names (parse_data_to_json.py:35-36) is not modelled. It is the parameter `scan`, and nothing is assumed about what it returns. Only the deduplication of its matches is modelled.
- File and process glue is not modelled: opening and reading files, `json.load`/`json.dump`, writing the output files, `load_json_records`, `write_valid_records`, `main`, `sys.argv`, `SystemExit` and every `print`. Inputs are sequences of lines and sequences of records.
- Splitting a file into lines is not modelled. Each line is given as a string; its line terminator, when present, is whitespace that `strip` removes.
- A missing or unreadable input file (the `FileNotFoundError` and generic handlers of `parse_file` and `load_open_dates`) is not modelled, because there is no file I/O. `ReadFailure` stands only for the date-splitting error that escapes the line loop.
- Unicode is not modelled: upper-casing, the upper-case test and the digit classes (`\d` in the date-shape test and in `strptime`) cover ASCII only, as the model's characters are tested by code-point ranges. Whitespace, however, is exactly Python's `str.isspace` set.
- JSON values other than strings and lists of strings are not modelled. A record field is a string or missing, and `files` is a list of strings or missing. So a non-string date or number, which would make `strip` or the printing `join` raise, cannot occur.
- CobDate.ParseCobDate: the year is printed as the four digits that were read. Some C libraries print years below 1000 without zero padding; that difference is not modelled.
- Emitter.Disk.CopyDealsDat: `os.makedirs` records only the destination directory, not the intermediate directories it also creates. A regular file standing where a directory should go, which would make `makedirs` raise, is not modelled.
- Emitter.EmitAllDest: stated only for keys that are non-empty and free of '/'. `Grouping.CobKeys` and `Emitter.DigitKeysArePlain` show that every key the grouping produces is such a key.
- The console report of `process_grouped` (the banner, the number list, the file list, the "skipping" note) is output only, and is not modelled.
- `Grouping.TotalRitms` is a ghost function: it adds up the groups in an arbitrary order.
