# Flickypedia in Dafny

A model of the core logic of Flickypedia, the tool that copies Flickr
photos to Wikimedia Commons and later backfills their structured data
(SDC), with proofs of what that logic promises. The model covers:

- **Finding Flickr references.** The Flickr photo a Commons file points
  to, read from its "source of file" and "Flickr photo ID" statements or
  from its wikitext. The snapshot scan that sorts records into an id, a
  warning or an error. The streaming matcher. The duplicate index: the
  first row per photo, the database names, and the merge over several
  databases.
- **Reconciliation.** The equivalence of snaks, qualifiers and statements
  (`are_equivalent_*`). The classification of each expected statement
  into an action (`create_actions`). The backfiller's single write.
- **The expected-state generator.** The statement builders, the
  qualifier DSL, the Wikidata value encoders and the assembly of the
  claim list, together with the older generations of the builders that
  are still in the tree.
- **Queues and batches.** The filesystem task queue (waiting, in
  progress, then completed or failed, with an append-only event log) as
  a class over a map from state to task files. The upload batch, which
  settles each photo in turn and confines a failure to its photo.
- **Validators and text.** Description truncation (two versions), title
  checks, Flickr user ids and the Wikidata user lookup, file names from
  Commons URLs, the Flickr lookup tables and size parsing, the wikitext
  and comment templates, photo categorisation and `size_at`.

Conventions:

- Python exceptions become `Wrappers.Result` values whose error names the
  exception class.
- Network, database and library calls are function-typed parameters
  (oracles). This covers the Flickr URL recogniser `parse_flickr_url`,
  the Flickr, Wikimedia and Wikidata APIs, the keyring and the clock.
- Dates are integer records, and `strftime` is written out.
- Strings are sequences of characters.

The modules follow the source files; each module's header comment names
the file it models.

## Model

| member | source | states |
|---|---|---|
| FlickrMatcher.Present | src/flickypedia/backfillr/flickr_matcher.py:36 | the URLs kept are exactly the non-None entries of the input |
| FlickrMatcher.MaxString | src/flickypedia/backfillr/flickr_matcher.py:41 | the last element of the sorted list is a member of the list and no member sorts after it |
| FlickrMatcher.PickBestUrl | src/flickypedia/backfillr/flickr_matcher.py:31-41 | fails with AssertionError iff every URL is None; otherwise returns one of the given URLs that no other non-None URL exceeds in Python string order |
| FlickrMatcher.PickBestUrlOfSet | src/flickypedia/backfillr/flickr_matcher.py:31-41 | the choice depends only on which URLs occur, not on their order or repetition, so choosing from a set of URLs is well defined |
| FlickrMatcher.GetSingleQualifier | src/flickypedia/backfillr/flickr_matcher.py:197-235 | no snak for the property gives None; exactly one gives that snak; more than one raises AmbiguousStructuredData when the statement has an id, KeyError otherwise |
| FlickrMatcher.FlickrEntityValueEncoded | src/flickypedia/backfillr/flickr_matcher.py:259 | the Flickr entity value compared against is `to_wikidata_entity_value` of the Flickr entity |
| FlickrMatcher.ParsedUrls | src/flickypedia/backfillr/flickr_matcher.py:266-285 | every URL kept is one the Flickr URL parser recognises, paired with what it parses to; a snak without a datavalue raises KeyError |
| FlickrMatcher.UrlIn | src/flickypedia/backfillr/flickr_matcher.py:271-285 | one qualifier contributes at most one entry, and one exactly when it holds a string value the parser recognises; the entry pairs that string with its parse |
| FlickrMatcher.ParsedUrlsMeaning | src/flickypedia/backfillr/flickr_matcher.py:271-285 | the qualifier loop raises exactly when some qualifier lacks its data value, and otherwise keeps exactly the Flickr URLs the qualifiers hold |
| FlickrMatcher.ParsedUrlsFirst | src/flickypedia/backfillr/flickr_matcher.py:271-285 | the first qualifier raises, or its Flickr URL comes before those of the rest |
| FlickrMatcher.ParsedUrlsPair | src/flickypedia/backfillr/flickr_matcher.py:271-285 | over the URL and "described at URL" qualifiers the loop yields the first's Flickr URL then the second's, or KeyError when one lacks its data value |
| FlickrMatcher.UrlsOfStatementMeaning | src/flickypedia/backfillr/flickr_matcher.py:252-285 | a statement whose Operator is absent or Flickr, and whose two URL qualifiers carry data values, contributes exactly the URL qualifier's Flickr URL followed by the "described at URL" one's |
| FlickrMatcher.UrlsOfStatementFails | src/flickypedia/backfillr/flickr_matcher.py:252-285 | a statement raises exactly when its Operator qualifier is ambiguous or lacks a data value, or, for a Flickr source, a URL qualifier is ambiguous or lacks a data value |
| FlickrMatcher.UrlsOfStatements | src/flickypedia/backfillr/flickr_matcher.py:252-287 | every URL the statements contribute, in order, parses as a Flickr URL |
| FlickrMatcher.UrlsOfStatementsMeaning | src/flickypedia/backfillr/flickr_matcher.py:252-287 | the scan raises exactly when some statement does, with the first such statement's exception, and otherwise holds exactly the URLs the statements contribute |
| FlickrMatcher.UrlsOfStatementsFailure | src/flickypedia/backfillr/flickr_matcher.py:252-287 | the scan raises iff some statement raises, and then with the exception of the first statement that does |
| FlickrMatcher.UrlsOfStatementsContents | src/flickypedia/backfillr/flickr_matcher.py:252-287 | a scan that succeeds holds exactly the URLs the statements contribute |
| FlickrMatcher.UrlsFromIsAccThenStatements | src/flickypedia/backfillr/flickr_matcher.py:242-287 | the scan returns the URLs already found followed by each remaining statement's URLs in order, or the first exception |
| FlickrMatcher.UrlsFromStart | src/flickypedia/backfillr/flickr_matcher.py:242-287 | started with nothing found, the scan is the statements' URLs in order |
| FlickrMatcher.UrlsOfStatement | src/flickypedia/backfillr/flickr_matcher.py:252-285 | a "source of file" statement whose Operator qualifier names something other than Flickr contributes no URL; every URL kept parses as a Flickr URL |
| FlickrMatcher.UrlsFrom | src/flickypedia/backfillr/flickr_matcher.py:242-287 | every URL gathered over the statements either was already gathered or parses as a Flickr URL |
| FlickrMatcher.CollectParsedUrls | src/flickypedia/backfillr/flickr_matcher.py:266-285 | the loop over the URL qualifiers returns exactly the parsed URLs of the specification function |
| FlickrMatcher.FindFlickrUrlsInSdc | src/flickypedia/backfillr/flickr_matcher.py:242-287 | the loop over all "source of file" statements returns the URLs of the specification, each a parsed Flickr URL |
| FlickrMatcher.AddCandidate | src/flickypedia/backfillr/flickr_matcher.py:303-313 | adding a (photo id, URL) pair adds the id to the candidates and the URL to that id's URL set, changing nothing else |
| FlickrMatcher.UrlCandidates | src/flickypedia/backfillr/flickr_matcher.py:303-307 | the URL pass raises AmbiguousStructuredData iff some parsed URL is not a single-photo URL |
| FlickrMatcher.IdCandidates | src/flickypedia/backfillr/flickr_matcher.py:310-313 | the photo-id pass raises KeyError iff some "Flickr photo ID" statement has no datavalue |
| FlickrMatcher.UrlCandidateKeys | src/flickypedia/backfillr/flickr_matcher.py:303-307 | after the URL pass, an id is a candidate iff it was one before or some single-photo URL names it |
| FlickrMatcher.IdCandidateKeys | src/flickypedia/backfillr/flickr_matcher.py:310-313 | after the id pass, an id is a candidate iff it was one before or some photo-id statement has it as its string value; an id new from this pass carries the URL None, and the pass adds no real URL |
| FlickrMatcher.FindFlickrPhotoIdFromSdc | src/flickypedia/backfillr/flickr_matcher.py:290-326 | the result is the one `FindsFromSdc` allows: an error from the URL or candidate passes, ValueError for two or more ids, None for none, else the single id with the best of its URLs |
| FlickrMatcher.FindFromSdcFinds | src/flickypedia/backfillr/flickr_matcher.py:290-326 | for any structured data there is a result the specification allows |
| FlickrMatcher.FindsFromSdcUnique | src/flickypedia/backfillr/flickr_matcher.py:290-326 | the specification allows only one result, so the lookup is deterministic |
| FlickrMatcher.NothingFoundInEmptySdc | src/flickypedia/backfillr/flickr_matcher.py:318-319 | structured data with neither "source of file" nor "Flickr photo ID" statements gives None |
| FlickrMatcher.NonPhotoUrlIsAmbiguous | src/flickypedia/backfillr/flickr_matcher.py:303-307 | any parsed Flickr URL that is not a single photo makes the lookup raise AmbiguousStructuredData |
| FlickrMatcher.TwoPhotoIdsAreAnError | src/flickypedia/backfillr/flickr_matcher.py:315-316 | two distinct candidate ids make the lookup raise ValueError |
| FlickrMatcher.IdOnlyFromPhotoIdProperty | src/flickypedia/backfillr/flickr_matcher.py:321-326 | an id found only through the "Flickr photo ID" property comes back with url None |
| FlickrMatcher.FindFlickrPhoto | src/flickypedia/backfillr/flickr_matcher.py:329-345 | the wikitext is consulted iff the structured-data lookup returns None, and then its answer is the result; otherwise the structured-data result is returned |
| ParseStructuredData.GetSingleQualifier | src/flickypedia/apis/structured_data/parse_structured_data.py:33-44 | no snak for the property gives None, exactly one gives that snak, several fail the `assert 0` with AssertionError |
| ParseStructuredData.UrlCandidate | src/flickypedia/apis/structured_data/parse_structured_data.py:80-96 | a URL qualifier contributes at most one id, and only the id of a single-photo URL; a parsed URL of any other kind fails the `assert 0` |
| ParseStructuredData.SourceCandidatesFrom | src/flickypedia/apis/structured_data/parse_structured_data.py:56-96 | the first loop only adds to the candidate set |
| ParseStructuredData.IdCandidatesFrom | src/flickypedia/apis/structured_data/parse_structured_data.py:99-103 | the second loop only adds to the candidate set |
| ParseStructuredData.SourceCandidatesMeaning | src/flickypedia/apis/structured_data/parse_structured_data.py:52-96 | an id is a candidate after the first loop iff it was one before or some "source of file" statement contributes it |
| ParseStructuredData.IdCandidatesMeaning | src/flickypedia/apis/structured_data/parse_structured_data.py:99-103 | an id is a candidate after the second loop iff it was one before or some "Flickr photo ID" statement holds it as a string |
| ParseStructuredData.CollectCandidates | src/flickypedia/apis/structured_data/parse_structured_data.py:80-96 | the loop over the Url and "described at URL" qualifiers returns the union of their contributions, or the first failure |
| ParseStructuredData.FindFlickrPhotoId | src/flickypedia/apis/structured_data/parse_structured_data.py:47-110 | a failure while gathering is passed on; otherwise one candidate is returned, several raise ValueError, none gives None |
| ParseStructuredData.SameIdFoundTwice | src/flickypedia/apis/structured_data/parse_structured_data.py:52-101 | the same id found in a source URL and in a photo-id statement counts once, so the id is returned rather than a ValueError |
| SnapshotScan.ReplaceAbsent | duplicate_detection/find_flickr_ids_in_sdc_snapshot.py:45 | `replace` of a pattern that does not occur leaves the text unchanged |
| SnapshotScan.UnframeObjectLine | duplicate_detection/find_flickr_ids_in_sdc_snapshot.py:40-45 | a line `{…},\n` whose object contains no `,\n` unframes to exactly the object; the last object line passes unchanged |
| SnapshotScan.IsWikibaseEntity | duplicate_detection/find_flickr_ids_in_sdc_snapshot.py:48-52 | raises KeyError iff the snak has no datavalue; true iff the datavalue is an entity id equal to the one asked for |
| SnapshotScan.FirstQualifier | duplicate_detection/find_flickr_ids_in_sdc_snapshot.py:70-75 | a first qualifier is returned only when the qualifier list for the property exists and is non-empty, and then it is its first snak |
| SnapshotScan.SearchRaisesOnlyLookupErrors | duplicate_detection/find_flickr_ids_in_sdc_snapshot.py:60-119 | everything the search raises is a KeyError or an IndexError, so missing keys and indices never abort the scan |
| SnapshotScan.FoundIdMeaning | duplicate_detection/find_flickr_ids_in_sdc_snapshot.py:61-105 | a photo id is found iff the first "source of file" statement says "file available on the internet", its first Operator is Flickr and its first "described at URL" parses as a single photo with that id |
| SnapshotScan.LoggedRecords | duplicate_detection/find_flickr_ids_in_sdc_snapshot.py:84-116 | an error record holds the title, a URL the parser rejected and its exception; a warning record holds the title and a URL that parsed as something other than a single photo |
| SnapshotScan.UntitledRecordsAreNotLogged | duplicate_detection/find_flickr_ids_in_sdc_snapshot.py:87-119 | a record without a title is never logged: reading the title raises KeyError, which is caught |
| SnapshotScan.ScanAppends | duplicate_detection/find_flickr_ids_in_sdc_snapshot.py:87-144 | the error file, the warning file and the CSV are only appended to |
| SnapshotScan.ScanRowsFromRecords | duplicate_detection/find_flickr_ids_in_sdc_snapshot.py:135-144 | every CSV row comes from a snapshot line whose record has that photo id, title and page id |
| SnapshotScan.ScanRowCount | duplicate_detection/find_flickr_ids_in_sdc_snapshot.py:135-144 | at most one CSV row per snapshot line |
| SnapshotScan.SnapshotScanner.constructor | duplicate_detection/find_flickr_ids_in_sdc_snapshot.py:128-133 | the CSV starts with its header only, and the error and warning files keep what they held |
| SnapshotScan.SnapshotScanner.FindFlickrPhotoIdInSdc | duplicate_detection/find_flickr_ids_in_sdc_snapshot.py:55-119 | returns the found id, or None; appends exactly one error record or one warning record when the outcome calls for it, and nothing else |
| SnapshotScan.SnapshotScanner.ScanSnapshot | duplicate_detection/find_flickr_ids_in_sdc_snapshot.py:40-144 | after the loop, the three outputs and the exception that stopped it, if any, are those of the line-by-line specification |
| ExtractrMatcher.MatchEntry | src/flickypedia/extractr/matcher.py:24-41 | for one entry: the lookup's exception, no match, or a match with the found photo id and the entry's id and title |
| ExtractrMatcher.FindMatchedPhotos | src/flickypedia/extractr/matcher.py:18-41 | the loop yields exactly the matches, and prints exactly the notices, of the entries in order; a failing entry only adds a notice |
| ExtractrMatcher.MatchesOfAppend | src/flickypedia/extractr/matcher.py:23 | the matcher streams: the matches for two batches of entries are those of each batch, in order |
| ExtractrMatcher.NoticesOfAppend | src/flickypedia/extractr/matcher.py:23-41 | the same for the standard-error notices |
| ExtractrMatcher.AtMostOneOutcomePerEntry | src/flickypedia/extractr/matcher.py:23-41 | each entry gives at most one match or one notice, never both |
| ExtractrMatcher.MatchesComeFromEntries | src/flickypedia/extractr/matcher.py:25-31 | every match carries a photo id the lookup found in some entry, with that entry's id and title |
| ExtractrMatcher.AmbiguousEntryIsSkipped | src/flickypedia/extractr/matcher.py:32-36 | an entry whose structured data is ambiguous yields no match and one "Ambiguity" notice |
| CsvToSqlite.UniqueRows | duplicates_from_sdc/csv_to_sqlite.py:27-45 | the loop with its set of seen ids yields exactly the (photo id, title, page id) tuples of the rows whose id was not seen before, in input order |
| CsvToSqlite.KeepFirstDistinct | duplicates_from_sdc/csv_to_sqlite.py:37-40 | the yielded photo ids are pairwise distinct and all come from the input |
| CsvToSqlite.KeepFirstComplete | duplicates_from_sdc/csv_to_sqlite.py:36-45 | every photo id of the input is yielded, with the title and page id of the first row that has it |
| CsvToSqlite.FirstOccurrence | duplicates_from_sdc/csv_to_sqlite.py:37-40 | every photo id of the input has a first row |
| CsvToSqlite.DigitRun | duplicates_from_sdc/csv_to_sqlite.py:60 | the length of the maximal run of ASCII digits at a position (the `\d+` of the pattern, read on ASCII digits only) |
| CsvToSqlite.SearchDateMeaning | duplicates_from_sdc/csv_to_sqlite.py:60 | the search returns digits only from a `.<digits>.` segment of the path, and returns nothing only when there is no such segment |
| CsvToSqlite.SearchDateLeftmost | duplicates_from_sdc/csv_to_sqlite.py:60 | as `re.search` does, the leftmost `.<digits>.` segment is found |
| CsvToSqlite.DbPathMeaning | duplicates_from_sdc/csv_to_sqlite.py:60-64 | the default database name is used iff the path has no `.<digits>.` segment; otherwise the name is `flickr_ids_from_sdc.<digits>.sqlite` with that segment's digits |
| CsvToSqlite.DatedSpreadsheetName | duplicates_from_sdc/csv_to_sqlite.py:54-64 | a spreadsheet named like `flickr_ids_from_sdc.20231009.csv` gives `flickr_ids_from_sdc.20231009.sqlite` |
| Duplicates.Fetch | src/flickypedia/duplicates.py:58-70 | the query fetches exactly the rows of the table whose photo id was asked for |
| Duplicates.DatabaseNames | src/flickypedia/duplicates.py:51-52 | only directory entries ending in `.sqlite` are opened |
| Duplicates.InInputOrder | src/flickypedia/duplicates.py:72-76 | the result has at most one entry per input id, each an input id that was found, paired with its page id |
| Duplicates.FindDuplicates | src/flickypedia/duplicates.py:44-76 | an empty input returns [] and opens no database; otherwise the result is the merged lookup in input order, and the databases opened are the `.sqlite` files in listing order |
| Duplicates.MergedKeysAsked | src/flickypedia/duplicates.py:68-70 | every photo id in the merged result was asked for |
| Duplicates.LaterDatabaseWins | src/flickypedia/duplicates.py:66-70 | a photo's page id comes from the last database in the listing that has it |
| Duplicates.MissingEverywhere | src/flickypedia/duplicates.py:66-76 | a photo that no database has is not in the result |
| Duplicates.InInputOrderAppend | src/flickypedia/duplicates.py:72-76 | the result follows the input order: it splits as the input does |
| Duplicates.FoundIdsReported | src/flickypedia/duplicates.py:72-76 | every input id that was found is reported with its page id |
| Duplicates.NumericPageIds | src/flickypedia/duplicates.py:84 | one page id per duplicate, none containing `M` |
| Duplicates.CreateMediaSearchLink | src/flickypedia/duplicates.py:79-86 | the link always starts with the MediaSearch prefix |
| Duplicates.NumericPageId | src/flickypedia/duplicates.py:84 | a page id `M<digits>` becomes its digits |
| Duplicates.NoMInDigits | src/flickypedia/duplicates.py:84 | removing `M` from digits leaves them unchanged |
| Duplicates.SingleDuplicateLink | src/flickypedia/duplicates.py:37-86 | the example duplicate `("53240661807", "M138598125")` gives the link ending `pageid:138598125` |
| Comparisons.FlickrUrlEquivalence | src/flickypedia/backfillr/comparisons.py:18-29 | URL equivalence is symmetric and transitive, a URL is equivalent to itself iff it parses, and a URL that fails to parse is equivalent to nothing |
| Comparisons.PrefixLength | src/flickypedia/backfillr/comparisons.py:55-60 | the compared prefix is `+YYYY` (5), `+YYYY-MM` (8) or `+YYYY-MM-DD` (11) characters |
| Comparisons.EquivalentTimes | src/flickypedia/backfillr/comparisons.py:32-65 | differing precision, before, after, timezone or calendar model, or a time string not of the form `+YYYY-MM-DDThh:mm:ssZ`, gives false; ValueError iff everything else passes and the precision is not year, month or day; true only when the prefixes for the precision agree |
| Comparisons.TimeEquivalence | src/flickypedia/backfillr/comparisons.py:32-60 | for well-formed times at year, month or day precision, time equivalence is reflexive, symmetric and transitive |
| Comparisons.YearPrecisionIgnoresMonthAndDay | src/flickypedia/backfillr/comparisons.py:36-56 | at year precision `2001-00-00` and `2001-01-01` are equivalent, as the docstring says |
| Comparisons.MidnightShape | src/flickypedia/backfillr/comparisons.py:44-47 | a midnight time string built from four year digits and two-digit month and day matches the time pattern, and its 5-character prefix is `+` and the year |
| Comparisons.SameYearPrefix | src/flickypedia/backfillr/comparisons.py:55-56 | at year precision, well-formed times with the same `+YYYY` are equivalent |
| Comparisons.TimeStringLayout | src/flickypedia/backfillr/comparisons.py:44-60 | a time string Flickypedia writes for a four-digit year matches the pattern and holds the year, the month (or `00`) and the day (or `00`) where the prefixes compared look for them |
| Comparisons.EquivalentDateValues | src/flickypedia/backfillr/comparisons.py:32-60 | two dates Flickypedia writes at the same precision are equivalent iff they agree once cut to that precision |
| Comparisons.FormatsDetermineDate | src/flickypedia/backfillr/comparisons.py:55-60 | two valid dates agree once cut to a precision iff their formatted year, month and day fields agree as far as the precision goes |
| Comparisons.ComparedParts | src/flickypedia/backfillr/comparisons.py:55-60 | for well-formed time strings, equal 5-, 8- or 11-character prefixes mean equal year, then month, then day fields |
| Comparisons.EquivalentSnaks | src/flickypedia/backfillr/comparisons.py:68-130 | different property or snak type gives false; an existing snak with only property, snak type and hash against a new snak with only property and snak type gives true; a missing datavalue raises KeyError, as does a time comparison that raises; a true answer otherwise means the datavalues have the same type |
| Comparisons.GlobeSnaksIgnorePrecision | src/flickypedia/backfillr/comparisons.py:89-100 | globe coordinates are equivalent iff altitude, globe, latitude and longitude agree; precision is ignored |
| Comparisons.StringSnaks | src/flickypedia/backfillr/comparisons.py:102-130 | string values of "described at URL" and URL are compared as Flickr URLs; other strings must be equal |
| Comparisons.DifferentTypesNotEquivalent | src/flickypedia/backfillr/comparisons.py:86-87 | datavalues of different types are never equivalent |
| Comparisons.EquivalentSnaksReflexive | src/flickypedia/backfillr/comparisons.py:68-130 | a snak with a datavalue is equivalent to itself, given a well-formed time or a parseable URL where those are compared |
| Comparisons.ExistingSnaks | src/flickypedia/backfillr/comparisons.py:147 | `existing_qualifiers.get(property_id, [])` is empty for an absent property |
| Comparisons.AnyEquivalent | src/flickypedia/backfillr/comparisons.py:145-148 | `any` is true only if some existing snak is equivalent, false iff every comparison is false, and passes on the first exception it meets |
| Comparisons.EquivalentQualifiers | src/flickypedia/backfillr/comparisons.py:133-151 | no new qualifiers means equivalent; the only exceptions are AssertionError (a list that is not one snak), KeyError and ValueError |
| Comparisons.EquivalentQualifiersMeaning | src/flickypedia/backfillr/comparisons.py:133-151 | the qualifiers are equivalent iff every new property has exactly one snak and some existing snak for that property is equivalent to it; the test is one-directional |
| Comparisons.ExtraExistingQualifiersIgnored | src/flickypedia/backfillr/comparisons.py:141-151 | adding existing qualifiers never breaks equivalence |
| Comparisons.EquivalentStatements | src/flickypedia/backfillr/comparisons.py:154-176 | an exception from the mainsnak comparison is raised; the statements are equivalent iff the mainsnaks and the qualifiers both are |
| Comparisons.DifferentMainTypesNotEquivalent | src/flickypedia/backfillr/comparisons.py:86-176 | statements whose mainsnak datavalues differ in type are not equivalent |
| Actions.HasSubsetFrom | src/flickypedia/backfillr/actions.py:46-65 | the subset check raises only AssertionError, KeyError or ValueError |
| Actions.HasSubsetMeaning | src/flickypedia/backfillr/actions.py:46-65 | the existing qualifiers are a subset of the new ones iff each existing property is among the new qualifiers with a single snak that some existing snak for the property is equivalent to |
| Actions.MissingPropertyIsNoSubset | src/flickypedia/backfillr/actions.py:52-57 | an existing qualifier property that the new statement lacks makes the answer not true |
| Actions.StatementId | src/flickypedia/backfillr/actions.py:131-171 | `statement["id"]` is the id when present and a KeyError otherwise |
| Actions.SingleQualifier | src/flickypedia/backfillr/actions.py:143-144 | `{FlickrUserId: qualifiers[FlickrUserId]}` is that one entry, and a KeyError when the statement lacks it |
| Actions.AddQualifiersRule | src/flickypedia/backfillr/actions.py:158-175 | with an equivalent mainsnak and existing qualifiers that are a subset of the new ones, add_qualifiers under the statement's id, or KeyError when it has none; a non-equivalent mainsnak or a non-subset passes to the next statement; add_qualifiers comes only from those conditions |
| Actions.Step | src/flickypedia/backfillr/actions.py:92-175 | an equivalent statement gives do_nothing, and do_nothing only comes from one; for Creator, a statement with an id that is the null creator, or else the same creator, is replaced under its id, and replace_statement comes only that way; when no Creator rule applies the add_qualifiers rule decides, in both directions; never add_missing or unknown, and always the new statement's property |
| Actions.ActionAgainst | src/flickypedia/backfillr/actions.py:92-177 | the inner loop decides an action for the new statement's property that is never add_missing |
| Actions.ActionFor | src/flickypedia/backfillr/actions.py:71-177 | the action for one new statement carries that statement's property |
| Actions.ActionsFromChosen | src/flickypedia/backfillr/actions.py:71-177 | a new statement whose action is decided adds it and passes on to the next |
| Actions.ActionsFromRaised | src/flickypedia/backfillr/actions.py:71-177 | an exception while classifying one new statement ends the whole call |
| Actions.AgainstStep | src/flickypedia/backfillr/actions.py:92-175 | a turn of the inner loop that raises or decides settles the action; one that does neither leaves it to the statements after |
| Actions.CreateActions | src/flickypedia/backfillr/actions.py:68-179 | the two nested loops with their breaks return exactly the specification's actions, or its exception |
| Actions.ActionsFromMeaning | src/flickypedia/backfillr/actions.py:68-179 | succeeds iff every new statement can be classified; then there is exactly one action per new statement, in order, each carrying its statement's property |
| Actions.MissingPropertyIsAdded | src/flickypedia/backfillr/actions.py:79-90 | a property other than the license with no existing statements gives add_missing with the new statement unchanged |
| Actions.MissingLicenseIsUnknown | src/flickypedia/backfillr/actions.py:79-177 | a license statement with no existing statements gives unknown: the loop is empty and falls to its `else` |
| Actions.FirstDecisionWins | src/flickypedia/backfillr/actions.py:92-177 | existing statements are tried in order and the first that decides wins; if none decides, the action is unknown |
| Actions.EquivalentStatementMeansNothingToDo | src/flickypedia/backfillr/actions.py:95-97 | the first existing statement equivalent to the new one, none before it deciding, gives do_nothing |
| Actions.AddQualifiersJustified | src/flickypedia/backfillr/actions.py:158-175 | add_qualifiers always names an existing statement with an equivalent mainsnak and qualifiers that are a subset of the new ones, and carries the new statement |
| Actions.NullCreatorIsReplaced | src/flickypedia/backfillr/actions.py:104-135 | an existing Creator statement equivalent to the "null" author-name statement, and not to the new one, is replaced by the new statement under its id |
| Actions.SameCreatorIsReplaced | src/flickypedia/backfillr/actions.py:137-156 | an existing Creator statement with an id that is not the null creator and names the same Flickr user as the new one is replaced by the new statement under its id |
| Actions.AddQualifiersWhenSubset | src/flickypedia/backfillr/actions.py:158-175 | a statement with an id, not equivalent to the new one and outside the Creator rules, whose mainsnak is equivalent and whose qualifiers are a subset of the new ones, gets add_qualifiers with that id |
| Backfillr.CollectClaims | src/flickypedia/backfillr/backfillr.py:72-84 | the loop over the actions collects exactly the claims of the actions in order, and returns each action with the id set on the statement it updates |
| Backfillr.ClaimsOfAppend | src/flickypedia/backfillr/backfillr.py:74-84 | the claims of two runs of actions are those of each, in order |
| Backfillr.NoClaimsIffNoWrites | src/flickypedia/backfillr/backfillr.py:74-86 | no claim results iff every action is do_nothing or unknown |
| Backfillr.AtMostOneClaimPerAction | src/flickypedia/backfillr/backfillr.py:74-84 | each action contributes at most one claim |
| Backfillr.ClaimsComeFromActions | src/flickypedia/backfillr/backfillr.py:74-84 | every claim written is the claim of one of the actions |
| Backfillr.ClaimOfEachAction | src/flickypedia/backfillr/backfillr.py:75-82 | do_nothing and unknown contribute nothing; add_missing contributes its statement unchanged; add_qualifiers and replace_statement contribute their statement with `id` set to `statement_id` |
| Backfillr.UpdatedKeepsActions | src/flickypedia/backfillr/backfillr.py:79-93 | the returned list has the computed actions, one for one, with the same properties and kinds; only the statements of add_qualifiers and replace_statement change, gaining their id |
| Backfillr.EditIffSomethingToWrite | src/flickypedia/backfillr/backfillr.py:86-91 | there is something to write iff some action is add_missing, add_qualifiers or replace_statement |
| Backfillr.Backfillr.constructor | src/flickypedia/backfillr/backfillr.py:20-22 | the backfiller holds the two API clients and has made no edit |
| Backfillr.Backfillr.FindPhoto | src/flickypedia/backfillr/backfillr.py:24-40 | the structured data is asked first; the wikitext of `File:<filename>` decides only when that finds nothing |
| Backfillr.Backfillr.NewClaims | src/flickypedia/backfillr/backfillr.py:56-68 | a photo Flickr shows gives its existing-photo claims; a private or missing photo gives only the photo-id statement |
| Backfillr.Backfillr.PlanActions | src/flickypedia/backfillr/backfillr.py:47-70 | no photo found raises ValueError; otherwise the actions are those of `create_actions` for the expected statements |
| Backfillr.Backfillr.UpdateFile | src/flickypedia/backfillr/backfillr.py:42-93 | on an exception nothing is written; otherwise the actions come back with the ids set, and exactly one edit holding every claim is made iff some claim results |
| Backfillr.NoPhotoIsValueError | src/flickypedia/backfillr/backfillr.py:52-54 | a file where neither the structured data nor the wikitext names a photo raises ValueError |
| Backfillr.StructuredDataFirst | src/flickypedia/backfillr/backfillr.py:29-32 | once the structured data names a photo or raises, the wikitext does not affect the result |
| Backfillr.HiddenPhotoOnlyPhotoId | src/flickypedia/backfillr/backfillr.py:62-68 | for a private or missing photo only the photo-id statement is considered, giving one action about the Flickr photo id |
| Claims.OriginalSizes | src/flickypedia/structured_data/claims.py:59 | the list comprehension keeps exactly the sizes labelled "Original" |
| Claims.FirstOriginalSize | src/flickypedia/structured_data/claims.py:59 | `[0]` of that list is the first size labelled "Original" |
| Claims.OriginalUrl | src/flickypedia/structured_data/claims.py:55-63 | existing-photo mode uses None; new-photo mode raises IndexError iff there is no Original size, and otherwise uses the first Original size's source |
| Claims.MainProperties | src/flickypedia/structured_data/claims.py:35-109 | the mainsnak property of each statement, in order |
| Claims.LicensingStatements | src/flickypedia/structured_data/claims.py:79-86 | no statements in existing-photo mode; in new-photo mode a ValueError iff the license is unknown, else the license then the copyright-status statement |
| Claims.LocationStatements | src/flickypedia/structured_data/claims.py:88-91 | the location statement is appended iff the builder returns one, and the builder's ValueError is raised |
| Claims.DateTakenStatements | src/flickypedia/structured_data/claims.py:93-94 | a date-taken statement is appended iff the photo has a date taken; a ValueError of the builder is raised |
| Claims.BhlStatements | src/flickypedia/structured_data/claims.py:102-109 | with the corrected builder, the BHL page-id statement is appended iff the owner is the BHL account and exactly one page id is found in the machine tags |
| Claims.TailStatements | src/flickypedia/structured_data/claims.py:96-109 | the published-in statement always comes next, then the statement of the corrected BHL builder if any |
| Claims.AppendTail | src/flickypedia/structured_data/claims.py:96-109 | the last steps append exactly the tail statements |
| Claims.AppendLicensingOnwards | src/flickypedia/structured_data/claims.py:79-109 | the steps from the license on append what the specification says, or raise its exception |
| Claims.AppendLocationOnwards | src/flickypedia/structured_data/claims.py:88-109 | the same from the location on |
| Claims.AppendSourceOnwards | src/flickypedia/structured_data/claims.py:55-109 | the same from the original URL and source statement on |
| Claims.CreateSdcClaimsForFlickrPhoto | src/flickypedia/structured_data/claims.py:21-111 | the method's statements are those of the specification, or its exception |
| Claims.CreateSdcClaimsForNewFlickrPhoto | src/flickypedia/structured_data/claims.py:114-122 | new-photo mode with the retrieval time |
| Claims.CreateSdcClaimsForExistingFlickrPhoto | src/flickypedia/structured_data/claims.py:125-140 | existing-photo mode without a retrieval time |
| Claims.SourceStage | src/flickypedia/structured_data/claims.py:65-109 | the source statement follows the statements before it, and the properties after it are those of the later steps, ending with published-in and the BHL statement if any |
| Claims.ClaimsProperties | src/flickypedia/structured_data/claims.py:32-109 | the claims' properties are, in order: photo id, creator, source; license and copyright status in new-photo mode; location if any; date taken if any; published in; BHL page id if any |
| Claims.ClaimsBegin | src/flickypedia/structured_data/claims.py:32-72 | the claims begin with the photo-id, creator and source statements built from the photo |
| Claims.ClaimsFailures | src/flickypedia/structured_data/claims.py:57-94 | with the corrected BHL builder, the assembly fails iff a new photo has no Original size, a new photo has an unknown license, the location builder raises, or the date-taken builder raises |
| Claims.ClaimsFailureKinds | src/flickypedia/structured_data/claims.py:57-94 | with the corrected BHL builder, the failure is IndexError exactly for a new photo without an Original size, and ValueError otherwise |
| Claims.LicensingStageError | src/flickypedia/structured_data/claims.py:79-94 | with the corrected BHL builder, from the license on the only exception is ValueError |
| Claims.LocationStageError | src/flickypedia/structured_data/claims.py:88-94 | with the corrected BHL builder, from the location on the only exception is ValueError |
| Claims.NewPhotoSource | src/flickypedia/structured_data/claims.py:57-72 | for a new photo the source statement has a Url qualifier with the Original size's URL and a Retrieved qualifier with the retrieval date |
| Claims.ExistingPhotoClaims | src/flickypedia/structured_data/claims.py:55-86 | for an existing photo the source statement has neither Url nor Retrieved, and there is no license or copyright-status statement |
| Claims.NoLicensingProperties | src/flickypedia/structured_data/claims.py:79-86 | the existing-photo property list has neither license nor copyright status |
| Claims.BhlStepAsWritten | src/flickypedia/structured_data/claims.py:103-109 | as written, the BHL step raises AttributeError exactly for a photo of the BHL account tagged with exactly one page id, and otherwise adds nothing |
| Claims.ClaimsForAsWritten | src/flickypedia/structured_data/claims.py:21-111 | `_create_sdc_claims_for_flickr_photo` as written: claims it returns are exactly the corrected assembly's, and an exception it raises is the corrected assembly's or AttributeError |
| Claims.ClaimsAsWrittenFailures | src/flickypedia/structured_data/claims.py:21-111 | as written, the claims fail iff the corrected assembly fails or the photo is a BHL photo with exactly one page id; an earlier exception wins, and otherwise that photo raises AttributeError |
| Claims.ClaimsAsWrittenAgrees | src/flickypedia/structured_data/claims.py:21-111 | for every other photo the claims as written are those of the corrected assembly, with no BHL page statement |
| QualifierDsl.DataValueOf | src/flickypedia/structured_data/types/qualifiers.py:79-87 | a string qualifier gives a string value, an entity qualifier the entity value (or its failure), a date qualifier the date value at its precision |
| QualifierDsl.CreateQualifiers | src/flickypedia/structured_data/types/qualifiers.py:71-97 | the loop builds exactly the qualifier dict of the specification, or fails as it does |
| QualifierDsl.LastFor | src/flickypedia/structured_data/types/qualifiers.py:89 | the index of the last input entry for a property, or none when no entry names it |
| QualifierDsl.AddQualifiersFails | src/flickypedia/structured_data/types/qualifiers.py:74-95 | the dict is built iff every entry's value can be encoded; the only failure is AssertionError |
| QualifierDsl.AddQualifiersKeys | src/flickypedia/structured_data/types/qualifiers.py:71-97 | a property is a key of the result iff it was already one or some entry names it |
| QualifierDsl.AddQualifiersLookup | src/flickypedia/structured_data/types/qualifiers.py:89-95 | the value for a property is the single snak of its last entry (a later entry overwrites an earlier one); an unnamed property keeps what it had |
| QualifierDsl.AddQualifiersDistinct | src/flickypedia/structured_data/types/qualifiers.py:89 | the dict never holds a property twice |
| QualifierDsl.CreateQualifiersShape | src/flickypedia/structured_data/types/qualifiers.py:71-97 | the keys are exactly the input properties, each once, and each maps to a one-element list holding a "value" snak of that property with the last entry's value |
| WikidataValues.PrecisionValue | src/flickypedia/structured_data/types/wikidata_values.py:52-56 | day, month and year precision map to 11, 10 and 9, and back |
| WikidataValues.PrecisionNamed | src/flickypedia/structured_data/types/wikidata_values.py:50-56 | the precision names accepted are exactly "day", "month" and "year" |
| WikidataValues.PrecisionNameRoundTrip | src/flickypedia/structured_data/types/wikidata_values.py:50-56 | naming a precision and reading the name back gives the same precision |
| WikidataValues.ToWikidataDateValue | src/flickypedia/structured_data/types/wikidata_values.py:46-91 | a time value at the precision's number, with timezone, before and after 0 and the Gregorian calendar model |
| WikidataValues.EntityDigits | src/flickypedia/structured_data/types/wikidata_values.py:104 | the digits after `Q` are a non-empty run of digits |
| WikidataValues.ToWikidataEntityValue | src/flickypedia/structured_data/types/wikidata_values.py:94-107 | fails the assertion iff the id does not match `^Q[0-9]+$`; otherwise an item value keeping the id, with numeric-id the number after `Q` |
| WikidataValues.ToWikidataStringValue | src/flickypedia/structured_data/types/wikidata_values.py:110-114 | a string value holding exactly the given text |
| WikidataValues.ParseTime | src/flickypedia/structured_data/types/wikidata_values.py:131-137 | a time string `strptime` accepts gives a real calendar date with no time of day, whose year is the four digits after the "+", whose day is 1 below day precision and whose month is 1 at year precision; every other string raises ValueError |
| WikidataValues.MonthAt | src/flickypedia/structured_data/types/wikidata_values.py:131-134 | the month field ends at the "-" at index 7 or 8 |
| WikidataValues.ParseTimeAcceptsShortFields | src/flickypedia/structured_data/types/wikidata_values.py:131 | `%m` and `%d` take one digit, and the "T" and "Z" of the pattern match either case |
| WikidataValues.ParseTimeAcceptsSpacedDay | src/flickypedia/structured_data/types/wikidata_values.py:131 | `%d` takes a space before a single digit |
| WikidataValues.ParseTimeAcceptsShortMonth | src/flickypedia/structured_data/types/wikidata_values.py:134 | the month pattern takes a one-digit month |
| WikidataValues.ParseTimeRejectsMissingDay | src/flickypedia/structured_data/types/wikidata_values.py:131 | a day the month does not have raises ValueError |
| WikidataValues.PaddedMonth | src/flickypedia/structured_data/types/wikidata_values.py:131 | a zero-padded month 1 to 12 is a month field of that value |
| WikidataValues.PaddedDay | src/flickypedia/structured_data/types/wikidata_values.py:131 | a zero-padded day 1 to 31 is a day field of that value |
| WikidataValues.TimeStringShape | src/flickypedia/structured_data/types/wikidata_values.py:46-66 | the time string written at a precision has the "+YYYY-MM-DDT00:00:00Z" layout, with the year's digits and "00" for the fields the precision drops |
| WikidataValues.TimeStringRoundTrip | src/flickypedia/structured_data/types/wikidata_values.py:46-137 | parsing the time string written at a precision with the matching pattern gives back the date cut to that precision |
| WikidataValues.DateValueRoundTrip | src/flickypedia/structured_data/types/wikidata_values.py:46-138 | the same for the time string inside a date value |
| WikidataValues.RenderWikidataDate | src/flickypedia/structured_data/types/wikidata_values.py:117-140 | a calendar other than Gregorian, or a precision other than 9, 10 or 11, fails the assertion |
| WikidataValues.RenderDateValue | src/flickypedia/structured_data/types/wikidata_values.py:117-138 | a date value written at a precision renders as "D Month YYYY" (no leading zero), "Month YYYY" or "YYYY" |
| WikidataProperties.Attribute | src/flickypedia/structured_data/wikidata_properties.py:4-30 | reading an attribute the class does not define raises AttributeError |
| WikidataProperties.RunEnd | src/flickypedia/structured_data/wikidata_properties.py:52 | `[^A-Z]*` stops at the next capital letter or the end of the name |
| WikidataProperties.PropertyLabel | src/flickypedia/structured_data/wikidata_properties.py:33-57 | P571 is "date created" and P1259 "location"; an unknown id raises KeyError; any other known id is labelled from its attribute name split at capitals, joined with spaces and lower-cased |
| WikidataProperties.OperatorWords | src/flickypedia/structured_data/wikidata_properties.py:52 | `Operator` gives "operator" |
| WikidataProperties.OperatorLabel | src/flickypedia/structured_data/wikidata_properties.py:37-38 | P137 is labelled "operator", as the docstring shows |
| WikidataProperties.AuthorNameSplit | src/flickypedia/structured_data/wikidata_properties.py:52 | `AuthorName` splits into "Author" and "Name" |
| WikidataProperties.LowerAuthorName | src/flickypedia/structured_data/wikidata_properties.py:52 | "Author Name" lower-cases to "author name" |
| WikidataProperties.AuthorNameWords | src/flickypedia/structured_data/wikidata_properties.py:52 | `AuthorName` gives "author name" |
| WikidataProperties.AuthorNameLabel | src/flickypedia/structured_data/wikidata_properties.py:40-41 | P2093 is labelled "author name", as the docstring shows |
| WikidataProperties.UnknownPropertyLabel | src/flickypedia/structured_data/wikidata_properties.py:56-57 | an id that is not a property constant raises KeyError |
| ApisWikidata.ToWikidataDate | src/flickypedia/apis/wikidata.py:214-278 | raises ValueError iff the precision is not "day", "month" or "year"; otherwise a Gregorian time value with timezone, before and after 0, at precision 11, 10 or 9 |
| ApisWikidata.ToWikidataDateMeaning | src/flickypedia/apis/wikidata.py:234-243 | it agrees with the newer date encoder, so its time string zeroes the same fields and parses back to the date cut to the precision |
| ApisWikidata.RenderWikidataDateWithPrecision | src/flickypedia/apis/wikidata.py:281-304 | fails exactly where the newer renderer does; otherwise the newer rendering followed by the precision suffix |
| ApisWikidata.RenderWrittenDate | src/flickypedia/apis/wikidata.py:294-302 | a written date renders as its text followed by "(precision: day/month/year, calendar: Gregorian)" |
| ApisWikidata.SuffixOfPrecision | src/flickypedia/apis/wikidata.py:294-302 | the suffix names the precision the value was written at |
| ApisWikidata.GetPropertyName | src/flickypedia/apis/wikidata.py:62-81 | raises KeyError iff no property constant has the code; otherwise the constant's name split at capitals and lower-cased |
| ApisWikidata.OperatorPropertyName | src/flickypedia/apis/wikidata.py:67-68 | P137 is "operator" |
| ApisWikidata.AuthorNamePropertyName | src/flickypedia/apis/wikidata.py:70-71 | P2093 is "author name" |
| ApisWikidata.RetrievedHasNoName | src/flickypedia/apis/wikidata.py:74-81 | the older property class has no Retrieved constant, so P813 has no name |
| ApisWikidata.EntityOfUri | src/flickypedia/apis/wikidata.py:194-200 | the id taken from an entity URI is a `Q<digits>` id |
| ApisWikidata.InterpretLookup | src/flickypedia/apis/wikidata.py:173-211 | anything but exactly one binding gives None; an id comes back only from a single "uri" binding that is a Wikidata entity URI, and is that URI's id; the only exception is RuntimeError |
| ApisWikidata.LookupFindsEntity | src/flickypedia/apis/wikidata.py:190-200 | a single binding `http://www.wikidata.org/entity/Q<digits>` gives `Q<digits>` |
| Statements.PropertiesOf | src/flickypedia/structured_data/types/qualifiers.py:71-97 | one property per qualifier entry, in input order |
| Statements.Entries | src/flickypedia/structured_data/types/qualifiers.py:89-95 | the qualifier dict of distinct entries holds, at each position, the entry's property with its single snak |
| Statements.AddDistinctQualifiers | src/flickypedia/structured_data/types/qualifiers.py:71-97 | when no property repeats, building the qualifiers cannot fail and appends one dict entry per input entry, in order |
| Statements.Qualify | src/flickypedia/structured_data/types/qualifiers.py:71-97 | for distinct properties, `create_qualifiers` succeeds with exactly those entries and no key twice |
| Statements.Entity | src/flickypedia/structured_data/types/wikidata_values.py:94-107 | a well-formed `Q` id always converts to an item value carrying that id |
| Statements.CreateFlickrPhotoIdStatement | src/flickypedia/structured_data/statements/flickr_photo_id_statement.py:12-19 | a "value" snak of "Flickr photo ID" holding the photo id as a string, with no qualifiers |
| Statements.PhotoIdStatementIsFound | src/flickypedia/structured_data/statements/flickr_photo_id_statement.py:5-19 | the statement written for a photo id is read back by the matcher as exactly that photo id, with no URL |
| Statements.AuthorNameOf | src/flickypedia/structured_data/statements/creator_statement.py:20 | the real name when it is present and non-empty, otherwise the username |
| Statements.CreateFlickrCreatorStatement | src/flickypedia/structured_data/statements/creator_statement.py:7-47 | a "somevalue" creator snak qualified by author name, profile URL and Flickr user id, listed in the order user id, name, URL |
| Statements.CreatorOrderMatchesKeys | src/flickypedia/structured_data/statements/creator_statement.py:17-45 | the qualifiers-order lists exactly the qualifier keys (in a different order) |
| Statements.SourceOrderShape | src/flickypedia/structured_data/statements/source_statement.py:44-62 | the order starts with "described at URL" and "operator", holds "URL" iff an original URL is given and "retrieved" (last) iff a retrieval date is given, with no duplicates |
| Statements.SourceQualifiersEncode | src/flickypedia/structured_data/statements/source_statement.py:22-62 | every source qualifier can be encoded and they come in the same order as qualifiers-order |
| Statements.CreateSourceStatement | src/flickypedia/structured_data/statements/source_statement.py:13-75 | "source of file" is "file available on the internet"; the qualifier keys equal qualifiers-order; each key carries the photo URL, Flickr as operator, the original URL and the retrieval day respectively |
| Statements.BuildSourceStatement | src/flickypedia/structured_data/statements/source_statement.py:22-75 | growing the two lists by conditional appends, as the source does, yields exactly the source statement specified above |
| Statements.SourceIgnoresPhotoId | src/flickypedia/structured_data/statements/source_statement.py:13-18 | the photo id argument has no effect on the statement |
| Statements.CreateLicenseStatement | src/flickypedia/structured_data/statements/license_statement.py:6-22 | ValueError iff the license has no Wikidata entity; otherwise a copyright-license statement holding that entity, without qualifiers |
| Statements.PlainEntityStatement | src/flickypedia/structured_data/statements/license_statement.py:15-22 | a value snak of the property holding the entity, with no qualifiers |
| Statements.UsGovCopyrightStatus | src/flickypedia/structured_data/statements/copyright_status_statement.py:26-54 | "public domain", qualified by jurisdiction United States and determination method "work of the federal government", in that order |
| Statements.EntityWithTwoQualifiers | src/flickypedia/structured_data/statements/copyright_status_statement.py:27-54 | an entity statement with two entity qualifiers in the given order |
| Statements.CreateCopyrightStatusStatement | src/flickypedia/structured_data/statements/copyright_status_statement.py:11-75 | "copyrighted" for the four CC BY licenses, the US government shape for "usgov", "dedicated to the public domain by the copyright owner" for CC0 and PDM, and ValueError for every other license |
| Statements.LicenseAndStatusAgree | src/flickypedia/structured_data/statements/license_statement.py:10-13 | a license gets a license statement iff it gets a copyright status statement |
| Statements.LocationPrecision | src/flickypedia/structured_data/statements/location_statement.py:71-99 | a precision exists iff the accuracy is 1 to 16, and it lies in (0, 0.1] |
| Statements.FinerAccuracyFinerPrecision | src/flickypedia/structured_data/statements/location_statement.py:72-97 | a higher accuracy level never gives a coarser precision |
| Statements.CreateLocationStatement | src/flickypedia/structured_data/statements/location_statement.py:7-117 | no location, or latitude and longitude both 0, gives no statement; an accuracy outside 1-16 is a ValueError; otherwise a point-of-view statement on Earth with the photo's coordinates, the accuracy's precision and no altitude |
| Statements.TakenPrecision | src/flickypedia/structured_data/statements/date_taken_statement.py:28-38 | a precision exists exactly for the granularities second, month, year and circa |
| Statements.CreateDateTakenStatement | src/flickypedia/structured_data/statements/date_taken_statement.py:15-73 | ValueError for an unknown granularity; otherwise an inception date at the mapped precision, with the "circa" sourcing qualifier exactly when the granularity is circa |
| Statements.DateTakenReadsBack | src/flickypedia/structured_data/statements/date_taken_statement.py:40-73 | the date written into the inception statement parses back to the date taken cut to its precision |
| Statements.CreatePublishedInStatement | src/flickypedia/structured_data/statements/published_in_statement.py:13-36 | "published in" Flickr, with a single publication-date qualifier holding the posting day |
| Statements.GuessBhlPageId | src/flickypedia/structured_data/statements/bhl_page_id_statement.py:14-46 | a page id iff the `bhl:page` machine tag holds exactly one distinct value, and then that value |
| Statements.CreateBhlPageIdStatementAsWritten | src/flickypedia/structured_data/statements/bhl_page_id_statement.py:49-67 | as written: no statement when no single page id is found, and AttributeError whenever one is |
| Statements.BhlPageIdAsWrittenFails | src/flickypedia/structured_data/statements/bhl_page_id_statement.py:55-61 | a photo tagged `bhl:page=33665643` makes the function as written raise AttributeError |
| Statements.CreateBhlPageIdStatement | src/flickypedia/structured_data/statements/bhl_page_id_statement.py:49-67 | corrected: a statement iff a single page id is found, holding it as a string value of the BHL page id property, without qualifiers |
| Statements.BhlCorrectionAgrees | src/flickypedia/structured_data/statements/bhl_page_id_statement.py:49-67 | wherever the function as written returns, the corrected one returns the same (no statement) |
| CommonsUrls.GetFilenameFromUrl | src/flickypedia/apis/wikimedia/url_parser.py:6-22 | ValueError iff the host is not one of the two Commons hosts or the path is not `/wiki/File:…`; otherwise the name that follows "File:" in the second segment |
| CommonsUrls.FilenameRoundTrip | src/flickypedia/apis/wikimedia/url_parser.py:16-22 | the file page URL built from a name, on either host, gives that name back |
| CommonsUrls.TrailingSegmentsIgnored | src/flickypedia/apis/wikimedia/url_parser.py:19-22 | path segments after the second do not change the outcome |
| FlickrUserIds.UserIdFromParts | src/flickypedia/apis/flickr_user_ids.py:72-83 | 5 to 11 digits, then `@N`, then two digits, make a string of the user id shape |
| FlickrUserIds.UserIdToParts | src/flickypedia/apis/flickr_user_ids.py:72-83 | and every string of that shape splits back into exactly those parts |
| FlickrUserIds.AliasIsNotUserId | src/flickypedia/apis/flickr_user_ids.py:72-83 | a string without `@` is never taken for a user id |
| FlickrUserIds.LookupFlickrUserInWikidata | src/flickypedia/apis/flickr_user_ids.py:49-69 | the entity of the user id when it is in the table; else the entity of the path alias when there is one and it is in the table; none exactly when neither matches |
| FlickrUserIds.FindWikidataEntitiesWithFlickrIds | src/flickypedia/apis/flickr_user_ids.py:92-146 | the loop over the decoded SPARQL bindings builds the two lookup tables of the specification function |
| FlickrUserIds.LastFor | src/flickypedia/apis/flickr_user_ids.py:118-144 | the last accepted binding whose literal is the key, or none when no accepted binding has it |
| FlickrUserIds.TablesMeaning | src/flickypedia/apis/flickr_user_ids.py:129-144 | a literal is a key of the user-id table iff it looks like a user id and some accepted binding has it, and of the path-alias table iff it does not look like one; either way it maps to the entity of the last such binding |
| FlickrUserIds.LookupInTables | src/flickypedia/apis/flickr_user_ids.py:49-144 | looking a user up in the tables built from the bindings gives the entity of the last binding for the user id, else the last one for the path alias, else nothing |
| FlickrUtils.ParseDateTakenGranularity | src/flickypedia/apis/flickr/utils.py:29-46 | codes "0", "4", "6" and "8" give second, month, year and circa; every other code raises ValueError |
| FlickrUtils.GranularityRoundTrip | src/flickypedia/apis/flickr_photos_api/utils.py:100-117 | each granularity's code reads back as that granularity |
| FlickrUtils.ParseSafetyLevel | src/flickypedia/apis/flickr/utils.py:49-65 | codes "0", "1" and "2" give safe, moderate and restricted; every other code raises ValueError |
| FlickrUtils.SafetyRoundTrip | src/flickypedia/apis/flickr_photos_api/utils.py:120-136 | each safety level's code reads back as that level |
| FlickrUtils.ParseInt | src/flickypedia/apis/flickr/utils.py:97-98 | `int()` of a string fails only with ValueError, and reads plain digits as their decimal value |
| FlickrUtils.ParseIntAccepts | src/flickypedia/apis/flickr/utils.py:97-98 | `int()` succeeds exactly on white space around an optional sign and digits in groups joined by single underscores |
| FlickrUtils.ParseIntIgnoresSpace | src/flickypedia/apis/flickr/utils.py:97-98 | white space around a literal does not change what `int()` gives |
| FlickrUtils.ParseIntSigned | src/flickypedia/apis/flickr/utils.py:97-98 | "-" and "+" before the digits give the negative and the positive value |
| FlickrUtils.ParseIntUnderscore | src/flickypedia/apis/flickr/utils.py:97-98 | two groups of digits joined by one underscore read as the number of their digits together |
| FlickrUtils.ParseIntDoubleUnderscore | src/flickypedia/apis/flickr/utils.py:97-98 | two underscores in a row raise ValueError |
| FlickrUtils.StripAround | src/flickypedia/apis/flickr/utils.py:97-98 | `str.strip()` removes exactly the white space around a string whose ends are not white space |
| FlickrUtils.GroupsDigits | src/flickypedia/apis/flickr/utils.py:97-98 | the digits of a literal's body are digits, at least one of them |
| FlickrUtils.SizeEntry | src/flickypedia/apis/flickr/utils.py:94-105 | a suffix gives a size iff its height, width, URL and the media attribute are all present and the numbers parse, and the size carries exactly those values; a number that does not parse raises ValueError |
| FlickrUtils.ParseSizes | src/flickypedia/apis/flickr/utils.py:68-107 | the loop over the suffix table appends exactly the sizes of the specification function |
| FlickrUtils.ErrorStops | src/flickypedia/apis/flickr/utils.py:94-105 | once a suffix fails, the later suffixes do not change the outcome |
| FlickrUtils.SizesInTableOrder | src/flickypedia/apis/flickr/utils.py:85-93 | the labels come out in the order of the suffix table |
| FlickrUtils.SizesFromTable | src/flickypedia/apis/flickr/utils.py:85-105 | every size returned is the entry of some suffix of the table |
| FlickrUtils.SizesIncluded | src/flickypedia/apis/flickr/utils.py:94-105 | a label is among the results iff its suffix is complete |
| FlickrUtils.SizeLabelsDistinct | src/flickypedia/apis/flickr/utils.py:85-93 | no two suffixes share a label |
| FlickrUtils.FindRequiredElem | src/flickypedia/apis/flickr_photos_api/utils.py:8-33 | the first matching element, and ValueError iff there is none |
| FlickrUtils.FindRequiredText | src/flickypedia/apis/flickr_photos_api/utils.py:36-62 | the text of the first match, and ValueError iff there is no match or it has no text |
| FlickrUtils.FindOptionalText | src/flickypedia/apis/flickr_photos_api/utils.py:65-75 | a result is always the non-empty text of the first match |
| FlickrUtils.OptionalAndRequiredText | src/flickypedia/apis/flickr_photos_api/utils.py:36-75 | the optional lookup gives nothing when the required one fails or finds empty text, and otherwise gives the same text |
| FsQueue.SetTwice | src/flickypedia/fs_queue.py:146-187 | replacing a state's folder twice leaves only the second replacement |
| FsQueue.FilesystemTaskQueue.constructor | src/flickypedia/fs_queue.py:91-99 | a new queue has four empty folders and no writes yet |
| FsQueue.FilesystemTaskQueue.ReadTask | src/flickypedia/fs_queue.py:189-206 | the task found first in the order waiting, in progress, failed, completed; ValueError when no folder holds the id |
| FsQueue.FilesystemTaskQueue.WriteTask | src/flickypedia/fs_queue.py:146-187 | the task is stored in its state's folder with this write's time, and removed from the folder of its previous state |
| FsQueue.FilesystemTaskQueue.StartTask | src/flickypedia/fs_queue.py:208-236 | the id is the given one or, when none (or an empty one) is given, a fresh one; a waiting task holding the input, the output and the single event "Task created" is written |
| FsQueue.FilesystemTaskQueue.RecordTaskEvent | src/flickypedia/fs_queue.py:238-253 | the task, moved to the given state if one is given, gains the event at the end of its history and is written back |
| FsQueue.FilesystemTaskQueue.NextAvailableTask | src/flickypedia/fs_queue.py:255-274 | none iff nothing is waiting; otherwise a waiting task with the oldest modification time |
| FsQueue.FilesystemTaskQueue.ProcessSingleTask | src/flickypedia/fs_queue.py:276-341 | with nothing waiting, nothing changes; otherwise the oldest waiting task is claimed, recorded as started in progress, processed and written to completed or failed with the matching closing event, and its id is returned |
| FsQueue.FindMeaning | src/flickypedia/fs_queue.py:189-206 | the lookup fails iff no folder holds the id, and otherwise returns the copy in the first folder of the search order that holds it |
| FsQueue.FindConsistent | src/flickypedia/fs_queue.py:146-206 | in a queue where every id sits in one folder only and matches that folder's state, reading a task gives the stored copy, whose state is its folder |
| FsQueue.RemoveKeepsConsistent | src/flickypedia/fs_queue.py:182-311 | removing a file keeps every id in at most one folder, with a matching state |
| FsQueue.InsertKeepsConsistent | src/flickypedia/fs_queue.py:157-187 | adding a task to its state's folder, when no other folder holds its id, keeps the queue consistent |
| FsQueue.WriteKeepsOthers | src/flickypedia/fs_queue.py:146-187 | writing a task changes no other task's file |
| FsQueue.WritePlacesTask | src/flickypedia/fs_queue.py:146-187 | after a write the task is in its state's folder only, stored as written, and the queue stays consistent |
| FsQueue.WriteHoldsTask | src/flickypedia/fs_queue.py:146-187 | after a write the queue holds that task and otherwise what it held before |
| FsQueue.RewriteHoldsTask | src/flickypedia/fs_queue.py:238-253 | writing the same task again in the same state replaces the earlier copy and keeps the rest |
| FsQueue.StartKeepsConsistent | src/flickypedia/fs_queue.py:308-322 | claiming a waiting task and recording it as started leaves it in progress only, and the queue consistent |
| FsQueue.ProcessedTaskEnds | src/flickypedia/fs_queue.py:324-339 | a processed task ends in completed when nothing was raised and in failed otherwise, with its history extended by the matching closing event and its output kept |
| FsQueue.ProcessKeepsConsistent | src/flickypedia/fs_queue.py:276-341 | the whole processing of a waiting task keeps the queue consistent and leaves the task in exactly one final folder |
| FsQueue.SuccessfulEvents | src/flickypedia/fs_queue.py:220-339 | a task that succeeds has the history "Task created", "Task started", "Task completed without exception" |
| FsQueue.FailedEvents | src/flickypedia/fs_queue.py:220-333 | a task that fails has the history "Task created", "Task started", "Task failed with an exception: " followed by the exception, and is in the failed state |
| Photos.LastLabelled | src/flickypedia/photos.py:23 | the dict built from the sizes keeps, for a label, the last size carrying it; none iff no size carries it |
| Photos.SizeAt | src/flickypedia/photos.py:18-39 | the size with the desired label when one exists, otherwise the Original size; KeyError iff neither label occurs; the result is always one of the sizes |
| Photos.DisallowedLicenses | src/flickypedia/photos.py:62-72 | only photos of the list are reported as disallowed |
| Photos.DisallowedKeys | src/flickypedia/photos.py:62-72 | a photo id is reported as disallowed iff some photo with it is not a duplicate and has a license outside the allowed set |
| Photos.DisallowedLabel | src/flickypedia/photos.py:62-64 | the report holds the license label of the last photo with that id |
| Photos.AvailablePhotos | src/flickypedia/photos.py:82-88 | a photo is available iff it is in the list and is neither a duplicate, nor disallowed, nor restricted; the list never grows |
| Photos.CategorisePhotos | src/flickypedia/photos.py:49-99 | the duplicates are passed through and the four categories add up to the number of photos, or the final assertion fails |
| Photos.CategoriesPartition | src/flickypedia/photos.py:60-92 | the four categories are pairwise disjoint and every photo falls into one of them |
| Photos.CategoryOfPhoto | src/flickypedia/photos.py:62-88 | for photos with distinct ids: disallowed iff not a duplicate and the license is not allowed; restricted iff not a duplicate, allowed and not "safe"; available iff not a duplicate, allowed and "safe" |
| Photos.CategoriseSucceeds | src/flickypedia/photos.py:90-92 | when the photo ids are distinct and the duplicates are among them, the count assertion holds |
| Photos.CategoryParts | src/flickypedia/photos.py:60-92 | under the same conditions the ids split into four disjoint parts whose sizes are those of the categories |
| Photos.EnrichPhoto | src/flickypedia/photos.py:107-123 | succeeds iff the structured-data builder succeeds for every photo, and then gives one entry per photo, in order, pairing each photo with its structured data; otherwise the exception of the first photo whose builder raises |
| PrepareInfo.Prefix | src/flickypedia/uploadr/views/prepare_info.py:340 | slicing keeps the first n characters, or the whole string when it is shorter |
| PrepareInfo.CutAtLastSpace | src/flickypedia/uploadr/views/prepare_info.py:341 | `rsplit(" ", 1)` keeps what precedes the last space; ValueError iff there is no space |
| PrepareInfo.DropShortLastLine | src/flickypedia/uploadr/views/prepare_info.py:347-353 | the text is kept unless its last line (after the last newline) has at most 10 characters, in which case that line and its newline are dropped |
| PrepareInfo.SplitOffLine | src/flickypedia/uploadr/views/prepare_info.py:319-321 | a line without a break followed by a newline splits off as the first line |
| PrepareInfo.JoinedLines | src/flickypedia/uploadr/views/prepare_info.py:319-321 | joining at most four lines and splitting them again gives no more lines, and gives the same lines when the last is non-empty |
| PrepareInfo.Truncate | src/flickypedia/uploadr/views/prepare_info.py:310-355 | the text is kept untruncated iff it has few enough lines and is short enough; a long text is cut to strictly less than the cut length and stripped, and fails with ValueError iff its cut prefix has no space |
| PrepareInfo.FirstLines | src/flickypedia/uploadr/views/prepare_info.py:319-321 | the first lines, rejoined, have at most that many lines |
| PrepareInfo.FirstLinesKept | src/flickypedia/uploadr/views/prepare_info.py:319-323 | a text with too many lines is truncated as its first lines are, and marked truncated |
| PrepareInfo.TruncatedLength | src/flickypedia/uploadr/views/prepare_info.py:328-341 | the truncated text never exceeds the maximum length |
| PrepareInfo.TruncateDescription | src/flickypedia/uploadr/views/prepare_info.py:310-355 | with the current limits (4 lines, 140 + 20 characters) the text shown is at most 160 characters; the only failure is ValueError |
| PrepareInfo.CurrentTruncation | src/flickypedia/uploadr/views/prepare_info.py:319-355 | up to 4 lines and 160 characters the text is returned whole; a longer one fails iff its first 155 characters hold no space, and is otherwise cut at the last space, loses a short last line, and is stripped, leaving at most 154 characters |
| PrepareInfo.OlderTruncateDescriptionAsWritten | src/flickypedia/views/prepare_info.py:239-281 | the older version as written: up to 5 lines and 180 characters the text is returned whole, and any changed text ends with "…" |
| PrepareInfo.DoubledEllipsis | src/flickypedia/views/prepare_info.py:248-281 | a description of more than 5 lines whose first 5 lines are over 180 characters and have a space within the cut comes out ending in "……" |
| PrepareInfo.OlderTruncateDescription | src/flickypedia/views/prepare_info.py:239-281 | corrected: short text is returned whole; any other result is the truncation of the text followed by a single "…", at most 181 characters |
| PrepareInfo.OlderVersionsCompared | src/flickypedia/views/prepare_info.py:248-281 | the two versions agree except when the first 5 lines are themselves too long, where the version as written adds a second "…" |
| PrepareInfo.OlderWithinLines | src/flickypedia/views/prepare_info.py:254-281 | within 5 lines both versions give the shared truncation, followed by "…" when it cut something |
| PrepareInfo.FormKey | src/flickypedia/uploadr/views/prepare_info.py:172-205 | the form field of a photo is "photo_" followed by its id |
| PrepareInfo.FormKeyInjective | src/flickypedia/uploadr/views/prepare_info.py:172-205 | different photos get different form fields |
| PrepareInfo.FileName | src/flickypedia/uploadr/views/prepare_info.py:213 | the title, a dot, then the original format |
| PrepareInfo.Categories | src/flickypedia/uploadr/views/prepare_info.py:207 | `strip().splitlines()` gives categories without line breaks |
| PrepareInfo.CategoriesRoundTrip | src/flickypedia/uploadr/views/prepare_info.py:207 | non-empty categories written one per line are read back unchanged |
| PrepareInfo.CreateUploadRequests | src/flickypedia/uploadr/views/prepare_info.py:198-223 | KeyError iff some photo has no form field; otherwise one request per photo, in order, with the photo, its structured data, the file name, the caption in the chosen language, the categories and the user name |
| PrepareInfo.OlderCreateUploadRequests | src/flickypedia/views/prepare_info.py:145-167 | the same for the older version, whose caption language comes from the form and whose categories are passed on as typed |
| PrepareInfo.TitleToValidate | src/flickypedia/uploadr/views/prepare_info.py:75-76 | the title checked is "File:" followed by the file name the upload will use |
| PrepareInfo.FormTitleIsChecked | src/flickypedia/uploadr/views/prepare_info.py:75-82 | the title field is checked by the title validator, with its local checks first and the remote ones only when they pass |
| PrepareInfo.JsLanguage | src/flickypedia/uploadr/views/prepare_info.py:107-115 | a language is returned only when the field holds text that decodes to a language match |
| PrepareInfo.ValidateNoJsLanguage | src/flickypedia/uploadr/views/prepare_info.py:117-119 | a validation error iff no JavaScript language decodes and the fallback select is empty |
| PrepareInfo.Language | src/flickypedia/uploadr/views/prepare_info.py:121-130 | with JavaScript on, the id of the decoded language, or a validation error when none decodes; with it off, the fallback select's value |
| PrepareInfo.ValidatedLanguage | src/flickypedia/uploadr/views/prepare_info.py:117-130 | once the form validates, the language can be read; without JavaScript it is the fallback value, and an empty language can only come from a decoded match |
| TitleValidation.Utf8Width | src/flickypedia/apis/wikimedia/validator_methods.py:55 | a character takes 1 to 4 bytes in UTF-8, and 1 exactly when it is ASCII |
| TitleValidation.Utf8Length | src/flickypedia/apis/wikimedia/validator_methods.py:55 | the UTF-8 length lies between the number of characters and four times it |
| TitleValidation.Utf8LengthAppend | src/flickypedia/apis/wikimedia/validator_methods.py:55 | the UTF-8 length of a concatenation is the sum of the lengths |
| TitleValidation.AsciiUtf8Length | src/flickypedia/apis/wikimedia/validator_methods.py:55 | an ASCII title has as many bytes as characters |
| TitleValidation.BaseName | src/flickypedia/apis/wikimedia/validator_methods.py:68 | the title without "File:", cut before its last dot when it has one |
| TitleValidation.LocalVerdict | src/flickypedia/apis/wikimedia/validator_methods.py:55-87 | the checks made before any request can only answer "too long" or "invalid", and a title of more than 240 UTF-8 bytes is always "too long" |
| TitleValidation.CaseInsensitiveMatch | src/flickypedia/apis/wikimedia/validator_methods.py:154-165 | with `str.lower()` as a parameter: "found" iff some hit, after only hits with text that differ, equals the title once both are lower-cased; "not found" iff every hit has text and none matches; otherwise a hit without text fails the assertion |
| TitleValidation.ValidateTitle | src/flickypedia/apis/wikimedia/validator_methods.py:26-223 | a title not starting with "File:" fails the assertion; with `str.lower()` as a parameter, a local verdict is returned without asking Commons; the only failures are the assertions, a title without a dot, and an unexpected API error |
| TitleValidation.AcceptedTitle | src/flickypedia/apis/wikimedia/validator_methods.py:49-223 | an accepted title starts with "File:", fits in 240 bytes, has no image suffix or forbidden character in its base name, has a dot, is not an existing page, matches no search hit once both are lower-cased by `str.lower()`, and is not blacklisted |
| TitleValidation.DuplicateTitle | src/flickypedia/apis/wikimedia/validator_methods.py:101-165 | a title is called a duplicate only when a page of that title exists or a search hit equals it once both are lower-cased by `str.lower()` |
| TitleValidation.RejectedTitle | src/flickypedia/apis/wikimedia/validator_methods.py:70-221 | "invalid" only for an image suffix, a forbidden character or an "invalidtitle" API error; "blacklisted" only when the blacklist answers something other than "ok" |
| TitleValidation.LocalChecksComeFirst | src/flickypedia/apis/wikimedia/validator_methods.py:49-87 | when the local checks decide, the answers of the Commons API make no difference |
| Uploads.UploadSinglePhoto | src/flickypedia/uploadr/uploads.py:157-211 | the calls go upload, caption, structured data, categories, then the record of the created file, each on the requested title and in that order; the upload uses the Original size's URL; success iff all five happen, and then the title returned starts with "File:" and is the one recorded |
| Uploads.SuccessRecorded | src/flickypedia/uploadr/uploads.py:199-211 | a successful upload is always recorded with its "File:" title and page id, and a failed one is never recorded |
| Uploads.InitialOutput | src/flickypedia/uploadr/uploads.py:148-150 | every requested photo, and no other, starts as waiting |
| Uploads.Keyring.constructor | src/flickypedia/uploadr/uploads.py:142-144 | an empty keyring |
| Uploads.Keyring.SetPassword | src/flickypedia/uploadr/uploads.py:142-144 | stores the token under the id, replacing any earlier one |
| Uploads.Keyring.GetPassword | src/flickypedia/uploadr/uploads.py:85 | the stored token, or none when the id is not stored |
| Uploads.Keyring.DeletePassword | src/flickypedia/uploadr/uploads.py:86 | removes the id and reports whether it was there |
| Uploads.BeginUpload | src/flickypedia/uploadr/uploads.py:125-154 | the user's token is stored under "user-{id}-id-{upload id}", and a waiting task named after the upload id, holding that keyring id, the requests and every photo waiting, is written to the queue |
| Uploads.Settled | src/flickypedia/uploadr/uploads.py:98-110 | a finished upload becomes "succeeded" with its page id and title, a raised one "failed" with the exception's text |
| Uploads.OutputAfter | src/flickypedia/uploadr/uploads.py:92-115 | after the loop the output covers the photos it already held and every requested photo |
| Uploads.EventsFor | src/flickypedia/uploadr/uploads.py:96-115 | each request adds exactly two events |
| Uploads.Descriptions | src/flickypedia/uploadr/uploads.py:96-115 | the descriptions of the events, one per event, in order |
| Uploads.StartRecorded | src/flickypedia/uploadr/uploads.py:95-96 | marking a photo in progress and recording "Uploading photo {id}" is the first half of a turn |
| Uploads.FinishRecorded | src/flickypedia/uploadr/uploads.py:98-115 | storing the settled result and recording "Finished photo {id} ({state})" completes the turn |
| Uploads.TurnHoldsTask | src/flickypedia/uploadr/uploads.py:95-115 | the two writes of a turn keep the queue holding the task as updated |
| Uploads.PhotoUploadQueue.constructor | src/flickypedia/uploadr/uploads.py:61-70 | the upload queue works over the given task queue and keyring |
| Uploads.PhotoUploadQueue.UploadOne | src/flickypedia/uploadr/uploads.py:92-115 | one turn of the loop: two writes, leaving the task as the specification of one request says, and the queue holding it |
| Uploads.PhotoUploadQueue.UploadAll | src/flickypedia/uploadr/uploads.py:92-115 | the loop: two writes per request, leaving the task as the specification of all requests says |
| Uploads.PhotoUploadQueue.ProcessIndividualTask | src/flickypedia/uploadr/uploads.py:72-115 | the task is moved to in progress with "Starting to upload photos", its keyring entry is deleted, and each request is uploaded with the stored token; a missing keyring entry raises before any upload |
| Uploads.AfterRequestsStep | src/flickypedia/uploadr/uploads.py:92 | the requests are handled one after the other |
| Uploads.AfterRequestsKeep | src/flickypedia/uploadr/uploads.py:92-115 | the loop changes neither the task's id, nor its state, nor its input |
| Uploads.AfterRequestsOutput | src/flickypedia/uploadr/uploads.py:95-110 | the output after the loop is the settled outputs of the requests over the initial output |
| Uploads.AfterRequestAppends | src/flickypedia/uploadr/uploads.py:96-115 | a turn only appends its two events to the history |
| Uploads.AfterRequestsTimes | src/flickypedia/uploadr/uploads.py:96-115 | the earlier history is kept and each new event carries the clock reading for its position |
| Uploads.AfterRequestsEvents | src/flickypedia/uploadr/uploads.py:96-115 | the descriptions added are exactly two per request, in request order |
| Uploads.PhotoResultIsOwn | src/flickypedia/uploadr/uploads.py:98-110 | a photo's final result is the settled outcome of its last request |
| Uploads.UnrequestedUnchanged | src/flickypedia/uploadr/uploads.py:92-110 | photos not requested keep their state |
| Uploads.BatchSettles | src/flickypedia/uploadr/uploads.py:92-150 | after the loop, every photo of the batch has succeeded or failed; none is left waiting or in progress |
| Uploads.LastRequestFor | src/flickypedia/uploadr/uploads.py:92 | every request has a last request for the same photo at or after it |
| Wikitext.DateFormatFor | src/flickypedia/apis/wikitext.py:34-39 | a format exists for the granularities second, month, year and circa; any other raises KeyError |
| Wikitext.DateString | src/flickypedia/apis/wikitext.py:34-44 | fails exactly as the format lookup does (even for an unknown date); an unknown date is written "{{Other date\|?}}" |
| Wikitext.AuthorName | src/flickypedia/apis/wikitext.py:61 | the real name when present and non-empty, otherwise the username |
| Wikitext.CreateWikitext | src/flickypedia/apis/wikitext.py:17-63 | the page text is produced iff the granularity has a format, and KeyError otherwise |
| Wikitext.WikitextLayout | src/flickypedia/apis/wikitext.py:46-63 | the text opens with the Information template carrying the photo URL and the date, and ends with the author line linking the user's profile, then the license section with the license template |
| Wikitext.YearDateReadsBack | src/flickypedia/apis/wikitext.py:37-44 | a year-granularity date is written as digits that read back as the year |
| Wikitext.CircaDate | src/flickypedia/apis/wikitext.py:38-44 | a circa date is written as the circa template around the year |
| Wikitext.FullDateLength | src/flickypedia/apis/wikitext.py:35-44 | a second-granularity date from year 1000 on is written as 19 characters, with dashes after the year and the month |
| FlickrComments.SplitNewlines | src/flickypedia/apis/flickr/comments.py:90-98 | splitting a template at newlines gives at least one line, none holding a newline |
| FlickrComments.SplitNewlinesRoundTrip | src/flickypedia/apis/flickr/comments.py:90-98 | joining the lines with newlines gives the text back |
| FlickrComments.Indent | src/flickypedia/apis/flickr/comments.py:90-98 | the leading run of spaces and tabs of a line, and no more |
| FlickrComments.CommonPrefix | src/flickypedia/apis/flickr/comments.py:90-98 | a prefix of both strings, as long as they agree |
| FlickrComments.DedentTemplate | src/flickypedia/apis/flickr/comments.py:90-113 | dedenting a template of paragraphs indented by eight spaces gives the paragraphs separated by blank lines, between a leading and a trailing newline |
| FlickrComments.RenderTemplate | src/flickypedia/apis/flickr/comments.py:90-113 | dedenting and then stripping such a template gives exactly the paragraphs joined by blank lines |
| FlickrComments.CreateBotCommentText | src/flickypedia/apis/flickr/comments.py:80-98 | AssertionError iff the page title does not start with "File:"; otherwise the dedented and stripped template of the greeting, the uploader and the invitation |
| FlickrComments.BotCommentText | src/flickypedia/apis/flickr/comments.py:88-98 | for a one-line title, user name and user URL the bot comment is the greeting linking the bot's profile, the paragraph naming the uploader with a link to their URL and to the Commons main page, and the invitation linking the file page, separated by blank lines |
| FlickrComments.CreateDefaultUserCommentText | src/flickypedia/apis/flickr/comments.py:101-113 | AssertionError iff the page title does not start with "File:"; otherwise the dedented and stripped template of the invitation and the closing line |
| FlickrComments.DefaultUserCommentText | src/flickypedia/apis/flickr/comments.py:105-113 | for a one-line title the default comment is the invitation linking the main page and the file page, a blank line, then "I hope you like it!" |
| FlickrComments.PostComment | src/flickypedia/apis/flickr/comments.py:23-77 | each outcome with its exact condition: the comment element's id iff the answer is not an "oauth_problem=" one, is not marked "fail" and has a comment element with an id; FlickrApiException iff an "oauth_problem=" answer or a failure code other than "99" and "1"; InsufficientPermissionsToComment iff code "99"; ResourceNotFound iff code "1"; KeyError iff a missing stat, code or id; ValueError iff a missing err or comment element |
| FlickrComments.OtherFailureCodes | src/flickypedia/apis/flickr/comments.py:67-75 | any other failure code raises FlickrApiException |
| OldestStructuredData.EntityValueSnak | src/flickypedia/apis/structured_data.py:29-37 | an entity value snak of the oldest builders carries the property and the entity id, and nothing else: no entity type, no numeric id, no hash |
| OldestStructuredData.ShapeOf | src/flickypedia/apis/structured_data.py:46-75 | a qualifier dict is a string, an entity or a date exactly when its key set is `{property, value}`, `{property, entity_id}` or `{property, date, precision}` |
| OldestStructuredData.QualifierSnak | src/flickypedia/apis/structured_data.py:43-76 | a dict of none of the three shapes, or a date that cannot be encoded, is a ValueError; otherwise the snak carries the dict's property and its string, entity or date value |
| OldestStructuredData.CreateQualifiers | src/flickypedia/apis/structured_data.py:40-78 | the loop builds exactly the qualifier dict the fold over the entries defines |
| OldestStructuredData.OldQualifiersFail | src/flickypedia/apis/structured_data.py:40-78 | building succeeds exactly when every entry has a property and one of the three shapes; a failure is a KeyError or a ValueError |
| OldestStructuredData.LastNaming | src/flickypedia/apis/structured_data.py:43-47 | the position of the last entry naming a property, or none when no entry names it |
| OldestStructuredData.OldQualifiersKeys | src/flickypedia/apis/structured_data.py:43-47 | a property is a key of the result exactly when it was a key before or some entry names it |
| OldestStructuredData.OldQualifiersLastWins | src/flickypedia/apis/structured_data.py:43-47 | a property named twice keeps the snak of its last entry; an unnamed property keeps its old value |
| OldestStructuredData.OldQualifiersDistinct | src/flickypedia/apis/structured_data.py:40-78 | the result never holds a key twice |
| OldestStructuredData.ThreeQualifiers | src/flickypedia/apis/structured_data.py:40-78 | three encodable entries with distinct properties become three dict entries, in input order |
| OldestStructuredData.OneQualifier | src/flickypedia/apis/structured_data.py:40-78 | one encodable entry becomes one dict entry with its snak |
| OldestStructuredData.PhotoPageBelowProfile | src/flickypedia/apis/structured_data.py:146-177 | the photo page URL of the source statement extends the owner's profile URL by the photo id and a slash |
| OldestStructuredData.CallLookup | src/flickypedia/apis/wikidata.py:106-130 | the user lookup accepts the keyword `user_id` only; any other keyword is a TypeError |
| OldestStructuredData.CreateFlickrCreatorDataAsWritten | src/flickypedia/apis/structured_data.py:81-122 | calling the lookup with `id=` makes every call a TypeError |
| OldestStructuredData.CreatorQualifiers | src/flickypedia/apis/structured_data.py:101-108 | the creator's three dicts become author name (real name, else user name), profile URL and user id, in that order |
| OldestStructuredData.CreateFlickrCreatorData | src/flickypedia/apis/structured_data.py:81-122 | with the keyword corrected the creator never fails: a known user is an entity snak, anyone else an unknown-value snak with the three qualifiers ordered user id, author name, URL |
| OldestStructuredData.CreatorAsWrittenFails | src/flickypedia/apis/structured_data.py:91 | for a user nobody knows, the creator as written is a TypeError while the corrected one succeeds |
| OldestStructuredData.CreateCopyrightStatusData | src/flickypedia/apis/structured_data.py:125-143 | only "copyrighted" is accepted, giving a plain Copyrighted statement; anything else is a ValueError |
| OldestStructuredData.CreateSourceDataForPhoto | src/flickypedia/apis/structured_data.py:146-177 | the source is a file available on the internet with qualifiers photo page, operator Flickr and file URL, keyed and ordered alike |
| OldestStructuredData.CreateLicenseStatement | src/flickypedia/apis/structured_data.py:180-195 | a license the 2.0-era table knows becomes a plain license statement for its entity; any other is a ValueError |
| OldestStructuredData.CreateUploadedToFlickrStatement | src/flickypedia/apis/structured_data.py:198-218 | published in Flickr, with one publication-date qualifier at day precision |
| OldestStructuredData.Granularity | src/flickypedia/apis/flickr.py:13-23 | the granularity class has Second 0, Month 4, Year 6 and Circa 8, and no other attribute: asking for one is an AttributeError |
| OldestStructuredData.TakenPrecisionName | src/flickypedia/apis/structured_data.py:232-240 | a precision name exists exactly for granularities 0, 4, 6 and 8 |
| OldestStructuredData.TakenPrecision | src/flickypedia/apis/structured_data.py:232-240 | the Wikidata precision of a granularity is the one its name denotes, defined for the same granularities |
| OldestStructuredData.CreateDateTakenStatementAsWritten | src/flickypedia/apis/structured_data.py:232-240 | reading `TakenDateGranularity.Day`, which does not exist, makes every call an AttributeError |
| OldestStructuredData.CreateDateTakenStatement | src/flickypedia/apis/structured_data.py:221-274 | an unknown granularity is a ValueError; otherwise an inception date at its precision, plain except for circa, which adds the sourcing-circumstances qualifier |
| OldestStructuredData.DateTakenAsWrittenFails | src/flickypedia/apis/structured_data.py:232-240 | a date to the second fails as written and becomes a day-precision date once corrected |
| OldestStructuredData.DateTakenReadsBack | src/flickypedia/apis/structured_data.py:221-274 | the date written reads back as the same day, month or year it was built from |
| ApisStructuredData.CreateFlickrCreatorStatement | src/flickypedia/apis/structured_data/structured_data.py:46-98 | a user Wikidata knows, by id and then by path alias, is linked to their entity; anyone else gets the current unknown-value creator |
| ApisStructuredData.CreateCopyrightStatusStatement | src/flickypedia/apis/structured_data/structured_data.py:101-165 | the 2.0 licenses are copyrighted, "usgov" is public domain with its two qualifiers, the dedications are dedicated by the owner, any other license is a ValueError |
| ApisStructuredData.CopyrightStatusAsCurrent | src/flickypedia/apis/structured_data/structured_data.py:101-165 | where it succeeds, this copyright status is exactly the current builder's |
| ApisStructuredData.CreateLicenseStatement | src/flickypedia/apis/structured_data/structured_data.py:219-235 | a license the 2.0-era table knows becomes a plain statement for its entity; any other is a ValueError |
| ApisStructuredData.LicenseFollowsCopyright | src/flickypedia/apis/structured_data/structured_data.py:101-235 | the license statement and the copyright status fail on exactly the same licenses |
| ApisStructuredData.CreateSourceDataForPhoto | src/flickypedia/apis/structured_data/structured_data.py:168-216 | a file available on the internet with five qualifiers, photo id, page, operator Flickr, file URL and retrieval day, keyed and ordered alike |
| ApisStructuredData.CreateLocationStatement | src/flickypedia/apis/structured_data/structured_data.py:238-353 | no location, or accuracy 0, writes nothing; an accuracy with no precision is a ValueError; otherwise the point of view on Earth at that precision |
| ApisStructuredData.LocationFiltersDiffer | src/flickypedia/apis/structured_data/structured_data.py:267-268 | a location with accuracy 0 is dropped here but rejected by the current builder |
| ApisStructuredData.CreatePostedToFlickrStatement | src/flickypedia/apis/structured_data/structured_data.py:356-378 | the date posted is the current published-in statement: published in Flickr |
| ApisStructuredData.CreateDateTakenStatement | src/flickypedia/apis/structured_data/structured_data.py:381-439 | a date marked unknown fails the assertion; a known one is the current date-taken statement, about inception |
| ApisStructuredData.CreateHeadStatements | src/flickypedia/apis/structured_data/structured_data.py:450-485 | the five head statements, built in turn, stopping at the first error |
| ApisStructuredData.AppendDateTaken | src/flickypedia/apis/structured_data/structured_data.py:487-488 | the claims grow by the date taken unless it is unknown, or the builder's error is returned |
| ApisStructuredData.AppendLocation | src/flickypedia/apis/structured_data/structured_data.py:490-492 | the claims grow by the location statement when there is one |
| ApisStructuredData.CreateSdcClaimsForFlickrPhoto | src/flickypedia/apis/structured_data/structured_data.py:442-493 | the method returns exactly the claims the specification functions define |
| ApisStructuredData.HeadValue | src/flickypedia/apis/structured_data/structured_data.py:450-485 | when the head succeeds, every builder in it succeeded, there is an Original size, and the head is those five statements in order |
| ApisStructuredData.HeadOrder | src/flickypedia/apis/structured_data/structured_data.py:479-485 | the head's properties are creator, copyright status, source, license, published in |
| ApisStructuredData.DateTakenPartProperties | src/flickypedia/apis/structured_data/structured_data.py:487-488 | the date-taken part adds inception exactly when the date taken is known |
| ApisStructuredData.LocationPartProperties | src/flickypedia/apis/structured_data/structured_data.py:490-492 | the location part adds the point of view exactly when there is a location of non-zero accuracy |
| ApisStructuredData.ClaimsOrder | src/flickypedia/apis/structured_data/structured_data.py:442-493 | the claims are the five head properties, then inception if the date is known, then the location if it has non-zero accuracy |
| ApisStructuredData.HeadFailures | src/flickypedia/apis/structured_data/structured_data.py:464 | no Original size makes the head fail, and the head fails only with the errors its builders raise |
| ApisStructuredData.TailFailures | src/flickypedia/apis/structured_data/structured_data.py:487-492 | the date-taken and location parts fail only with a ValueError |
| ApisStructuredData.ClaimsFailures | src/flickypedia/apis/structured_data/structured_data.py:442-493 | a photo with no Original size has no claims, and every failure of the claims is one a builder raises |
| ApisCreateStructuredData.CopyrightStatusLicenses | src/flickypedia/apis/structured_data/create_structured_data.py:94-158 | the copyright status succeeds for exactly the five licenses it names; any other is a ValueError |
| ApisCreateStructuredData.CreateLocationStatement | src/flickypedia/apis/structured_data/create_structured_data.py:245-336 | an accuracy with no precision is a ValueError; otherwise the point of view on Earth at that precision, whatever the coordinates |
| ApisCreateStructuredData.NullCoordinatesKept | src/flickypedia/apis/structured_data/create_structured_data.py:245-336 | off the null island it agrees with the current builder; on it the current builder writes nothing while this one writes the coordinates |
| ApisCreateStructuredData.SourceFor | src/flickypedia/apis/structured_data/create_structured_data.py:469-491 | a new photo without an Original size is an IndexError; otherwise a file available on the internet |
| ApisCreateStructuredData.SourceWithoutOriginal | src/flickypedia/apis/structured_data/create_structured_data.py:469-482 | a photo already on Commons with no Original size gets a source with no file URL and no retrieval day |
| ApisCreateStructuredData.SourceWithOriginal | src/flickypedia/apis/structured_data/create_structured_data.py:483-491 | with an Original size the source names its URL and the retrieval day when one is given |
| ApisCreateStructuredData.LicensingStatements | src/flickypedia/apis/structured_data/create_structured_data.py:498-505 | a new photo gets license then copyright status, failing with a ValueError on a license outside the 2.0-era table; an existing photo gets neither |
| ApisCreateStructuredData.LocationStatements | src/flickypedia/apis/structured_data/create_structured_data.py:507-508 | a location adds its statement, failing exactly when its accuracy has no precision; no location adds nothing |
| ApisCreateStructuredData.CreateSdcClaimsForFlickrPhoto | src/flickypedia/apis/structured_data/create_structured_data.py:442-519 | the method returns exactly the claims the specification functions define |
| ApisCreateStructuredData.AppendLicensingOnwards | src/flickypedia/apis/structured_data/create_structured_data.py:498-519 | appending licensing, location, date taken and date posted in turn gives the staged claims |
| ApisCreateStructuredData.AppendLocationOnwards | src/flickypedia/apis/structured_data/create_structured_data.py:507-519 | appending location, date taken and date posted in turn gives the staged claims |
| ApisCreateStructuredData.CreateSdcClaimsForNewFlickrPhoto | src/flickypedia/apis/structured_data/create_structured_data.py:522-530 | a new photo's claims are the claims in new-photo mode with the retrieval day |
| ApisCreateStructuredData.CreateSdcClaimsForExistingFlickrPhoto | src/flickypedia/apis/structured_data/create_structured_data.py:533-548 | an existing photo's claims are the claims in existing-photo mode with no retrieval day |
| ApisCreateStructuredData.DateTakenStage | src/flickypedia/apis/structured_data/create_structured_data.py:510-519 | the date-taken stage keeps what came before, adds inception when the date is known, and ends with published in |
| ApisCreateStructuredData.LocationStage | src/flickypedia/apis/structured_data/create_structured_data.py:507-519 | the location stage keeps what came before, adds the point of view when there is a location, then the date-taken stage |
| ApisCreateStructuredData.LicensingStage | src/flickypedia/apis/structured_data/create_structured_data.py:498-519 | the licensing stage keeps what came before and adds the mode's licensing properties, then the later stages |
| ApisCreateStructuredData.SourceStage | src/flickypedia/apis/structured_data/create_structured_data.py:469-519 | the source stage keeps what came before, puts the source statement next, then the later stages |
| ApisCreateStructuredData.ClaimsProperties | src/flickypedia/apis/structured_data/create_structured_data.py:442-519 | the claims' properties are photo id, creator, source, the mode's licensing, location if any, inception if known, then published in, which is always last |
| ApisCreateStructuredData.ClaimsBegin | src/flickypedia/apis/structured_data/create_structured_data.py:453-491 | the claims begin with the photo id, the creator and the source statement |
| ApisCreateStructuredData.ClaimsFailures | src/flickypedia/apis/structured_data/create_structured_data.py:442-519 | the claims fail exactly for a new photo with no Original size or an unknown license, a location whose accuracy has no precision, or a known date with an unknown granularity |
| ApisCreateStructuredData.ClaimsFailureKinds | src/flickypedia/apis/structured_data/create_structured_data.py:442-519 | the failure is an IndexError exactly for a new photo with no Original size, and a ValueError otherwise |
| ApisCreateStructuredData.LicensingStageError | src/flickypedia/apis/structured_data/create_structured_data.py:498-519 | from the licensing stage onwards every failure is a ValueError |
| ApisCreateStructuredData.ExistingPhotoClaims | src/flickypedia/apis/structured_data/create_structured_data.py:469-482 | an existing photo with no Original size has a source with qualifiers ordered page, operator and no file URL or retrieval day |
| ApisCreateStructuredData.OriginalSizeClaims | src/flickypedia/apis/structured_data/create_structured_data.py:483-491 | with an Original size the source's URL is that size's, and the retrieval day is in its order exactly when one was given |
| LegacyStructuredData.CreatorLinkOrSomeValue | src/flickypedia/structured_data/structured_data.py:98-150 | a known user is a link to their entity with no qualifiers; anyone else an unknown-value creator with user id, author name and URL, in that order |
| LegacyStructuredData.CreateCopyrightStatusStatement | src/flickypedia/structured_data/structured_data.py:153-209 | the 2.0 licenses are copyrighted, "usgov" is public domain with its two qualifiers, the dedications plain public domain, any other license a ValueError |
| LegacyStructuredData.DedicationsDiffer | src/flickypedia/structured_data/structured_data.py:153-209 | only the dedications differ from the 2.0-era builder: public domain here, dedicated by the owner there |
| LegacyStructuredData.CreateLicenseStatement | src/flickypedia/structured_data/structured_data.py:256-284 | a known license becomes its entity with one qualifier, stated by the copyright holder at the source website; an unknown one is a ValueError |
| LegacyStructuredData.LicenseAddsDetermination | src/flickypedia/structured_data/structured_data.py:256-284 | the license fails exactly where the 2.0-era license and this copyright status fail, and names the same entity |
| LegacyStructuredData.CreateSourceDataForPhoto | src/flickypedia/structured_data/structured_data.py:212-253 | a file available on the internet with four qualifiers, photo id, page, operator Flickr and file URL, keyed and ordered alike |
| LegacyStructuredData.SourceThenRetrieved | src/flickypedia/structured_data/structured_data.py:212-253 | the 2.0-era source statement is this one with the retrieval day appended, in qualifiers and in order |
| LegacyStructuredData.CreateDateTakenStatement | src/flickypedia/structured_data/structured_data.py:312-370 | a date marked unknown fails the assertion; a known one is the current date-taken statement, failing exactly on an unknown granularity |
| LegacyStructuredData.CreateHeadStatements | src/flickypedia/structured_data/structured_data.py:379-413 | the five head statements, built in turn, stopping at the first error |
| LegacyStructuredData.CreateSdcClaimsForFlickrPhoto | src/flickypedia/structured_data/structured_data.py:373-418 | the method returns exactly the claims the specification functions define |
| LegacyStructuredData.HeadValue | src/flickypedia/structured_data/structured_data.py:379-413 | when the head succeeds, every builder in it succeeded, there is an Original size, and the head is those five statements in order |
| LegacyStructuredData.HeadOrder | src/flickypedia/structured_data/structured_data.py:407-413 | the head's properties are creator, copyright status, source, license, published in |
| LegacyStructuredData.DateTakenPartProperties | src/flickypedia/structured_data/structured_data.py:415-416 | the date-taken part adds inception exactly when the date is known |
| LegacyStructuredData.ClaimsOrder | src/flickypedia/structured_data/structured_data.py:373-418 | the claims are the five head properties, then inception exactly when the date is known |
| LegacyStructuredData.NoLocation | src/flickypedia/structured_data/structured_data.py:373-418 | the claims never hold a location statement |
| LegacyStructuredData.ClaimsFailures | src/flickypedia/structured_data/structured_data.py:373-418 | the claims fail exactly when the creator fails, the license has no copyright status, there is no Original size, or a known date has an unknown granularity; the error is an AssertionError, ValueError or IndexError |

## Left out

- The Flickr URL recogniser `flickr_url_parser.parse_flickr_url` is a third-party library. It is a function-typed parameter with a closed result type (`FlickrUrls`), and its URL grammar is not modelled.
- HTTP and API clients: the Flickr, Wikimedia and Wikidata requests, the SPARQL queries, `get_entity_label`, the keyring and the clock are parameters (oracles). Their answers are given; how they are fetched is not modelled.
- `post_bot_comment` (src/flickypedia/apis/flickr/comments.py:116-141) only chains the comment text to the network client. The text and the classification of the answer are modelled; the call is not.
- The Flask views, OAuth, Fernet encryption, forms and templates. Only the helpers of the "prepare info" page are modelled.
- Concurrency: the backfiller's thread pool, the Celery tasks and their random failures, and the rename-based locking of the task queues. `process_single_task` is modelled as one sequential step.
- Persistence and formats: SQLite is in-memory maps, log files are append-only sequences, and decoded JSON is given input. The bz2/gzip streaming, the JSON datetime codec, the caching layer and the XML parser are not modelled.
- Wikitext scraping in src/flickypedia/backfillr/flickr_matcher.py:77-194 relies on BeautifulSoup and is not modelled. Only the structured-data path of `find_flickr_photo` is.
- The CLIs, configuration and scripts.
- Floating point: coordinates and the location precision table are opaque reals compared only for equality. No float arithmetic is modelled.
- Dates are integer records. `strftime` and `fromtimestamp` are written out for the directives the code uses, and `strptime` for the patterns of `render_wikidata_date`, with its one- and two-digit month and day fields, the space a day may start with, and letters of the pattern in either case. The date parsers `parse_date_posted` and `parse_date_taken` of the Flickr utilities are not modelled.
- The copies of `create_qualifiers` behave like src/flickypedia/structured_data/types/qualifiers.py and are modelled once, by `QualifierDsl` and `Statements.Qualify`. The copies are src/flickypedia/apis/structured_data/_qualifiers.py, src/flickypedia/structured_data/_qualifiers.py and src/flickypedia/structured_data/structured_data.py:67-95.
- The encoders of src/flickypedia/apis/structured_data/wikidata.py agree with src/flickypedia/structured_data/types/wikidata_values.py and are modelled once, by `WikidataValues`. Its license table is `WikidataEntities.LicenseV2`.
- src/flickypedia/structured_data/wikidata.py, imported by src/flickypedia/structured_data/structured_data.py, is not part of this model. Its license table is taken to be the 2.0-era table `WikidataEntities.LicenseV2`, and its encoders those of `WikidataValues`.
- Builders in the older files that write what a builder of `Statements` or `ApisStructuredData` writes are not modelled a second time. Their claim assemblies call the shared builder, and a lemma or contract states the agreement: `ApisStructuredData.CopyrightStatusAsCurrent`, `ApisStructuredData.CreatePostedToFlickrStatement`, `LegacyStructuredData.CreatorLinkOrSomeValue`, `LegacyStructuredData.SourceThenRetrieved`.
- Backfillr.Backfillr.UpdateFile: follows the two-argument `create_actions` of src/flickypedia/backfillr/actions.py:68. Line 70 of src/flickypedia/backfillr/backfillr.py passes a third argument, `user`, which no `create_actions` in this repository accepts.
- `find_required_elem`, which src/flickypedia/apis/flickr/comments.py imports from `flickypedia.utils`, is not defined there. The model uses the one in src/flickypedia/apis/flickr_photos_api/utils.py, which raises ValueError.
- src/flickypedia/uploadr/fs_queue.py differs from src/flickypedia/fs_queue.py only in its JSON codec and its local-time clock. Both are modelled by the one `FsQueue` class, with the clock as a parameter.
- Backfillr.Backfillr.NewClaims: uses the corrected BHL builder `Statements.CreateBhlPageIdStatement`. As written, src/flickypedia/structured_data/claims.py:103-109 raises AttributeError (src/flickypedia/structured_data/statements/bhl_page_id_statement.py:61) for a photo of the BHL account tagged with exactly one page id; that assembly is `Claims.ClaimsForAsWritten`, related to this one by `Claims.ClaimsAsWrittenFailures` and `Claims.ClaimsAsWrittenAgrees`.
- Backfillr.Backfillr.PlanActions: uses the corrected BHL builder `Statements.CreateBhlPageIdStatement`. As written, src/flickypedia/structured_data/claims.py:103-109 raises AttributeError (src/flickypedia/structured_data/statements/bhl_page_id_statement.py:61) for a photo of the BHL account tagged with exactly one page id; that assembly is `Claims.ClaimsForAsWritten`, related to this one by `Claims.ClaimsAsWrittenFailures` and `Claims.ClaimsAsWrittenAgrees`.
- Backfillr.Backfillr.UpdateFile: uses the corrected BHL builder `Statements.CreateBhlPageIdStatement`. As written, src/flickypedia/structured_data/claims.py:103-109 raises AttributeError (src/flickypedia/structured_data/statements/bhl_page_id_statement.py:61) for a photo of the BHL account tagged with exactly one page id; that assembly is `Claims.ClaimsForAsWritten`, related to this one by `Claims.ClaimsAsWrittenFailures` and `Claims.ClaimsAsWrittenAgrees`.
- Claims.AppendTail: uses the corrected BHL builder `Statements.CreateBhlPageIdStatement`. As written, src/flickypedia/structured_data/claims.py:103-109 raises AttributeError (src/flickypedia/structured_data/statements/bhl_page_id_statement.py:61) for a photo of the BHL account tagged with exactly one page id; that assembly is `Claims.ClaimsForAsWritten`, related to this one by `Claims.ClaimsAsWrittenFailures` and `Claims.ClaimsAsWrittenAgrees`.
- Claims.AppendLicensingOnwards: uses the corrected BHL builder `Statements.CreateBhlPageIdStatement`. As written, src/flickypedia/structured_data/claims.py:103-109 raises AttributeError (src/flickypedia/structured_data/statements/bhl_page_id_statement.py:61) for a photo of the BHL account tagged with exactly one page id; that assembly is `Claims.ClaimsForAsWritten`, related to this one by `Claims.ClaimsAsWrittenFailures` and `Claims.ClaimsAsWrittenAgrees`.
- Claims.AppendLocationOnwards: uses the corrected BHL builder `Statements.CreateBhlPageIdStatement`. As written, src/flickypedia/structured_data/claims.py:103-109 raises AttributeError (src/flickypedia/structured_data/statements/bhl_page_id_statement.py:61) for a photo of the BHL account tagged with exactly one page id; that assembly is `Claims.ClaimsForAsWritten`, related to this one by `Claims.ClaimsAsWrittenFailures` and `Claims.ClaimsAsWrittenAgrees`.
- Claims.AppendSourceOnwards: uses the corrected BHL builder `Statements.CreateBhlPageIdStatement`. As written, src/flickypedia/structured_data/claims.py:103-109 raises AttributeError (src/flickypedia/structured_data/statements/bhl_page_id_statement.py:61) for a photo of the BHL account tagged with exactly one page id; that assembly is `Claims.ClaimsForAsWritten`, related to this one by `Claims.ClaimsAsWrittenFailures` and `Claims.ClaimsAsWrittenAgrees`.
- Claims.CreateSdcClaimsForFlickrPhoto: uses the corrected BHL builder `Statements.CreateBhlPageIdStatement`. As written, src/flickypedia/structured_data/claims.py:103-109 raises AttributeError (src/flickypedia/structured_data/statements/bhl_page_id_statement.py:61) for a photo of the BHL account tagged with exactly one page id; that assembly is `Claims.ClaimsForAsWritten`, related to this one by `Claims.ClaimsAsWrittenFailures` and `Claims.ClaimsAsWrittenAgrees`.
- Claims.CreateSdcClaimsForNewFlickrPhoto: uses the corrected BHL builder `Statements.CreateBhlPageIdStatement`. As written, src/flickypedia/structured_data/claims.py:103-109 raises AttributeError (src/flickypedia/structured_data/statements/bhl_page_id_statement.py:61) for a photo of the BHL account tagged with exactly one page id; that assembly is `Claims.ClaimsForAsWritten`, related to this one by `Claims.ClaimsAsWrittenFailures` and `Claims.ClaimsAsWrittenAgrees`.
- Claims.CreateSdcClaimsForExistingFlickrPhoto: uses the corrected BHL builder `Statements.CreateBhlPageIdStatement`. As written, src/flickypedia/structured_data/claims.py:103-109 raises AttributeError (src/flickypedia/structured_data/statements/bhl_page_id_statement.py:61) for a photo of the BHL account tagged with exactly one page id; that assembly is `Claims.ClaimsForAsWritten`, related to this one by `Claims.ClaimsAsWrittenFailures` and `Claims.ClaimsAsWrittenAgrees`.
- Claims.SourceStage: uses the corrected BHL builder `Statements.CreateBhlPageIdStatement`. As written, src/flickypedia/structured_data/claims.py:103-109 raises AttributeError (src/flickypedia/structured_data/statements/bhl_page_id_statement.py:61) for a photo of the BHL account tagged with exactly one page id; that assembly is `Claims.ClaimsForAsWritten`, related to this one by `Claims.ClaimsAsWrittenFailures` and `Claims.ClaimsAsWrittenAgrees`.
- Claims.ClaimsProperties: uses the corrected BHL builder `Statements.CreateBhlPageIdStatement`. As written, src/flickypedia/structured_data/claims.py:103-109 raises AttributeError (src/flickypedia/structured_data/statements/bhl_page_id_statement.py:61) for a photo of the BHL account tagged with exactly one page id; that assembly is `Claims.ClaimsForAsWritten`, related to this one by `Claims.ClaimsAsWrittenFailures` and `Claims.ClaimsAsWrittenAgrees`.
- Claims.ClaimsFailures: uses the corrected BHL builder `Statements.CreateBhlPageIdStatement`. As written, src/flickypedia/structured_data/claims.py:103-109 raises AttributeError (src/flickypedia/structured_data/statements/bhl_page_id_statement.py:61) for a photo of the BHL account tagged with exactly one page id; that assembly is `Claims.ClaimsForAsWritten`, related to this one by `Claims.ClaimsAsWrittenFailures` and `Claims.ClaimsAsWrittenAgrees`.
- Claims.ClaimsFailureKinds: uses the corrected BHL builder `Statements.CreateBhlPageIdStatement`. As written, src/flickypedia/structured_data/claims.py:103-109 raises AttributeError (src/flickypedia/structured_data/statements/bhl_page_id_statement.py:61) for a photo of the BHL account tagged with exactly one page id; that assembly is `Claims.ClaimsForAsWritten`, related to this one by `Claims.ClaimsAsWrittenFailures` and `Claims.ClaimsAsWrittenAgrees`.
- Claims.LicensingStageError: uses the corrected BHL builder `Statements.CreateBhlPageIdStatement`. As written, src/flickypedia/structured_data/claims.py:103-109 raises AttributeError (src/flickypedia/structured_data/statements/bhl_page_id_statement.py:61) for a photo of the BHL account tagged with exactly one page id; that assembly is `Claims.ClaimsForAsWritten`, related to this one by `Claims.ClaimsAsWrittenFailures` and `Claims.ClaimsAsWrittenAgrees`.
- Claims.LocationStageError: uses the corrected BHL builder `Statements.CreateBhlPageIdStatement`. As written, src/flickypedia/structured_data/claims.py:103-109 raises AttributeError (src/flickypedia/structured_data/statements/bhl_page_id_statement.py:61) for a photo of the BHL account tagged with exactly one page id; that assembly is `Claims.ClaimsForAsWritten`, related to this one by `Claims.ClaimsAsWrittenFailures` and `Claims.ClaimsAsWrittenAgrees`.
- Claims.BhlStatements: uses the corrected BHL builder `Statements.CreateBhlPageIdStatement`. As written, src/flickypedia/structured_data/claims.py:103-109 raises AttributeError (src/flickypedia/structured_data/statements/bhl_page_id_statement.py:61) for a photo of the BHL account tagged with exactly one page id; that assembly is `Claims.ClaimsForAsWritten`, related to this one by `Claims.ClaimsAsWrittenFailures` and `Claims.ClaimsAsWrittenAgrees`.
- Claims.TailStatements: uses the corrected BHL builder `Statements.CreateBhlPageIdStatement`. As written, src/flickypedia/structured_data/claims.py:103-109 raises AttributeError (src/flickypedia/structured_data/statements/bhl_page_id_statement.py:61) for a photo of the BHL account tagged with exactly one page id; that assembly is `Claims.ClaimsForAsWritten`, related to this one by `Claims.ClaimsAsWrittenFailures` and `Claims.ClaimsAsWrittenAgrees`.
- WikidataValues.ParseTime: `\d` and `int()` read only the ASCII digits here; Python also reads the other Unicode decimal digits, and `int()` also the Unicode white space around a number beyond the characters `str.strip()` is modelled with.
- WikidataValues.RenderWikidataDate: parses with `WikidataValues.ParseTime`, so `\d` and `int()` read only the ASCII digits here; Python also reads the other Unicode decimal digits, and `int()` also the Unicode white space around a number beyond the characters `str.strip()` is modelled with.
- ApisWikidata.RenderWikidataDateWithPrecision: renders with `WikidataValues.RenderWikidataDate`, so `\d` and `int()` read only the ASCII digits here; Python also reads the other Unicode decimal digits, and `int()` also the Unicode white space around a number beyond the characters `str.strip()` is modelled with.
- FlickrUtils.ParseInt: `\d` and `int()` read only the ASCII digits here; Python also reads the other Unicode decimal digits, and `int()` also the Unicode white space around a number beyond the characters `str.strip()` is modelled with.
- FlickrUtils.SizeEntry: reads the numbers with `FlickrUtils.ParseInt`, so `\d` and `int()` read only the ASCII digits here; Python also reads the other Unicode decimal digits, and `int()` also the Unicode white space around a number beyond the characters `str.strip()` is modelled with.
- `WikidataProperties` is imported from src/flickypedia/apis/structured_data/wikidata.py by src/flickypedia/backfillr/actions.py:3, src/flickypedia/backfillr/comparisons.py, src/flickypedia/backfillr/flickr_matcher.py, src/flickypedia/apis/structured_data/parse_structured_data.py, src/flickypedia/apis/structured_data/create_structured_data.py and src/flickypedia/apis/structured_data/structured_data.py, but that file defines only `WikidataEntities` and `WikidataDatePrecision`. The model uses the table of src/flickypedia/structured_data/wikidata_properties.py, the module `WikidataProperties`.
- src/flickypedia/structured_data/claims.py:7-8 imports `create_bhl_page_id_statement` from `.statements`, whose `__init__` does not export it. The model uses the function of src/flickypedia/structured_data/statements/bhl_page_id_statement.py, `Statements.CreateBhlPageIdStatementAsWritten`.
- src/flickypedia/uploadr/uploads.py:17 imports `record_file_created_by_flickypedia` from src/flickypedia/duplicates.py, which does not define it. The model records the call, `Uploads.Call.RecordFileCreated`, with the arguments the upload passes; what it writes to the duplicate index is not modelled.
- src/flickypedia/photos.py:11 imports `DuplicateInfo` from src/flickypedia/duplicates.py, which does not define it. The model takes a duplicate as a map from photo id to what `Duplicates.FindDuplicates` returns for it.
- src/flickypedia/structured_data/structured_data.py:33-38 imports `._types` and `.wikidata`, which are not part of this model. Its types are those of `Sdc`, its encoders those of `WikidataValues`, and its license table `WikidataEntities.LicenseV2`.
- Logging and printed output are dropped: the prints of `create_actions` (src/flickypedia/backfillr/actions.py:105-106) and `guess_bhl_page_id` (src/flickypedia/structured_data/statements/bhl_page_id_statement.py:40-45), the warning at src/flickypedia/apis/wikidata.py:179, the message of `update_file` (src/flickypedia/backfillr/backfillr.py:53), and the `logging` messages of the filesystem queues (src/flickypedia/fs_queue.py:97-114 and later lines). The task events the queues record in their task files are modelled. None of the dropped output changes a result.
- CsvToSqlite.DigitRun: `\d` reads only the ASCII digits here; Python's `re` also reads the other Unicode decimal digits, so a run such as fullwidth "２０２３" is a digit run in the source and not in the model.
- CsvToSqlite.SearchDateMeaning: searches with `CsvToSqlite.DigitRun`, so a `.<digits>.` segment is found only when its digits are ASCII; Python's `\d` also finds one made of other Unicode decimal digits.
- CsvToSqlite.SearchDateLeftmost: searches with `CsvToSqlite.DigitRun`, so the leftmost segment is the leftmost one of ASCII digits; Python's `\d` also counts segments of other Unicode decimal digits.
- CsvToSqlite.DbPathMeaning: searches with `CsvToSqlite.DigitRun`, so a path such as "flickr_ids_from_sdc.２０２３１００９.csv" gets the default database name here, where Python keeps the fullwidth segment.
- ApisWikidata.EntityOfUri: `Q\d+` is read on ASCII digits only; Python's `\d` also takes the other Unicode decimal digits.
- ApisWikidata.InterpretLookup: `Q\d+` is read on ASCII digits only, so a single "uri" binding "http://www.wikidata.org/entity/Q١٢" gives RuntimeError here, where Python returns "Q١٢".
- ApisWikidata.LookupFindsEntity: stated for ASCII digits only, for the same reason as `ApisWikidata.InterpretLookup`.

## Findings

| source | as written | input that shows it | evidently intended | confidence | as-written member | corrected member |
|---|---|---|---|---|---|---|
| src/flickypedia/structured_data/statements/bhl_page_id_statement.py:61 | reads `WikidataProperties.BhlPageId`, which src/flickypedia/structured_data/wikidata_properties.py does not define, so an AttributeError is raised whenever a page id is guessed | photo 5278160019 with machine tag `bhl:page=33665643` | a statement on P687 (BHL page ID) holding the guessed page id | high; not executed | Statements.BhlPageIdAsWrittenFails | Statements.CreateBhlPageIdStatement |
| src/flickypedia/views/prepare_info.py:248-249 | a description of more than five lines is cut to five lines and passed back through `truncate_description`, then "…" is appended; when the five lines are still too long, the inner call has already appended one, giving "……" | six lines whose first five total more than 180 characters and have a space among their first 175 | one ellipsis at the end of a shortened description | high; not executed | PrepareInfo.DoubledEllipsis | PrepareInfo.OlderTruncateDescription |
| src/flickypedia/apis/structured_data.py:91 | calls `lookup_flickr_user_in_wikidata(id=…, username=…)`, but src/flickypedia/apis/wikidata.py:106 names the parameter `user_id`, so every call is a TypeError | any user, for instance one Wikidata does not know | the lookup called with `user_id=` | high; not executed | OldestStructuredData.CreatorAsWrittenFails | OldestStructuredData.CreateFlickrCreatorData |
| src/flickypedia/apis/structured_data.py:232-240 | the precision table is keyed by `TakenDateGranularity.Day`, which src/flickypedia/apis/flickr.py:13-23 does not define (it has `Second`), so every call is an AttributeError | any date taken, for instance one to the second (granularity 0) | granularity 0 mapped to day precision | high; not executed | OldestStructuredData.DateTakenAsWrittenFails | OldestStructuredData.CreateDateTakenStatement |
