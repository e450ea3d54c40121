# A verified model of the study portal's ingestion, listings and timed tests

The portal prepares candidates for a selection-interview exam. A Node
server stores uploaded practice material and serves listings and news
headlines. A React client runs three timed tests:

- the picture test (TAT): each picture is shown for 30 seconds, then the
  candidate has 4 minutes to write;
- the word-association test (WAT): 15 seconds per word;
- the situational-response test (SRT): one 30-minute clock for up to 60
  situations.

This project models, in Dafny:

- **Upload ingestion** (`upload.dfy`):
  - the choice of directory and stored name for every upload type;
  - the automatic numbering of test pictures (`TAT_<n>.<ext>`);
  - the date suffix for newspapers;
  - the fixed names of the word list and the situation list;
  - the move into place, as a content store whose files are a map from path
    to contents.
- **The situation-list parser** (`srt_parse.dfy`): free text becomes numbered
  items. It is an imperative loop proved against a functional specification.
  The module also has a renderer, and a proof that rendering and parsing
  round-trip.
- **Listings** (`listings.dfy`):
  - the picture listing (filter, then sort by the first number in the name);
  - the word list (split, trim, drop blank lines);
  - the date found in a newspaper's name, and the newspaper ordering.
- **News post-processing** (`news.dfy`):
  - truncation to 100 words;
  - HTML tag stripping;
  - turning feed items into articles;
  - the first-wins, case-insensitive merge of several feeds;
  - the keyword filter with its fall-back and its cap of ten.
- **The three test screens** (`tat_session.dfy`, `wat_session.dfy`,
  `srt_session.dfy`). Each screen is:
  - a state datatype with a one-second `Step` function;
  - an invariant every event keeps;
  - exact tick counts to each transition;
  - the screen each state shows;
  - a class whose fields and methods mirror the component, each method
    proved to perform exactly the matching transition.

Supporting modules:

- `text.dfy`: the JavaScript string built-ins the code relies on (`split`,
  `join`, `trim`, `toLowerCase`, number formatting).
- `paths.dfy`: Node's POSIX `path.basename`/`path.extname`.
- `sorting.dfy`: a stable comparison sort, with the two properties the
  listings depend on. The sort returns a sorted permutation whenever the
  comparator is consistent, and it keeps ties in input order.
- `time_format.dfy`: the clock text `m:ss`.
- `machine.dfy`: running a test screen's one-second step function `k`
  times, shared by the three timed tests.

Time in the test screens advances in ticks of one second. An effect that
runs without a timer, because a state it depends on changed, happens within
the tick that caused it. The TAT pause of one second between pictures is the
flag `advancePending`, which the next tick consumes. Its callback's three
state updates (`setCurrentIndex`, `setPhase`, `setViewTimer`) take effect
together, as React 18's automatic batching applies them. Sounds are counted,
not played.

Behaviour of the code that the model keeps as written:

- A situation numbered `0.` is accepted: numbers are plain digit values.
- A picture uploaded with an extension other than png/jpg/jpeg (say `.gif`)
  is still named `TAT_<max+1>.gif`. That file is invisible to the next
  numbering scan and to the listing. So the next such upload gets the same
  number and replaces it (`Upload.GifUploadReusesName`).
- The newspaper comparator orders dated names newest first and everything
  else by descending name. With dated and undated names mixed it is not an
  order: `Listings.MixedListingHasCycle` exhibits three file names whose
  entries form a cycle. The listing's order then depends on the sort
  algorithm. Here it is the insertion order of `Sorting.SortBy`. With all
  names dated, or none, the order is consistent
  (`Listings.NewspapersNewestFirst`, `Listings.NewspapersByName`).
- The WAT header caps the word count at 60, but the run is not cut. With
  more than 60 words the 61st word is announced as "Word 61 of 60".
- The SRT completion effect runs once when the clock reaches 0. It runs
  again because the completion flag it sets is one of its dependencies, so
  the final sound plays twice. Nothing else changes.
- A test number of 0 counts as "no test chosen", as the components test
  `!selectedTest`.
- The server route and the client fetch different test-number paths. The
  lists a screen loads are therefore inputs of its `Load` events.
- The upload form always sends a file name for lectures
  (client/src/components/UploadModule.js:27). So the newspaper date-suffix
  branch is reached from that form only when the chosen file has no name.
  UploadModule.js itself is not part of this model.

## Model

| member | source | states |
|---|---|---|
| Text.Split | server/index.js:450 | `split` on one character gives at least one piece, no piece holds the separator, and joining the pieces gives back the input |
| Text.SplitJoin | server/index.js:109-111 | splitting the join of separator-free pieces gives back the pieces |
| Text.JoinPrefix | server/index.js:111 | the join of the first k pieces is a prefix of the join of all of them |
| Text.Trim | server/index.js:454 | `trim` gives the input with the white space at each end cut off and nothing else: the result is an infix of the input, everything cut off before and after it is white space, no white space is left at either end, and the result is "" exactly when the input is all white space |
| Text.TrimIdempotent | server/index.js:454 | trimming twice is trimming once |
| Text.NatToString | server/index.js:423 | the decimal text of a number is all digits, reads back as the number, and has no leading zero |
| Paths.Extname | server/index.js:398 | `path.extname` is "" or starts with the one dot it holds, is a suffix of the base name and shorter than it |
| Paths.Stem | server/index.js:399 | `path.basename(name, ext)` followed by the extension is the base name; there is a stem when there is an extension |
| Paths.ExtnameAt | server/index.js:398-399 | for a plain name, the extension is the text from the last dot that is not the first character, and the stem is what precedes it |
| Paths.ExtnameOfHiddenFile | server/index.js:398 | a name whose only dot is its first character has no extension |
| Paths.ExtnameTakesLastDot | server/index.js:398 | only the last dot starts the extension |
| Sorting.SortBy | server/index.js:502-506 | the sort returns a permutation of its input |
| Sorting.SortBySorted | server/index.js:502-506 | with a consistent comparator, the sorted list is in comparator order |
| Sorting.SortByStable | server/index.js:502-506 | the elements that compare equal to any given one keep their input order |
| SrtParse.MatchNumbered | server/index.js:457 | a line matching `^(\d+)\.\s*(.+)$` starts with a digit and gives a non-empty text that ends the line; the number and text themselves are given by MatchNumberedOfForm and MatchNumberedFound |
| SrtParse.MatchNumberedOfForm | server/index.js:457 | every line made of digits, a dot, white space and a non-empty single-line text matches; when the white space is taken greedily, as `\s*` does, the match is the value of the digits and that text |
| SrtParse.MatchNumberedFound | server/index.js:457 | every match comes from such a line: the number is the value of the leading digits, and the text is what follows the white space after the dot, split greedily |
| SrtParse.TextAfterDotOfForm | server/index.js:457 | `\s*(.+)$` captures any white space followed by a single-line text, and with the greedy split exactly that text |
| SrtParse.TextAfterDotFound | server/index.js:457 | every capture is what follows some white space, split greedily |
| SrtParse.MatchItemLine | server/index.js:457 | `<number>. <text>` matches with exactly that number and text |
| SrtParse.ParseLine | server/index.js:454-468 | one line of the loop, trimmed and matched, closes and opens exactly the items that `Consume` gives for the line's kind |
| SrtParse.ParseLines | server/index.js:451-472 | the loop over the lines, with the last open item pushed at the end, returns exactly the items the declarative parser gives for those lines |
| SrtParse.ParseSrt | server/index.js:446-472 | the items parsed from the file are those of its `\n`-separated lines |
| SrtParse.ItemsFollowNumberedLines | server/index.js:457-465 | there is one item per matching line, in order of appearance, with that line's number and text as its start |
| SrtParse.BlankLineIsIgnored | server/index.js:454-455 | a blank line neither opens nor closes an item |
| SrtParse.LeadingLinesAreDropped | server/index.js:466-468 | lines before the first numbered line are dropped |
| SrtParse.PendingStep | server/index.js:458-468 | the items one line closes (a numbered line closes the open item and opens a new one; another line extends the open item with a space, or is dropped when none is open) followed by what the rest still yields are what the input yielded from that line on |
| SrtParse.PendingAtEnd | server/index.js:470-472 | at the end of the input the open item, if any, is the last item |
| SrtParse.ParseRenderRoundTrip | server/index.js:445-474 | rendering items with one-line texts as numbered lines and parsing the result gives back the items |
| Listings.ImageFilesMembers | server/index.js:496-497 | a name is in the picture list exactly when it is in the directory and ends in .png, .jpg or .jpeg in any case |
| Listings.TatImagesContents | server/index.js:496-501 | the listing holds exactly the picture files, as many as there are, each linked under /uploads/tat_images/ |
| Listings.TatImagesOrdered | server/index.js:502-506 | the listing ascends by the first digit run in each name, 0 when there is none |
| Listings.TatImagesStable | server/index.js:502-506 | pictures with the same number keep their directory order |
| Listings.FirstNumberAfter | server/index.js:503 | the first number of a name is the value of its first digit run |
| Listings.WatWordsClean | server/index.js:520-522 | every word served is non-empty, trimmed and free of line breaks |
| Listings.EmptyFileHasNoWords | server/index.js:519-522 | an empty words file serves no words |
| Listings.WatWordsRoundTrip | server/index.js:520-522 | writing clean words one per line and reading them back gives the same words |
| Listings.FirstDateFrom | server/index.js:587 | the search finds the leftmost `dddd-dd-dd` from a position, or reports that there is none |
| Listings.ExtractDate | server/index.js:586-589 | null exactly when no `dddd-dd-dd` occurs in the name; otherwise the leftmost such substring |
| Listings.DatedNameGivesDate | server/index.js:586-589 | a name built as `stem_date.ext`, from a stem holding no date, yields that date |
| Listings.CompareStringsEqual | server/index.js:578 | name comparison gives 0 exactly for equal names |
| Listings.CompareStringsTransitive | server/index.js:578 | name comparison is transitive |
| Listings.CompareNewspapersFlip | server/index.js:574-579 | swapping the two newspapers flips the comparator's sign |
| Listings.DatedConsistent | server/index.js:575-577 | among newspapers that all carry a date the comparator is a consistent order |
| Listings.NewspapersNewestFirst | server/index.js:567-579 | when every name carries a date, the listing runs from the newest date to the oldest |
| Listings.UndatedConsistent | server/index.js:574-579 | among newspapers none of which carries a date the comparator is a consistent order |
| Listings.NewspapersByName | server/index.js:567-579 | when no name carries a date, the listing runs by filename, descending |
| Listings.MixedListingHasCycle | server/index.js:574-579 | the listing entries of `a_2025-01-01.pdf`, `m.pdf` and `z_2024-01-01.pdf` each come before the next in a cycle, so with dated and undated names mixed the comparator is no order |
| Listings.CompareStringsAtFirstDifference | server/index.js:578 | names that agree up to a position and differ there compare as their characters at that position |
| Upload.ScanMaxTatNumber | server/index.js:414-420 | the scan loop computes the largest number among the `TAT_<digits>.` picture files, 0 when there is none |
| Upload.MaxTatNumberIsMax | server/index.js:410-420 | that number is at least every picture's number and, unless it is 0, belongs to one of them |
| Upload.TatNumberOfName | server/index.js:416-418 | `TAT_<n><ext>` with an extension gives back n |
| Upload.NewTatNameIsFresh | server/index.js:404-423 | a new picture name with an accepted extension is not in the directory yet, so no picture is overwritten |
| Upload.FreshAboveMax | server/index.js:410-423 | a picture name numbered above the maximum is not in the directory |
| Upload.NoPictureNoNumber | server/index.js:414-420 | without picture files the maximum is 0, so numbering starts at 1 |
| Upload.TatNameKeepsExtension | server/index.js:422-423 | the new name starts with `TAT_` and keeps the uploaded file's extension |
| Upload.GifPictureIsInvisible | server/index.js:410-412 | a `.gif` picture gets a name that neither the scan nor the listing ever sees |
| Upload.GifUploadReusesName | server/index.js:404-423 | after a `.gif` upload into a directory without pictures, the next `.gif` upload gets the same name again |
| Upload.NoFileIsRejected | server/index.js:380-382 | a request is rejected exactly when it carries no file, with 400 "No file uploaded" |
| Upload.LecturePlacement | server/index.js:391-403 | a lecture goes to newspaper exactly when the folder says so and to reading_material otherwise; a given file name is used verbatim, and without a newspaper date the original name is kept |
| Upload.DatedNewspaperName | server/index.js:397-400 | a dated newspaper is stored as `stem_date.ext`, from which the listing reads that date back |
| Upload.SingletonPlacements | server/index.js:424-432 | a word list is always stored at uploads/wat_words/words.txt, a situation list at uploads/srt_list/srt_list.txt, any other type under uploads/ with its own name |
| Upload.Place | server/index.js:380-432 | the step-by-step choice of directory and name gives the specified outcome |
| Upload.AfterUpload | server/index.js:434-442 | the moved file is at its target path, the temporary file is gone unless it was the target, and every other file is unchanged |
| Upload.ContentStore.Upload | server/index.js:378-478 | the route's outcome; the files after the move; for a situation list, the stored items are the parse of its contents |
| Upload.ContentStore.Store | server/index.js:434-442 | moving a file updates the store as specified and nothing else |
| Upload.WordListIsServed | server/index.js:424-426 | after a word-list upload the word listing serves the words of the uploaded file |
| Upload.UploadKeepsOtherFiles | server/index.js:437-442 | an upload removes no file other than its own temporary one |
| TimeFormat.PadTwo | client/src/components/tests/TATTest.js:88 | zero-padding gives at least two characters; the padding itself is stated by PadTwoPads |
| TimeFormat.PadTwoPads | client/src/components/tests/TATTest.js:88 | `padStart(2, '0')` puts zeros in front of the text, as many as it lacks to reach two characters, and keeps the text as its end |
| TimeFormat.FormatTimeRoundTrip | client/src/components/tests/TATTest.js:85-89 | the clock text `m:ss` reads back as the number of seconds |
| TimeFormat.FormatTimeInjective | client/src/components/tests/TATTest.js:85-89 | two different times never show the same text |
| TimeFormat.FormatTimeOfViewingPeriod | client/src/components/tests/TATTest.js:9 | 30 seconds show as "0:30" |
| TimeFormat.FormatTimeOfWritingPeriod | client/src/components/tests/TATTest.js:10 | 240 seconds show as "4:00" |
| TimeFormat.FormatTimeOfHalfHour | client/src/components/tests/SRTTest.js:85-89 | 1800 seconds show as "30:00" |
| TimeFormat.FormatTimeOfZero | client/src/components/tests/SRTTest.js:85-89 | 0 seconds show as "0:00" |
| News.TruncateMissing | server/index.js:107-108 | a missing or empty text gives "" |
| News.TruncateKeepsShort | server/index.js:109-110 | a text of at most 100 space-separated pieces is returned unchanged |
| News.TruncateCutsLong | server/index.js:109-111 | a longer text gives its first 100 pieces rejoined, followed by "..."; without the "..." it is a prefix of the text |
| News.TruncateBound | server/index.js:107-111 | a short text comes back unchanged; a longer one has exactly 100 space-separated pieces before its closing "..." |
| News.StripTags | server/index.js:136-137 | removing tags never lengthens the text; what is kept and removed is stated by StripTagsKeepsText and StripTagsDropsTag |
| News.StripTagsKeepsText | server/index.js:136-137 | text before the first `<` is kept unchanged, followed by the stripping of the rest |
| News.StripTagsDropsTag | server/index.js:136-137 | a `<`, text without `>`, and a `>` are removed together, and stripping goes on after them |
| News.StripTagsLeavesNoTag | server/index.js:136-137 | no `<` is left with a `>` after it |
| News.StripTagsOfPlain | server/index.js:136-137 | a text without tags is unchanged |
| News.StripTagsIdempotent | server/index.js:136-137 | stripping twice is stripping once |
| News.StripTagsKeepsCharacters | server/index.js:136-137 | stripping adds no character that was not there |
| News.ArticleOf | server/index.js:135-140 | an item becomes an article whose title is trimmed and free of tags, whose description is free of tags and has at most 100 space-separated pieces, or exactly 100 before a closing "...", with the item's link and the source "RSS Feed" |
| News.CleanedIsClean | server/index.js:136-137 | stripping tags and then trimming leaves a trimmed text with no tag in it |
| News.TruncateKeepsClean | server/index.js:137 | cutting a tag-free text to 100 words leaves it tag-free and within the word limit |
| News.KeptOnlyMembers | server/index.js:141 | the filter keeps exactly the articles with a title and a description |
| News.FeedArticlesMembers | server/index.js:130-141 | a feed's articles are exactly the kept ones among those made from its items |
| News.KeysMembers | server/index.js:154 | a key is seen exactly when some merged article has that lower-cased title |
| News.AddFeed | server/index.js:167-173 | adding one feed's articles gives the specified merge and keeps the seen set equal to the merged titles |
| News.MergeExtends | server/index.js:167-173 | merging only appends: the list before the feed is a prefix of the list after it |
| News.MergeDistinct | server/index.js:167-173 | merging keeps every lower-cased title unique |
| News.MergeCovers | server/index.js:167-173 | the titles seen after merging are those seen before plus the feed's; every appended article is one of the feed's, relabelled with the feed's name (which ones and in what order: MergeKeepsFirstNew) |
| News.NewPositionsAre | server/index.js:167-173 | the chosen feed positions are increasing, and a position is chosen exactly when its lower-cased title is neither among the titles seen before nor earlier in the feed |
| News.MergeKeepsFirstNew | server/index.js:167-173 | merging appends, in feed order, exactly the first article of each lower-cased title not seen before, relabelled with the feed's name |
| News.MergeFeedsDistinct | server/index.js:152-243 | across all feeds, no two merged articles share a lower-cased title |
| News.FilterRelevantMembers | server/index.js:278-282 | the keyword filter keeps exactly the articles whose lower-cased title and description mention a keyword |
| News.FilterRelevantEmpty | server/index.js:279-285 | the filter is empty exactly when no article mentions a keyword |
| News.SelectHeadlinesContents | server/index.js:278-288 | at most ten headlines; none exactly when there are no articles; when any article is relevant, the first ten relevant articles in merged order; otherwise the first ten articles |
| News.FilterRelevantAppend | server/index.js:278-282 | the keyword filter of two lists joined is the filter of the first followed by the filter of the second, so it keeps merged order |
| News.FilterRelevantOne | server/index.js:278-282 | a single article is kept exactly when it mentions a keyword |
| News.CollectHeadlines | server/index.js:152-288 | the collection loop gives the headlines of the merge of all feeds, in feed order |
| TatSession.WriteExpired | client/src/components/tests/TATTest.js:31-41 | when the writing time is over: one alert, then the pause before the next picture, or completion on the last one |
| TatSession.SelectImagesContents | client/src/components/tests/TATTest.js:50-56 | twelve pictures from distinct positions when at least twelve are served; a shorter list unchanged |
| TatSession.InitialInv | client/src/components/tests/TATTest.js:6-11 | the opening state keeps the invariant: first picture, viewing with 30 seconds |
| TatSession.StepInv | client/src/components/tests/TATTest.js:17-43 | each second keeps the invariant: the picture number stays in range and the timers stay within their periods |
| TatSession.LoadInv | client/src/components/tests/TATTest.js:45-56 | loading the pictures keeps the invariant |
| TatSession.StepProgress | client/src/components/tests/TATTest.js:33-41 | the picture number only rises by one, and only to an existing picture; completion is permanent and comes only when the last writing time runs out |
| TatSession.LoadKeepsComplete | client/src/components/tests/TATTest.js:43-56 | loading never undoes completion or moves the picture number |
| TatSession.ViewingEnds | client/src/components/tests/TATTest.js:17-25 | the writing time of 240 seconds starts exactly when the viewing time runs out |
| TatSession.WritingEnds | client/src/components/tests/TATTest.js:27-41 | the alert comes exactly when the writing time runs out |
| TatSession.NextPicture | client/src/components/tests/TATTest.js:17-38 | a picture that is not the last is followed by the next one 271 seconds after it was shown |
| TatSession.LastPicture | client/src/components/tests/TATTest.js:17-41 | the last picture ends the test 270 seconds after it was shown, with one alert |
| TatSession.RunCompletes | client/src/components/tests/TATTest.js:17-43 | from a picture just shown, the test completes after 271 seconds per picture left less one, with one alert per picture |
| TatSession.EmptyRunCompletes | client/src/components/tests/TATTest.js:18-43 | without pictures the test still completes, after exactly 270 seconds, with one alert |
| TatSession.Screen | client/src/components/tests/TATTest.js:91-140 | the completion screen exactly when the test is complete, then the no-pictures screen exactly while there are none, then the viewing screen exactly in the viewing phase, otherwise the writing screen; both show the picture's number, the number of pictures and the time left of their phase as `m:ss`, the viewing screen with the picture's link |
| TatSession.EmptyRunScreen | client/src/components/tests/TATTest.js:91-112 | a run without pictures shows the no-pictures screen until the completion screen for zero pictures |
| TatSession.ScreenClocks | client/src/components/tests/TATTest.js:116-139 | a picture just shown reads "0:30" with its number and link; the writing time starts at "4:00" |
| TatSession.TatTest.Tick | client/src/components/tests/TATTest.js:17-43 | one second of the component is the specified step |
| TatSession.TatTest.WritingTimeUp | client/src/components/tests/TATTest.js:31-41 | the writing-time effect as specified |
| TatSession.TatTest.LoadImages | client/src/components/tests/TATTest.js:45-56 | loading the pictures as specified |
| WatSession.Select | client/src/components/tests/WATTest.js:60-67 | choosing a test gives the first word, a full timer, no summary and nothing shown, a state that keeps the invariant |
| WatSession.InitialInv | client/src/components/tests/WATTest.js:6-12 | the opening state keeps the invariant and runs no countdown |
| WatSession.StepInv | client/src/components/tests/WATTest.js:19-37 | each second keeps the invariant: the shown words are the words before the current one, or all of them at the summary |
| WatSession.LoadInv | client/src/components/tests/WATTest.js:48-58 | words arriving after a test is chosen keep the invariant |
| WatSession.SummaryIsFinal | client/src/components/tests/WATTest.js:20-35 | at the summary no tick changes anything, and every word is listed in order |
| WatSession.NoCountdownWithoutWords | client/src/components/tests/WATTest.js:20-24 | no countdown runs before the words arrive |
| WatSession.WordTicks | client/src/components/tests/WATTest.js:20-24 | each second takes one second off the word's time and changes nothing else |
| WatSession.WordEnds | client/src/components/tests/WATTest.js:25-35 | the word is added to the shown ones exactly when its time runs out |
| WatSession.ExpireShowsWord | client/src/components/tests/WATTest.js:25-30 | when a word that is not the last runs out it joins the shown words and the next word starts with 15 seconds |
| WatSession.ExpireShowsLastWord | client/src/components/tests/WATTest.js:31-35 | when the last word runs out every word is shown and the summary comes up with the final sound |
| WatSession.NextWord | client/src/components/tests/WATTest.js:25-30 | a word that is not the last is followed by the next one 15 seconds after it was shown |
| WatSession.AdvanceWords | client/src/components/tests/WATTest.js:25-30 | m words that are not the last take exactly 15·m seconds |
| WatSession.LastWordEnds | client/src/components/tests/WATTest.js:31-35 | the last word brings up the summary with every word shown, 15 seconds after it appeared |
| WatSession.RunToSummary | client/src/components/tests/WATTest.js:19-37 | with n words the summary comes after exactly 15·n seconds and not a second earlier, listing every word, with one final sound |
| WatSession.SelectThenLoad | client/src/components/tests/WATTest.js:48-67 | choosing a test and receiving its words starts the first word with a full timer |
| WatSession.Screen | client/src/components/tests/WATTest.js:117-192 | the selection list exactly while no test is chosen, then the no-words notice exactly while the list is empty, then the summary exactly when it is set, otherwise the current word with its number, the header count equal to the smaller of the number of words and 60, and the seconds left; the summary lists the words shown |
| WatSession.RunShowsSummary | client/src/components/tests/WATTest.js:19-37 | after 15·n seconds of a test with n words the summary screen lists every word |
| WatSession.HeaderPastCap | client/src/components/tests/WATTest.js:181 | with more than 60 words the 61st is announced as "Word 61 of 60" |
| WatSession.WatTest.SelectTest | client/src/components/tests/WATTest.js:60-65 | the select handler performs the specified reset |
| WatSession.WatTest.LoadWords | client/src/components/tests/WATTest.js:48-58 | the loaded words, with a sound when there are any |
| WatSession.WatTest.Tick | client/src/components/tests/WATTest.js:19-37 | one second of the component is the specified step |
| SrtSession.CapItems | client/src/components/tests/SRTTest.js:43-45 | a list of more than 60 situations is cut to its first 60; a shorter one is kept |
| SrtSession.InitialInv | client/src/components/tests/SRTTest.js:6-11 | the opening state keeps the invariant, not started |
| SrtSession.EventsKeepInv | client/src/components/tests/SRTTest.js:17-59 | every event keeps the invariant: the clock within 30 minutes, running while started and not complete, at 0 when complete |
| SrtSession.SelectResets | client/src/components/tests/SRTTest.js:53-59 | choosing a test gives a full clock, not started and not complete |
| SrtSession.LoadKeepsFirstSixty | client/src/components/tests/SRTTest.js:38-47 | at most 60 situations, the first ones in order; 60 or fewer are kept whole |
| SrtSession.NoTickBeforeStart | client/src/components/tests/SRTTest.js:18 | before the start no tick changes anything |
| SrtSession.CompleteIsFinal | client/src/components/tests/SRTTest.js:18-26 | once complete, nothing changes and the clock stays at 0 |
| SrtSession.Countdown | client/src/components/tests/SRTTest.js:18-21 | while the clock runs each second takes one second off it |
| SrtSession.ClockRunsOut | client/src/components/tests/SRTTest.js:17-27 | the test completes exactly when the clock runs out, with the final sound twice |
| SrtSession.CompletesAfterHalfHour | client/src/components/tests/SRTTest.js:17-27 | a started test completes 1800 seconds after the start and not a second earlier |
| SrtSession.SelectLoadStart | client/src/components/tests/SRTTest.js:53-59 | choosing, loading and starting puts the full clock in motion |
| SrtSession.Screen | client/src/components/tests/SRTTest.js:95-181 | the selection list exactly while no test is chosen, then the no-situations notice exactly while the list is empty, then the start screen with the fixed clock "30:00" exactly before the start, then the review exactly once the time is up; after the start the clock is the time left as `m:ss`, over the loaded situations |
| SrtSession.StartKeepsClock | client/src/components/tests/SRTTest.js:142 | the fixed "30:00" before the start equals the clock at the start, so starting does not change the display |
| SrtSession.ReviewAtZero | client/src/components/tests/SRTTest.js:142-165 | at the end the clock reads "0:00" over the whole list |
| SrtSession.SrtTest.SelectTest | client/src/components/tests/SRTTest.js:53-57 | the select handler performs the specified reset |
| SrtSession.SrtTest.LoadSrts | client/src/components/tests/SRTTest.js:38-47 | the loaded list, capped at 60 |
| SrtSession.SrtTest.StartTest | client/src/components/tests/SRTTest.js:91-93 | starting only marks the test started |
| SrtSession.SrtTest.Tick | client/src/components/tests/SRTTest.js:17-27 | one second of the component is the specified step |

## Left out

- Express, CORS and multer setup, directory creation, static file serving and
  the 50 MB size limit are framework configuration.
- File system calls are not modelled as such. Directory listings and file
  contents are inputs, and the store is a map from path to contents.
  `path.join` is modelled as `dir + "/" + name`, without normalisation.
- Fetching the feeds, parsing their XML, the news cache and its 30-minute
  refresh are network I/O and timers. A feed is its list of items; a feed
  that fails is one with no items.
- The xml2js fall-backs for items (`title[0]._`, `summary`, `content`, `id`,
  `#`) are not modelled. An item is given as its title, description and link
  text.
- The optional NewsAPI source (server/index.js:245-275) needs an API key
  from the environment and the network, so it is not modelled. Its articles
  would join the merge like any other feed's.
- The directory listings of reading material and the situation-list JSON
  endpoint return a directory or a file unchanged and hold no logic.
- `Math.random` in the TAT shuffle is not modelled. The random order is an
  input required to be a permutation of the served list, so nothing is said
  about its distribution.
- Sounds (Web Audio) are counted as cues, not played.
- `new Date(...)` subtraction and `localeCompare`: dates are compared as
  `dddd-dd-dd` text, which agrees with JavaScript on well-formed dates;
  calendar-invalid dates are not modelled. Undated names are ordered by code
  point, which differs from locale collation on letter case and punctuation,
  ASCII included: `localeCompare` puts "apple.pdf" before "Banana.pdf",
  code-point order puts "Banana.pdf" first.
- `toLowerCase` is modelled for ASCII letters only.
- `parseInt` of very long digit runs loses precision in JavaScript; numbers
  here are unbounded.
- Rendering details (markup, styles, the picture URL prefix taken from the
  environment, the summary's fixed text "All 60 words displayed") are not
  modelled beyond what each screen shows.
- The test catalogs (`/api/wat-tests`, `/api/srt-tests`) are not in the
  server code. The list of available tests is an input of the screens.
- WatSession.LoadInv: the invariant is kept only when the words arrive right
  after a test is chosen, before the first tick, as the select handler
  requests them; a response arriving mid-run is outside the invariant.
- TatSession.LoadInv: the pictures are loaded once, when the screen opens,
  so the invariant is stated for a state in which nothing is loaded yet.
- TimeFormat.PadTwo: its own contract states only the length of at least
  two, so the proofs that format clocks stay small; PadTwoPads states the
  padding in full.
- News.StripTags: its own contract states only the length bound;
  StripTagsKeepsText and StripTagsDropsTag state what is kept and what is
  removed.
- News.MergeCovers: its own contract states only which titles are seen
  and where the appended articles come from; MergeKeepsFirstNew and
  NewPositionsAre state which articles are appended and in what order.
- SrtParse.MatchNumbered: its own contract states only the shape of a
  match, so that the parser's proofs stay small; MatchNumberedOfForm and
  MatchNumberedFound state the match in both directions.
- TatSession.Step: the pause callback's three updates are one transition,
  which relies on React batching them (automatic in React 18 with
  `createRoot`). The React version and root are not part of this model.
  Without batching, the writing-time effect re-runs after `setCurrentIndex`
  alone, with the phase still writing and the writing time at 0. It then
  sounds a second alert and schedules another advance or completes the test.
  NextPicture's 271 seconds and RunCompletes' one alert per picture assume
  batching.
- Sorting.SortBy: the JavaScript engine's sort algorithm is not specified
  for an inconsistent comparator. The model sorts by insertion, which is
  stable and agrees with any correct sort whenever the comparator is
  consistent.
