# neposync, modelled in Dafny

neposync is a command-line tool. It copies tags and ratings in either
direction between stores:
- the Nepomuk semantic desktop;
- image files: IPTC keywords and the XMP `Rating` tag, through KExiv2;
- MP3 files: the ID3v2 POPM "Popularimeter" frame, through TagLib;
- the Amarok music collection, an embedded MySQL database.

This project models the core of the tool:
- the argument handling of `main`;
- the case-insensitive suffix classifier;
- the per-file decisions of the six sync directions, and the action loops that apply them to every file of a directory walk;
- clear-Nepomuk and display-Amarok;
- the 0..255 ↔ 0..10 rating conversion and POPM frame handling of `ID3Utilities`;
- the four table operations of `AmarokCollection`.

The foreign stores are replaced by in-memory maps (module `Stores`). The Amarok database is a class with two tables, `urls` and `statistics`, and an `online` flag.

Modules:
- `Common`: an option type and character counting.
- `ID3Utilities`: the rating scales and the POPM frame list of an MP3 file.
- `Keywords`: the string order used for keyword lists (by character code), the sort `main` applies to keyword lists, and the uniqueness of a sorted permutation.
- `Amarok`: class `AmarokCollection` with `GetRating`, `SetRating`, `GetAllRating` and `Query`, and what they select and write.
- `Arguments`: the argument loop as a method. It is proved equal to a word-level reading of the command line, and properties are stated about the raw arguments.
- `Stores`: directory entries, the suffix classifier and the three stores.
- `Reconcile`: the decision each sync direction makes for one file, and the files→Nepomuk tag pass.
- `Driver`: the action loops. Each is a method proved equal to a fold of a per-file step function. The effect, idempotence and frame of each step are proved, and so is the idempotence of whole runs.
- `Display`: display-Amarok, both as written and corrected (see Findings).

Conversions:
- The rating conversions use `qRound` on floating point. For non-negative values, rounding half away from zero is `floor(x + 1/2)`, so the conversions are modelled exactly as `(20r + 255) div 510` and `(510c + 10) div 20`.
- Going from canonical to native and back is exact.
- Going from native to canonical and back moves a value by up to 13, not by one step. `NativeRoundTripError` proves that bound.

## Model

| member | source | states |
|---|---|---|
| ID3Utilities.ToCanonical | ID3Utilities.cpp:47 | round(r*10/255) pinned by its rounding interval; a byte maps into 0..10 |
| ID3Utilities.FromCanonical | ID3Utilities.cpp:69 | round(c*255/10) pinned by its rounding interval; 0..10 maps into 0..255 |
| ID3Utilities.CanonicalRoundTrip | ID3Utilities.cpp:47-69 | converting a canonical rating to a byte and back gives it back exactly |
| ID3Utilities.NativeRoundTripError | ID3Utilities.cpp:47-69 | converting a byte to the 0..10 scale and back moves it by at most 13 |
| ID3Utilities.ToCanonicalMonotone | ID3Utilities.cpp:47 | the byte-to-scale conversion is monotone |
| ID3Utilities.FromCanonicalMonotone | ID3Utilities.cpp:69 | the scale-to-byte conversion is monotone |
| ID3Utilities.ScaleEndpoints | ID3Utilities.cpp:47-69 | 0 maps to 0 and 255 maps to 10, both ways |
| ID3Utilities.PopmFrames | ID3Utilities.cpp:36 | the "POPM" frame list holds only POPM frames, in tag order |
| ID3Utilities.GetID3Rating | ID3Utilities.cpp:30-52 | the rating is in 0..10, and it is 0 without an ID3v2 tag or without a POPM frame |
| ID3Utilities.NewPopm | ID3Utilities.cpp:64-69 | the new POPM frame holds the converted rating as a byte, with no e-mail and counter 0; SetID3Rating and SetThenGet state what reading it gives |
| ID3Utilities.FirstPopmDecides | ID3Utilities.cpp:36-47 | only the first POPM frame is read, whatever follows it |
| ID3Utilities.RemovePopm | ID3Utilities.cpp:62 | removeFrames("POPM") leaves no POPM frame and keeps every other frame in order |
| ID3Utilities.SetID3Rating | ID3Utilities.cpp:55-89 | succeeds iff the file has an ID3v2 tag and can be saved; on failure the file is unchanged; on success exactly one POPM frame, holding the converted rating, and all other frames kept |
| ID3Utilities.SetThenGet | ID3Utilities.cpp:55-89 | a successful write of a 0..10 rating is read back unchanged |
| Keywords.StrLeTotal | main.cpp:233-234 | the string order used for sorting is total |
| Keywords.StrLeAntisymmetric | main.cpp:233-234 | the string order used for sorting is antisymmetric |
| Keywords.StrLeTransitive | main.cpp:233-234 | the string order used for sorting is transitive |
| Keywords.Sort | main.cpp:233-234 | QStringList::sort returns a permutation of its input |
| Keywords.SortSorted | main.cpp:233-234 | QStringList::sort returns a sorted list |
| Keywords.SortedUnique | main.cpp:231-235 | two sorted lists with the same elements and the same multiplicities are equal |
| Keywords.SortIdempotent | main.cpp:233-234 | sorting a sorted list changes nothing |
| Keywords.SortedDifferIffMultisetsDiffer | main.cpp:231-235 | the two sorted keyword lists differ exactly when the lists differ as multisets |
| Amarok.NonZeroRatingIsKnown | AmarokCollection.cpp:154-164 | a non-zero rating is read only for a url in the collection |
| Amarok.RatingOf | AmarokCollection.cpp:138-166 | the left outer join for one rpath: absent, NULL rating (known, 0) or the stored rating; AmarokCollection.GetRating ties its outputs to it, and NonZeroRatingIsKnown and SetThenGetRating state its properties |
| Amarok.WithRating | AmarokCollection.cpp:230-259 | insert-or-update adds the url's id to the statistics rows and no other row |
| Amarok.SetThenGetRating | AmarokCollection.cpp:205-262 | after setRating, getRating reads (true, rating) for that url, and the same as before for every other url |
| Amarok.RowsUnder | AmarokCollection.cpp:175-196 | the rows the LIKE query returns: known rpaths under the prefix with a statistics row; AllRatingUnderPrefix states what they yield |
| Amarok.PositiveRatings | AmarokCollection.cpp:186-196 | the fetch loop keeps each row rated above 0 with its rating, and every such row; AllRatingUnderPrefix ties it to RatingOf |
| Amarok.AllRatingUnderPrefix | AmarokCollection.cpp:170-201 | getAllRating adds exactly the urls under the prefix rated above 0, each with its rating as getRating reads it |
| Amarok.Join | AmarokCollection.cpp:288-304 | the fields joined by "," left to right; SplitJoin proves the line splits back into its fields |
| Amarok.SplitJoin | AmarokCollection.cpp:288-304 | a line query() builds splits back into its fields when no field holds a comma |
| Amarok.AmarokCollection.GetRating | AmarokCollection.cpp:132-168 | outputs start as (false, 0); a failed query keeps them; otherwise (false, 0) for an unknown url, (true, 0) for a url with no statistics row, and (true, stored rating) otherwise |
| Amarok.AmarokCollection.SetRating | AmarokCollection.cpp:205-262 | fails and changes nothing for an unknown url or a failed query; otherwise inserts or updates that url's row, so getRating reads (true, rating) afterwards and no other url's reading changes |
| Amarok.AmarokCollection.GetAllRating | AmarokCollection.cpp:170-201 | the output map is the input map plus every url under the prefix rated above 0, with its rating; a failed query leaves it as it was |
| Amarok.AmarokCollection.Query | AmarokCollection.cpp:265-309 | on success it appends one header line of the column names joined by ",", then one line per row with its fields joined by ","; rows + 1 lines are added and earlier lines are kept; on failure nothing is added |
| Arguments.ClassifyArg | main.cpp:87-157 | an argument other than -qa is never read as a query; it is read as help exactly for -h/--help and as force exactly for -f/--force |
| Arguments.FirstStop | main.cpp:122-149 | the stop word found (help or missing query) is a stop word that occurs in the words read |
| Arguments.Tokenize | main.cpp:85-158 | the words main's loop reads, a -qa with its query read together; PlainTokenize, TokenizePlainPrefix, QueryNeverDash and TrailingQueryFlagIsMissing state what it yields |
| Arguments.Interpret | main.cpp:122-169 | the outcome decided from the words; ParseArguments is proved equal to it, and QueryFlagNeedsQuery, QueryFollowedByDashRejected, NoActionShowsUsage, TwoActionsRejected and ForceOption state it over the raw arguments |
| Arguments.ParseArguments | main.cpp:85-169 | the loop's outcome is the word-level reading: the first help word or missing query ends it; otherwise no action shows the usage text, more than one is an error, and one runs with the options read |
| Arguments.QueryNeverDash | main.cpp:122-136 | a query text is one of the arguments and never starts with '-' |
| Arguments.HelpWordFromHelpFlag | main.cpp:145-149 | a help word is read only when -h or --help was given |
| Arguments.TrailingQueryFlagIsMissing | main.cpp:126-131 | a -qa in last position is always read as a missing query |
| Arguments.QueryFlagNeedsQuery | main.cpp:122-131 | -qa in last position, with no help flag, ends the program with status 1 |
| Arguments.TokenizePlainPrefix | main.cpp:85-158 | up to the first -qa, each argument is read on its own |
| Arguments.QueryFollowedByDashRejected | main.cpp:122-131 | -qa followed by an argument starting with '-', with no help flag and no -qa before it, ends the program with status 1, whatever follows |
| Arguments.NoActionShowsUsage | main.cpp:160-164 | with no action flag, no -qa and no help flag, the usage text is shown and the status is 0 |
| Arguments.PlainTokenize | main.cpp:85-158 | without -qa, every argument is read on its own |
| Arguments.TwoActionsRejected | main.cpp:160-169 | two action flags, with no help flag and no -qa, end the program with status 1, before any store is opened |
| Arguments.ForceOption | main.cpp:141-144 | when an action runs, force is on exactly when -f or --force was given |
| Stores.Classify | main.cpp:213-214 | jpg and jpeg (any case) are images and mp3 is audio; ClassifiedSuffixes states it both ways over the lower-cased suffix, and ClassifyIgnoresCase states the case independence |
| Stores.ClassifyIgnoresCase | main.cpp:213-214 | the suffix test ignores letter case |
| Stores.ClassifiedSuffixes | main.cpp:213-214 | a suffix is an image exactly when lower-cased it is jpg or jpeg, audio exactly when it is mp3, and left alone otherwise |
| Reconcile.MirrorRating | main.cpp:351-370 | a present source rating is written when absent or different in the target; an absent source clears the target only under force and only when the target has a rating; any write changes the target |
| Reconcile.MirrorIdempotent | main.cpp:245-267 | after the write, the same decision writes nothing |
| Reconcile.MirrorForceOnlyWhenSourceEmpty | main.cpp:245-267 | force changes nothing when the source has a rating |
| Reconcile.PositiveRating | main.cpp:376 | a numeric rating counts as present exactly when it is above 0 |
| Reconcile.Id3Write | main.cpp:274-293 | a source rating is written to the file exactly when it differs; with no source rating, force writes 0 exactly when the file's rating is above 0 |
| Reconcile.Id3After | main.cpp:274-293 | the MP3 file after the ID3 decision is applied; Id3Idempotent and Driver.NfAudioEffect state the result |
| Reconcile.Id3Idempotent | main.cpp:274-293 | once a writable file is written with a 0..10 rating, the same decision writes nothing |
| Reconcile.Id3RatingAboveScale | main.cpp:278-281 | a rating of 11 is stored as byte 25 and read back as 1, so it is written again on every run |
| Reconcile.KeywordWrite | main.cpp:221-242 | keywords are written exactly when there are tags or force and the lists differ as multisets; the list written is sorted and has exactly the tag labels |
| Reconcile.KeywordIdempotent | main.cpp:231-242 | after the write, the next run writes no keywords |
| Reconcile.AmarokWrite | main.cpp:574-606 | a positive file rating is written only for a known url whose rating differs; a zero file rating is written under force exactly when Amarok holds a non-zero rating; the value written is the file rating |
| Reconcile.AmarokWriteKnownUrl | main.cpp:582-604 | every write goes to a url in the collection |
| Reconcile.AmarokIdempotent | main.cpp:588-591 | after the write, the same decision writes nothing |
| Reconcile.Without | main.cpp:323-336 | keeps exactly the tags whose label is not listed: the tags the remove loop collects (not a keyword), and those removeProperty keeps (not among the tags to remove) |
| Reconcile.WithoutNoDuplicates | main.cpp:332-336 | removing tags never repeats a label |
| Reconcile.AddTag | main.cpp:344-346 | addTag adds the tag once |
| Reconcile.AddMissing | main.cpp:338-348 | every keyword the file did not have is added, and nothing else |
| Reconcile.AddMissingNoDuplicates | main.cpp:338-348 | adding the missing keywords never repeats a label |
| Reconcile.ReconciledTags | main.cpp:320-348 | the tags after the remove call and the add loop; ReconciledTagsAreKeywords and ReconciledTagsIdempotent state the result |
| Reconcile.ReconciledTagsAreKeywords | main.cpp:320-348 | afterwards the file's tag labels are exactly the keywords |
| Reconcile.ReconciledTagsIdempotent | main.cpp:320-348 | a second pass with the same keywords changes nothing |
| Reconcile.ReconcileTags | main.cpp:320-348 | the remove and add loops compute the tags to remove and the reconciled tags |
| Driver.NfStep | main.cpp:213-294 | one file's Nepomuk→files step, by suffix; NfImageEffect, NfAudioEffect, NfStepIdempotent and NfStepsCommute state it |
| Driver.NepomukToFiles | main.cpp:206-296 | the Nepomuk→files loop leaves the stores as the fold of the per-file step over the entries |
| Driver.NepomukToImage | main.cpp:213-268 | the image branch is the per-file step: keywords first, then the XMP rating |
| Driver.NepomukToMp3 | main.cpp:269-294 | the MP3 branch is the per-file step |
| Driver.NfRunFrame | main.cpp:206-296 | Nepomuk is never written, and no file other than those walked is touched |
| Driver.NfImageEffect | main.cpp:219-267 | an image ends up with the sorted tag labels as keywords (when there are tags or force, and they differ) and with the Nepomuk rating (removed under force when Nepomuk has none) |
| Driver.NfAudioEffect | main.cpp:274-293 | a writable MP3 file ends up reading the Nepomuk rating (0 under force when there is none), and its other frames are kept; without a rating or force it is untouched |
| Driver.NfStepIdempotent | main.cpp:213-294 | repeating a file's step changes nothing, for 0..10 ratings |
| Driver.NfStepsCommute | main.cpp:209-295 | the steps of two different files can be taken in either order |
| Driver.NfRunIdempotent | main.cpp:206-296 | a second run over the same files changes nothing |
| Driver.FnStep | main.cpp:307-394 | one file's files→Nepomuk step, by suffix; FnImageEffect, FnAudioEffect, FnStepIdempotent and FnStepsCommute state it |
| Driver.FilesToNepomuk | main.cpp:301-396 | the files→Nepomuk loop leaves the stores as the fold of the per-file step over the entries |
| Driver.ImageToNepomuk | main.cpp:307-371 | the image branch is the per-file step: tags first, then the rating |
| Driver.Mp3ToNepomuk | main.cpp:372-394 | the MP3 branch is the per-file step |
| Driver.FnRunFrame | main.cpp:301-396 | no file is written, and no Nepomuk resource other than those walked is touched |
| Driver.FnImageEffect | main.cpp:307-370 | an image's resource ends up with the keywords as its tag labels (when there are keywords or force) and with the XMP rating (removed under force when there is none) |
| Driver.FnAudioEffect | main.cpp:372-394 | an MP3 file's positive rating is copied; a zero one clears the resource's rating only under force; tags are untouched |
| Driver.FnStepIdempotent | main.cpp:307-394 | repeating a file's step changes nothing |
| Driver.FnStepsCommute | main.cpp:304-395 | the steps of two files with different absolute paths can be taken in either order |
| Driver.FnRunIdempotent | main.cpp:301-396 | a second run over the same files changes nothing |
| Driver.ClearStep | main.cpp:470-501 | one image's clear step; ClearRunClears states its result |
| Driver.ClearNepomuk | main.cpp:458-503 | the clear-Nepomuk loop leaves Nepomuk as the fold of the per-file clear step over the entries |
| Driver.ClearImage | main.cpp:470-501 | one image's clear is the per-file clear step: its tags, then its rating |
| Driver.RemoveEachTag | main.cpp:483-487 | removing each tag by its own call leaves exactly what removing them all at once leaves |
| Driver.WithoutAppend | main.cpp:483-487 | removing tags one call at a time equals removing them all in one call |
| Driver.ClearRunClears | main.cpp:470-500 | every image walked ends up with no tags and no rating |
| Driver.AfStep | main.cpp:524-552 | one MP3 file's Amarok→files step, reading the collection's rating; AfStepIdempotent and AfStepsCommute state it |
| Driver.AmarokToFiles | main.cpp:517-555 | the Amarok→files loop leaves the stores as the fold of the per-file step over the entries |
| Driver.AfStepIdempotent | main.cpp:524-552 | repeating a file's step changes nothing, for 0..10 Amarok ratings |
| Driver.AfStepsCommute | main.cpp:520-554 | the steps of two different files can be taken in either order |
| Driver.AfRunIdempotent | main.cpp:517-555 | a second run over the same files changes nothing |
| Driver.FaStep | main.cpp:567-606 | one MP3 file's files→Amarok step on the statistics table; FaStepEffect, FaStepElsewhere, FaStepIdempotent and FaStepsCommute state it |
| Driver.FilesToAmarok | main.cpp:560-609 | the files→Amarok loop leaves the statistics table as the fold of the per-file step over the entries, and keeps the url ids unique |
| Driver.FaRunFrame | main.cpp:560-609 | no track other than those walked changes its rating |
| Driver.FaStepEffect | main.cpp:567-606 | a known track gets a positive file rating; a zero one under force clears a non-zero Amarok rating; otherwise nothing is written; a track stays known or unknown |
| Driver.FaStepIdempotent | main.cpp:567-606 | repeating a file's step changes nothing |
| Driver.FaStepElsewhere | main.cpp:578-604 | a file's step changes only its own track's row |
| Driver.FaStepsCommute | main.cpp:563-608 | the steps of two different files can be taken in either order |
| Driver.FaRunIdempotent | main.cpp:560-609 | a second run over the same files changes nothing |
| Display.ShownAsWritten | main.cpp:614-630 | everything shown starts with "." and the directory, and is shown with its positive rating |
| Display.AsWrittenShowsSiblingDirectory | main.cpp:616-624 | as written, a track of "/home/xy" is shown for the directory "/home/x" without -r |
| Display.AsWrittenHidesChildrenAfterTrailingSlash | main.cpp:623-624 | as written, the directory "/home/x/" shows none of its own tracks without -r |
| Display.Keep | main.cpp:622-627 | keeps exactly the entries that pass the depth test (or all under -r), with their ratings |
| Display.DepthMeansDirectChild | main.cpp:623-624 | below the corrected prefix, the depth test holds exactly for paths with no further '/' |
| Display.ShownCorrected | main.cpp:614-630 | what the corrected display shows; CorrectedShowsExactlyDirectory states it both ways |
| Display.CorrectedShowsExactlyDirectory | main.cpp:614-630 | corrected, a track is shown exactly when it is rated above 0 and inside the directory (directly inside without -r), and with its rating |
| Display.DisplayAmarok | main.cpp:614-630 | the loop over getAllRating's map shows exactly what the corrected filter keeps, and nothing when the collection cannot be queried |

## Left out

- Directory walks with `QDirIterator`: the entries are given as a sequence, in walk order. Recursion shows up only in which entries are given.
- Nepomuk, KExiv2, TagLib and the MySQL client are foreign libraries. They are replaced by maps. An image write is assumed to succeed; `applyChanges` failures are not modelled.
- Nepomuk tags are modelled by label. A tag's resource URI is not modelled, and neither is the comparison of `Nepomuk::Tag` objects with a keyword string in the add loop; both loops compare labels.
- `setXmpTagString` with a null string is modelled as removing the XMP rating.
- An XMP rating is modelled as the number it parses to, or as absent. A string that `toUInt` cannot parse is not modelled.
- Letter case is folded over ASCII only. Unicode case folding in `QString::compare` is not modelled.
- `AmarokCollection::connect` (server start-up, directories, option files) is left out, together with main's exit on a failed connection. The collection is built already connected, and `online` stands for a server that accepts queries.
- The SQL texts and their quoting are not modelled, and neither are the `%` and `_` wildcards of `LIKE` inside a path. Only what each query selects or writes is modelled.
- setRating reads `row[1]` from a one-column result. This is modelled as its evident intent: does a statistics row exist? Both branches store the rating.
- The collection holds at most one `urls` row per rpath: `urls` is a map from rpath to id, and `Valid()` keeps the ids unique. The source's queries are written for any number of matching rows: getRating reads the first row, getAllRating lets a later row overwrite an earlier one, and setRating updates the first id it fetches. Several rows for one rpath are not modelled.
- `Query` takes the server's answer to the query text as a parameter. The engine is not modelled.
- Output is not modelled:
  - every `std::cout` message;
  - the usage text;
  - the printing of query results;
  - the whole of display-nepomuk, which only prints;
  - the effect of `-V` on output;
  - the redirection of stderr.
  - display-Amarok's printed lines are modelled as a map from path to rating, without their order.
- When no directory argument is given, the directory comes from `PWD` or the current path. That lookup is left out; the directory is an `Option` and the entries are given.
- The `bool` result of getID3Rating (always true) is not returned as a value. setID3Rating's `bool` is the first component of `SetID3Rating`'s result; main ignores it. A failed write leaves the file as it was.
- Keywords.StrLe: compares characters by Unicode scalar value, while QString compares UTF-16 code units. The two orders disagree when a character above U+FFFF is compared with one in U+E000..U+FFFF, so the order in which such keywords are written is not modelled.
- Driver.NfStepIdempotent: requires Nepomuk ratings in 0..10, because a larger rating does not survive the byte round trip and is written again on every run (Reconcile.Id3RatingAboveScale).
- Driver.NfRunIdempotent: requires distinct paths and Nepomuk ratings in 0..10, for the same reason.
- Driver.AfStepIdempotent: requires Amarok ratings in 0..10, for the same reason.
- Driver.AfRunIdempotent: requires distinct paths and every rating of the collection in 0..10, for the same reason.
- Driver.FnRunIdempotent: requires distinct absolute paths, as a directory walk yields.
- Driver.FaRunIdempotent: requires distinct paths and unique url ids.

## Findings

| source | as written | input that shows it | evidently intended | confidence | as-written member | corrected member |
|---|---|---|---|---|---|---|
| main.cpp:616 | display-amarok asks getAllRating for every path starting with "." and the directory, with no '/' after it | directory "/home/x", a track "./home/xy/a.mp3" rated 8, no -r: the track is shown | only tracks inside the directory: prefix "." + directory + "/" | not executed | Display.AsWrittenShowsSiblingDirectory | Display.CorrectedShowsExactlyDirectory |
| main.cpp:623-624 | without -r, a path is shown when it has one more '/' than the directory as given | directory "/home/x/", a track "./home/x/a.mp3" rated 8: nothing is shown | count against the directory without its trailing '/' | not executed | Display.AsWrittenHidesChildrenAfterTrailingSlash | Display.CorrectedShowsExactlyDirectory |
