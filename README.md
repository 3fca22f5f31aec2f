# A Dafny model of the video-search API client library

This project models the core of a PHP client library for a paginated
video-search HTTP API. The library itself has five parts:

- **Parameter objects.** `SearchParams` and `VideoIdParams` check their
  fields against closed enumerations and integer ranges in a fixed
  order. The first violation is reported as a `ValidationException`.
  Serialising an object (`toArray`) validates it first.
- **The API constants.** These are the `API` default values, domains and
  membership predicates.
- **Domain values.** `Thumb`, `Video`, `VideoCollection` and
  `RemovedVideo` are built from string-keyed arrays and turned back into
  them.
- **Response normalisation.** This is done by the `ResponseParser`. It
  picks a decoder from the Content-Type and falls back from JSON to XML.
  It converts an XML tree recursively into an array. It also reads
  removed-video text lists.
- **The `VideoIterator`.** It walks a search page by page. The
  duration formatter `eporner_format_duration` sits beside it.

The modules follow the source tree:

| module | file | models |
|---|---|---|
| `Wrappers` | wrappers.dfy | `Option`, `Result`, `Outcome`; mapping a fallible function over a list |
| `Text` | text.dfy | PHP `trim`, `explode`, `implode`, `str_contains`, `%02d`, decimal printing, "PHP-empty" strings |
| `Values` | values.dfy | PHP values and ordered string-keyed arrays: lookup, `isset`, `??`, assignment, `array_merge`, the casts |
| `Api` | api.dfy | src/Constants/API.php |
| `ValidationErrors`, `Failures` | validation_exception.dfy | src/Exceptions/ValidationException.php; the exceptions the library throws, as one error type |
| `Arguments` | arguments.dfy | reading an optional array entry into a typed parameter under `strict_types=1` |
| `SearchParameters` | search_params.dfy | src/Parameters/SearchParams.php |
| `VideoIdParameters` | video_id_params.dfy | src/Parameters/VideoIdParams.php |
| `Thumbs` | thumb.dfy | src/Models/Thumb.php |
| `Videos` | video.dfy | src/Models/Video.php |
| `VideoCollections` | video_collection.dfy | src/Models/VideoCollection.php |
| `RemovedVideos` | removed_video.dfy | src/Models/RemovedVideo.php |
| `ResponseParsing` | response_parser.dfy | src/Parser/ResponseParser.php |
| `VideoIterators` | video_iterator.dfy | src/Iterator/VideoIterator.php |
| `Durations` | helpers.dfy | `eporner_format_duration` in src/Helpers/helpers.php |

Modelling choices:

- **PHP arrays** are sequences of key/value entries, kept in insertion
  order.
  - Lookup finds the first entry with the key.
  - Assignment replaces that entry in place, or appends a new one.
  - `array_merge` on string keys is a fold of assignments.
  - List arrays have the keys "0", "1", and so on.
- **Exceptions.** A method that throws returns a `Result` whose error is
  one of these:
  - a `ValidationError` (the `ValidationException`);
  - an API error carrying its message;
  - a `TypeError` naming the parameter. PHP raises a TypeError under
    `strict_types=1` when a non-string value reaches a `string`
    parameter, or a non-array value reaches an `array` parameter.
- **Objects with setters** are classes whose fields the setters assign:
  `SearchParams`, `VideoIdParams` and `VideoIterator`. The read-only
  value objects are datatypes.
- **The external parsers** are parameters: `json_decode` is a function
  from the body to a value or a syntax error, and `simplexml_load_string`
  is a function from the body to an element tree or the list of libxml
  diagnostics. The client's `search()` is an oracle from parameters to a
  page or a failure. An exception thrown by the search is swallowed, as
  the iterator's `try`/`catch` does.
- **The `foreach` loop** over the iterator is a function (`Drain`). It
  follows PHP's protocol for an `Iterator`: `rewind()`, then
  `valid()`/`current()`/`next()` until `valid()` is false. It takes at
  most n steps, because a search oracle may return pages without end.

## Model

| member | source | states |
|---|---|---|
| `Api.GetUrl` | src/Constants/API.php:73-76 | the URL is the base URL `https://www.eporner.com` followed by the endpoint, with the lengths adding up |
| `Api.IsValidThumbSize` | src/Constants/API.php:81-84 | holds exactly for "small", "medium" and "big" |
| `Api.IsValidOrder` | src/Constants/API.php:89-92 | holds exactly for the seven listed orders |
| `Api.IsValidFormat` | src/Constants/API.php:97-100 | holds exactly for "json" and "xml" ("txt" is rejected) |
| `Api.IsValidPerPage` | src/Constants/API.php:105-108 | holds exactly for 1 ≤ n ≤ 1000 |
| `Api.IsValidPage` | src/Constants/API.php:113-116 | holds exactly for 1 ≤ n ≤ 1000000 |
| `Api.DefaultsAreValid` | src/Constants/API.php:29-59 | every default passes its own predicate; gay 0 and lq 1 are in {0, 1, 2} |
| `Api.DimensionsCoverSizes` | src/Constants/API.php:47-68 | every valid thumbnail size has an entry in the dimension table |
| `ValidationErrors.New` | src/Exceptions/ValidationException.php:17-45 | getParameter/getValue return the constructor's parameter and value; an empty message ("" or "0") becomes "Invalid value '<v>' for parameter '<p>'", any other is kept |
| `ValidationErrors.InvalidThumbSize` | src/Exceptions/ValidationException.php:50-61 | parameter "thumbsize", the offending string as value, and a message listing small, medium, big |
| `ValidationErrors.InvalidOrder` | src/Exceptions/ValidationException.php:66-77 | parameter "order", the offending string as value, and a message listing the valid orders joined by ", " |
| `ValidationErrors.InvalidFormat` | src/Exceptions/ValidationException.php:82-93 | parameter "format", the offending string as value, and a message listing json, xml |
| `ValidationErrors.InvalidPerPage` | src/Exceptions/ValidationException.php:98-109 | the wire name "per_page", the integer as value, and the range 1-1000 in the message |
| `ValidationErrors.InvalidPage` | src/Exceptions/ValidationException.php:114-125 | parameter "page", the integer as value, and the range 1-1000000 in the message |
| `ValidationErrors.InvalidGay` | src/Exceptions/ValidationException.php:130-141 | parameter "gay", the integer as value, and a message listing 0, 1, 2 |
| `ValidationErrors.InvalidLq` | src/Exceptions/ValidationException.php:146-157 | parameter "lq", the integer as value, and a message listing 0, 1, 2 |
| `ValidationErrors.FilterListing` | src/Exceptions/ValidationException.php:138-154 | the gay and lq options joined by ", " read "0, 1, 2" |
| `ValidationErrors.MissingRequired` | src/Exceptions/ValidationException.php:162-169 | the named parameter, a null value, and the message "Required parameter '<p>' is missing" |
| `SearchParameters.ValidateFrom` | src/Parameters/SearchParams.php:70-99 | from check k on, it passes exactly when every remaining check holds; otherwise it fails with the rejection of the first failing check |
| `SearchParameters.FailsFirstEarlier` | src/Parameters/SearchParams.php:70-99 | a check that passes does not change which later check fails first |
| `SearchParameters.ValidateFields` | src/Parameters/SearchParams.php:70-99 | passes iff thumbsize, order, format, per_page, page, gay and lq are all in their domains; otherwise it fails naming the first bad one in that order |
| `SearchParameters.QueryUnchecked` | src/Parameters/SearchParams.php:70-99 | the query takes no part in validation: changing it leaves the outcome unchanged |
| `SearchParameters.QueryUncheckedFrom` | src/Parameters/SearchParams.php:70-99 | the same from any check position on |
| `SearchParameters.QueryIgnored` | src/Parameters/SearchParams.php:70-99 | no single check, and no single rejection message, depends on the query |
| `SearchParameters.RequestArrayContents` | src/Parameters/SearchParams.php:53-62 | the request array has the eight distinct keys query, per_page, page, thumbsize, order, gay, lq, format, in that order, each holding its field unchanged |
| `SearchParameters.FieldsToArray` | src/Parameters/SearchParams.php:49-63 | fails exactly when validation fails, with validation's error; on success it has the eight keys with the field values |
| `SearchParameters.FieldsFromArray` | src/Parameters/SearchParams.php:212-224 | succeeds iff every string-typed entry that is present holds a string; a failure is a TypeError naming such an entry; on success query, thumbsize, order and format are their string entries and per_page, page, gay and lq the integer casts of theirs, each missing key taking the API default |
| `SearchParameters.FromEmptyArray` | src/Parameters/SearchParams.php:212-224 | an empty array gives the default parameters |
| `SearchParameters.FromFullArray` | src/Parameters/SearchParams.php:212-224 | an array holding all eight keys gives back exactly those values |
| `SearchParameters.ArrayRoundTrip` | src/Parameters/SearchParams.php:212-224 | for valid parameters, toArray succeeds and fromArray(toArray(p)) == p (toArray at lines 53-62) |
| `SearchParameters.WithPageOf` | src/Parameters/SearchParams.php:195-207 | the copy has the given page, and query, per_page, thumbsize, order, gay, lq and format unchanged |
| `SearchParameters.NextPageOf` | src/Parameters/SearchParams.php:178-190 | the next page is the copy with page + 1 |
| `SearchParameters.WithPageChecks` | src/Parameters/SearchParams.php:195-207 | changing the page affects only the page check; a valid value stays valid iff the new page is in range (the checks at lines 70-99) |
| `SearchParameters.NextPageValidity` | src/Parameters/SearchParams.php:178-190 | nextPage does not validate: below MAX_PAGE the copy is valid, at MAX_PAGE it fails the page check (MAX_PAGE is API::MAX_PAGE, 1000000) |
| `SearchParameters.SearchParams.constructor` | src/Parameters/SearchParams.php:24-42 | the fields are the arguments, each defaulting to the API default |
| `SearchParameters.SearchParams.Validate` | src/Parameters/SearchParams.php:70-99 | the outcome of validating the current fields |
| `SearchParameters.SearchParams.ToArray` | src/Parameters/SearchParams.php:49-63 | the request array of the current fields, or validation's error |
| `SearchParameters.SearchParams.SetQuery` | src/Parameters/SearchParams.php:104-108 | returns the same object, with only the query changed |
| `SearchParameters.SearchParams.SetPerPage` | src/Parameters/SearchParams.php:113-117 | returns the same object, with only per_page changed |
| `SearchParameters.SearchParams.SetPage` | src/Parameters/SearchParams.php:122-126 | returns the same object, with only the page changed |
| `SearchParameters.SearchParams.SetThumbSize` | src/Parameters/SearchParams.php:131-135 | returns the same object, with only thumbsize changed |
| `SearchParameters.SearchParams.SetOrder` | src/Parameters/SearchParams.php:140-144 | returns the same object, with only the order changed |
| `SearchParameters.SearchParams.SetGay` | src/Parameters/SearchParams.php:150-154 | returns the same object, with only gay changed |
| `SearchParameters.SearchParams.SetLq` | src/Parameters/SearchParams.php:160-164 | returns the same object, with only lq changed |
| `SearchParameters.SearchParams.SetFormat` | src/Parameters/SearchParams.php:169-173 | returns the same object, with only the format changed |
| `SearchParameters.SearchParams.NextPage` | src/Parameters/SearchParams.php:178-190 | a fresh object with page + 1 and every other field equal; the receiver is unchanged |
| `SearchParameters.SearchParams.WithPage` | src/Parameters/SearchParams.php:195-207 | a fresh object with the given page and every other field equal; the receiver is unchanged |
| `SearchParameters.SearchParams.FromArray` | src/Parameters/SearchParams.php:212-224 | a fresh object holding the fields read from the array, or the TypeError |
| `VideoIdParameters.ValidateIdFields` | src/Parameters/VideoIdParams.php:46-55 | passes iff both fields are valid; thumbsize is checked before format, and the first invalid one is reported |
| `VideoIdParameters.IdFieldsToArray` | src/Parameters/VideoIdParams.php:31-39 | fails exactly when validation fails; otherwise it holds exactly the keys thumbsize and format, with their values |
| `VideoIdParameters.IdFieldsFromArray` | src/Parameters/VideoIdParams.php:78-84 | succeeds iff both entries are absent or strings; a failure is a TypeError naming such an entry; on success thumbsize and format are their string entries, a missing one taking its default (medium, json) |
| `VideoIdParameters.IdArrayRoundTrip` | src/Parameters/VideoIdParams.php:78-84 | for valid parameters, fromArray(toArray(p)) == p (toArray at lines 31-39) |
| `VideoIdParameters.IdDefaultsValid` | src/Parameters/VideoIdParams.php:18-24 | the defaults are valid, and an empty array reads as the defaults (fromArray at lines 78-84) |
| `VideoIdParameters.VideoIdParams.constructor` | src/Parameters/VideoIdParams.php:18-24 | the fields are the arguments, defaulting to medium and json |
| `VideoIdParameters.VideoIdParams.Validate` | src/Parameters/VideoIdParams.php:46-55 | the outcome of validating the current fields |
| `VideoIdParameters.VideoIdParams.ToArray` | src/Parameters/VideoIdParams.php:31-39 | the array of the current fields, or validation's error |
| `VideoIdParameters.VideoIdParams.SetThumbSize` | src/Parameters/VideoIdParams.php:60-64 | returns the same object, with only thumbsize changed |
| `VideoIdParameters.VideoIdParams.SetFormat` | src/Parameters/VideoIdParams.php:69-73 | returns the same object, with only the format changed |
| `VideoIdParameters.VideoIdParams.FromArray` | src/Parameters/VideoIdParams.php:78-84 | a fresh object holding the fields read from the array, or the TypeError |
| `Thumbs.ThumbFromArray` | src/Models/Thumb.php:23-31 | succeeds iff size and src are absent or strings; on success size and src are their string entries (defaults "medium" and ""), width and height the integer casts of theirs, or 0 |
| `Thumbs.ThumbFromValue` | src/Models/Thumb.php:23-31 | a non-array argument is a TypeError; an array is read as above |
| `Thumbs.ThumbFromEmpty` | src/Models/Thumb.php:26-29 | missing keys give size "medium", width 0, height 0 and src "" |
| `Thumbs.ThumbToArray` | src/Models/Thumb.php:36-44 | the keys are size, width, height, src, in that order |
| `Thumbs.ThumbArrayContents` | src/Models/Thumb.php:36-44 | each key holds its field's value |
| `Thumbs.ThumbRoundTrip` | src/Models/Thumb.php:23-44 | fromArray(t.toArray()) == t |
| `Thumbs.GetDimensions` | src/Models/Thumb.php:49-52 | splitting the result at 'x' gives the width and the height in decimal |
| `Thumbs.DimensionsRoundTrip` | src/Models/Thumb.php:49-52 | the two halves read back as the width and height |
| `Thumbs.SizeTests` | src/Models/Thumb.php:57-76 | at most one of isSmall/isMedium/isBig holds, and one holds iff the size is a valid thumbnail size |
| `Videos.MissingFieldError` | src/Models/Video.php:105 | the error is "Missing required field: <field>" |
| `Videos.CheckRequired` | src/Models/Video.php:99-108 | passes iff id, title, url and embed are all set (present and not null); otherwise it names the first missing one |
| `Videos.MissingFirstEarlier` | src/Models/Video.php:101-107 | a field that is set does not change which later field is reported first |
| `Videos.ValidateRequired` | src/Models/Video.php:99-108 | the loop's outcome is that of the check above |
| `Videos.ThumbsFromValues` | src/Models/Video.php:71-76 | one Thumb per element of the list, in order; it fails iff some element fails |
| `Videos.DefaultThumbOf` | src/Models/Video.php:66-68 | a set default_thumb is read as a Thumb; a missing one gives Thumb("medium", 0, 0, "") |
| `Videos.ThumbListOf` | src/Models/Video.php:70-76 | an array-valued thumbs entry is read element by element; an absent or non-array one gives [] |
| `Videos.Assemble` | src/Models/Video.php:78-91 | the required fields are string casts of their entries; keywords and added are string casts with default "", views and length_sec integer casts with default 0, rate a float cast with default 0.0, length_min a string cast with default "0:00"; the thumbnails are the ones read |
| `Videos.VideoFromArray` | src/Models/Video.php:61-92 | a missing required field fails first, then a bad default_thumb, then a bad thumbs element; it succeeds iff none of the three fails, and then the video is Assemble of the array with the thumbnails read |
| `Videos.RequiredOnly` | src/Models/Video.php:61-92 | an array with only the four required fields, as strings, gives the video with every optional field at its default |
| `Videos.FromArray` | src/Models/Video.php:61-92 | the method computes VideoFromArray: the required-field check, then the default thumbnail, then the thumbnail loop |
| `Videos.ReadThumbs` | src/Models/Video.php:73-75 | the foreach computes ThumbsFromValues: one Thumb per element, or the error of the first element that fails |
| `Videos.VideoToArray` | src/Models/Video.php:113-129 | the keys are id, title, keywords, views, rate, url, added, length_sec, length_min, embed, default_thumb and thumbs, in that order |
| `Videos.ThumbList` | src/Models/Video.php:127 | one array per thumbnail, in order |
| `Videos.VideoArrayKeys` | src/Models/Video.php:113-129 | the keys are distinct |
| `Videos.VideoRoundTrip` | src/Models/Video.php:61-129 | fromArray(v.toArray()) == v |
| `Videos.ScalarsWritten` | src/Models/Video.php:116-125 | toArray() stores each of the ten scalar fields under its own key, with its own value |
| `Videos.FirstScalarsWritten` | src/Models/Video.php:116-120 | the same for id, title, keywords, views and rate |
| `Videos.LaterScalarsWritten` | src/Models/Video.php:121-125 | the same for url, added, length_sec, length_min and embed |
| `Videos.ThumbsWritten` | src/Models/Video.php:126-127 | toArray() stores the default thumbnail as its array, and the thumbnails as a list of arrays |
| `Videos.FromFullVideoArray` | src/Models/Video.php:61-92 | an array holding every field as its own type gives back exactly those values |
| `Videos.RequiredPresent` | src/Models/Video.php:99-108 | when the four required fields are strings, the check passes |
| `Videos.ThumbsPresent` | src/Models/Video.php:65-76 | thumbnails present as arrays are read back as given |
| `Videos.AssembleFull` | src/Models/Video.php:78-91 | with every field present as its own type, assembling gives back the video |
| `Videos.HasThumbs` | src/Models/Video.php:163-166 | holds iff the thumbnail list is non-empty |
| `Videos.GetFirstThumb` | src/Models/Video.php:171-174 | the first thumbnail if there is one, else the default thumbnail |
| `Videos.GetKeywordsArray` | src/Models/Video.php:181-191 | [] for PHP-empty keywords ("" or "0"); otherwise piece i is the trim of the i-th comma-separated piece, and there are as many pieces as commas + 1 |
| `Videos.KeywordsRoundTrip` | src/Models/Video.php:181-191 | trimmed comma-free keywords joined by ", " are split back into the same list |
| `VideoCollections.VideoFromValue` | src/Models/VideoCollection.php:49-53 | a non-array element is a TypeError; an array is read as a video |
| `VideoCollections.VideosFromValues` | src/Models/VideoCollection.php:45-53 | one Video per element in order; any failing element fails the whole list |
| `VideoCollections.VideoListOf` | src/Models/VideoCollection.php:47-53 | an array-valued videos entry is read element by element; an absent or non-array one gives [] |
| `VideoCollections.AssemblePage` | src/Models/VideoCollection.php:55-64 | the counters are integer casts of their entries, with defaults count 0, start 0, per_page 30, page 1, time_ms 0, total_count 0, total_pages 0 |
| `VideoCollections.CollectionFromArray` | src/Models/VideoCollection.php:45-65 | succeeds iff the videos list is read; the page is assembled from it |
| `VideoCollections.FromArray` | src/Models/VideoCollection.php:45-65 | the method computes CollectionFromArray |
| `VideoCollections.ReadVideos` | src/Models/VideoCollection.php:50-52 | the foreach computes VideosFromValues: one Video per element, or the error of the first element that fails |
| `VideoCollections.ReadVideo` | src/Models/VideoCollection.php:50-52 | one element read as a video |
| `VideoCollections.CollectionToArray` | src/Models/VideoCollection.php:87-99 | the keys are videos, count, start, per_page, page, time_ms, total_count and total_pages, in that order |
| `VideoCollections.VideoList` | src/Models/VideoCollection.php:90 | one array per video, in order |
| `VideoCollections.CollectionArrayKeys` | src/Models/VideoCollection.php:87-99 | the keys are distinct |
| `VideoCollections.CollectionRoundTrip` | src/Models/VideoCollection.php:45-99 | fromArray(c.toArray()) == c |
| `VideoCollections.FromFullPage` | src/Models/VideoCollection.php:45-65 | an array holding every field gives back exactly those values |
| `VideoCollections.FromEmptyArray` | src/Models/VideoCollection.php:45-82 | an empty array gives the same collection as empty() |
| `VideoCollections.Count` | src/Models/VideoCollection.php:136-139 | count() is the number of videos held, whatever the stored count field, and is 0 iff isEmpty (isEmpty at lines 104-107) |
| `VideoCollections.GetNextPage` | src/Models/VideoCollection.php:112-123 | page + 1 iff hasMorePages (page < total_pages), and then at most total_pages; otherwise null |
| `VideoCollections.GetPreviousPage` | src/Models/VideoCollection.php:128-131 | page − 1 iff page > 1, and then at least 1; otherwise null |
| `VideoCollections.PagingInverse` | src/Models/VideoCollection.php:120-131 | moving to the next page and back again returns to the page, and the same holds the other way round |
| `VideoCollections.EmptyIsLast` | src/Models/VideoCollection.php:70-131 | empty() has no videos, no next page and no previous page |
| `RemovedVideos.RemovedFromArray` | src/Models/RemovedVideo.php:24-31 | fails iff id is absent or null; otherwise it stores the id cast to a string |
| `RemovedVideos.RemovedFromValue` | src/Models/RemovedVideo.php:24-31 | a non-array argument is a TypeError; an array is read as above |
| `RemovedVideos.IntegerId` | src/Models/RemovedVideo.php:30 | an integer id is stored as its decimal string |
| `RemovedVideos.FromString` | src/Models/RemovedVideo.php:36-55 | the id is the argument, for every string including "", and __toString returns it |
| `RemovedVideos.RemovedToArray` | src/Models/RemovedVideo.php:44-47 | exactly the key id, holding the id |
| `RemovedVideos.RemovedRoundTrip` | src/Models/RemovedVideo.php:24-55 | fromArray(r.toArray()) == r and fromString((string) r) == r |
| `ResponseParsing.ParseJson` | src/Parser/ResponseParser.php:101-112 | a syntax error gives "Failed to parse JSON response: <msg>"; null gives []; an array is returned as is; any other value breaks the array return type |
| `ResponseParsing.AttributeEntries` | src/Parser/ResponseParser.php:151-154 | one "@"-prefixed key per attribute, in order, holding its value |
| `ResponseParsing.AttributeLookup` | src/Parser/ResponseParser.php:151-154 | the attribute map holds only "@" keys; a repeated attribute name keeps its last value |
| `ResponseParsing.ChildEntries` | src/Parser/ResponseParser.php:149-175 | one entry per child, in order, under the child's name |
| `ResponseParsing.XmlToArray` | src/Parser/ResponseParser.php:145-178 | the nested loops compute the recursive conversion (children merged by name) |
| `ResponseParsing.ChildValue` | src/Parser/ResponseParser.php:150-173 | the loops compute the value a child converts to |
| `ResponseParsing.PlainLeaf` | src/Parser/ResponseParser.php:165-173 | a leaf without attributes becomes its text |
| `ResponseParsing.AttributedLeaf` | src/Parser/ResponseParser.php:165-170 | a leaf with attributes becomes an array: "#" holds the text, and each "@" key holds its attribute |
| `ResponseParsing.ElementWithChildren` | src/Parser/ResponseParser.php:157-164 | an element with children becomes its recursive conversion, with its "@" attributes filling the keys the children leave free |
| `ResponseParsing.LastSiblingWins` | src/Parser/ResponseParser.php:164-172 | a name with no child is absent; for a repeated sibling name the key holds the last sibling's value |
| `ResponseParsing.ParseXml` | src/Parser/ResponseParser.php:119-140 | a document is converted; a syntax error reports the first libxml message, or "Unknown XML parsing error" when there is none |
| `ResponseParsing.ParseBody` | src/Parser/ResponseParser.php:70-94 | a PHP-empty body gives []; "application/json" in the Content-Type means JSON only; else "xml" means XML only; otherwise JSON, and on any JSON failure the XML attempt's result |
| `ResponseParsing.EmptyBodyIgnoresEverything` | src/Parser/ResponseParser.php:72-76 | for a body "" or "0", the result does not depend on the Content-Type or on the decoders |
| `ResponseParsing.DeclaredTypeIsExclusive` | src/Parser/ResponseParser.php:78-86 | a declared JSON type ignores the XML decoder, and a declared XML type ignores the JSON one |
| `ResponseParsing.SniffingPrefersJson` | src/Parser/ResponseParser.php:88-93 | with no declared type, a JSON array wins, and any JSON failure falls back to XML |
| `ResponseParsing.ParseSearch` | src/Parser/ResponseParser.php:21-26 | a decoding error propagates; otherwise the result is the collection read from the decoded array |
| `ResponseParsing.EmptySearch` | src/Parser/ResponseParser.php:21-26 | an empty body gives the collection empty() would give (the empty-body case at lines 72-76) |
| `ResponseParsing.ParseVideo` | src/Parser/ResponseParser.php:31-41 | null iff the decoded array is empty; otherwise it is the video read from the array |
| `ResponseParsing.RemovedFromBody` | src/Parser/ResponseParser.php:48-63 | succeeds iff every decoded element is read as a removed video; then there is one per element, in order |
| `ResponseParsing.ParseRemoved` | src/Parser/ResponseParser.php:48-63 | the loop computes RemovedFromBody |
| `ResponseParsing.Keep` | src/Parser/ResponseParser.php:191-197 | every kept id is a non-empty id of the list, and every non-empty id of the list is kept |
| `ResponseParsing.KeepSingle` | src/Parser/ResponseParser.php:191-197 | one id is kept iff it is not "" or "0" |
| `ResponseParsing.KeepAppend` | src/Parser/ResponseParser.php:191-197 | the ids kept from two lists one after the other are those kept from the first, then those kept from the second, so the order is the lines' order |
| `ResponseParsing.KeepSkipsBlank` | src/Parser/ResponseParser.php:191-197 | a blank line between two runs of lines adds nothing |
| `ResponseParsing.TrimAll` | src/Parser/ResponseParser.php:191-192 | each line trimmed |
| `ResponseParsing.RemovedFromTxt` | src/Parser/ResponseParser.php:185-200 | every id produced is trimmed and not PHP-empty (the whole result is fixed by KeepLines and the lemmas below) |
| `ResponseParsing.ParseRemovedTxt` | src/Parser/ResponseParser.php:185-200 | the method trims the body, splits it on "\n", trims each line, drops "" and "0", and keeps one removed video per remaining line |
| `ResponseParsing.KeepLines` | src/Parser/ResponseParser.php:191-197 | the foreach keeps, in order, one removed video per trimmed line that is not PHP-empty |
| `ResponseParsing.KeepStep` | src/Parser/ResponseParser.php:191-197 | from line i on, line i's contribution comes first, then the rest |
| `ResponseParsing.KeepPush` | src/Parser/ResponseParser.php:191-197 | one step of the foreach keeps what is kept so far, followed by what is still to come, equal to the whole result |
| `ResponseParsing.TxtRoundTrip` | src/Parser/ResponseParser.php:185-200 | trimmed, non-empty ids joined by "\n" are read back one per line, in order |
| `ResponseParsing.TxtDropsBlankLines` | src/Parser/ResponseParser.php:185-200 | the body "123\n\n456\n  789  \n" reads as the removed videos 123, 456 and 789: outer whitespace trimmed, the blank line dropped, the indented line trimmed |
| `VideoIterators.FailedFetch` | src/Iterator/VideoIterator.php:127-131 | a failed request leaves an empty page, no more pages and no current video |
| `VideoIterators.SuccessfulFetch` | src/Iterator/VideoIterator.php:117-125 | a page resets the index; more pages are expected iff page < total_pages, and then the parameters move to the next page |
| `VideoIterators.FetchRequests` | src/Iterator/VideoIterator.php:118 | every fetch makes exactly one request, with the current parameters |
| `VideoIterators.LoadFromBuffer` | src/Iterator/VideoIterator.php:86-93 | with a video at the index, loading takes it and requests nothing |
| `VideoIterators.LoadExhausted` | src/Iterator/VideoIterator.php:96-109 | past the buffer with no more pages, the current video becomes null |
| `VideoIterators.LoadAtMostOneFetch` | src/Iterator/VideoIterator.php:84-110 | loading makes at most one request; after one, the current video is the new page's first, or null |
| `VideoIterators.LoadedIsConsistent` | src/Iterator/VideoIterator.php:84-110 | after loading, valid() holds iff the index is inside the buffer, and the current video is the one at the index |
| `VideoIterators.NextAdvances` | src/Iterator/VideoIterator.php:65-71 | next() counts one step; inside the buffer it moves to the following video |
| `VideoIterators.RewindState` | src/Iterator/VideoIterator.php:38-44 | rewind resets the counters and makes one request; it leaves the current video as it was when the request succeeds, and a failed request clears it (the catch at line 130) |
| `VideoIterators.Drain` | src/Iterator/VideoIterator.php:49-79 | a `foreach` of at most n steps yields at most n videos |
| `VideoIterators.ForeachYieldsNothing` | src/Iterator/VideoIterator.php:38-44 | as written, a fresh iterator is not valid after rewind, so `foreach` yields nothing (valid() at lines 76-79) |
| `VideoIterators.ForeachMissesFirstPage` | src/Iterator/VideoIterator.php:38-44 | a search returning one page with one video: the pages hold that video, and `foreach` yields nothing |
| `VideoIterators.ForeachFixedWalks` | src/Iterator/VideoIterator.php:38-132 | with rewind loading the current video, `foreach` yields the videos of the successive pages, in order, up to n |
| `VideoIterators.DrainValid` | src/Iterator/VideoIterator.php:65-110 | from a valid state, `foreach` yields the rest of the buffer and then the following pages |
| `VideoIterators.RefetchDrain` | src/Iterator/VideoIterator.php:96-107 | past the end of a buffer with more pages expected, `foreach` continues with the following pages |
| `VideoIterators.VideoIterator.constructor` | src/Iterator/VideoIterator.php:21-33 | keeps the caller's parameter object; nothing fetched yet, more pages expected, no current video |
| `VideoIterators.VideoIterator.Rewind` | src/Iterator/VideoIterator.php:38-44 | the new state is rewind's, as written |
| `VideoIterators.VideoIterator.RewindFixed` | src/Iterator/VideoIterator.php:38-44 | the new state is rewind followed by loading the current video (the loading at lines 84-110) |
| `VideoIterators.VideoIterator.Current` | src/Iterator/VideoIterator.php:49-52 | the current video |
| `VideoIterators.VideoIterator.Key` | src/Iterator/VideoIterator.php:57-60 | the number of steps taken |
| `VideoIterators.VideoIterator.Next` | src/Iterator/VideoIterator.php:65-71 | the new state is next()'s |
| `VideoIterators.VideoIterator.Valid` | src/Iterator/VideoIterator.php:76-79 | true iff there is a current video |
| `VideoIterators.VideoIterator.LoadCurrentVideo` | src/Iterator/VideoIterator.php:84-110 | the new state is loadCurrentVideo()'s |
| `VideoIterators.VideoIterator.FetchNextPage` | src/Iterator/VideoIterator.php:115-132 | the new state is fetchNextPage()'s; a failure is swallowed |
| `VideoIterators.VideoIterator.Count` | src/Iterator/VideoIterator.php:137-140 | the number of steps taken, the same counter key() returns |
| `VideoIterators.VideoIterator.HasMore` | src/Iterator/VideoIterator.php:145-148 | whether another page is expected |
| `VideoIterators.VideoIterator.GetCurrentPage` | src/Iterator/VideoIterator.php:153-156 | the page of the parameters the next request will use |
| `Durations.TruncMod` | src/Helpers/helpers.php:70-71 | PHP's `%`: the remainder takes the dividend's sign |
| `Durations.FloorDiv` | src/Helpers/helpers.php:69 | `floor($a / $b)`: the largest q with q·b ≤ a |
| `Durations.Decomposition` | src/Helpers/helpers.php:67-78 | for s ≥ 0, hours·3600 + minutes·60 + seconds = s, with minutes and seconds below 60 |
| `Durations.ShortShape` | src/Helpers/helpers.php:77 | below an hour the result is "m:ss" |
| `Durations.LongShape` | src/Helpers/helpers.php:73-75 | from an hour on the result is "h:mm:ss" |
| `Durations.Zero` | src/Helpers/helpers.php:67-78 | 0 seconds format as "0:00" |
| `Durations.RoundTrip` | src/Helpers/helpers.php:67-78 | a formatted non-negative duration, read back in base 60, is the same number of seconds |
| `Durations.LongRoundTrip` | src/Helpers/helpers.php:73-75 | "h:mm:ss" reads back as h·3600 + mm·60 + ss |
| `Durations.ShortRoundTrip` | src/Helpers/helpers.php:77 | "m:ss" reads back as m·60 + ss |

## Left out

- src/Http/HttpClient.php is not part of this model. It is network I/O
  through Guzzle: building the URI with `http_build_query`, the headers
  and the API key.
- src/Exceptions/APIException.php is not part of this model. It wraps
  Guzzle's exceptions and responses. Its place is taken by the single
  error message of `Failures.Failure.Eporner`.
- src/Client/EpornerClient.php is not part of this model. It composes
  the transport and the parser. The iterator's `search()` is an oracle.
  That oracle is a deterministic function of the parameters, so it cannot
  return different pages for the same parameters at different times. The
  client's guards (an empty video id, a format outside json/xml/txt) are
  not modelled.
- `json_decode` and `simplexml_load_string` are parameters. So is the
  libxml error capture (`libxml_use_internal_errors`, `libxml_get_errors`,
  `libxml_clear_errors`): the model receives the list of diagnostics.
  The global libxml state is not modelled.
- `Values.ToInt`, `Values.ToStr`, `Values.ToFloat`: PHP's loose casts are
  simplified. An integer cast reads a sign and a leading digit run.
  Floats are `real`, with no rounding. A string cast prints integers and
  integral floats in decimal, but casts every non-integral float to "",
  where PHP prints its digits (for example "1.5").
- `Video.rate` is a `real`: floating-point rounding is not modelled.
- `eporner_format_views` and `eporner_format_rating` are not modelled.
  They are floating-point formatting.
- `Durations.RoundTrip` covers non-negative durations only. The
  formatter itself follows PHP for negative ones: `floor` on the hours,
  a remainder with the dividend's sign. PHP's `$seconds / 3600` is float
  division, so for integers beyond 2^53 the hours may round. The model
  divides exactly.
- `getEmbedHtml`, `getDuration` and `getUrlId` (src/Models/Video.php:134-158)
  are not modelled. They are HTML formatting and plain field reads.
- `VideoCollection::getIterator` is not modelled. It hands the list to
  PHP's `ArrayIterator`.
- The `eporner`, `eporner_search` and `eporner_video` helpers are not
  modelled. They construct network clients.
- `array_merge` is modelled for string keys only. The XML conversion
  never produces integer keys, but an element named like a number would
  produce one, and PHP would renumber it. That renumbering is not
  modelled.
- Integers are unbounded. PHP's 64-bit overflow is not modelled: `page +
  1` at PHP_INT_MAX, and the iterator's counters.
- `ResponseParsing.XmlToArray`: the source's one recursive function is
  two methods here. `XmlToArray` holds the loop over the children, and
  `ChildValue` holds the value of one child with its attribute loop.
  Both have the source's loops and recursion.
- `VideoIterators.ForeachFixedWalks` bounds the walk of the reference
  list by a number of pages at least n + 2. A search whose pages never
  end has no finite list to compare with.
- `VideoIterators.Drain` runs at most n steps. A `foreach` over a search
  whose pages never end does not terminate, and the bound stands in for
  that case.
- `ValidationErrors.InvalidOrder` states its message through the joined
  constant list of orders. This is how the source builds it.

## Findings

| source | as written | input that shows it | evidently intended | confidence | as-written member | corrected member |
|---|---|---|---|---|---|---|
| src/Iterator/VideoIterator.php:38-44 | `rewind()` fetches the first page but never assigns `currentVideo`, which is still null on a fresh iterator. `valid()` is therefore false at once, and a `foreach` over the iterator yields no video for any search. | a search returning a single page holding one video: the pages hold that video, and `foreach` yields none | `rewind()` also loads the current video, as `next()` does, so that `foreach` yields the videos of every page in order | not executed | `VideoIterators.ForeachMissesFirstPage` | `VideoIterators.ForeachFixedWalks` |

The corrected rewind is `VideoIterators.VideoIterator.RewindFixed`, which
is rewind followed by loading the current video. `VideoIterators.ForeachYieldsNothing`
states the general case: whatever the search returns, a fresh iterator
is not valid after the written rewind.
