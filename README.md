# Content-ingestion pipeline of the game-development resource table

This project models the four offline scripts that build `data.json`, the
dataset of game-development resources collected from the weekly digests of
suvitruf.ru ("Недельный геймдев"), and proves properties of that model.

- `raw/parse_digests.py` reads a digest page into new records. It parses the
  header into the digest number and a `yyyy-mm-dd` date. It cuts the article
  into `<h3>` segments and takes one resource per segment: a link, a title
  and a truncated description. It visits each resource for its language and
  author. It appends the records and marks the digest as processed.
- `raw/fetch_dates.py` finds a publication date for every resource link. It
  tries meta tags, JSON-LD, `time` elements and then the URL, normalises
  the date to `dd.mm.yyyy` (default `01.01.1970`) and stamps every record.
- `raw/classify.py` gives every record a `Type`, decided by its domain, and
  an ordered list of `Tags`, decided by domain and keyword rules.
- `raw/fetch_images.py` picks one upload image per resource of each digest
  page by greedy claiming. It names the files without WordPress size
  suffixes and de-duplicates them, records the local paths per digest, and
  gives every record its `Image`.

Modules:

- `Text` (`text.dfy`): Python's string operations over `seq<char>`: `strip`,
  `lower`, `in`, `startswith`/`endswith`, `str(n)`, `int(digits)`, `:02d`,
  `re.sub(r'\s+', ' ', …)`.
- `Records` (`records.dfy`): the record dictionary shared by the scripts; a
  key not yet written is `None`.
- `Article` (`article.dfy`): the `<article>` element of a digest page as a
  preamble of images and a sequence of `<h3>` segments, each with its heading
  link, title, block links, block text and upload images. Also the
  first-usable-block-link loop the two digest readers share.
- `FetchDates` (`dates.dfy`), `Classify` (`classify.dfy`), `FetchImages`
  (`images.dfy`), `ParseDigests` (`digests.dfy`): one script each.

The date regexes run over short date strings and URLs, not over HTML. They
are modelled exactly, as greedy digit groups between literal separators.
`re.match` anchors at position 0. `re.search` is the leftmost position that
matches, proved in `FetchDates.SearchIsFirstMatch`.

The network, the thread pools, the JSON files and the Pillow processing are
parameters. The fetched date candidates of a page are `fetch: string ->
Option<PageDates>`. A resource page is `pageOf: string -> Option<ResourcePage>`,
a digest page `pageOf: string -> Option<Article>`, and a successful image
download and save is `downloaded: (string, string) -> bool`. `get_domain` is
`domainOf: string -> string`.

Loops that mutate the records in place (`apply_dates`, the loops of
`classify.py`'s and `fetch_images.py`'s `main`) work on an `array<Record>`.
`process_digest`, which extends `data` and inserts into `progress`, is a
method of the class `ParseDigests.DigestCollector` holding those two
fields. Each loop is proved against a function of its inputs, and the
properties are proved about those functions.

The record types are the five `classify.py` writes (`video`, `social`,
`repository`, `store`, `article`). The block-link filters (no upload URL, no `#` anchor, must
start with `http`) apply only to links taken from the block. A heading's own
link is used as written, after `strip()`. It is only checked for being
non-empty and for not being a self-link.

## Model

| member | source | states |
|---|---|---|
| FetchDates.ParseDateString | raw/fetch_dates.py:58-85 | an empty or all-whitespace string gives `None`; every result is a canonical `dd.mm.yyyy` date with 1990 ≤ year ≤ 2030, 1 ≤ month ≤ 12, 1 ≤ day ≤ 31 (the day is not checked against the month); a date comes only from a stripped text that opens with the ISO, US or European shape, so any other text gives `None` |
| FetchDates.Format | raw/fetch_dates.py:69 | `f"{day:02d}.{month:02d}.{year}"` is canonical and its three fields read back as day, month and year |
| FetchDates.Checked | raw/fetch_dates.py:68-69 | the range guard lets a date through exactly when its fields are in range |
| FetchDates.SearchIsFirstMatch | raw/fetch_dates.py:91 | `re.search` finds the match at the leftmost position where the pattern matches, and finds nothing exactly when no position matches |
| FetchDates.CanonicalMatches | raw/fetch_dates.py:64-83 | a canonical date matches neither the ISO nor the US pattern, and the European pattern captures its day, month and year |
| FetchDates.CanonicalIsFormat | raw/fetch_dates.py:83 | formatting the fields of a canonical date gives the date back |
| FetchDates.CanonicalIsFixedPoint | raw/fetch_dates.py:78-83 | every canonical date parses to itself |
| FetchDates.ParseIdempotent | raw/fetch_dates.py:58-85 | parsing an output of `parse_date_string` returns that output |
| FetchDates.UsDateSwapsFields | raw/fetch_dates.py:71-76 | `mm/dd/yyyy` with fields in range comes out as `dd.mm.yyyy`, month and day swapped |
| FetchDates.IsoPrefixWins | raw/fetch_dates.py:64-69 | a `yyyy-mm-dd` prefix with fields in range is the result whatever follows it, when that does not end in whitespace: the ISO branch comes first |
| FetchDates.IsoFieldsParsed | raw/fetch_dates.py:58-69 | a stripped `yyyy-m-d…` with one- or two-digit month and day (a one-digit day not followed by another digit) gives that day, month and year as `dd.mm.yyyy` when all three are in range and `None` when one is not |
| FetchDates.UsFieldsParsed | raw/fetch_dates.py:58-76 | a stripped `m/d/yyyy…` with one- or two-digit month and day gives `dd.mm.yyyy` with month and day swapped when in range, `None` otherwise |
| FetchDates.EuFieldsParsed | raw/fetch_dates.py:58-85 | a stripped `d.m.yyyy…` with one- or two-digit day and month gives `dd.mm.yyyy` when in range, `None` otherwise |
| FetchDates.UsShortExample | raw/fetch_dates.py:58-76 | `" 3/5/2023\n"` gives `05.03.2023`: whitespace stripped, fields padded, month and day swapped |
| FetchDates.IsoShortExample | raw/fetch_dates.py:58-69 | `2023-3-5T10:00` gives `05.03.2023` |
| FetchDates.EuShortExample | raw/fetch_dates.py:58-85 | `5.3.2023` gives `05.03.2023` |
| FetchDates.MonthOutOfRangeExample | raw/fetch_dates.py:64-69 | `2023-13-01` gives `None`: a month of 13 fails the guard |
| FetchDates.NoDigitNoDate | raw/fetch_dates.py:58-85 | a stripped text that does not open with a digit gives `None` |
| FetchDates.WordExample | raw/fetch_dates.py:58-85 | `hello` gives `None` |
| FetchDates.ExtractDateFromUrl | raw/fetch_dates.py:88-104 | the result is canonical; a guarded `/yyyy/m/d/` date wins; without one, the result is the guarded `/yyyy-mm-dd/` date; the result is `None` exactly when neither URL pattern gives a guarded date |
| FetchDates.UrlSlashedDate | raw/fetch_dates.py:91-95 | `/yyyy/m/d/…` with fields in range gives that date |
| FetchDates.UrlDateIsFixedPoint | raw/fetch_dates.py:88-104 | a date found in a URL parses to itself |
| FetchDates.FirstAccepted | raw/fetch_dates.py:140-152 | a loop over candidates returns the parse of the first candidate that parses, and `None` exactly when none does |
| FetchDates.FirstParsed | raw/fetch_dates.py:149-152 | the first candidate `parse_date_string` accepts, canonical; `None` exactly when no candidate parses |
| FetchDates.FirstAcceptedAppend | raw/fetch_dates.py:110-152 | trying two candidate lists one after the other is trying their concatenation |
| FetchDates.FirstParsedAppend | raw/fetch_dates.py:110-152 | the same, for `parse_date_string` |
| FetchDates.ExtractDateFromHtml | raw/fetch_dates.py:107-159 | every date the page strategies return is canonical |
| FetchDates.HtmlChainIsFirstCandidate | raw/fetch_dates.py:107-159 | the strategy chain returns the first parsable candidate in the order Open Graph, named meta tags, JSON-LD, `time` elements, and only then the URL's date |
| FetchDates.DefaultIsNotCanonical | raw/fetch_dates.py:21 | the default `01.01.1970` is outside the range guard, so no found date can equal it |
| FetchDates.ProcessSingleUrl | raw/fetch_dates.py:162-176 | the URL comes back with a date that is canonical or the default; a date found in the page wins; without one, the URL's date is taken; the default comes exactly when neither the page nor the URL yields a date |
| FetchDates.ApplyDates | raw/fetch_dates.py:179-190 | every record's `Date` becomes the recorded date of its link or the default, nothing else changes; `found` counts the non-default dates and `found + not_found == len(data)` |
| FetchDates.StampedDates | raw/fetch_dates.py:183-186 | with a progress holding only what `process_single_url` produces, every stamped date is canonical or the default, and the default for every link missing from the progress |
| FetchDates.PendingMembers | raw/fetch_dates.py:201-207 | the URLs to process have no repeats, and a URL is among them exactly when it is a record's link and not in the progress |
| FetchDates.PendingOrder | raw/fetch_dates.py:201-207 | the URLs to process keep the order of their first occurrence among the records |
| FetchDates.PendingUrls | raw/fetch_dates.py:200-207 | the `seen`-set loop computes exactly that list, with no repeats and no URL already done |
| FetchDates.RecordDates | raw/fetch_dates.py:225-232 | after the loop over the futures every processed URL has its computed date and every other key keeps its value |
| FetchDates.FetchAllDates | raw/fetch_dates.py:196-250 | `main` records a date for every pending URL and stamps every record from the new progress; `found` counts the records whose date is not the default, and the counters sum to the number of records |
| FetchDates.EveryLinkProcessed | raw/fetch_dates.py:196-250 | after `main` every record's link has a recorded date, canonical or the default |
| Classify.ClassifyType | raw/classify.py:36-63 | the type is one of video, social, repository, store, article |
| Classify.ExactDomainTypes | raw/classify.py:38-47 | a domain named by a category's set gets that category's type |
| Classify.SubdomainTypes | raw/classify.py:49-63 | a domain named nowhere gets the first category, in the order video, social, repository, store, of which it is a subdomain, else "article" |
| Classify.VideoSubdomain | raw/classify.py:50-52 | `x.<video domain>` is a video unless it is itself named exactly somewhere |
| Classify.ApplyRule | raw/classify.py:84-168 | one rule appends its tag exactly when it fires |
| Classify.ClassifyTags | raw/classify.py:80-170 | the rules applied in order build the rule-ordered selection of the tags that fire |
| Classify.TagOrderDistinct | raw/classify.py:80-170 | the 19 tag names are pairwise distinct |
| Classify.SelectedMembers | raw/classify.py:80-170 | a rule-ordered selection holds only rule names, each exactly when its rule fired |
| Classify.SelectedOrdered | raw/classify.py:80-170 | a rule-ordered selection keeps the rule order |
| Classify.TagsForProperties | raw/classify.py:80-170 | the tags are drawn from the 19 names, have no repeats, keep the rule order, and hold each name exactly when its rule fires |
| Classify.RepositoriesAreOpenSource | raw/classify.py:123-124 | github.com, gitlab.com and their subdomains are always tagged "opensource" |
| Classify.ItchIsFree | raw/classify.py:129-130 | itch.io and its subdomains are always tagged "free", whatever the text |
| Classify.UnrealTag | raw/classify.py:84-88 | "unreal engine" is a tag exactly when the domain ends with `unrealengine.com`, the lower-cased text contains "unreal", or a whole word UE4 or UE5 appears |
| Classify.ClassifyRecord | raw/classify.py:180-184 | one record gets the type of its domain and the tags of its domain and title-plus-description text |
| Classify.ClassifyAll | raw/classify.py:179-184 | the loop gives every record its type and tags and changes nothing else |
| Classify.EveryRecordClassified | raw/classify.py:186-188 | after the loop every record has a `Type` among the five and a `Tags` list, and keeps its link, title and description |
| FetchImages.SplitExt | raw/fetch_images.py:110 | `os.path.splitext` splits a path into two parts that concatenate back to it, the extension empty or starting with `.` |
| FetchImages.CleanFilename | raw/fetch_images.py:102-113 | the file name always ends in `.jpg` |
| FetchImages.CleanFilenameIgnoresQuery | raw/fetch_images.py:105 | everything from the first `?` on does not change the file name |
| FetchImages.CleanFilenameFallback | raw/fetch_images.py:111-112 | the name is `image.jpg` when the path ends in `/` or is empty, and the root is empty exactly then |
| FetchImages.WpSizeStripSuffix | raw/fetch_images.py:47 | `-<digits>x<digits>` directly before a last extension of word characters is removed |
| FetchImages.WpSuffixRemoved | raw/fetch_images.py:102-113 | an image `dir/stem-WxH.ext` is saved as `stem.jpg` |
| FetchImages.Put | raw/fetch_images.py:240 | dict assignment: a new key goes last, an existing key keeps its place and takes the new value, other pairs stay, keys stay distinct |
| FetchImages.ImageLink | raw/fetch_images.py:183-207 | a heading with a link gives that link stripped, or nothing when it strips to empty; a heading without one gives the first usable block link; the result is never empty |
| FetchImages.FirstUnclaimedFrom | raw/fetch_images.py:224-228 | the first image of a zone not yet claimed; none exactly when all are claimed |
| FetchImages.FirstUnclaimedIn | raw/fetch_images.py:224-228 | the zone loop with `break` finds exactly that image |
| FetchImages.FoundInZones | raw/fetch_images.py:222-236 | a found image is unclaimed and lies in the heading's after zone or before zone |
| FetchImages.StepWellClaimed | raw/fetch_images.py:182-240 | one pass of the heading loop keeps the claiming invariant: values claimed and distinct, keys distinct, no self-link keys, every pair from an earlier heading's zones |
| FetchImages.ClaimsWellFormed | raw/fetch_images.py:179-240 | the claiming invariant holds after every number of headings |
| FetchImages.ImageMapProperties | raw/fetch_images.py:152-242 | no image serves two resources; keys are distinct heading resource links, never self-links; each image is from its heading's after or before zone; no article or no heading gives the empty map |
| FetchImages.ImageChoice | raw/fetch_images.py:222-240 | a heading takes the first unclaimed image after it, and only when there is none the first unclaimed image before it; without a link, with a self-link, or with no free image, nothing changes |
| FetchImages.ExtractImageMap | raw/fetch_images.py:152-242 | the heading loop over `claimed_images` and `image_map` computes that map |
| FetchImages.CandidateInjective | raw/fetch_images.py:274 | different counters give different `base_k.ext` names |
| FetchImages.CandidateIsNew | raw/fetch_images.py:274 | a numbered name never equals the file name itself |
| FetchImages.FreeNameIsFirstFree | raw/fetch_images.py:270-276 | the chosen name is unused; it is the file name when that is free, else the first free `base_k.ext` from k = 2 |
| FetchImages.FreeNameIsFree | raw/fetch_images.py:273-276 | the chosen name is not among the used ones |
| FetchImages.UniqueName | raw/fetch_images.py:270-275 | the `while final_name in used_filenames` loop terminates with that name |
| FetchImages.NamesDistinct | raw/fetch_images.py:266-276 | the names given within a digest are pairwise distinct |
| FetchImages.NamesFirstFree | raw/fetch_images.py:266-276 | each name is its clean name when no earlier image took it, else the first free numbered variant |
| FetchImages.LocalPathInjective | raw/fetch_images.py:278 | different names give different paths under a digest's folder |
| FetchImages.PrepareTasks | raw/fetch_images.py:265-280 | the task loop builds the tasks of the image map in dict order, with de-duplicated names |
| FetchImages.TasksProperties | raw/fetch_images.py:265-280 | a digest's tasks have distinct links and distinct paths, all under `assets/images/<digest>/` |
| FetchImages.ResultsOfProperties | raw/fetch_images.py:289-296 | a link is in the results exactly when its image was saved, bound to its task's path |
| FetchImages.ResultsDistinctFiles | raw/fetch_images.py:289-296 | no two links of the results share a file |
| FetchImages.DigestImagesProperties | raw/fetch_images.py:245-299 | a digest's results map each saved resource to its own file under `assets/images/<digest>/`, and hold no other link |
| FetchImages.DownloadAll | raw/fetch_images.py:283-296 | the download loop computes those results |
| FetchImages.ProcessDigestImages | raw/fetch_images.py:245-299 | `process_digest_images`: an unfetched page or an empty image map gives `{}`, else the download results |
| FetchImages.PendingDigests | raw/fetch_images.py:313-316 | the digests to process are exactly the entries whose key is not in the progress |
| FetchImages.InsertByNumber | raw/fetch_images.py:324 | inserting into a list sorted by number keeps it sorted and adds exactly that entry |
| FetchImages.SortByNumber | raw/fetch_images.py:324 | the sort by digest number is sorted and a permutation of its input |
| FetchImages.SelectDigests | raw/fetch_images.py:313-324 | the selection loop and the sort compute the sorted pending digests |
| FetchImages.FetchDigestImages | raw/fetch_images.py:326-335 | each digest of the list stores its results under its key, in order |
| FetchImages.RecordedDigests | raw/fetch_images.py:331-334 | after the loop each digest of the list has its own results |
| FetchImages.RecordedKeys | raw/fetch_images.py:331-334 | the loop adds only the listed keys and leaves every other key's results alone |
| FetchImages.RecordingKeepsLocalPaths | raw/fetch_images.py:326-335 | every stored path stays inside its own digest's image folder |
| FetchImages.SortedPending | raw/fetch_images.py:313-324 | the sorted list holds exactly the entries not yet in the progress |
| FetchImages.NothingPending | raw/fetch_images.py:313-321 | once every entry's key is in the progress, there is nothing to process |
| FetchImages.ImagesRunProperties | raw/fetch_images.py:302-339 | a run stores results for every digest not done, keeps the results of those done, and leaves nothing for the next run |
| FetchImages.ImageFor | raw/fetch_images.py:349-357 | a record's image is the path its digest's results give its link, or `""` |
| FetchImages.CountWithImages | raw/fetch_images.py:346-358 | the number of records with an image is at most the number of records, equal exactly when all have one, zero exactly when none has |
| FetchImages.ImagesAreLocal | raw/fetch_images.py:352-354 | every image is `""` or a file in the record's own digest folder |
| FetchImages.ApplyImages | raw/fetch_images.py:346-358 | every record's `Image` is set as above and nothing else changes; `updated` counts the records with an image and `updated + no_image == len(data)` |
| FetchImages.FetchImages | raw/fetch_images.py:302-361 | `main` saves the progress of one run and writes every record's image from it |
| Article.FirstUsable | raw/fetch_images.py:194-204 | the first block link that is no upload URL, no `#` anchor and starts with `http`; none exactly when no link is usable |
| Article.FirstBlockLink | raw/parse_digests.py:147-159 | the loop over the block links with `continue` and `break` finds exactly that link |
| Article.AnchorTestIsRedundant | raw/parse_digests.py:152-157 | the `#` test never decides: a link starting with `http` does not start with `#` |
| ParseDigests.MonthNumber | raw/parse_digests.py:99-101 | the month is 1 to 12, and 1 for a name not in the table |
| ParseDigests.MonthNumberIgnoresCase | raw/parse_digests.py:99-101 | the lookup gives the same month for a name and its lower case |
| ParseDigests.MonthTableLookup | raw/parse_digests.py:26-30 | each table name gives its own number |
| ParseDigests.ParseDigestHeader | raw/parse_digests.py:96-104 | no header match gives nothing; a match gives its digest number and the date `yyyy-mm-dd` built from its year, month and day (whose shape `ParseDigests.HeaderDateShape` states) |
| ParseDigests.HeaderDateShape | raw/parse_digests.py:102 | the date is `yyyy-mm-dd` with zero-padded month and day, whose fields read back as year, month (1 to 12) and day |
| ParseDigests.Truncate | raw/parse_digests.py:172-173 | at most 200 characters; a longer text keeps its first 197 and ends in `...` |
| ParseDigests.TruncateKeepsCollapsed | raw/parse_digests.py:170-173 | truncating a whitespace-collapsed text leaves it collapsed |
| ParseDigests.Description | raw/parse_digests.py:170-173 | the description is the collapsed block text when that has at most 200 characters, and otherwise its first 197 characters followed by `...`; it has no whitespace but single inner spaces |
| ParseDigests.DigestLink | raw/parse_digests.py:125-159 | a heading link that is non-empty after `strip()` is the chosen link, stripped; otherwise the chosen link is the first usable block link, and none when no block link is usable |
| ParseDigests.ResourceOf | raw/parse_digests.py:121-179 | an empty title or no link gives none; otherwise the segment is skipped exactly when its link is a self-link, and kept as the resource of its link, title and description |
| ParseDigests.ResourcesProperties | raw/parse_digests.py:107-181 | at most one resource per heading, each with a title, a link that is no self-link and a short, collapsed description |
| ParseDigests.ExtractResourcesFromDigest | raw/parse_digests.py:107-181 | the loop over the headings computes the resources in heading order; no article gives none |
| ParseDigests.MetaAuthor | raw/parse_digests.py:210-217 | no meta author gives an empty one; a meta author is stripped, and cleared when it then starts with `http` |
| ParseDigests.DetectLanguageAndAuthor | raw/parse_digests.py:184-231 | without a page the author is empty; without a page or a `lang` the language is "ru" exactly for a `.ru`/`.by`/`.ua`/`.kz` host and "en" otherwise; a `lang` is lower-cased; with a page the author is the meta author if that is non-empty, else the stripped JSON-LD name if non-empty, else the stripped `rel="author"` text |
| ParseDigests.UrlAuthorIsDropped | raw/parse_digests.py:210-229 | a URL-like meta author gives way to the JSON-LD author, then the `rel="author"` one |
| ParseDigests.DigestRecordsFields | raw/parse_digests.py:290-301 | each new record carries its resource's link, title and description and the digest's number and date |
| ParseDigests.DigestCollector.BuildRecords | raw/parse_digests.py:290-301 | the loop builds one record per resource, in order |
| ParseDigests.DigestCollector.ProcessDigest | raw/parse_digests.py:243-312 | an unfetched page or an unreadable header fails and changes nothing; a number already processed changes nothing; otherwise `data` grows by the digest's records in heading order and `progress[str(number)]` becomes the digest URL |
| Text.Strip | raw/fetch_dates.py:60-62 | `strip()` removes exactly the whitespace at both ends: the result is a slice of the input with only whitespace before and after it and none at its own ends, is empty exactly for all-whitespace input, and is the input when that has none |
| Text.StripKeepsNonSpace | raw/parse_digests.py:171 | stripping drops no character that is not whitespace |
| Text.CollapseSpaces | raw/parse_digests.py:171 | `re.sub(r'\s+', ' ', s).strip()` leaves single inner spaces only, keeps every non-whitespace character in order, and leaves an already collapsed text unchanged |
| Text.CollapseRunsKeepsNonSpace | raw/parse_digests.py:171 | replacing each whitespace run by one space keeps the non-whitespace characters in order |
| Text.BeforeFirst | raw/fetch_images.py:105 | `split("?")[0]` is the longest prefix without `?` |

## Left out

- Network: `fetch_url` and `fetch_html` are parameters returning an optional page. A failed fetch and a page with nothing found are both `None`, because the scripts treat them alike.
- Concurrency: the thread pools and `as_completed`. Results are collected one after another. In `fetch_dates.py` the URLs are distinct, so the order does not change the progress. In `fetch_images.py` the results are keyed by distinct links. In `parse_digests.py` each resource is processed independently. The per-future exception fallbacks are not modelled.
- Files and reporting: `load_json`, `save_json`, the intermediate saves, `print`, `time.sleep`, and the `Counter` statistics of `classify.py`'s `main`.
- `download_and_process_image` and `resize_and_crop` (raw/fetch_images.py:91-149) are the parameter `downloaded`, because they use Pillow and floating-point scaling.
- `get_domain` (raw/classify.py:11-17) is the parameter `domainOf`, because `urlparse` is a foreign call.
- Regex matching over HTML is not modelled: the article, h3, link, image, meta, JSON-LD, `time` and `lang` patterns. Pages are given as what those patterns capture. The digest page carries the header match and its article segments.
- `html.unescape` and tag stripping of titles: a segment's title arrives stripped and unescaped.
- ParseDigests.MetaAuthor: `html.unescape` of the meta author (raw/parse_digests.py:213) is not applied. The author is the stripped capture, and the `http` test is made on that rather than on its unescaped form.
- ParseDigests.DetectLanguageAndAuthor: `html.unescape` of the three author sources (raw/parse_digests.py:213, 223, 229) is not applied, because unescaping is not modelled anywhere; each author is the stripped capture.
- ParseDigests.RuHost: the `$` of `(/|$)` (raw/parse_digests.py:192, 200) is taken as the end of the URL. Python's `$` also matches just before a final newline, which is not modelled.
- The heading-link regex of `parse_digests.py` also requires a closing `</a>` inside the heading; both scripts here read the same `h3Link`.
- `get_digest_urls_from_listing` and the listing-page loop of `parse_digests.py`'s `main` (raw/parse_digests.py:68-80, 315-361): they only fetch pages and call `process_digest` for each digest link found.
- Unicode: `\d` is ASCII digits. `\w` and `str.lower()` cover ASCII and basic Cyrillic. `\s` and `strip()` use Python's `isspace` set.
- The `$` of the size-suffix lookahead is taken as the end of the file name. Python's `$` also matches just before a final newline, which is not modelled.
- `isinstance(digest_images, dict)` in `fetch_images.py`'s `main`: the progress is typed, so every entry is a dict.
- Digest keys are numbers written with `str(int)`, matching how `parse_digests.py` writes them.
- FetchDates.ExtractDateFromHtml: its own contract states only that the result is canonical; the order of the strategies is stated by FetchDates.HtmlChainIsFirstCandidate.
