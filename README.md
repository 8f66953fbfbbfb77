# Museo Reina Sofía exhibitions feed — a Dafny model

`museo_feed_generator.py` scrapes the temporary-exhibitions page of the
Museo Nacional Centro de Arte Reina Sofía and publishes it as an RSS 2.0
feed. Its class `MuseoReinaSofiaFeedGenerator` does four things:

- It locates the "cards" of the page.
- It turns each of the first twelve into an exhibition record (title,
  description, link, date hint, an id derived from the content).
- It keeps the records that pass a validation test, and falls back to one
  synthetic record when the page cannot be obtained.
- It adds one feed item per record, with an HTML body composed from the
  record.

This project models that pipeline in Dafny and proves what it promises.

Modules, one per component of the script:

- `Seqs`: `Option`, Python's slice `s[:n]` (`Take`), the order-keeping
  filter (`Filter`, with the positions of the kept elements) and the
  first match (`First`).
- `Text`: ASCII lower-casing, Python's substring test `sub in s`
  (`Contains`) and string concatenation of a list of pieces (`Join`).
- `Dom`: an abstract element tree standing in for the parsed document.
  Each node has a tag, class values, an optional href, `get_text()`,
  `get_text(strip=True)` and its children. `Find` is BeautifulSoup's
  `find`: the first descendant in document order with a wanted tag.
- `Locator`: the card search of `fetch_exposiciones`.
- `Extractor`: `_parse_exposicion`, `_is_valid_exposicion` and
  `_get_fallback_data`.
- `Fetcher`: the loop of `fetch_exposiciones`. A method builds the list
  by appending, proved equal to a specification function
  (`Exposiciones`), and lemmas state the loop's promises about that
  function.
- `FeedAssembler`: the feed object as a class with an item list, its
  `add_item` method, and the loop of `generate_rss_feed` that composes each
  body and adds the item.

Three parts of the environment are parameters:

- The MD5 hex digest is a parameter `md5: string -> string`, so the id is
  provably a function of `title + description` alone.
- The clock reading is a parameter `now`.
- The outcome of the HTTP request and HTML parse is a `Response`:
  either the document's root or `FetchFailed`.

## Behaviour worth knowing

- The class-keyword search (line 32) looks at `div` elements only, not at
  every element.
- Root-relative hrefs are prefixed with the constant
  `https://www.museoreinasofia.es` (line 72), not with `base_url`.
- The fallback record is returned only when the fetch fails (lines 46-48).
  A page where no card yields a valid record gives the empty list
  (lines 43-44), and the feed then has no items.
- Hrefs not starting with `/` (e.g. `expo/x`) are kept verbatim, so a link
  need not be absolute.
- A protocol-relative href such as `//host/x` also starts with `/` (line 71),
  so it becomes `https://www.museoreinasofia.es//host/x`; `ResolveLink` and
  `RootRelativeLinkIsOnSite` state exactly this.
- The title can be the placeholder "Exposición Temporal" in two ways:
  - the container has no heading, anchor or strong element;
  - the title element's own stripped text is literally that sentence.

  Both records are rejected (`Extractor.PlaceholderTitleIffNoTitleText`).
- Validation looks at the title as extracted. It does no further
  trimming.

## Model

| member | source | states |
|---|---|---|
| `Seqs.Take` | museo_feed_generator.py:36 | Python's `s[:n]`: the prefix of length min(len(s), n) |
| `Seqs.Filter` | museo_feed_generator.py:32 | the kept elements all come from the input and satisfy the test, and every input element that satisfies it is kept |
| `Seqs.FilterKeepsOrder` | museo_feed_generator.py:38-41 | the kept elements sit at strictly increasing input positions; every position whose element passes the test is among them |
| `Seqs.First` | museo_feed_generator.py:54-56 | none exactly when no element passes the test; otherwise the earliest passing element |
| `Text.Lower` | museo_feed_generator.py:80 | `.lower()` on ASCII: same length, each capital becomes its small letter (code point + 32), every other character unchanged |
| `Text.ContainsAt` | museo_feed_generator.py:80 | `sub in s` holds exactly when `sub` occurs at some position of `s` |
| `Text.Contains` | museo_feed_generator.py:80 | Python's `sub in s`, defined by recursion over the start position; `Text.ContainsAt` states what it means |
| `Text.LowerIgnoresCase` | museo_feed_generator.py:32 | strings that agree up to ASCII case lower-case to the same string |
| `Text.JoinContainsEveryPiece` | museo_feed_generator.py:133-140 | every piece of a composed string occurs in it |
| `Dom.Descendants` | museo_feed_generator.py:54 | the elements `find` searches, in document order: each element before its own descendants, which come before its following siblings; `Dom.ChildSubtreeIsSearched` states that every depth is reached |
| `Dom.ChildSubtreeIsSearched` | museo_feed_generator.py:54 | `find` searches every depth: a child and all of its descendants are descendants of the parent |
| `Dom.Find` | museo_feed_generator.py:54-64 | `find(tags)` is empty exactly when no descendant has one of the tags; otherwise it is the first such descendant in document order |
| `Dom.FindAnchorWithHref` | museo_feed_generator.py:68 | `find('a', href=True)` is empty exactly when no descendant anchor has an href; otherwise it is the first such anchor in document order |
| `Locator.LocateCandidates` | museo_feed_generator.py:32-36 | the candidates are descendants of the document. When some div has a card keyword in a lower-cased class value, they are all such divs in document order. Otherwise they are the first at most 20 article/div/section elements |
| `Locator.HasCardClass` | museo_feed_generator.py:32 | the class filter of line 32: some class value, lower-cased, contains one of card, item, expo, grid, col; `Locator.CardMatchIgnoresCase` states that case does not matter |
| `Locator.IsCardDiv` | museo_feed_generator.py:32 | the element is a div and passes the class filter |
| `Locator.CardMatchIgnoresCase` | museo_feed_generator.py:32 | two elements with the same tag whose class values agree up to ASCII case are both cards or both not |
| `Extractor.TitleElement` | museo_feed_generator.py:54-56 | the first heading (h1-h4) in document order when the container has one, else the first anchor, else the first strong element; none exactly when it has none of these |
| `Extractor.CleanTitle` | museo_feed_generator.py:59-61 | a title of at most 100 characters is unchanged; a longer one becomes its first 100 characters followed by "..." (103 in all) |
| `Extractor.ExtractTitle` | museo_feed_generator.py:54-61 | the placeholder when there is no title element, else the cleaned stripped text of that element; never longer than 103 |
| `Extractor.PlaceholderTitleIffNoTitleText` | museo_feed_generator.py:54-61 | the title is the placeholder exactly when there is no title element or that element's stripped text is the placeholder |
| `Extractor.ExtractDescription` | museo_feed_generator.py:64-65 | the default sentence when no p/span/div descendant exists; otherwise the prefix of length min(200, len(text)) of its stripped text |
| `Extractor.ResolveLink` | museo_feed_generator.py:70-72 | an href starting with "/" is prefixed with the site origin; any other href is returned unchanged |
| `Extractor.ResolveLinkIdempotent` | museo_feed_generator.py:71-72 | resolving a resolved link changes nothing |
| `Extractor.RootRelativeLinkIsOnSite` | museo_feed_generator.py:71-72 | a root-relative href becomes a URL on the museum's origin, followed by the href itself |
| `Extractor.ExtractLink` | museo_feed_generator.py:68-74 | the listing URL when no anchor has an href; otherwise the resolved href of the first such anchor |
| `Extractor.ExtractDateText` | museo_feed_generator.py:77-81 | non-empty exactly when the lower-cased text contains one of the eight keywords; then the first min(100, len(text)) characters of the original text |
| `Extractor.Parse` | museo_feed_generator.py:50-93 | `_parse_exposicion`: the record built from the extracted title, link, description and date hint, the digest id and the clock reading; `Extractor.ParsedRecordShape` states its properties |
| `Extractor.ParsedRecordShape` | museo_feed_generator.py:50-93 | every record has a title of at most 103 and a description of at most 200 characters. Its date hint is non-empty exactly when the text mentions a keyword. Its id is the digest of title followed by description, and its date is the clock reading |
| `Extractor.IdDependsOnlyOnTitleAndDescription` | museo_feed_generator.py:84 | two containers with the same title-plus-description get the same id, whatever else differs |
| `Extractor.IsValid` | museo_feed_generator.py:98-102 | `_is_valid_exposicion`: the title is non-empty, is not "Exposición Temporal" and has more than three characters; the lemmas below state its consequences |
| `Extractor.UntitledContainerIsRejected` | museo_feed_generator.py:98-102 | a container without a heading, anchor or strong element yields a record that validation rejects |
| `Extractor.ValidTitleLength` | museo_feed_generator.py:98-102 | an accepted record's title has between 4 and 103 characters |
| `Extractor.FallbackData` | museo_feed_generator.py:104-115 | exactly one record, with id "fallback1" and the listing URL as link, and it passes validation |
| `Fetcher.Exposiciones` | museo_feed_generator.py:16-48 | what `fetch_exposiciones` returns: the fallback after a failed fetch, otherwise the valid records among the parses of the first 12 candidates, in order; the lemmas below state its properties |
| `Fetcher.FetchExposiciones` | museo_feed_generator.py:16-48 | the appending loop returns the specification's list. After a fetch that list has at most 12 records, all valid |
| `Fetcher.HarvestStep` | museo_feed_generator.py:38-41 | one more visited card appends its record exactly when that record is valid |
| `Fetcher.HarvestIsBoundedAndValid` | museo_feed_generator.py:38-41 | the loop keeps no more records than cards, and each kept record is valid |
| `Fetcher.HarvestComesFromCards` | museo_feed_generator.py:38-41 | every kept record is the parse of one of the visited cards |
| `Fetcher.FetchedRecordsAreValid` | museo_feed_generator.py:38-44 | a fetched page gives at most 12 records. Each is valid and parsed from one of the first 12 candidates |
| `Fetcher.HarvestKeepsCardOrder` | museo_feed_generator.py:38-41 | the kept records appear in the order of their cards, and no visited card with a valid record is dropped |
| `Fetcher.NothingValidMeansEmpty` | museo_feed_generator.py:38-44 | the loop's result is empty exactly when no visited card yields a valid record (no fallback in that case) |
| `Fetcher.HarvestHasNoFallbackId` | museo_feed_generator.py:84 | with 32-character digests, no parsed record carries the fallback id |
| `Fetcher.FallbackOnlyOnFailure` | museo_feed_generator.py:46-48 | with 32-character digests, a record with the fallback id appears exactly when the fetch failed |
| `FeedAssembler.InformationParagraphIffDateText` | museo_feed_generator.py:133-140 | right after the heading line, the body shows the "Información" paragraph with the date hint exactly when the hint is non-empty; otherwise the next line follows directly |
| `FeedAssembler.BodyPieces` | museo_feed_generator.py:133-140 | the lines of the body template in order: heading, the "Información" slot, the description paragraph, the link paragraph, the rule and the footer |
| `FeedAssembler.ItemBody` | museo_feed_generator.py:133-140 | the body string: the template's pieces joined; `InformationParagraphIffDateText` and `BodyShowsRecord` state what it contains |
| `FeedAssembler.BodyShowsRecord` | museo_feed_generator.py:133-140 | the body contains the title as an h3 heading, the description as a paragraph and an anchor to the record's link |
| `FeedAssembler.ItemsFor` | museo_feed_generator.py:131-149 | one item per record |
| `FeedAssembler.ItemFor` | museo_feed_generator.py:142-149 | the arguments of one `add_item` call for a record; `FeedAssembler.ItemsCarryRecords` states what each carries |
| `FeedAssembler.ItemsCarryRecords` | museo_feed_generator.py:142-149 | item i is record i's item. Its unique id is the record's id, its link is the record's link, its description is the composed body and its categories are Arte, Exposiciones, Museo Reina Sofía |
| `FeedAssembler.Feed.constructor` | museo_feed_generator.py:122-129 | a new feed has the given channel metadata and no items |
| `FeedAssembler.Feed.AddItem` | museo_feed_generator.py:142-149 | appends exactly one item with the given arguments; nothing else changes |
| `FeedAssembler.AddItems` | museo_feed_generator.py:131-149 | the loop appends one item per record, in list order |
| `FeedAssembler.GenerateRssFeed` | museo_feed_generator.py:117-149 | a fresh feed with the fixed channel metadata whose items are those of the fetched records. After a fetch: at most 12 items, and no items exactly when no visited card yields a valid record. After a failure: exactly the fallback item, with id "fallback1" and the listing URL |

## Left out

- The HTTP request (lines 20-25: headers, the 30-second timeout,
  `raise_for_status`) and BeautifulSoup's HTML parsing (line 27) are
  foreign I/O. They become the `Response` parameter: a document tree or
  a failure.
- `get_text()` and `get_text(strip=True)` are fields of each node. The
  tree does not relate them to the children's texts, and stripping
  whitespace is not modelled.
- MD5 (line 84) is the parameter `md5`. Its internals are a cryptographic
  library; only the 32-character length of a hex digest is assumed, and
  only where the fallback id is concerned.
- `datetime.now()` (lines 92, 113) is the parameter `now`. The script
  reads the clock for each record, while the model uses one reading for
  the whole run.
- Python's `.lower()` handles all of Unicode, and the model lower-cases
  ASCII letters only. All the keywords are ASCII, so a keyword can match
  only through ASCII letters. Non-ASCII capitals, which Python would also
  lower, are left unchanged.
- The `except` of `_parse_exposicion` (lines 95-96) can never be taken in
  the model, because every step is total on the node tree. So the `None`
  record and the `exposicion and` test of line 40 are not modelled.
- The `except` of `fetch_exposiciones` (lines 46-48) is modelled only for
  failures of the fetch and the parse, which are the only exceptions
  possible once parsing is total.
- `feedgenerator`'s RSS 2.0 serialisation and the UTF-8 file write
  (lines 122-129, 151-155) are a foreign library and file I/O. The model
  stops at the list of items handed to `add_item`.
- The `print` logging (lines 18, 43, 47, 155) and the unused `cache_file`
  (line 13) have no behaviour. `main` (lines 158 on) is a driver.
- FeedAssembler.GenerateRssFeed returns the feed object. The source
  instead writes the feed to `feed_file` and returns only the records.
