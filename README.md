# netease-note-backup, modelled in Dafny

netease-note-backup saves a NetEase Cloud Music user's feed ("动态"). It has two
front ends that share one record pipeline:

- a desktop application (`netease/`) that drives a browser over the feed page,
  scans every `.dcntc` item into a record, removes duplicates by a fingerprint,
  shows the records in a Tk window and exports a range of them as text or as
  an HTML document;
- a browser user script (`netease-note-backup.user.js`) that scans the same
  page in place and offers the same range selection, copy and export.

This project models that pipeline.

- **Extraction** (module `Extraction`): the record of one feed item, with its
  fingerprint `time-snippet`, its song block and its cleaned image URLs. The
  dedup scan over a snapshot is the fold `ScanStep`/`ScanPrefix`/`ScanSpec`.
- **Crawler** (module `Crawler`):
  - the method `NetEaseCrawler.ScanAllArticles` implements the scan, and is
    proved equal to `ScanSpec`;
  - the scroll loop `scroll_until_complete` is specified by the functions
    `Run`/`Iterate`/`Settled`/`ScanPhase`, and the imperative
    `NetEaseCrawler.ScrollUntilComplete` is proved equal to `ScrollSpec`;
  - the older `scroll_and_scan` and the part of `crawl` that follows page
    loading are covered too.
- **Data processing** (module `DataProcessor`): each regular-expression
  substitution is a left-to-right scan with a matcher per pattern.
- **Export** (module `Exporter`): the clipboard text, the image fetch (over an
  abstract `Session`) and the HTML document with its image-progress events.
- **Window** (module `Ui`):
  - the fold of queued update events into the window state, with the
    status-line rule;
  - the list box, the range spinboxes and the range selection;
  - the user-id check that starts a crawl.
- **User script** (module `UserScript`): the script's own twin of each of the
  above. Where the two sides differ, a lemma states the difference.

Everything the crawler learns from outside is an input of type `Crawler.Surface`:

- scroll heights, scroll errors and HTML snapshots;
- the clock;
- the stop flag;
- every read of `len(ui.articles)`.

The window thread appends to that list while the crawler runs, so each read
is modelled as an input of its own.

## Model

| member | source | states |
|---|---|---|
| Records.UpdateQueue.Put | netease/ui.py:503-506 | an event is queued at the end, after every earlier one |
| Records.UpdateQueue.GetNowait | netease/ui.py:435-436 | the oldest queued event comes out first; an empty queue yields nothing and stays empty |
| Records.UpdateQueue.Empty | netease/ui.py:435 | reports empty exactly when no event is queued |
| Extraction.GenerateElementId | netease/crawler.py:629-633 | the fingerprint starts with the time and a dash; at most 30 characters follow, none of them whitespace |
| Extraction.SnippetCollision | netease/crawler.py:631-633 | two texts that agree on their first 30 characters give the same fingerprint |
| Extraction.FingerprintDeterminesTime | netease/crawler.py:633 | for times without a dash, equal fingerprints have equal times |
| Extraction.DashAfterTime | netease/crawler.py:633 | for a time without a dash, the first dash of the fingerprint follows the time directly |
| Extraction.ExtractSongInfo | netease/crawler.py:635-674 | a song exactly when `.src`, `.scnt`, `.tit a` and `.from a` are all present, never a partial one; names stripped; each link is the host plus the `href`, or `""` for an empty `href` |
| Extraction.UpgradeHttpAbsent | netease/crawler.py:689 | a URL without `http:` is left unchanged by the upgrade |
| Extraction.UpgradeHttpComplete | netease/crawler.py:689 | after `replace("http:", "https:")` no `http:` is left anywhere, even one formed by the replacement |
| Extraction.CleanUrl | netease/crawler.py:689 | a cleaned URL holds no `?` and no `http:` |
| Extraction.GalleryUrlsClean | netease/crawler.py:682-692 | at most one URL per gallery `img`; each is non-empty, has no `?` or `http:`, and is the cleaning of one of the gallery `src`s |
| Extraction.ImageUrlsClean | netease/crawler.py:684-701 | every URL is clean; with a gallery every URL comes from it; without one, the cover gives at most one URL, cleaned from its `src` attribute |
| Extraction.ExtractImageUrls | netease/crawler.py:676-706 | the append loop returns exactly the gallery-or-cover URL list |
| Extraction.ExtractArticle | netease/crawler.py:510-550 | a record exactly when the item has `.time` and `.text`; its id is the fingerprint of the stripped time and text |
| Extraction.ExtractArticleIncomplete | netease/crawler.py:511-524 | an item lacking `.time` or `.text` yields no record |
| Extraction.ExtractArticleComplete | netease/crawler.py:515-550 | a complete item yields the record of its fingerprint, stripped time, stripped inner HTML, song and images |
| Extraction.ScanStep | netease/crawler.py:504-558 | one item of the scan: the progress status, then the record and its `new_article` event when it is complete and not yet processed. Its properties are stated by `ScanAdmitsAtMostOnce`, `ScanCoversExtracted`, `ScanOfSeenAdmitsNothing`, `ScanSkips`, `ScanPreservesOrder` and `ScanOneEventPerArticle` |
| Extraction.ScanSpec | netease/crawler.py:488-567 | the scan of a whole snapshot, the fold of `ScanStep` over its items. Its properties are stated by the same lemmas and by `ScanIdempotent`; `Crawler.NetEaseCrawler.ScanAllArticles` is proved equal to it |
| Extraction.ScanAdmitsAtMostOnce | netease/crawler.py:533-555 | admitted ids are pairwise distinct and none was processed before; the processed set grows by exactly the admitted ids |
| Extraction.ScanCoversExtracted | netease/crawler.py:553 | afterwards every extracted id of the scanned items is processed, and no id was removed |
| Extraction.ScanOfSeenAdmitsNothing | netease/crawler.py:534-535 | when every id is already processed, the scan admits nothing and leaves the set as it was |
| Extraction.ScanIdempotent | netease/crawler.py:488-567 | a second scan of the same snapshot returns `[]` and leaves the processed set unchanged |
| Extraction.ScanSkips | netease/crawler.py:511-535 | an item without `.time`/`.text`, or one already processed, changes neither the result nor the processed set |
| Extraction.ScanPreservesOrder | netease/crawler.py:504-554 | the returned list follows document order: record `m` comes from item `idx[m]`, and the indices strictly increase |
| Extraction.ScanOneEventPerArticle | netease/crawler.py:504-558 | the `new_article` events are exactly the returned records, in order; every item sends one progress status |
| Crawler.Countdown | netease/crawler.py:468-475 | a pause sends at most its number of seconds of status lines, and no record |
| Crawler.Iterate | netease/crawler.py:386-419 | one iteration of the scroll loop up to the settle wait; it ends within 100 iterations with an explained halt. Stated by `IterateSettles`, `CountHintStops`, `StaleWindowStops`, `StopAtLoopTest` and `StopAfterSettle` |
| Crawler.Settled | netease/crawler.py:421-448 | the height check after the settle wait; it ends within 100 iterations with an explained halt. Stated by `UnchangedHeightContinues` |
| Crawler.ScanPhase | netease/crawler.py:450-456 | the scan of one iteration; it ends within 100 iterations with an explained halt. Stated by `ScrollAdmitsAtMostOnce` |
| Crawler.LegacyIterate | netease/crawler.py:579-616 | one iteration of the older `scroll_and_scan`: the next iteration has the next index, and a stop keeps the index and the processed set. Stated by `LegacyStopsOnUnchangedHeight`, `LegacyBound` and `LegacyPause` |
| Crawler.Run | netease/crawler.py:385-479 | from any iteration the loop ends within 100 iterations, and the way it ends is explained by what it observed |
| Crawler.ScrollSpec | netease/crawler.py:370-486 | at most 100 iterations. Each way of ending is explained: the count hint reached; more than 180 s without a new record; the stop flag at the loop test or after the settle wait; the cap; or an exception, whose message is then the last status |
| Crawler.IterateSettles | netease/crawler.py:398-419 | with neither stop signal nor error, an iteration sends the scrolling status and goes on to the settle step |
| Crawler.CountHintStops | netease/crawler.py:385-396 | a count at or above the known total ends the loop at the start of the iteration, with the "all fetched" status |
| Crawler.StaleWindowStops | netease/crawler.py:398-403 | more than 180 s since the last new record ends the loop at the start of the iteration, with its status |
| Crawler.StopAtLoopTest | netease/crawler.py:385 | a raised stop flag at the loop test ends the loop, sending nothing |
| Crawler.StopAfterSettle | netease/crawler.py:417-419 | a stop flag raised during the settle wait ends the loop right after the scrolling status |
| Crawler.UnchangedHeightContinues | netease/crawler.py:426-479 | an unchanged height does not end the loop when the count re-check fails: the iteration scans, and the loop goes on with the same height |
| Crawler.GrowthOnlyUpdates | netease/crawler.py:458-479 | the last count and the time of the last new record change only when the count grew; the height is always updated |
| Crawler.Grown | netease/crawler.py:458-477 | the growth check of one iteration. Stated by `GrowthOnlyUpdates` |
| Crawler.ScrollBound | netease/crawler.py:382-385 | the loop never passes 100 iterations, and processed ids are never removed |
| Crawler.ScrollAdmitsAtMostOnce | netease/crawler.py:450-456 | over all iterations the `new_article` events are distinct, none was processed before, and the set grows by exactly them |
| Crawler.LegacyPause | netease/crawler.py:611-616 | the older pause sends exactly five status lines, and no record |
| Crawler.LegacyStopsOnUnchangedHeight | netease/crawler.py:594-597 | in `scroll_and_scan` an unchanged height ends the loop at once, without a scan |
| Crawler.LegacyBound | netease/crawler.py:579 | `scroll_and_scan` performs at most ten scrolls, and reaches ten exactly when it stops at the cap |
| Crawler.FirstPause | netease/crawler.py:336-350 | the pause after the first scan sends only status lines |
| Crawler.CrawlSpec | netease/crawler.py:326-368 | the whole crawl after page load. Stated by `CrawlFirstScanRaises`, `CrawlEndsWithFinalStatus`, `CrawlSpecOk` and `CrawlAdmitsAtMostOnce`; `Crawler.NetEaseCrawler.CrawlAfterLoad` is proved equal to it |
| Crawler.CrawlFirstScanRaises | netease/crawler.py:330-334 | when the first snapshot cannot be read, `crawl` has sent only the start status and processed nothing |
| Crawler.CrawlEndsWithFinalStatus | netease/crawler.py:357-366 | a crawl starts with the start status and ends with the completed or terminated status, as the stop flag says |
| Crawler.CrawlSpecOk | netease/crawler.py:326-368 | a crawl is: start status, first scan, first pause, the scroll loop unless stopped, final status |
| Crawler.CrawlAdmitsAtMostOnce | netease/crawler.py:326-368 | over the whole crawl every record is announced once, and only if it was not processed before |
| Crawler.NetEaseCrawler.constructor | netease/crawler.py:51-58 | a new crawler has no processed ids and no stop request |
| Crawler.NetEaseCrawler.ScanAllArticles | netease/crawler.py:488-567 | returns the scan's records, leaves the processed set and sends the events as the scan specifies; a failed snapshot read raises and changes nothing |
| Crawler.NetEaseCrawler.ScanItem | netease/crawler.py:505-558 | one loop body is one scan step |
| Crawler.NetEaseCrawler.Pause | netease/crawler.py:468-475 | the countdown loop sends exactly the countdown statuses |
| Crawler.NetEaseCrawler.ScrollUntilComplete | netease/crawler.py:370-486 | the `while` loop ends as the loop specification says, with the same processed set and events |
| Crawler.NetEaseCrawler.ScrollIteration | netease/crawler.py:386-419 | an iteration either ends the loop as specified, or continues to a state from which the specification continues |
| Crawler.NetEaseCrawler.SettleAndScan | netease/crawler.py:421-448 | the height check after the settle wait, as specified |
| Crawler.NetEaseCrawler.ScanAndGrow | netease/crawler.py:450-456 | the scan of the iteration, as specified |
| Crawler.NetEaseCrawler.GrowthCheck | netease/crawler.py:458-477 | the growth check sends the pause and updates the count and time exactly as specified |
| Crawler.NetEaseCrawler.CrawlAfterLoad | netease/crawler.py:326-368 | `crawl` after page load behaves as the crawl specification says |
| Crawler.NetEaseCrawler.FirstPauseStep | netease/crawler.py:336-350 | the first pause sends exactly the specified statuses |
| Crawler.NetEaseCrawler.FinishCrawl | netease/crawler.py:352-366 | the scroll loop unless stopped, then the final status, as specified |
| DataProcessor.IndexOf | netease/data_processor.py:24 | the index of the first occurrence of a character, or none when it does not occur |
| DataProcessor.ProcessHtmlText | netease/data_processor.py:18-29 | `process_html_text("") == ""` |
| DataProcessor.PlainTextFromHtml | netease/data_processor.py:31-42 | `plain_text_from_html("") == ""` |
| DataProcessor.TagFreeText | netease/data_processor.py:36-38 | the text handed to `html.unescape` holds no tag |
| DataProcessor.ProcessArticles | netease/data_processor.py:4-16 | same length and order; each entry is its input with only `text` processed |
| DataProcessor.UnwrapActivity | netease/data_processor.py:24 | the `data-action="activity"` anchor rewrite. Stated by `ActivityUnwrapped` |
| DataProcessor.StripTagsKeepBr | netease/data_processor.py:27 | the strip of every tag except `<br>`-style ones. Stated by `KeepBrOnlyBr`, `KeepBrKeepsBr`, `KeepBrDropsOther` and `NoGtUnchanged` |
| DataProcessor.BrToNewline | netease/data_processor.py:36 | the `<br>`-to-line-break rewrite. Stated by `BrSpellings`, `BrBecomesNewline` and `BrHeadBecomesNewline` |
| DataProcessor.StripTags | netease/data_processor.py:38 | the strip of every tag. Stated by `StripTagsNoTags`, `StripTagsIdempotent` and `NoGtUnchanged` |
| DataProcessor.StripTagsNoTags | netease/data_processor.py:38 | after the tag strip no `<…>` tag is left, even one formed by joining the pieces |
| DataProcessor.StripTagsIdempotent | netease/data_processor.py:38 | the tag strip is idempotent |
| DataProcessor.NoGtUnchanged | netease/data_processor.py:27 | a text without `>` passes both tag strips unchanged |
| DataProcessor.BrSpellings | netease/data_processor.py:36 | `<br>`, `<br/>` and `<br />` match the line-break pattern; `<BR>` does not |
| DataProcessor.BrBecomesNewline | netease/data_processor.py:36 | each `<br>`-style tag becomes exactly one line break, wherever it stands |
| DataProcessor.BrHeadBecomesNewline | netease/data_processor.py:36 | a text opening with a whole `<br>`-style tag is rewritten to one line break followed by the rewrite of the rest |
| DataProcessor.KeepBrOnlyBr | netease/data_processor.py:27 | after the keep-`<br>` strip every tag left is `<br>`-style |
| DataProcessor.KeepBrKeepsBr | netease/data_processor.py:27 | a `<br>`-style tag survives the keep-`<br>` strip |
| DataProcessor.KeepBrDropsOther | netease/data_processor.py:27 | any other tag is removed |
| DataProcessor.ActivityUnwrapped | netease/data_processor.py:24 | an anchor with `data-action="activity"` is replaced by its inner text |
| DataProcessor.ProcessHtmlTextOnlyBr | netease/data_processor.py:18-29 | the output of `process_html_text` holds only `<br>`-style tags |
| DataProcessor.ProcessHtmlTextIdempotent | netease/data_processor.py:18-29 | `process_html_text` is idempotent |
| DataProcessor.ProcessHtmlTextNoMarkup | netease/data_processor.py:24-27 | a text without `<` passes `process_html_text` unchanged |
| Exporter.ClipboardBlocks | netease/exporter.py:21-30 | one block per article |
| Exporter.CopyToClipboard | netease/exporter.py:17-33 | the append loop and join return exactly the clipboard text |
| Exporter.ClipboardBlocksInOrder | netease/exporter.py:21-30 | block `i` is `time + "\n" + plain text` of article `i` |
| Exporter.ClipboardTextEmpty | netease/exporter.py:32 | the clipboard text is `""` exactly when there are no articles |
| Exporter.ClipboardTextSnoc | netease/exporter.py:32 | one more article appends `"\n\n"` and its block |
| Exporter.ClipboardTextSingle | netease/exporter.py:29-32 | one article gives its block alone; with empty text that is `time + "\n"` |
| Exporter.ConvertImageToBase64 | netease/exporter.py:35-57 | `""` exactly for an empty URL, a non-200 status or an exception; otherwise a `data:` URL with the response's content type (default `image/jpeg`) and the base64 body |
| Exporter.FetchesCleanUrl | netease/exporter.py:138-144 | for a cleaned URL the fetch asks for that URL itself |
| Exporter.ImageRuleInjective | netease/exporter.py:73 | the thumbnail size can be read back from the CSS rule, which puts it in both width and height |
| Exporter.ImageFate | netease/exporter.py:137-155 | what becomes of one image: skipped, embedded or linked. Stated by `ImageHtmlCases` and `FetchesCleanUrl` |
| Exporter.ImageHtmlCases | netease/exporter.py:137-155 | an image adds a tag unless its cleaned URL is empty or, with base64 on, the fetch gave `""`; the tag embeds the data URL, or links the cleaned URL |
| Exporter.SongBlock | netease/exporter.py:121-126 | a song block exactly when the article has a song |
| Exporter.ImagesBlock | netease/exporter.py:129-157 | an images `div` exactly when the image list is non-empty |
| Exporter.Document | netease/exporter.py:59-162 | the exported HTML document. Stated by `ArticlesBetween`, `SongBlock` and `ImagesBlock`; `Exporter.GenerateHtmlContent` is proved to return it |
| Exporter.ArticlesBetween | netease/exporter.py:111-161 | the document is the prologue, then one article `div` per article in input order, then the closing tags |
| Exporter.ExportCounterReachesTotal | netease/exporter.py:97-135 | over a whole export the image counter goes 1, 2, … up to the announced total, once per image |
| Exporter.OutputFiles.Write | netease/exporter.py:11-12 | writing a file replaces its content |
| Exporter.ExportToHtml | netease/exporter.py:5-15 | writes the generated document to the path, returns the path, and sends the start status, the image-count status, the progress statuses and the done status in that order |
| Exporter.CountImages | netease/exporter.py:97-101 | the counting loop returns the total number of images |
| Exporter.GenerateHtmlContent | netease/exporter.py:59-162 | the `html +=` accumulation returns exactly the document; the image-count status comes first |
| Exporter.AddArticles | netease/exporter.py:111-159 | the article loop appends every article's markup and sends every image's events |
| Exporter.AddArticle | netease/exporter.py:112-159 | one article's markup; the image counter advances by its number of images |
| Exporter.AddImages | netease/exporter.py:129-157 | the image loop appends each image's markup and events |
| Exporter.AddImage | netease/exporter.py:132-155 | one image: its tag, if any, and its progress and outcome statuses |
| Ui.FormatStatus | netease/ui.py:442-453 | the status line shown for a message. Stated by `PrefixKeepsTotalTest`, `FormatStatusShape`, `FormatStatusIdempotent` and `AddedStatusIsFormatted` |
| Ui.PrefixKeepsTotalTest | netease/ui.py:446-450 | the count prefix never brings in or hides a `总计` |
| Ui.FormatStatusShape | netease/ui.py:442-453 | the status line is the message with the count prefix exactly when it lacks `已获取`, the count is positive and it is not a progress line, plus the total suffix exactly when the total is set and the message lacks `总计` |
| Ui.FormatStatusIdempotent | netease/ui.py:442-453 | formatting a formatted line changes nothing |
| Ui.AddedStatusIsFormatted | netease/ui.py:508-513 | the status `add_update` shows for a new article passes the formatting unchanged |
| Ui.ShortText | netease/ui.py:473-478 | the processed text, or its first 50 characters plus `...` when longer |
| Ui.Entries | netease/ui.py:486-490 | one list-box line per article |
| Ui.EntriesAt | netease/ui.py:486-490 | line `i` shows article `i` |
| Ui.RangeInputs | netease/ui.py:492-501 | the spinboxes after `update_range_inputs`. Stated by `RangeInputsIdempotent`, `ApplyUpdateBounded` and `NetEaseMusicUi.UpdateRangeInputs` |
| Ui.RangeInputsIdempotent | netease/ui.py:492-501 | updating the spinboxes twice for the same count is updating them once |
| Ui.ApplyUpdate | netease/ui.py:437-467 | the effect of one queued event on the window. Stated by `ApplyUpdateBounded` and, over many events, by the `ApplyAll` lemmas |
| Ui.ApplyAll | netease/ui.py:432-471 | the window after draining a queue, oldest event first. Stated by `ApplyAllAppend`, `ApplyAllConsistent`, `ApplyAllBounded`, `ApplyAllAppendsAnnounced`, `ArticlesEventReplaces`, `ApplyAllKeepsTotal` and `ApplyAllLastTotal`; `NetEaseMusicUi.ProcessUpdates` is proved to reach it |
| Ui.ApplyAllAppend | netease/ui.py:432-471 | draining two batches in turn is draining their concatenation |
| Ui.ApplyAllConsistent | netease/ui.py:439-467 | the label and the list box always match the article list |
| Ui.ApplyUpdateBounded | netease/ui.py:454-465 | after an `articles` or `new_article` event both spinboxes reach up to `max(1, count)`; status and total events leave the list and the spinboxes alone |
| Ui.ApplyAllBounded | netease/ui.py:437-467 | once the spinboxes match the list, draining events keeps them matching |
| Ui.ApplyAllAppendsAnnounced | netease/ui.py:454-465 | without an `articles` event, the list grows by exactly the announced articles, earlier entries unchanged |
| Ui.ArticlesEventReplaces | netease/ui.py:439-441 | an `articles` event replaces the whole list |
| Ui.ApplyAllKeepsTotal | netease/ui.py:466-467 | only a `total_count` event changes the total |
| Ui.ApplyAllLastTotal | netease/ui.py:466-467 | the last `total_count` event sets the total |
| Ui.ScanShownInWindow | netease/ui.py:454-465 | the window shows exactly the records a scan admitted, after those it already held |
| Ui.ParsePyInt | netease/ui.py:711-712 | a parse succeeds only for a non-blank entry |
| Ui.ParseNatToString | netease/ui.py:711-712 | `int(str(n)) == n` |
| Ui.ClampedRange | netease/ui.py:711-714 | a non-empty clamped range lies inside the list |
| Ui.GetSelectedArticles | netease/ui.py:709-721 | a non-integer entry gives `[]` with the number error; otherwise a contiguous slice, and `[]` comes with the range error |
| Ui.SelectionClamps | netease/ui.py:711-718 | for `1 <= s <= len` and `s <= e` the selection is `articles[s-1:min(len, e)]` |
| Ui.MaxRangeSelectsAll | netease/ui.py:696-718 | the range 1 to the count selects every article |
| Ui.SelectionOfAll | netease/ui.py:709-719 | entries read as 1 and as the list length select the whole non-empty list, without an error |
| Ui.PyParseDigit | netease/ui.py:711 | an entry of one digit reads as that digit's value |
| Ui.UserId | netease/ui.py:529-532 | an accepted id is the stripped entry and a non-empty run of digits; any other entry is refused |
| Ui.EventPageRoundTrip | netease/ui.py:535 | the feed address ends with the accepted id |
| Ui.EventPageInjective | netease/ui.py:535 | two accepted entries load the same page exactly when they hold the same id |
| Ui.RestartedConsistent | netease/ui.py:537-542 | the window cleared for a new crawl is consistent |
| Ui.RestartedUnbounded | netease/ui.py:537-542 | clearing the window keeps the spinboxes at the old count, so with more than one old article they no longer match the empty list |
| Ui.RecrawlShowsNothing | netease/ui.py:537-548 | as written, a second crawl over the same snapshot shows nothing after the window was cleared |
| Ui.CorrectedRecrawlShowsAll | netease/ui.py:537-548 | with the processed set cleared, a crawl shows the same records whatever crawl came before |
| Ui.NetEaseMusicUi.constructor | netease/ui.py:18-24 | the window starts with no articles, no total, the waiting status and a zero count |
| Ui.NetEaseMusicUi.UpdateRangeInputs | netease/ui.py:492-501 | both upper bounds become `max(1, count)`; an end of `"1"` becomes the count when there is more than one article |
| Ui.NetEaseMusicUi.UpdateArticleDisplay | netease/ui.py:480-490 | the label, the spinboxes and the list box show the article list |
| Ui.NetEaseMusicUi.RebuildListbox | netease/ui.py:486-490 | the list box is emptied and then holds one line per article, in article order |
| Ui.NetEaseMusicUi.ApplyOne | netease/ui.py:437-467 | one loop body applies one update |
| Ui.NetEaseMusicUi.ProcessUpdates | netease/ui.py:432-471 | draining the queue applies every queued update, oldest first, and leaves the queue empty |
| Ui.NetEaseMusicUi.AddUpdate | netease/ui.py:503-513 | queues the event; for a new article, shows the count it will reach |
| Ui.NetEaseMusicUi.SetMaxRange | netease/ui.py:696-707 | with articles, the range becomes 1 to their count and then selects all of them; without articles, nothing changes |
| Ui.NetEaseMusicUi.StopCrawling | netease/ui.py:419-430 | the stop flag is raised, and the stopping status shown, exactly while crawling or when forced |
| Ui.NetEaseMusicUi.StartCrawling | netease/ui.py:515-552 | a busy window, a missing browser or a bad id refuses and changes nothing; otherwise the window is cleared, the crawl starts on the feed page, and the stop flag is reset, while the processed set is kept |
| Ui.NetEaseMusicUi.ClearForCrawl | netease/ui.py:537-549 | the article list, list box and count label are emptied, the status shows the loading message, the crawl is marked running and the stop flag is lowered; the processed set is untouched |
| Ui.NetEaseMusicUi.StartCrawlingCorrected | netease/ui.py:515-552 | the same, with the processed set emptied as well |
| UserScript.CleanImageUrl | netease-note-backup.user.js:256-259 | `""` for an empty URL; otherwise no `?`, and the result does not start with `http:` |
| UserScript.CleanersAgree | netease-note-backup.user.js:258 | when `http:` can only stand at the start, the script's cleaning equals Python's |
| UserScript.CleanersDiffer | netease-note-backup.user.js:258 | for any URL of one character other than `h` or `?` followed by `http:`, Python upgrades the inner `http:` to `https:` while the script keeps it |
| UserScript.JsKeepsUnlessLeading | netease-note-backup.user.js:256-259 | a URL without `?` that does not start with `h` passes the script's cleaning unchanged |
| UserScript.JsGalleryUrlsClean | netease-note-backup.user.js:659-668 | at most one URL per gallery `img`, each non-empty, without `?`, not starting with `http:` |
| UserScript.JsImageUrlsClean | netease-note-backup.user.js:654-684 | every URL of the script's image list is clean in that sense |
| UserScript.JsExtractSongInfo | netease-note-backup.user.js:619-651 | the script's song block of an item. Stated by `SongsAgree` |
| UserScript.SongsAgree | netease-note-backup.user.js:619-651 | both sides find a song in the same items, with the same links |
| UserScript.JsGenerateElementId | netease-note-backup.user.js:687-689 | the script's fingerprint: the time, a dash, at most 30 characters without JavaScript whitespace |
| UserScript.FingerprintsAgree | netease-note-backup.user.js:687-689 | the two fingerprints are equal unless the snippet holds a character only one side counts as whitespace |
| UserScript.FingerprintsDiffer | netease-note-backup.user.js:688 | U+001C is whitespace to Python and not to JavaScript, so the same post gets two ids |
| UserScript.JsCandidate | netease-note-backup.user.js:702-716 | an item is scanned only with both nodes and a non-empty trimmed time and text |
| UserScript.JsScanStep | netease-note-backup.user.js:701-738 | one `forEach` callback of the scan. Stated by `JsScanAppends`, `JsScanIndexed`, `JsScanTracked`, `JsScanCovers`, `JsScanCoversOne` and `JsScanOfSeen` |
| UserScript.ScanForArticlesSpec | netease-note-backup.user.js:692-745 | `scanForArticles`: nothing without the iframe, else the fold of `JsScanStep`. Stated by `RescanFindsNothing` and `ScanAfterReset`; `ScriptState.ScanForArticles` is proved to reach it |
| UserScript.JsScanAppends | netease-note-backup.user.js:701-739 | a scan only appends and only adds ids; `newFound` is set exactly when something was pushed |
| UserScript.JsScanIndexed | netease-note-backup.user.js:722-731 | each pushed entry's `domIndex` is its index in `articleArray` |
| UserScript.JsScanTracked | netease-note-backup.user.js:719-734 | every entry's id is recorded and no two entries share one |
| UserScript.JsScanCovers | netease-note-backup.user.js:734 | after a scan the id of every complete item is recorded |
| UserScript.JsScanCoversOne | netease-note-backup.user.js:734 | the id of a complete item is recorded once the scan has passed it |
| UserScript.JsScanOfSeen | netease-note-backup.user.js:719 | a scan of items whose ids are all recorded changes nothing |
| UserScript.RescanFindsNothing | netease-note-backup.user.js:692-745 | a rescan of unchanged content, or one without the iframe, leaves `articleArray` as it is with `newFound` false |
| UserScript.EmptyTimeDiverges | netease-note-backup.user.js:716 | an empty time link: Python still records the item, the script skips it |
| UserScript.ScriptState.constructor | netease-note-backup.user.js:772-776 | the script starts with no articles, no ids and no scroll to the top |
| UserScript.ScriptState.ScanForArticles | netease-note-backup.user.js:692-745 | the `forEach` loop leaves `articleArray`, `processedIds` and `newFound` as the scan specifies |
| UserScript.ScriptState.ScanElement | netease-note-backup.user.js:701-738 | one callback is one scan step |
| UserScript.ScriptState.ResetAllState | netease-note-backup.user.js:772-776 | `articleArray` and `processedIds` empty, `hasScrolledToTop` false |
| UserScript.ScanAfterReset | netease-note-backup.user.js:692-776 | after a reset a scan gives an exactly indexed array without repeated ids, and `newFound` exactly when it is non-empty |
| UserScript.JsParseInt | netease-note-backup.user.js:471-472 | `parseInt` on an entry. Stated by `DigitPrefix`, `JsParseNatToString`, `EmptyEndDiverges` and `ZeroEndDiverges` |
| UserScript.DigitPrefix | netease-note-backup.user.js:471-472 | the digits `parseInt` reads are the leading digits of the entry |
| UserScript.OrOne | netease-note-backup.user.js:471-472 | `parseInt(...) \|\| 1` is never zero |
| UserScript.JsGetSelectedArticles | netease-note-backup.user.js:468-479 | always a contiguous slice of `articleArray` |
| UserScript.JsParseNatToString | netease-note-backup.user.js:471-472 | `parseInt` reads back a written number |
| UserScript.SelectionsAgree | netease-note-backup.user.js:468-479 | for entries written as numbers with a positive end both sides select the same slice |
| UserScript.SelectionsAgreeOn | netease-note-backup.user.js:468-479 | any entries that both sides read as the same start of at least 0 and the same end above 0 select the same slice |
| UserScript.PySliceOf | netease/ui.py:709-719 | for integer entries Python selects exactly the clamped slice, or nothing when the clamped range is empty |
| UserScript.JsSliceOf | netease-note-backup.user.js:468-479 | the script selects exactly the clamped slice of the entries, zero and unparsable entries taken as 1, or nothing when the clamped range is empty |
| UserScript.EmptyEndDiverges | netease-note-backup.user.js:472 | an empty end entry: Python shows an error and selects nothing, the script selects the first article |
| UserScript.ZeroEndDiverges | netease-note-backup.user.js:472 | an end entry of 0: Python reports an empty range, the script selects the first article |
| UserScript.UpperBrDiverges | netease-note-backup.user.js:514-515 | an upper-case `<BR>` becomes a line break in the script's copy, and is dropped with no break by Python |
| UserScript.JsCopyBlock | netease-note-backup.user.js:513-517 | one copied block: the time, a line break and the text with `<br>` tags of any case as line breaks and no other tag. Stated by `JsCopyBlockUpperBr` and `JsCopyBlocksInOrder` |
| UserScript.JsCopyBlockUpperBr | netease-note-backup.user.js:513-517 | an article whose text is `<BR>` is copied as its time and a blank line |
| UserScript.JsCopyBlocks | netease-note-backup.user.js:513-517 | one block per copied article |
| UserScript.JsCopyBlocksInOrder | netease-note-backup.user.js:513-517 | block `i` is the block of article `i` |
| UserScript.JsCopyTextEmpty | netease-note-backup.user.js:518 | the copied text is `""` exactly when no article is copied |
| UserScript.JsCopyTextSnoc | netease-note-backup.user.js:518 | one more article appends `"\n\n"` and its block |
| UserScript.JsCopy | netease-note-backup.user.js:504-521 | an empty selection copies nothing (the alert); any other copies its joined blocks, never an empty text |
| UserScript.IdParam | netease-note-backup.user.js:388-391 | the id found in the address is a non-empty run of digits |
| UserScript.SafeName | netease-note-backup.user.js:410 | the name keeps its length and holds none of `\ / : * ? " < > \|` |
| UserScript.IdHead | netease-note-backup.user.js:410 | the id and an underscore when an id was found, nothing otherwise |
| UserScript.UserName | netease-note-backup.user.js:393-408 | the trimmed name text, or the default user name when it is missing or blank. Stated by `ExportFileNameKeepsName` and `ExportFileNameDefault` |
| UserScript.ExportFileName | netease-note-backup.user.js:385-411 | the file name ends in `.html`, holds no reserved character, and starts with `id_` when the address has an id |
| UserScript.ExportFileNameKeepsName | netease-note-backup.user.js:399-410 | a name without reserved characters stands unchanged before `.html` |
| UserScript.ExportFileNameDefault | netease-note-backup.user.js:406-410 | without a usable name the file is named after the default user name |
| UserScript.EventPageIdParam | netease-note-backup.user.js:388-391 | the id parameter of a user's feed page is that user's id |
| UserScript.ExportNamedAfterEventPage | netease-note-backup.user.js:385-411 | on the page the desktop application loads for an id, the export is named after that id |

## Left out

- Playwright and the browser are not modelled: start-up, navigation, `wait_for_selector`, reading the total count and `frame.evaluate`. Scroll heights, scroll errors and snapshots are inputs in `Crawler.Surface`.
- BeautifulSoup and DOM querying are not modelled. A feed item is the abstract `Records.Item`: optional time node, inner HTML of `.text`, song nodes, gallery `src`s, cover image. Inner HTML is taken as given; its serialisation is not modelled.
- `html.unescape` is a function parameter of `PlainTextFromHtml` and of the clipboard functions.
- The network is not modelled. `session.get`, the base64 encoding, `aiohttp` and `GM_xmlhttpRequest` are reduced to the abstract `Exporter.Session`, where an exception is a `Raised` response. The user script's own `convertImageToBase64` and `generateHtmlContent` are not modelled.
- Time is an input: `time.time()` and `asyncio.sleep`, as well as `setTimeout` and `setInterval` in the script. The pauses are modelled only by the statuses they send.
- Threads are not modelled. The crawler thread's reads of `len(ui.articles)` and of the stop flag are inputs, so the stop flag the scroll loop reads is not tied to the `stopCrawling` field. The queue is an ordered list of events.
- The Tk widgets are fields holding their text. Buttons, enabled states, message boxes and `master.after` are not modelled.
- `Crawler.NetEaseCrawler.ScanAllArticles`: an exception raised while one item is processed (caught and printed at netease/crawler.py:561-564) is not modelled, because the extraction in the model is total.
- `UserScript.JsGenerateElementId`: JavaScript's `substring(0, 30)` counts UTF-16 code units, while the model counts code points. Texts with characters outside the Basic Multilingual Plane are cut differently.
- The whitespace classes are `Text.IsPySpace` (`str.isspace`) and `Text.IsJsSpace` (ECMAScript `WhiteSpace` and `LineTerminator`). Other Unicode subtleties, such as case folding, are not modelled.
- `update_download_progress` is not modelled because of its float arithmetic, and the browser download itself is not modelled either. `StartDecision` only says that the download is offered.
- netease/browser_manager.py, netease/run.py and netease/__init__.py are not part of this model.
- The script's page plumbing is not modelled: `updateArticleCount`, which rescans and refreshes the counter and end entry; `processHTMLText`; `scrollToTop`; `MutationObserver` and scroll listeners; `safeDownloadFile`; `GM_setClipboard`; and the UI construction.
- `UserScript.CleanImageUrl`: JavaScript's `split('?')[0]` keeps the text before the first `?`; the model states the result shape, not a separate equality with that text.
- Ui.UserId: Python's `str.isdigit()` also accepts non-ASCII digits such as `"١٢٣"` or `"²"`; the model accepts ASCII digits only and refuses such ids. `UserScript.ExportNamedAfterEventPage` is therefore stated only for ASCII ids.
- Printed lines are not modelled. While a crawl runs, the redirector at netease/ui.py:572-607 turns every `print` and `_safe_print` line into a `status` event (for example netease/crawler.py:340, 387, 423, 462, 492, 499, 559 and 566, netease/exporter.py:53 and 56, netease/ui.py:707). So the event sequences of `Extraction.ScanOneEventPerArticle`, `Crawler.NetEaseCrawler.Pause`, `Crawler.NetEaseCrawler.FirstPauseStep`, `Crawler.NetEaseCrawler.ScrollUntilComplete`, `Crawler.NetEaseCrawler.CrawlAfterLoad` and `Exporter.ExportToHtml` hold only the `add_update` calls, and `Ui.NetEaseMusicUi.SetMaxRange` leaves the status alone while crawling instead of queueing the printed line.
- `Ui.ParsePyInt` accepts surrounding whitespace, a sign and `_` between digit groups, like `int()` on a decimal string. It does not model non-ASCII digits.

## Findings

| source | as written | input that shows it | evidently intended | confidence | as-written member | corrected member |
|---|---|---|---|---|---|---|
| netease/ui.py:537-548 | `start_crawling` clears the window's list but not the crawler's `processed_ids`, which is created once at netease/crawler.py:56 and never cleared | crawl a user's feed, then press load again for the same user in the same session: every record already seen is skipped, and the cleared window stays empty | a new crawl starts from an empty processed set and shows every record of the feed again | not executed | Ui.RecrawlShowsNothing (with Ui.NetEaseMusicUi.StartCrawling) | Ui.CorrectedRecrawlShowsAll (with Ui.NetEaseMusicUi.StartCrawlingCorrected) |
