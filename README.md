# LinkedIn search scraper: a Dafny model of its content script

The content script `content.js` runs on a LinkedIn search-results page. It walks
the result pages and builds one record per entry. For each entry that has a
profile link, it opens the profile's contact-info overlay in a new tab, polls
that tab every 300 ms and reads the contact panel into a key/value map. Once a run
has ended (completed, or stopped with records scraped) it can export the records
as CSV, and a restart button clears them.

This project models the logic inside that script. The page, the new tab and the
relay to the background script all become plain data: what the selectors return,
a sequence of per-tick observations of the tab, and sequences of sent messages
and tab effects. The modules are:

- `Strings`, `Dicts`, `Wrappers`: JavaScript string operations as used here,
  such as `trim`, ASCII `toLowerCase`, `replace(/\s+/g, …)`, `split(/\s+/)` and
  `join`. A plain JavaScript object used as a dictionary is modelled as its key
  order plus its mapping.
- `ContactPanel`: the pair extraction and the `isSuspicious` filter
  (content.js:226-262).
- `ContactFetcher`: the polling state machine of `fetchContactInfo`. It is a
  class whose `Step` method is one interval tick, driven by a loop over the
  tab's observations.
- `Profiles`: the record of one search entry, the name split, the VIP test and
  how a fetch result is merged.
- `Harvest`: the session object, which holds `profiles`, `totalScraped`,
  `vipScraped` and the sent messages. It has methods for `scrapeCurrentPage`,
  `startScraping` and the restart button.
- `CsvExport`: the download handler's CSV text. A small reader for its quoted
  rows is included so the quoting can be stated as a round trip.

The model follows the code as written:

- The header lists the contact keys in the order they are first seen.
- The error reasons are the capitalised strings the code uses.
- A polling failure resolves to an object without a `contactInfo` property, so
  `contact.contactInfo.email` at content.js:334 throws and ends the run.
- `vipScraped` is bumped before that throw, so it can end one ahead of
  `totalScraped`.

## Model

| member | source | states |
|---|---|---|
| ContactPanel.NormalizeKeyShape | content.js:232 | a normalized key has no white space and no upper-case letter |
| ContactPanel.NormalizeKeyIdempotent | content.js:75 | normalizing twice is normalizing once, and an already normalized key is left as it is |
| ContactPanel.LinkValueMailto | content.js:238-241 | a link's value is the trimmed href minus one leading `mailto:` (putting the prefix back gives the href); other links give the href, or the link text when the href is empty |
| ContactPanel.BareMailtoDropped | content.js:238-254 | an href that is exactly `mailto:` gives the empty value, which is suspicious, so the block is dropped |
| ContactPanel.UnknownKeyNeverSuspicious | content.js:230-252 | a block without header text gets the key `unknownkey{i}`, which the filter never rejects |
| ContactPanel.ExtractContactData | content.js:229-262 | the loop builds the panel's map and sends the kept pairs, in block order |
| ContactPanel.FilterExact | content.js:254 | the kept pairs are exactly the candidate pairs the filter accepts |
| ContactPanel.ContactDataKeys | content.js:229-255 | a key is stored if and only if some block has that key and neither its key nor its value is suspicious |
| ContactPanel.ContactDataLastWins | content.js:255 | the last kept block with a given key supplies that key's value |
| ContactPanel.ContactDataClean | content.js:249-255 | every stored key is normalized, and no stored key or value is suspicious |
| ContactFetcher.SendEffects | content.js:257-260 | one `new_one_profile_scraped` message per kept pair, with that pair |
| ContactFetcher.ContactPoller.constructor | content.js:141-146 | the closure starts with 0 attempts, 0 click attempts, no click and the pending result |
| ContactFetcher.ContactPoller.Step | content.js:149-287 | one interval callback leaves the poller in the state the tick function gives for the old state and the observation |
| ContactFetcher.ContactPoller.TryClick | content.js:168-178 | a click is dispatched only on a visible button, not yet clicked, with fewer than 3 click attempts made; a present button counts an attempt either way |
| ContactFetcher.ContactPoller.LookForSection | content.js:180-280 | a section ends polling with its map, trimmed text, error "false" and an empty reason; without one polling times out once 16 attempts were made; `attempts` rises by one |
| ContactFetcher.FetchContactInfo | content.js:132-297 | the returned object and effects are those of the tick specification; the interval runs at most 17 ticks, and none when the tab does not open |
| ContactFetcher.RunTicksBound | content.js:141-142 | while polling goes on, `attempts` equals the number of ticks and never passes 16 |
| ContactFetcher.RunTicksStable | content.js:153-286 | after `clearInterval`, further ticks change nothing |
| ContactFetcher.PollTerminates | content.js:149-288 | polling has ended after 17 ticks, whatever the tab shows |
| ContactFetcher.TickKeepsClickInvariant | content.js:168-178 | each tick keeps two facts: `clickAttempts` is at most 3, and exactly one click was dispatched if and only if `buttonClicked` is set |
| ContactFetcher.RunTicksClickInvariant | content.js:143-178 | the click invariant holds after any number of ticks |
| ContactFetcher.FetchClicksBounded | content.js:143-178 | a fetch dispatches at most one click and makes at most 3 click attempts |
| ContactFetcher.IdlePrefix | content.js:180-280 | after k ≤ 16 idle ticks polling still runs, with k attempts and the initial result |
| ContactFetcher.DecidedAt | content.js:150-279 | the first non-idle tick decides the result, checking in this order: an exception (its message), tab closed, challenge, then a section; a section on the 17th tick wins over the timeout |
| ContactFetcher.AllIdleTimesOut | content.js:273-279 | 17 idle ticks end with "Contact section not found after click" |
| ContactFetcher.ChallengeOnFirstTick | content.js:158-166 | a checkpoint or login page on the first tick gives "CAPTCHA or login required" and no map |
| ContactFetcher.RunTicksShaped | content.js:146-286 | after any number of ticks the result is still pending, a success, or a failure with no map and one of the known reasons or an exception message |
| ContactFetcher.FetchResultShape | content.js:146-296 | a tab that does not open gives the empty map, error "true" and the pop-up reason. Success gives error "false", an empty reason, and the map and trimmed text of a section seen on some tick. Any other failure keeps error "true" with no map and one of the three reasons or a thrown message |
| ContactFetcher.MapOnlyOnSuccessOrOpenFailure | content.js:264-296 | a result carries a map if and only if it is a success or the tab did not open |
| Profiles.ParseEntry | content.js:304-325 | without an image, first name, last name and image URL stay empty; the contact map is empty and `contactInfoError`, `contactInfoRaw`, `errorReason` and the email keep their defaults |
| Profiles.MissingElementsEmpty | content.js:310-325 | a missing urn attribute, link, title, badge, job or location element leaves its field empty |
| Profiles.NameSplit | content.js:317-319 | the first name has no white space; with none in the alt text it is the whole text and the last name is empty; otherwise first name, a space, and last name give the alt text with each white-space run collapsed to one space; leading white space gives an empty first name |
| Profiles.AppendedRecordContact | content.js:331-335 | an appended record's email is its map's `email`; an error "true" means the empty map and the pop-up reason; success leaves no reason; an entry without a link keeps the empty map |
| Profiles.AbortsWhenPollingFails | content.js:332-334 | an entry throws if and only if it has a link, its tab opened, and polling did not succeed |
| Profiles.RecordContactClean | content.js:249-255 | an appended record's map is well formed, and its keys are normalized; no key or value in it is suspicious |
| Harvest.Summaries | content.js:381-390 | one payload per record, in order |
| Harvest.HarvestSession.constructor | content.js:3-5 | a session starts with no records, zero counters and no messages |
| Harvest.HarvestSession.ScrapeEntry | content.js:304-355 | throws exactly when the entry aborts. `vipScraped` rises by one exactly for a VIP entry, even one that throws. A completed entry appends its record and bumps `totalScraped`; the entry's messages are appended |
| Harvest.HarvestSession.ScrapeContact | content.js:332-349 | throws exactly when the entry aborts; otherwise gives the merged record; appends the fetch's field messages and, when it completes, the summary message; the record list and counters are unchanged |
| Harvest.HarvestSession.ScrapeCurrentPage | content.js:300-357 | the page's entries are processed in order, stopping at the first throw |
| Harvest.HarvestSession.StartScraping | content.js:359-417 | pages are processed up to the first one without an enabled next button, then the report is sent |
| Harvest.HarvestSession.Restart | content.js:117-123 | the record list and both counters are cleared; sent messages stay sent |
| Harvest.Completed | content.js:303-356 | the entries before the first abort complete, and the one after them aborts |
| Harvest.Records | content.js:352 | the appended records are the outcomes' records, in order |
| Harvest.HarvestOutcomesRecords | content.js:303-356 | the run fails if and only if some entry aborts; exactly the records of the entries before it are appended and counted |
| Harvest.HarvestOutcomesVip | content.js:327-329 | `vipScraped` counts the VIP entries among those started, the aborting one included |
| Harvest.HarvestOutcomesAppend | content.js:364-377 | harvesting two runs of entries is harvesting the first, then the second unless the first threw |
| Harvest.HarvestPagesFlat | content.js:364-377 | harvesting pages is harvesting their entries in page order, then document order |
| Harvest.StopIndex | content.js:369-376 | the loop stops at the first page without an enabled next button |
| Harvest.StartOutcome | content.js:359-417 | records accumulate in page and document order up to the first abort. `ALL_PROFILES_SCRAPED` is sent with all records on completion; after an abort it is sent only when some record was kept |
| Harvest.CountersAfterStart | content.js:328-353 | from consistent counters, `totalScraped` counts the records; `vipScraped` is at most `totalScraped` on completion, and at most one more after an abort |
| Harvest.OnlyFirstPage | content.js:369-376 | with no enabled next button on page 1, only page 1 is harvested |
| Harvest.VipAheadAfterAbort | content.js:327-334 | a first-degree entry whose tab closes leaves `vipScraped` at 1 and `totalScraped` at 0 |
| CsvExport.Dedup | content.js:71-74 | each key once, and exactly the keys seen |
| CsvExport.ContactKeys | content.js:71-75 | one contact column per distinct stored key, and every contact column is a normalized key: lower case and without white space |
| CsvExport.ExportCsv | content.js:64-68 | there is no download if and only if no record was scraped |
| CsvExport.ReadEscaped | content.js:99 | a doubled-quote body followed by a closing quote reads back as the value |
| CsvExport.EscapeCleanCommute | content.js:99 | doubling quotes and replacing newlines commute |
| CsvExport.ReadQuotedRow | content.js:99-100 | a row of quoted cells reads back as the values with newlines replaced by spaces |
| CsvExport.RowCells | content.js:92-100 | every row reads back as exactly one cell per header column |
| CsvExport.QuoteHasNoNewline | content.js:99 | a quoted cell contains no LF |
| CsvExport.HeaderHasNoNewline | content.js:71-82 | the header line contains no LF |
| CsvExport.RowHasNoNewline | content.js:83-100 | a row contains no LF |
| CsvExport.ExportFraming | content.js:77-102 | the download splits at LF into exactly the header line, the 12 fixed names followed by the contact keys, and then one line per record, the i-th line being the i-th record's row |
| CsvExport.DedupDistinct | content.js:72 | a key list without repeats is left unchanged by the `Set` |
| CsvExport.DedupPrefix | content.js:72 | keys seen later never move keys seen earlier |
| CsvExport.ContactKeysDistinct | content.js:71-75 | when stored keys are already normalized, no contact column repeats, and the columns are exactly the stored keys |
| CsvExport.ContactCell | content.js:94-95 | a contact column reads the map under its header with `_` replaced by a space, so a header with `_` exports blank when stored keys have no white space |
| CsvExport.FixedCell | content.js:92-98 | a fixed column reads the record's field, unless a contact key has the same name |
| CsvExport.ShadowableColumns | content.js:77-80 | of the fixed names, only `urn` and `location` can equal a normalized contact key |

## Left out

- The widget's construction and styling, and `darkenColor` (content.js:8-60). They are cosmetic and use floating point.
- The Blob, object URL, anchor click and dated file name of the download (content.js:103-114). The model stops at the CSV text.
- `alert` and `console` output, the button display toggles and status texts. The download button starts hidden (content.js:55), is shown after a run completes or stops with records (content.js:392, 413) and is hidden again by a restart (content.js:121); the model lets `ExportCsv` be applied to any record list. The "No profiles scraped" branch appears only as the `NoProfiles` export.
- `window.open` and all timing. The tab is a `Tab` value saying whether it opened and what each tick sees in it. `setInterval`, the `wait` delays and the no-op `setTimeout` at content.js:175 are left out, and ticks carry no time.
- DOM queries. Their results are inputs: `Entry`, `ContactBlock`, `Section` and the per-tick `Observation`.
- `window.scrollTo` (content.js:366) and `nextBtn.click()`. Following the next button appears only as moving on to the next `Page`.
- `chrome.runtime.sendMessage`. Messages go to an appended sequence of `Message` values, and tab effects (click, send, close) to a sequence of `Effect` values.
- The commented-out extractor at content.js:188-222. It is dead code.
- background.js is not part of this model. It only logs the messages it receives.
- ContactFetcher.Observation: an exception is taken to happen at the very start of a tick, before any state of that tick changes. A throw part-way through a tick, after a click was dispatched, is not modelled.
- Strings.ToLower: only ASCII letters are lowered. String lengths count characters, not UTF-16 code units.
- Dicts.Dict: keys always contain an ASCII letter, so the integer-key ordering of JavaScript objects never applies. Inherited prototype properties are not modelled, which makes two differences. A block whose normalized key is `__proto__` is stored by the model, while `contactData[keyText] = valueText` (content.js:255) ignores it, because that setter ignores a string. A contact column named after an `Object.prototype` member, such as `constructor`, read at content.js:95 for a record without that key exports the inherited function's text in JavaScript but the empty string in the model.
- Harvest.HarvestSession.StartScraping requires `Ends(pages)`: some page lacks an enabled next button. A site where every page has one does not terminate, and that case is not modelled.
- CsvExport.Headers: the header line is joined from the raw contact keys without quoting. A key containing a comma or a quote would break the header's framing; `ExportFraming` states the line as it is, not that it reads back as columns.
- CsvExport.CellValue: a contact key named `urn` or `location` takes over that fixed column, as in the source (see `ShadowableColumns` and `FixedCell`).
- Profiles.Record: the `Email` property is named `email` in the model.
