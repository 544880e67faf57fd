# OFAC China/Hong Kong monitor — a Dafny model

`ofac_monitor.py` polls the recent-actions page of the US Treasury's OFAC site. It turns each
listed row that has a date, a title link and an `href` into an action record; other rows are
skipped. The action's de-duplication key `full_url` is built from the row's date. It fetches the detail page of each action whose key it has not seen. It decides
whether the page concerns China or Hong Kong, using configured keywords and eight fixed
regular expressions. For a relevant page, it sends a notification that lists the page's
keyword lines and their context. Keys are kept in a cache (`known_actions`) so that later
cycles skip them.

The model has five modules:

- `Text` holds the Python string operations the program relies on: `lower()`, `strip()`,
  `in`, `split`, `join` and `replace`.
- `Relevance` holds `is_related_to_china_or_hk`. Each regular expression is written as a
  search over the text, and each search is proved equal to a quantified reference
  definition.
- `Listing` covers the row-to-action step of `get_recent_actions`. That includes the
  `strptime('%m/%d/%Y')` / `strftime('%Y%m%d')` date conversion with its fallback, the link
  and the key.
- `Notification` covers the message of `send_notification`: the entity-extraction loops
  and the choice of channel.
- `Monitor` holds the check cycle and the monitor object.

The outside world is an `Oracle`, which answers:

- the n-th listing request with the parsed rows (empty when the request fails);
- the n-th detail request with the page or `None`;
- the n-th mail with whether it was delivered;
- a page with the text the HTML parser extracts from it.

A `Trace` logs every request. The cycle is first written as functions of the oracle and the
state: `Visit` for one action, `Scan` for the loop, `Cycle` for the whole check. Its
properties are lemmas about these functions. The class `OFACMonitor` then runs the cycle
step by step against a `Web` object, and `CheckForUpdates` is proved to leave exactly the
state `Cycle` describes.

The code records a relevant action only when its notification succeeded, so a key is not
marked as seen merely because its page was fetched. A relevant action whose delivery failed
is fetched again in the next cycle that lists it, unless a later row of the same day in the
same cycle recorded the key. That happens when the later row's page was missing, empty or
irrelevant, or when its notification was delivered. Within one cycle, a later action with the
same key (another row of the same day) fetches the key again when an earlier one's delivery
failed. A key a cycle did record is not fetched by the next cycle. `TwoCycles` states the
two-cycle facts. `VisitCases` states the within-cycle one: every action whose key is not
known when the loop reaches it is fetched. `FailedThenRecordedSameDay` shows the exception:
the failed notification is then never retried.

## Model

| member | source | states |
|---|---|---|
| Text.LowerShape | ofac_monitor.py:176 | lower-casing keeps the length and maps every character through the ASCII lower-case map |
| Text.LowerIdempotent | ofac_monitor.py:176 | lower-casing a lower-cased string changes nothing |
| Text.Lower | ofac_monitor.py:176 | `lower()`; its contract is `Text.LowerShape` |
| Text.Strip | ofac_monitor.py:134-135 | `strip()`; its contract is `Text.StripSpec` and `Text.StripBounds` |
| Text.StripBounds | ofac_monitor.py:134-135 | `strip()` gives the slice of the input between a whitespace prefix and a whitespace suffix |
| Text.StripSpec | ofac_monitor.py:134-135 | `strip()` is the slice between a whitespace prefix and a whitespace suffix; it is empty exactly when the string is all whitespace; otherwise it neither starts nor ends with whitespace |
| Text.Contains | ofac_monitor.py:180 | `p in s`; its contract is `Text.ContainsIff` |
| Text.ContainsIff | ofac_monitor.py:180 | `p in s` holds exactly when `p` occurs at some position of `s` |
| Text.Split | ofac_monitor.py:217 | `split` gives at least one part and no part contains the separator |
| Text.SplitJoin | ofac_monitor.py:227 | splitting a join of separator-free parts gives the parts back |
| Text.JoinSplit | ofac_monitor.py:217 | joining the split of a string gives the string back |
| Text.Join | ofac_monitor.py:227 | `'\n'.join(...)`; its contract is `Text.SplitJoin`, `Text.JoinSplit` and `Text.JoinSnoc` |
| Text.Remove | ofac_monitor.py:143 | `replace('/', '')`; its contract is `Text.RemoveSpec`, `Text.RemoveMembers`, `Text.RemoveOne` and `Text.RemoveAppend` |
| Text.RemoveSpec | ofac_monitor.py:143 | `replace('/', '')` leaves no `/` and is the identity on strings without `/` |
| Text.RemoveMembers | ofac_monitor.py:143 | a character is in the result exactly when it is in the input and is not `/` |
| Text.RemoveCons | ofac_monitor.py:143 | the first character is dropped exactly when it is `/`, and the rest is handled alone |
| Text.RemoveOne | ofac_monitor.py:143 | a single character is dropped exactly when it is `/` |
| Text.RemoveAppend | ofac_monitor.py:143 | removal distributes over concatenation, so with `RemoveOne` the result is the other characters in order, with their counts |
| Relevance.PhraseSearchIff | ofac_monitor.py:185-188 | the search for `lead(a1 or ... or an)` succeeds exactly when some `lead + ai` occurs in the text |
| Relevance.BeforeLineBreakIff | ofac_monitor.py:189-192 | the lazy `.*?` scan finds an alternative exactly when one starts before the next line break |
| Relevance.SameLineSearchIff | ofac_monitor.py:189-192 | the search for `lead.*?(a1 or ... or an)` succeeds exactly when the lead occurs and an alternative starts later on the same line |
| Relevance.MatchesIff | ofac_monitor.py:195-196 | a pattern matches exactly when its reference definition holds somewhere in the text |
| Relevance.AnyKeywordIff | ofac_monitor.py:179-181 | the keyword loop succeeds exactly when some lower-cased keyword occurs in the lower-cased content |
| Relevance.AnyPatternIff | ofac_monitor.py:195-197 | the pattern loop succeeds exactly when one of the patterns matches |
| Relevance.IsRelated | ofac_monitor.py:171-199 | the relevance test; its contract is `Relevance.RelatedIff` |
| Relevance.RelatedIff | ofac_monitor.py:171-199 | relevance holds exactly when the content is non-empty and has a keyword hit or a match of one of the eight expressions |
| Relevance.EmptyNotRelated | ofac_monitor.py:173-174 | empty content is never relevant, whatever the keywords |
| Relevance.KeywordMakesRelated | ofac_monitor.py:179-181 | a keyword hit alone makes non-empty content relevant |
| Relevance.NoKeywordThenPatterns | ofac_monitor.py:183-197 | with no keyword hit, relevance is exactly a match of one of the eight expressions |
| Relevance.RelatedIgnoresCase | ofac_monitor.py:176 | relevance of the lower-cased content equals relevance of the content |
| Listing.ParseDate | ofac_monitor.py:140 | a date string that parses gives a real calendar date (year 1-9999, day within its month, leap years included) |
| Listing.ParseDateIff | ofac_monitor.py:140 | a string parses to `d` exactly when `d` is valid and the string writes it as month (two digits, or one below 10), `/`, day (two digits, one below 10, or a space and one below 10), `/`, four-digit year |
| Listing.FormatDate | ofac_monitor.py:139-143 | a parsed date becomes eight digits that decode to its year, month and day; an unparsable one has every `/` removed; neither holds `/` |
| Listing.Compact | ofac_monitor.py:141 | `strftime('%Y%m%d')`; its contract is `Listing.CompactDecodes` and `Listing.CompactInjective` |
| Listing.CompactDecodes | ofac_monitor.py:141 | `%Y%m%d` of a valid date is eight digits whose slices decode to year, month and day |
| Listing.CompactInjective | ofac_monitor.py:141 | two valid dates have the same `%Y%m%d` form exactly when they are equal |
| Listing.ParseSlashed | ofac_monitor.py:140 | every valid date written `MM/DD/YYYY` or `M/D/YYYY` parses back to itself |
| Listing.FormatDateKeysDays | ofac_monitor.py:139-143 | two parsable date strings get the same formatted date exactly when they name the same day |
| Listing.MakeAction | ofac_monitor.py:130-151 | a row yields an action exactly when it has a date, a title element and an `href`; the fields are stripped; the link is prefixed with the base URL exactly when it starts with `/`; the key is base URL + `/recent-actions/` + formatted date |
| Listing.SameKeyIffSameDay | ofac_monitor.py:150 | two rows with parsable dates share a key exactly when their dates name the same day |
| Listing.ParseRows | ofac_monitor.py:128-154 | a listing yields at most one action per row |
| Listing.ParseRowsMembers | ofac_monitor.py:128-154 | the actions of a listing are exactly those some row yields |
| Listing.CollectActions | ofac_monitor.py:128-154 | the loop over the rows returns the actions of the listing in row order |
| Notification.Entities | ofac_monitor.py:216-224 | the entries of the page's lines; its contract is `Notification.EntitiesMembers` and `Notification.EntitiesNoLineBreak` |
| Notification.ExtractEntities | ofac_monitor.py:216-224 | the nested loops return the entries of the page's lines |
| Notification.CollectContext | ofac_monitor.py:222-224 | the inner loop returns the context entries of one keyword line |
| Notification.ContextMembers | ofac_monitor.py:222-224 | the context of line i is exactly the indented, stripped, non-blank lines of its window other than line i |
| Notification.BlockMembers | ofac_monitor.py:218-224 | a line contributes exactly its stripped self and its context, and only when it mentions a keyword |
| Notification.EntitiesMembers | ofac_monitor.py:216-224 | an entry is listed exactly when it is a stripped keyword line or an indented, stripped, non-blank line within two positions of one |
| Notification.EntitiesNoLineBreak | ofac_monitor.py:217-224 | entries of split lines hold no line break |
| Notification.EntitySection | ofac_monitor.py:226-229 | the entity part of the message; its contract is `Notification.EntitySectionLines` |
| Notification.EntitySectionLines | ofac_monitor.py:226-229 | the entity part is empty exactly when there are no entries; otherwise its lines after the heading are the first ten entries, then the trailer exactly when there are more than ten |
| Notification.Message | ofac_monitor.py:205-229 | the whole message; its contract is `Notification.MessageShape` |
| Notification.MessageShape | ofac_monitor.py:205-229 | the message opens with its fixed part, adds nothing when there are no entries, and otherwise lists the first ten entries and the trailer line exactly when there are more |
| Notification.Dispatch | ofac_monitor.py:233-241 | email reports what the transport answered, SMS and WeChat report success, any other channel reports failure |
| Monitor.Notify | ofac_monitor.py:201-241 | `send_notification` as a function of the oracle; its contract is `Monitor.NotifyChannels` |
| Monitor.NotifyChannels | ofac_monitor.py:233-241 | an unsupported channel fails and sends nothing; email sends exactly one mail with the title subject and the message, and reports its delivery |
| Monitor.Visit | ofac_monitor.py:342-358 | one pass of the loop body; its contract is `Monitor.VisitCases` |
| Monitor.VisitCases | ofac_monitor.py:341-358 | a known key changes nothing; a new key is fetched once; the key is recorded exactly after an irrelevant or missing page or a delivered notification; only a delivered notification adds the action; an irrelevant or missing page sends no mail; a relevant one leaves exactly the trace `Notify` leaves |
| Monitor.FailedStaysUnknown | ofac_monitor.py:349-355 | a relevant new action whose notification failed is neither recorded nor reported |
| Monitor.Scan | ofac_monitor.py:341-358 | the loop over the actions; its contract is carried by the `Scan` lemmas below |
| Monitor.ScanGrows | ofac_monitor.py:338-358 | known keys only grow, and only by listed keys; earlier reported actions and requests are kept |
| Monitor.ScanFetchesOnlyUnknown | ofac_monitor.py:341-346 | every detail request of the loop is for a listed key unknown at the start |
| Monitor.RecordedWasFetched | ofac_monitor.py:341-358 | every key the loop records was fetched by it |
| Monitor.ScanFetchesUnknown | ofac_monitor.py:341-346 | every listed key unknown at the start is fetched |
| Monitor.RecordingAction | ofac_monitor.py:341-358 | a key recorded by the loop was recorded by one of its actions |
| Monitor.RecordedStaysKnown | ofac_monitor.py:341-358 | a key recorded by one action stays known to the end of the loop |
| Monitor.ScanKnownIff | ofac_monitor.py:341-358 | after the loop a key is known exactly when it was known before or some action with that key had a missing, empty or irrelevant page or a delivered notification |
| Monitor.ScanNotifiesOncePerKey | ofac_monitor.py:352-355 | the reported actions have distinct keys, none known at the start and all known at the end |
| Monitor.NewActionsStep | ofac_monitor.py:352-354 | one more visit appends its action to `new_actions` exactly when its notification is delivered |
| Monitor.ReportingVisit | ofac_monitor.py:352-354 | every action the loop reports was delivered by one of its visits |
| Monitor.DeliveredIsReported | ofac_monitor.py:352-354 | every action delivered by one of the visits is reported by the loop |
| Monitor.ScanNewActionsIff | ofac_monitor.py:339-358 | an action is in the loop's `new_actions` exactly when one of its visits of that action delivered the notification |
| Monitor.ScanMails | ofac_monitor.py:349-353 | mails are only appended: on the email channel exactly one per new action with a relevant page, on any other channel none |
| Monitor.ScanAllKnown | ofac_monitor.py:341-342 | when every listed key is known, the loop changes nothing |
| Monitor.Cycle | ofac_monitor.py:327-363 | one `check_for_updates`; its contract is carried by the `Cycle` lemmas below |
| Monitor.CycleEmptyListing | ofac_monitor.py:332-335 | an empty listing leaves the cache unchanged and unsaved, with no detail request and no mail |
| Monitor.CycleKeepsKnown | ofac_monitor.py:327-363 | the known keys only grow, by listed keys; the cycle saves exactly when the listing is non-empty, and then sets the check time |
| Monitor.CycleFetchesIffUnknown | ofac_monitor.py:338-346 | a cycle fetches a key exactly when it is listed and not known |
| Monitor.CycleNotifiesOncePerKey | ofac_monitor.py:339-358 | at most one delivered notification per key per cycle, only for keys unknown before it, all recorded by it |
| Monitor.CycleNewActionsIff | ofac_monitor.py:327-358 | a cycle reports an action exactly when one of its visits of that action delivered the notification |
| Monitor.FailedThenRecordedSameDay | ofac_monitor.py:341-358 | two same-day rows share a key; the first is relevant but its mail is not delivered, the second has no relevant page: the key is recorded, nothing is reported, both rows are fetched, one mail is sent, and the next cycle does not fetch the key |
| Monitor.OneNewAction | ofac_monitor.py:341-358 | with one new listed action: one fetch; a missing, empty or irrelevant page records it with no mail; a relevant page sends one mail whose delivery alone decides recording and reporting |
| Monitor.TwoCycles | ofac_monitor.py:327-363 | the next cycle never fetches a key the previous one recorded, and fetches again every listed key it left unrecorded |
| Monitor.Web.FetchListing | ofac_monitor.py:119-126 | returns the oracle's next listing and logs the request |
| Monitor.Web.FetchPage | ofac_monitor.py:161-169 | returns the oracle's next detail page or `None`, and logs the request |
| Monitor.Web.SendMail | ofac_monitor.py:255-265 | returns the oracle's answer for the next mail, and logs the mail |
| Monitor.OFACMonitor.constructor | ofac_monitor.py:70-73 | the monitor starts from the given configuration and the loaded cache |
| Monitor.OFACMonitor.SaveCache | ofac_monitor.py:110-114 | the stored cache becomes the current one, with one more save |
| Monitor.OFACMonitor.GetRecentActions | ofac_monitor.py:116-159 | one listing request, and the actions of the rows it returns |
| Monitor.OFACMonitor.SendEmailNotification | ofac_monitor.py:243-265 | one mail with the title subject and the message, reporting its delivery |
| Monitor.OFACMonitor.SendNotification | ofac_monitor.py:201-241 | the result and the requests are those of `Notify` on the message built from the action and the page |
| Monitor.OFACMonitor.VisitAction | ofac_monitor.py:342-358 | one pass of the loop body leaves the state `Visit` describes |
| Monitor.OFACMonitor.VisitAll | ofac_monitor.py:341-358 | the loop leaves the state `Scan` describes |
| Monitor.OFACMonitor.CheckForUpdates | ofac_monitor.py:327-368 | the cache, the reported actions, the requests and the saves are exactly those of `Cycle` |

## Left out

- HTTP requests, the HTML parser (`BeautifulSoup`, `.select`, `get_text`) and the SMTP, SMS and WeChat transports are not modelled. They are the `Oracle`, and a failed request is its empty or `None` answer.
- `_load_config` and `_load_cache` read files. The configuration is a parameter, and the loaded cache is given to the constructor.
- The JSON encoding of the cache is left out. The file is the `stored` field.
- `run`, its sleep, its restart after errors and its interrupt handling are left out, as scheduling. The model covers one cycle and two consecutive cycles.
- Logging is left out.
- `datetime.now().isoformat()` is the parameter `now`.
- Missing configuration keys (a `KeyError` in the source) are left out. The configuration is a value with every entry present.
- The SMS and WeChat senders' `try` blocks cannot fail as written, so they are modelled as success.
- Monitor.OFACMonitor.CheckForUpdates: returns `new_actions`, which the source only logs.
- Text.Lower: lower-cases ASCII letters only, because the keywords and patterns that decide relevance are ASCII or caseless Chinese. Non-ASCII case mappings are not modelled.
- Listing.ParseDate: accepts ASCII digits only, where Python's `strptime` also accepts other Unicode decimal digits.
- Listing.FormatDate: writes years below 1000 with four digits. Some C libraries' `strftime('%Y')` leave them unpadded.
- The code has no once-per-day notification policy, no active time window and no atomic write of the cache file, so none is modelled.
