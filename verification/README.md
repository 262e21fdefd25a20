# Textodon feed core in Dafny

Textodon is a terminal viewer for the public feed of a Mastodon instance. This
project models the part of it that is more than widget wiring:

- the relative-age label in each toot's header (`TootHead.compose`): whole
  seconds of the time since the toot was posted, within one day, shown as
  hours when there is at least one hour and as minutes otherwise;
- the media lines under a toot (`Toot.compose`): one line per attachment with
  a non-empty description, in attachment order, written
  `description [[Link]](url)`;
- the endpoint URLs: `INSTANCE_URL` + `/api/v1/timelines/public` or
  `/api/v1/timelines/tag/` + tag (unescaped) + `?limit=` + `LIMIT`;
- the feed's mode (`Feed.tag`: the timeline or a tag), how `load_timeline`,
  `load_tag`, `dorefresh` and `on_mount` change it and which URL each requests,
  how `fill_feed` replaces the rows with the fetched page, and how the search
  box (`Textodon.on_input_submitted`) chooses between a tag and the timeline.

Modules: `Decimal` (Python's decimal text of integers and its inverse),
`TootHead`, `Toot`, `Feed`, `Textodon`, and `Wrappers` (an `Option` type).
Instants are integers counting microseconds, the resolution of Python's
`datetime`. The HTTP fetch with its JSON decoding is a parameter
`fetch: string -> Response`, from the requested URL to either the decoded page
or `Failed`. The HTML-to-text conversion is a parameter `toText`.

Behaviour of the code that the model keeps:

- `timedelta.seconds` is never negative and drops whole days. A toot posted
  25 hours ago reads "1h", and one stamped 5 seconds in the future reads "23h"
  (`TootHead.AgeLabelExamples`).
- Media lines use double brackets, `[[Link]]`, as the code writes them.
- Only the empty search string falls back to the timeline. A blank string such
  as `" "` is truthy in Python and is searched as a tag.
- `load_tag("")` sets the mode to the empty tag. No call site in the program
  does this: the search handler only calls `load_tag` with a non-empty value
  (textodon.py:126) and `dorefresh` only with a truthy tag (textodon.py:73), so
  the empty tag arises only when `load_tag` is called directly. From there,
  because an empty tag is falsy, `dorefresh` loads the timeline and the mode
  becomes the timeline (`Feed.RefreshMode`).
- When the fetch raises, `load_*` has already set the mode; the rows stay as
  they were (`Feed.Load`).
- Every load and refresh sends a new request, whose answer may differ from the
  previous one; the lemmas about repeated requests take one fetch per request.
- There is no guard against overlapping requests, no typed error taxonomy,
  no percent-encoding of tags and no clamping of ages, so none is modelled.

## Model

| member | source | states |
|---|---|---|
| Decimal.NatToString | textodon.py:34-36 | the decimal text of a count is a non-empty digit string without a leading zero; it starts with '0' only for zero and is one digit exactly below ten |
| Decimal.ParseNatToString | textodon.py:34-36 | the decimal text of a count reads back as that count |
| Decimal.NatToStringParse | textodon.py:34-36 | every digit string without a leading zero is the decimal text of the count it reads as, so the text and the count determine each other |
| Decimal.NatToStringInjective | textodon.py:34-36 | distinct counts give distinct decimal texts, so different ages never share a label |
| Decimal.IntToString | textodon.py:81 | the text of the limit starts with '-' exactly when the limit is negative |
| Decimal.ParseIntToString | textodon.py:81 | the text of any limit, negative ones included, reads back as that limit |
| Decimal.ParseIntSound | textodon.py:88 | every text that reads as a limit is the text of that limit |
| TootHead.MinutesAgo | textodon.py:31 | the minute count is below 1440 and is the whole number of minutes in the within-day seconds |
| TootHead.HoursAgo | textodon.py:32 | the hour count is below 24 and is the whole number of hours in the within-day seconds |
| TootHead.AgeLabel | textodon.py:33-36 | the label is canonical digits followed by 'h' or 'm', and ends in 'h' exactly when the hour count is non-zero (its value: `TootHead.AgeLabelMeaning`) |
| TootHead.DeltaSeconds | textodon.py:29-31 | the seconds component is in 0..86399 and differs from the elapsed whole seconds by a whole number of days |
| TootHead.AgeLabelMeaning | textodon.py:31-36 | the label reads back as the hours of the within-day age when it is at least an hour, and as its minutes otherwise |
| TootHead.AgeLabelBounds | textodon.py:31-36 | the label always reads back, as 1 to 23 hours or 0 to 59 minutes; never negative |
| TootHead.DeltaSecondsIgnoresDays | textodon.py:29-31 | adding whole days to the age leaves the seconds component unchanged |
| TootHead.AgeLabelIgnoresDays | textodon.py:29-32 | adding any whole number of days to the age leaves the label unchanged |
| TootHead.LabelAfterSeconds | textodon.py:29-36 | an age of a whole number of seconds reads as the hours of its seconds within the day when there is at least one, else as the minutes |
| TootHead.AgeLabelExamples | textodon.py:29-36 | 59 s reads "0m", 61 s "1m", 3661 s "1h", one day and 61 s "1m", and 5 s in the future "23h" |
| Toot.HasDescription | textodon.py:57 | an attachment is skipped exactly when its description is missing or empty, Python's two falsy values here |
| Toot.MediaLine | textodon.py:58 | a media line is 11 characters longer than the description and the URL together (its parts: `Toot.MediaLineParts`) |
| Toot.MediaLineParts | textodon.py:58 | a media line is the description, then ` [[Link]](`, then the URL, then `)` |
| Toot.MediaLines | textodon.py:56-59 | there are at most as many media lines as attachments, and exactly as many when every attachment has a description |
| Toot.MediaLinesAppend | textodon.py:56-59 | the media lines of two attachment lists joined are the lines of each, joined in order |
| Toot.MediaLineAt | textodon.py:56-59 | each described attachment has its line, placed after the lines of the described attachments before it |
| Toot.MediaLinesOrder | textodon.py:56-59 | of two described attachments, the earlier one's line comes first |
| Toot.MediaLinesSound | textodon.py:56-59 | every media line is the line of some described attachment of the toot |
| Toot.UndescribedContributesNothing | textodon.py:57 | inserting an attachment whose description is missing or empty anywhere changes no media line |
| Toot.MediaLinesSingle | textodon.py:57-59 | a single attachment gives its line when described and nothing otherwise |
| Toot.MediaLineExample | textodon.py:58 | description "cat" and URL "http://x/1" give "cat [[Link]](http://x/1)" |
| Toot.MediaLinesExample | textodon.py:56-59 | of a described, an empty-described and an undescribed attachment only the first gives a line |
| Toot.Render | textodon.py:25-59 | the rendered toot carries the account's display name and handle, an age label that reads back as the within-day age, the converted body, and as media exactly the media lines of its attachments, at most one per attachment (which lines, and where: `Toot.MediaLineAt`, `Toot.MediaLinesSound`, `Toot.MediaLinesAppend`) |
| Toot.RenderDependsOnNowOnlyThroughAge | textodon.py:25-59 | two renders of the same toot at different instants differ at most in the age label |
| Feed.TimelineUrl | textodon.py:81 | the timeline URL reads back as the timeline mode; since `Feed.ParseRequestUrl` accepts only the instance URL, then a mode path, then `?limit=` and the limit's text, this fixes it as instance URL + `/api/v1/timelines/public` + `?limit=` + limit |
| Feed.TagUrl | textodon.py:88 | the URL for a tag reads back as that tag, inserted unescaped |
| Feed.RequestUrl | textodon.py:78-90 | the URL requested for a mode reads back as that mode |
| Feed.ParseAssembledUrl | textodon.py:13-16 | instance URL, path of a mode and `?limit=` with the limit, joined, read back as that mode |
| Feed.ParseRequestUrlSound | textodon.py:78-90 | any URL that reads back as a mode is exactly the URL requested for that mode, so parse and URL construction are inverse |
| Feed.RequestUrlInjective | textodon.py:81-88 | distinct modes request distinct URLs; a tag URL is never the timeline URL |
| Feed.DefaultTimelineUrl | textodon.py:13-16 | with the default instance and limit the timeline URL is `https://universeodon.com/api/v1/timelines/public?limit=20` |
| Feed.Fill | textodon.py:92-96 | the rows after filling are one per fetched toot, the i-th showing the i-th toot |
| Feed.FillToots | textodon.py:92-96 | the toots shown by the filled rows are exactly the fetched toots, in order |
| Feed.TootsFill | textodon.py:92-96 | every row list is the fill of the toots it shows, so rows and toots determine each other |
| Feed.Load | textodon.py:78-96 | a load sets the mode, requests exactly the URL of that mode, replaces the rows by the fetched page when the fetch succeeds and keeps them when it raises |
| Feed.LoadTimeline | textodon.py:78-83 | loading the timeline sets the mode to the timeline whatever it was, requests the timeline URL, and replaces the rows with the fetched page, or keeps them when the fetch raises |
| Feed.LoadTag | textodon.py:85-90 | loading a tag sets the mode to that tag whatever it was, requests that tag's URL, and replaces the rows with the fetched page, or keeps them when the fetch raises |
| Feed.HasTag | textodon.py:73 | the tag is falsy exactly when the feed has no tag (the timeline) or an empty one |
| Feed.RefreshMode | textodon.py:73-76 | the mode a refresh reloads is the current one exactly when it is the timeline or a non-empty tag, and the timeline otherwise |
| Feed.Refresh | textodon.py:71-76 | a refresh reloads the refresh mode of the current one, requests its URL, and replaces the rows with the fetched page or keeps them when the fetch raises |
| Feed.RefreshKeepsMode | textodon.py:73-76 | a refresh requests the tag URL when the tag is truthy and the timeline URL otherwise; the mode and the URL's read-back are those of `Feed.Refresh` |
| Feed.RefreshIdempotent | textodon.py:71-76 | a second refresh sends the same request in the same mode as the first; its rows are the fill of the second fetch, or the first refresh's rows when that fetch raises |
| Feed.RefreshAfterLoad | textodon.py:71-90 | a refresh right after loading the timeline or a non-empty tag sends the same request and keeps the mode; its rows are the fill of the new fetch, or the loaded rows when it raises |
| Feed.LoadDiscardsPrevious | textodon.py:92-96 | after a successful fetch the feed is the same whatever it held before |
| Feed.Mount | textodon.py:67-69 | mounting loads the timeline: the rows show the fetched page, or stay empty when the first fetch fails |
| Textodon.Submit | textodon.py:123-129 | an empty search sets the timeline mode and requests the timeline URL; any other sets that tag and requests its URL; either way the rows become the fetched page, or stay when the fetch raises |
| Textodon.RefreshFeed | textodon.py:117-121 | the refresh key reloads the refresh mode of the current one and requests its URL; rows as for `Feed.Refresh` |
| Textodon.SubmitRequestsEndpoint | textodon.py:123-129 | an empty search never requests a tag URL, and a non-empty one never the timeline URL, whatever the previous mode |
| Textodon.RefreshAfterSubmit | textodon.py:117-129 | pressing refresh after a search sends that search's request again in the same mode; its rows are the fill of the new fetch, or the search's rows when it raises |
| Textodon.Screen | textodon.py:92-96 | the screen shows one rendered toot per row, the i-th being the render of the i-th row's toot |
| Textodon.ScreenAfterLoad | textodon.py:92-96 | after a successful load of N toots the screen shows N rendered toots, the i-th being the i-th fetched toot |

## Left out

- The HTTP request and the JSON decoding (`requests.get`, `response.json()`): the fetch is a parameter; a payload that is not a list of toots is not modelled.
- Parsing `created_at` with `rstrip('Z')` and `datetime.fromisoformat`, and reading the clock with `datetime.utcnow()`: instants arrive already parsed, as integers.
- `html2text` and `rich.markdown.Markdown`: library calls; the body text is `toText(content)` and the Markdown wrapping of body and media lines is not modelled.
- The widgets themselves: labels, CSS classes, the `' • '` separators, key bindings, dark-mode toggling, `query`/`query_one` lookups; the model keeps the header's three fields and the rows' contents and order.
- The raw `Feed.feed` attribute: it only holds the last fetched page, which the rows already show.
- Argument parsing and the reassignment of `INSTANCE_URL` and `LIMIT` in `__main__`: the instance URL and the limit are a `Config` parameter.
- Exceptions from the fetch: textodon.py has no `try`, so an exception from `requests.get` or `.json()` escapes `on_mount`, `dorefresh` and `on_input_submitted`. The model records it as a raised step and keeps going; states after a raised step (for example in `Feed.RefreshIdempotent` when the first fetch fails) are reached only if the UI framework survives the exception.
- Textodon.Screen: renders every row at one instant `now`, whereas each `TootHead.compose` reads `datetime.utcnow()` itself (textodon.py:29), so rows composed a moment apart may use slightly different instants.
- Errors raised while a toot widget is composed (a missing key, an unparsable timestamp): they happen in the UI framework after the rows are filled.
