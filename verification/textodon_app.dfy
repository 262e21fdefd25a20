/**
 The application's handlers that drive the feed (`Textodon`): the tag search box
 and the refresh key, plus what the screen shows for a feed state.
 */
module Textodon {

  import opened TootHead
  import opened Toot
  import opened Feed

  /** `on_input_submitted`: a non-empty search loads that tag, an empty one the timeline. */
  function Submit(s: FeedState, value: string, cfg: Config, fetch: string -> Response): (r: Step)
    ensures value == "" ==> r.state.mode == Timeline && r.request == TimelineUrl(cfg)
    ensures value != "" ==> r.state.mode == Tag(value) && r.request == TagUrl(cfg, value)
    ensures r.raised <==> fetch(r.request).Failed?
    ensures !r.raised ==> r.state.entries == Fill(fetch(r.request).items)
    ensures r.raised ==> r.state.entries == s.entries
  {
    if value != "" then LoadTag(s, value, cfg, fetch)
    else LoadTimeline(s, cfg, fetch)
  }

  /** `action_refresh_feed`: the refresh key refreshes the feed. */
  function RefreshFeed(s: FeedState, cfg: Config, fetch: string -> Response): (r: Step)
    ensures r.state.mode == RefreshMode(s.mode)
    ensures r.request == RequestUrl(cfg, RefreshMode(s.mode))
    ensures r.raised <==> fetch(r.request).Failed?
    ensures !r.raised ==> r.state.entries == Fill(fetch(r.request).items)
    ensures r.raised ==> r.state.entries == s.entries
  {
    Refresh(s, cfg, fetch)
  }

  /**
   Whatever the previous mode, an empty search requests the timeline endpoint and
   never a tag endpoint, and a non-empty one requests that tag's endpoint.
   */
  lemma SubmitRequestsEndpoint(s: FeedState, value: string, cfg: Config, fetch: string -> Response)
    ensures value == "" ==> forall t :: Submit(s, value, cfg, fetch).request != TagUrl(cfg, t)
    ensures value != "" ==> Submit(s, value, cfg, fetch).request != TimelineUrl(cfg)
  {
    if value == "" {
      forall t | true
        ensures TimelineUrl(cfg) != TagUrl(cfg, t)
      {
        if TimelineUrl(cfg) == TagUrl(cfg, t) {
          RequestUrlInjective(cfg, Timeline, Tag(t));
        }
      }
    } else if Submit(s, value, cfg, fetch).request == TimelineUrl(cfg) {
      RequestUrlInjective(cfg, Timeline, Tag(value));
    }
  }

  /**
   Pressing refresh after a search repeats that search's request in the same mode:
   a searched tag is re-requested, never the timeline. The refresh is a new fetch
   (`f2`), and the rows are whatever it returns.
   */
  lemma RefreshAfterSubmit(s: FeedState, value: string, cfg: Config,
                           f1: string -> Response, f2: string -> Response)
    ensures var searched := Submit(s, value, cfg, f1);
      var again := RefreshFeed(searched.state, cfg, f2);
      && again.request == searched.request
      && again.state.mode == searched.state.mode
      && (f2(again.request).Fetched? ==> again.state.entries == Fill(f2(again.request).items))
      && (f2(again.request).Failed? ==> again.state.entries == searched.state.entries)
  {
    var mode := if value == "" then Timeline else Tag(value);
    RefreshAfterLoad(s, mode, cfg, f1, f2);
  }

  /** The screen: one rendered toot per row, in row order, composed at instant `now`. */
  function Screen(s: FeedState, now: Instant, toText: string -> string): (shown: seq<Rendered>)
    ensures |shown| == |s.entries|
    ensures forall i :: 0 <= i < |s.entries| ==> shown[i] == Render(s.entries[i].toot, now, toText)
  {
    seq(|s.entries|, i requires 0 <= i < |s.entries| => Render(s.entries[i].toot, now, toText))
  }

  /**
   After a successful load of N toots the screen shows exactly N rendered toots,
   the i-th showing the i-th fetched toot.
   */
  lemma ScreenAfterLoad(s: FeedState, mode: Mode, cfg: Config, fetch: string -> Response,
                        now: Instant, toText: string -> string)
    requires fetch(RequestUrl(cfg, mode)).Fetched?
    ensures var items := fetch(RequestUrl(cfg, mode)).items;
      var shown := Screen(Load(s, mode, cfg, fetch).state, now, toText);
      |shown| == |items| &&
      forall i :: 0 <= i < |items| ==> shown[i] == Render(items[i], now, toText)
  {
  }
}
