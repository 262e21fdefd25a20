/**
 The feed list (`Feed`): which endpoint it requests, the mode it remembers, and
 how a fetched page replaces its entries.

 The HTTP request and the JSON decoding are one parameter `fetch` from the
 requested URL to either the decoded page of toots or a failure (an exception
 escaping `requests.get` or `response.json()`).
 */
module Feed {

  import opened Wrappers
  import opened Decimal
  import opened Toot

  /** The instance and page size: the module globals `INSTANCE_URL` and `LIMIT`. */
  datatype Config = Config(instanceUrl: string, limit: int)

  /** The values in effect when no command-line arguments are given. */
  const DefaultConfig := Config("https://universeodon.com", 20)

  const TimelinePath := "/api/v1/timelines/public"
  const TagPath := "/api/v1/timelines/tag/"

  /** `Feed.tag`: `None` is the public timeline, otherwise the searched tag. */
  datatype Mode = Timeline | Tag(tag: string)

  /** Recovers the mode from a URL built for `cfg`; any other URL is `None`. */
  function ParseRequestUrl(cfg: Config, url: string): Option<Mode> {
    var suffix := "?limit=" + IntToString(cfg.limit);
    var base := cfg.instanceUrl;
    if |url| < |base| + |suffix| || url[..|base|] != base || url[|url| - |suffix|..] != suffix then None
    else
      var path := url[|base|..|url| - |suffix|];
      if path == TimelinePath then Some(Timeline)
      else if |TagPath| <= |path| && path[..|TagPath|] == TagPath then Some(Tag(path[|TagPath|..]))
      else None
  }

  /** The path part of the endpoint for `mode`. */
  function ModePath(mode: Mode): string {
    match mode
    case Timeline => TimelinePath
    case Tag(t) => TagPath + t
  }

  /** A URL assembled from the instance, the path of a mode and the limit reads back as that mode. */
  lemma ParseAssembledUrl(cfg: Config, mode: Mode)
    ensures ParseRequestUrl(cfg, cfg.instanceUrl + ModePath(mode) + ("?limit=" + IntToString(cfg.limit)))
      == Some(mode)
  {
    var suffix := "?limit=" + IntToString(cfg.limit);
    var base := cfg.instanceUrl;
    var middle := ModePath(mode);
    var url := base + middle + suffix;
    assert url[..|base|] == base;
    assert url[|url| - |suffix|..] == suffix;
    assert url[|base|..|url| - |suffix|] == middle;
    if mode.Tag? {
      assert middle[18] == 't' && TimelinePath[18] == 'p';
      assert middle[..|TagPath|] == TagPath;
      assert middle[|TagPath|..] == mode.tag;
    }
  }

  /** The URL `load_timeline` requests; it reads back as the timeline. */
  function TimelineUrl(cfg: Config): (url: string)
    ensures ParseRequestUrl(cfg, url) == Some(Timeline)
  {
    var url := cfg.instanceUrl + TimelinePath + "?limit=" + IntToString(cfg.limit);
    ParseAssembledUrl(cfg, Timeline);
    assert url == cfg.instanceUrl + ModePath(Timeline) + ("?limit=" + IntToString(cfg.limit));
    url
  }

  /**
   The URL `load_tag(tag)` requests; the tag goes into the path as it is, unescaped,
   and the URL reads back as that tag.
   */
  function TagUrl(cfg: Config, tag: string): (url: string)
    ensures ParseRequestUrl(cfg, url) == Some(Tag(tag))
  {
    var url := cfg.instanceUrl + TagPath + tag + "?limit=" + IntToString(cfg.limit);
    ParseAssembledUrl(cfg, Tag(tag));
    assert url == cfg.instanceUrl + ModePath(Tag(tag)) + ("?limit=" + IntToString(cfg.limit));
    url
  }

  /** The URL requested when the feed is loaded in `mode`; it reads back as `mode`. */
  function RequestUrl(cfg: Config, mode: Mode): (url: string)
    ensures ParseRequestUrl(cfg, url) == Some(mode)
  {
    match mode
    case Timeline => TimelineUrl(cfg)
    case Tag(t) => TagUrl(cfg, t)
  }

  /** The parse accepts only request URLs: whatever reads as a mode is the URL of that mode. */
  lemma ParseRequestUrlSound(cfg: Config, url: string, mode: Mode)
    requires ParseRequestUrl(cfg, url) == Some(mode)
    ensures url == RequestUrl(cfg, mode)
  {
    var suffix := "?limit=" + IntToString(cfg.limit);
    var base := cfg.instanceUrl;
    var path := url[|base|..|url| - |suffix|];
    assert url == base + path + suffix;
    if mode.Tag? {
      assert path == TagPath + mode.tag;
    }
  }

  /** Distinct modes request distinct URLs; in particular a tag URL is never the timeline URL. */
  lemma RequestUrlInjective(cfg: Config, m1: Mode, m2: Mode)
    requires RequestUrl(cfg, m1) == RequestUrl(cfg, m2)
    ensures m1 == m2
  {
  }

  /** With the defaults, the timeline URL is the public timeline of universeodon.com, 20 toots. */
  lemma DefaultTimelineUrl()
    ensures TimelineUrl(DefaultConfig) == "https://universeodon.com/api/v1/timelines/public?limit=20"
  {
    var limit := IntToString(20);
    assert limit == NatToString(2) + [DigitChar(0)];
    assert limit == "20";
    var head := "https://universeodon.com" + TimelinePath;
    assert head == "https://universeodon.com/api/v1/timelines/public";
    var tail := "?limit=" + "20";
    assert tail == "?limit=20";
    assert head + tail == "https://universeodon.com/api/v1/timelines/public?limit=20";
    assert TimelineUrl(DefaultConfig) == head + "?limit=" + limit;
  }

  /** One row of the list view: `ListItem(Toot(item))`. */
  datatype Entry = Entry(toot: Item)

  /** The feed: its mode and its list rows, in display order. */
  datatype FeedState = FeedState(mode: Mode, entries: seq<Entry>)

  /** What the fetch gives back for one request. */
  datatype Response = Fetched(items: seq<Item>) | Failed

  /** One feed operation: the state afterwards, the URL it requested, and whether it raised. */
  datatype Step = Step(state: FeedState, request: string, raised: bool)

  /** A feed before it is mounted: `tag = None`, an empty list. */
  const Initial := FeedState(Timeline, [])

  /** `fill_feed`: the rows for a fetched page, one per toot, in fetch order. */
  function Fill(items: seq<Item>): (entries: seq<Entry>)
    ensures |entries| == |items|
    ensures forall i :: 0 <= i < |items| ==> entries[i].toot == items[i]
    decreases |items|
  {
    if |items| == 0 then []
    else [Entry(items[0])] + Fill(items[1..])
  }

  /** The toots the rows show, in display order. */
  function Toots(entries: seq<Entry>): (items: seq<Item>)
    ensures |items| == |entries|
  {
    seq(|entries|, i requires 0 <= i < |entries| => entries[i].toot)
  }

  /** Filling the list loses and reorders nothing: the rows show exactly the fetched toots. */
  lemma FillToots(items: seq<Item>)
    ensures Toots(Fill(items)) == items
  {
  }

  /** Every list of rows is the fill of the toots it shows. */
  lemma TootsFill(entries: seq<Entry>)
    ensures Fill(Toots(entries)) == entries
  {
  }

  /**
   The body shared by `load_timeline` and `load_tag`: set the mode, request its URL,
   and replace the rows with the fetched page. When the fetch raises, the mode has
   already changed and the rows are left as they were.
   */
  function Load(s: FeedState, mode: Mode, cfg: Config, fetch: string -> Response): (r: Step)
    ensures r.state.mode == mode
    ensures r.request == RequestUrl(cfg, mode)
    ensures ParseRequestUrl(cfg, r.request) == Some(mode)
    ensures r.raised <==> fetch(r.request).Failed?
    ensures !r.raised ==> Toots(r.state.entries) == fetch(r.request).items
    ensures r.raised ==> r.state.entries == s.entries
  {
    var url := RequestUrl(cfg, mode);
    match fetch(url)
    case Fetched(items) =>
      FillToots(items);
      Step(FeedState(mode, Fill(items)), url, false)
    case Failed =>
      Step(s.(mode := mode), url, true)
  }

  /** `load_timeline` */
  function LoadTimeline(s: FeedState, cfg: Config, fetch: string -> Response): (r: Step)
    ensures r.state.mode == Timeline
    ensures r.request == TimelineUrl(cfg)
    ensures r.raised <==> fetch(r.request).Failed?
    ensures !r.raised ==> r.state.entries == Fill(fetch(r.request).items)
    ensures r.raised ==> r.state.entries == s.entries
  {
    Load(s, Timeline, cfg, fetch)
  }

  /** `load_tag(tag)` */
  function LoadTag(s: FeedState, tag: string, cfg: Config, fetch: string -> Response): (r: Step)
    ensures r.state.mode == Tag(tag)
    ensures r.request == TagUrl(cfg, tag)
    ensures r.raised <==> fetch(r.request).Failed?
    ensures !r.raised ==> r.state.entries == Fill(fetch(r.request).items)
    ensures r.raised ==> r.state.entries == s.entries
  {
    Load(s, Tag(tag), cfg, fetch)
  }

  /**
   Python truthiness of `Feed.tag`: a tag counts only when it is a non-empty string.
   The two falsy values are `None` (the timeline) and the empty tag.
   */
  function HasTag(mode: Mode): (b: bool)
    ensures !b <==> mode == Timeline || mode == Tag("")
  {
    mode.Tag? && mode.tag != ""
  }

  /** The mode a refresh reloads: an empty tag is falsy and falls back to the timeline. */
  function RefreshMode(mode: Mode): (m: Mode)
    ensures m == mode <==> mode.Timeline? || mode.tag != ""
    ensures m == mode || m == Timeline
  {
    if HasTag(mode) then mode else Timeline
  }

  /** `dorefresh` */
  function Refresh(s: FeedState, cfg: Config, fetch: string -> Response): (r: Step)
    ensures r.state.mode == RefreshMode(s.mode)
    ensures r.request == RequestUrl(cfg, RefreshMode(s.mode))
    ensures r.raised <==> fetch(r.request).Failed?
    ensures !r.raised ==> r.state.entries == Fill(fetch(r.request).items)
    ensures r.raised ==> r.state.entries == s.entries
  {
    if HasTag(s.mode) then LoadTag(s, s.mode.tag, cfg, fetch)
    else LoadTimeline(s, cfg, fetch)
  }

  /** `on_mount`: the first load of the feed is the public timeline. */
  function Mount(cfg: Config, fetch: string -> Response): (r: Step)
    ensures r.state.mode == Timeline
    ensures r.request == TimelineUrl(cfg)
    ensures r.raised <==> fetch(r.request).Failed?
    ensures !r.raised ==> Toots(r.state.entries) == fetch(r.request).items
    ensures r.raised ==> r.state.entries == []
  {
    LoadTimeline(Initial, cfg, fetch)
  }

  /**
   A refresh keeps the mode (an empty tag, which is falsy, becomes the timeline)
   and requests the endpoint of that same mode.
   */
  lemma RefreshKeepsMode(s: FeedState, cfg: Config, fetch: string -> Response)
    ensures Refresh(s, cfg, fetch).state.mode == RefreshMode(s.mode)
    ensures ParseRequestUrl(cfg, Refresh(s, cfg, fetch).request) == Some(RefreshMode(s.mode))
    ensures HasTag(s.mode) ==> Refresh(s, cfg, fetch).request == TagUrl(cfg, s.mode.tag)
    ensures !HasTag(s.mode) ==> Refresh(s, cfg, fetch).request == TimelineUrl(cfg)
  {
  }

  /**
   Refreshing twice repeats the first refresh's request in the same mode. The
   second request is a new fetch (`f2`), so the rows are then whatever it returns,
   or the rows left by the first refresh when it raises.
   */
  lemma RefreshIdempotent(s: FeedState, cfg: Config, f1: string -> Response, f2: string -> Response)
    ensures var once := Refresh(s, cfg, f1);
      var twice := Refresh(once.state, cfg, f2);
      && twice.request == once.request
      && twice.state.mode == once.state.mode
      && (f2(twice.request).Fetched? ==> twice.state.entries == Fill(f2(twice.request).items))
      && (f2(twice.request).Failed? ==> twice.state.entries == once.state.entries)
  {
  }

  /**
   A refresh right after a load of the timeline or a non-empty tag re-requests
   the same URL and keeps the mode; the rows are those of the new fetch `f2`.
   */
  lemma RefreshAfterLoad(s: FeedState, mode: Mode, cfg: Config, f1: string -> Response, f2: string -> Response)
    requires mode.Timeline? || mode.tag != ""
    ensures var loaded := Load(s, mode, cfg, f1);
      var again := Refresh(loaded.state, cfg, f2);
      && again.request == loaded.request
      && again.state.mode == mode
      && (f2(again.request).Fetched? ==> again.state.entries == Fill(f2(again.request).items))
      && (f2(again.request).Failed? ==> again.state.entries == loaded.state.entries)
  {
  }

  /**
   Loading replaces the list wholesale: after a successful fetch the feed is the
   same whatever it held before.
   */
  lemma LoadDiscardsPrevious(s1: FeedState, s2: FeedState, mode: Mode, cfg: Config, fetch: string -> Response)
    requires fetch(RequestUrl(cfg, mode)).Fetched?
    ensures Load(s1, mode, cfg, fetch).state == Load(s2, mode, cfg, fetch).state
    ensures Load(s1, mode, cfg, fetch).state.entries == Fill(fetch(RequestUrl(cfg, mode)).items)
  {
  }
}
