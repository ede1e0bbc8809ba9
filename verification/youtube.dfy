/** src/services/youtube.ts: the YouTube Data API search behind the tutorial
    recommendations. The environment key, the HTTP exchange and the decoded
    JSON body are parameters; what the function does with them is modelled. */
module YouTube {
  import opened Wrappers
  import opened JsBuiltins
  import opened Hosts

  /** `YOUTUBE_API_MAX_RESULTS`. */
  const MAX_RESULTS: nat := 5

  const WATCH_PREFIX := "https://www.youtube.com/watch?v="

  const NO_TUTORIALS := Tutorials([], [])

  /** One search result: `item.id?.videoId` and `item.snippet?.title`, absent
      when the object or the field is missing. */
  datatype Item = Item(videoId: Option<string>, title: Option<string>)

  /** An element of `items`: `null` or `undefined`, on which `item.id`
      throws, or any other value, read as an `Item`. */
  datatype Entry = Nullish | Value(item: Item)

  /** What `fetch` and `response.json()` give back: a thrown error, a response
      that is not ok, or an ok response whose body has `items` or lacks it. */
  datatype Reply = Threw | NotOk(status: int) | Ok(items: Option<seq<Entry>>)

  /** The search the function asks for (the query string is sent
      URI-encoded, with `type=video`, English relevance and moderate safe
      search). */
  datatype SearchRequest = SearchRequest(query: string, key: string, maxResults: nat)

  /** The `if` inside `forEach`: both the video id and the title truthy,
      that is present and not empty. */
  predicate Usable(item: Item) {
    item.videoId.Some? && item.videoId.value != "" && item.title.Some? && item.title.value != ""
  }

  function WatchUrl(videoId: string): (u: string)
    ensures |u| == |WATCH_PREFIX| + |videoId| && u[|WATCH_PREFIX|..] == videoId
  {
    WATCH_PREFIX + videoId
  }

  /** The usable items, in their original order: the reference the loop is
      measured against. */
  function Kept(items: seq<Item>): (r: seq<Item>)
    ensures |r| <= |items|
    ensures forall k :: 0 <= k < |r| ==> Usable(r[k])
  {
    if |items| == 0 then []
    else if Usable(items[0]) then [items[0]] + Kept(items[1..])
    else Kept(items[1..])
  }

  function TitlesOf(items: seq<Item>): (r: seq<string>)
    requires forall k :: 0 <= k < |items| ==> Usable(items[k])
    ensures |r| == |items| && forall k :: 0 <= k < |items| ==> items[k].title == Some(r[k])
  {
    if |items| == 0 then []
    else assert Usable(items[0]); [items[0].title.value] + TitlesOf(items[1..])
  }

  function UrlsOf(items: seq<Item>): (r: seq<string>)
    requires forall k :: 0 <= k < |items| ==> Usable(items[k])
    ensures |r| == |items| && forall k :: 0 <= k < |items| ==> items[k].videoId.Some? && r[k] == WatchUrl(items[k].videoId.value)
  {
    if |items| == 0 then []
    else assert Usable(items[0]); [WatchUrl(items[0].videoId.value)] + UrlsOf(items[1..])
  }

  /** Filtering a longer list filters its last item after the rest. */
  lemma {:induction false} KeptSnoc(items: seq<Item>, x: Item)
    ensures Kept(items + [x]) == Kept(items) + (if Usable(x) then [x] else [])
    decreases |items|
  {
    if |items| == 0 {
      assert items + [x] == [x];
      assert [x][1..] == [];
    } else {
      assert (items + [x])[0] == items[0];
      assert (items + [x])[1..] == items[1..] + [x];
      KeptSnoc(items[1..], x);
    }
  }

  /** One more usable item adds its title and URL at the end of the lists. */
  lemma {:induction false} ListsSnoc(items: seq<Item>, x: Item)
    requires forall k :: 0 <= k < |items| ==> Usable(items[k])
    requires Usable(x)
    ensures TitlesOf(items + [x]) == TitlesOf(items) + [x.title.value]
    ensures UrlsOf(items + [x]) == UrlsOf(items) + [WatchUrl(x.videoId.value)]
    decreases |items|
  {
    if |items| == 0 {
      assert items + [x] == [x];
    } else {
      assert (items + [x])[1..] == items[1..] + [x];
      ListsSnoc(items[1..], x);
    }
  }

  /** The `forEach` loop: titles and URLs pushed for each usable item. */
  method Collect(items: seq<Item>) returns (r: Tutorials)
    ensures r.tutorialTitles == TitlesOf(Kept(items))
    ensures r.tutorialUrls == UrlsOf(Kept(items))
  {
    var titles: seq<string> := [];
    var urls: seq<string> := [];
    var i := 0;
    while i < |items|
      invariant 0 <= i <= |items|
      invariant titles == TitlesOf(Kept(items[..i]))
      invariant urls == UrlsOf(Kept(items[..i]))
    {
      var item := items[i];
      KeptSnoc(items[..i], item);
      assert items[..i + 1] == items[..i] + [item];
      if item.videoId.Some? && item.videoId.value != "" && item.title.Some? && item.title.value != "" {
        ListsSnoc(Kept(items[..i]), item);
        titles := titles + [item.title.value];
        urls := urls + [WATCH_PREFIX + item.videoId.value];
      }
      i := i + 1;
    }
    assert items[..i] == items;
    r := Tutorials(titles, urls);
  }

  /** The items the `forEach` reads, or `None` when one of them is nullish,
      so that the loop throws on reaching it. */
  function Values(entries: seq<Entry>): (r: Option<seq<Item>>)
    ensures r.None? <==> exists k :: 0 <= k < |entries| && entries[k].Nullish?
    ensures r.Some? ==> |r.value| == |entries| && forall k :: 0 <= k < |entries| ==> entries[k] == Value(r.value[k])
    decreases |entries|
  {
    if |entries| == 0 then Some([])
    else if entries[0].Nullish? then None
    else
      match Values(entries[1..])
      case None =>
        assert forall k :: 1 <= k < |entries| ==> entries[k] == entries[1..][k - 1];
        None
      case Some(rest) =>
        assert forall k :: 1 <= k < |entries| ==> entries[k] == entries[1..][k - 1];
        Some([entries[0].item] + rest)
  }

  /** `fetchYouTubeTutorials(searchQuery)`, given the `YOUTUBE_API_KEY`
      environment value and what the request would give back. `request` is
      the search asked for, absent when no request is made. */
  method FetchYouTubeTutorials(searchQuery: string, apiKey: Option<string>, reply: Reply)
    returns (r: Tutorials, request: Option<SearchRequest>)
    ensures !Truthy(apiKey) ==> request.None? && r == NO_TUTORIALS
    ensures Truthy(apiKey) ==> request == Some(SearchRequest(searchQuery, apiKey.value, MAX_RESULTS))
    ensures !reply.Ok? ==> r == NO_TUTORIALS
    ensures Truthy(apiKey) && reply.Ok? && Values(reply.items.GetOr([])).None? ==> r == NO_TUTORIALS
    ensures Truthy(apiKey) && reply.Ok? && Values(reply.items.GetOr([])).Some? ==>
              var kept := Kept(Values(reply.items.GetOr([])).value);
              r.tutorialTitles == TitlesOf(kept) && r.tutorialUrls == UrlsOf(kept)
  {
    if apiKey.None? || apiKey.value == "" {
      return NO_TUTORIALS, None;
    }
    request := Some(SearchRequest(searchQuery, apiKey.value, MAX_RESULTS));
    match reply
    case Threw => r := NO_TUTORIALS;
    case NotOk(_) => r := NO_TUTORIALS;
    case Ok(items) =>
      match Values(items.GetOr([]))
      case None => r := NO_TUTORIALS;
      case Some(values) => r := Collect(values);
  }

  /** The filter keeps order: it distributes over concatenation. */
  lemma {:induction false} KeptAppend(a: seq<Item>, b: seq<Item>)
    ensures Kept(a + b) == Kept(a) + Kept(b)
    decreases |a|
  {
    if |a| == 0 {
      assert a + b == b;
    } else {
      assert (a + b)[0] == a[0];
      assert (a + b)[1..] == a[1..] + b;
      KeptAppend(a[1..], b);
    }
  }

  /** A list of usable items passes the filter whole. */
  lemma {:induction false} KeptOfUsable(items: seq<Item>)
    requires forall k :: 0 <= k < |items| ==> Usable(items[k])
    ensures Kept(items) == items
    decreases |items|
  {
    if |items| > 0 {
      KeptOfUsable(items[1..]);
    }
  }

  /** Every kept item is an item of the input, and an input item is kept
      exactly when it is usable. */
  lemma {:induction false} KeptMembers(items: seq<Item>, x: Item)
    ensures x in Kept(items) <==> x in items && Usable(x)
    decreases |items|
  {
    if |items| > 0 {
      KeptMembers(items[1..], x);
      assert items == [items[0]] + items[1..];
    }
  }

  /** The two lists line up: the title and URL at one position belong to the
      same result. */
  lemma Aligned(r: Tutorials, items: seq<Item>, k: nat)
    requires r.tutorialTitles == TitlesOf(Kept(items)) && r.tutorialUrls == UrlsOf(Kept(items))
    requires k < |r.tutorialTitles|
    ensures k < |r.tutorialUrls|
    ensures exists x :: x in items && Usable(x) && r.tutorialTitles[k] == x.title.value && r.tutorialUrls[k] == WatchUrl(x.videoId.value)
  {
    var x := Kept(items)[k];
    KeptMembers(items, x);
  }
}
