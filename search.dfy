/**
 * The `/search` handler of index.js as pure functions: the topic-channel filter, the
 * empty-result short circuit, the comma-joined id list, the thumbnail fallback and the
 * per-item record built for the response. The two upstream calls are parameters
 * (`search` and `videos`), total functions from the request they are sent to the reply
 * they produce; the HTTP plumbing around the handler is not modelled.
 */
module Search {
  import opened Wrappers
  import opened Text
  import Duration

  /** One item of the search reply; the handler reads only `id.videoId` and `snippet.channelTitle`. */
  datatype SearchItem = SearchItem(videoId: string, channelTitle: string)

  /** One item of the video-details reply; `thumbnails` maps a quality label to that thumbnail's URL. */
  datatype VideoItem = VideoItem(
    id: string,
    title: string,
    description: string,
    channelTitle: string,
    publishedAt: string,
    thumbnails: map<string, string>,
    duration: string)

  /** One element of the JSON array the handler answers with. */
  datatype ResultRecord = ResultRecord(
    videoId: string,
    title: string,
    description: string,
    channelTitle: string,
    publishedAt: string,
    albumCover: string,
    duration: string)

  /**
   * What an upstream call gives the handler: `Failed` when the request, the response or its
   * JSON decoding throws, or when reading its `items` throws (a `null` body, or `items` truthy
   * but not an array); otherwise the decoded body, whose `items` may be missing.
   */
  datatype Reply<T> = Failed | Body(items: Option<seq<T>>)

  /** The query string of the search request (the API key is configuration and left out). */
  datatype SearchQuery = SearchQuery(q: string, part: string, kind: string, maxResults: string)

  /** The query string of the video-details request. */
  datatype VideosQuery = VideosQuery(part: string, ids: string)

  /** The handler's answer: status 400 with an error text, status 500, or status 200 with records. */
  datatype Response = BadRequest(error: string) | ServerError | Found(records: seq<ResultRecord>)

  const TopicSuffix: string := " - topic"
  const ThumbnailPriority: seq<string> := ["maxres", "high", "default"]
  const MissingSong: string := "Missing ?song="

  function SearchQueryFor(song: string): SearchQuery {
    SearchQuery(song, "snippet", "video", "15")
  }

  function VideosQueryFor(ids: string): VideosQuery {
    VideosQuery("snippet,contentDetails", ids)
  }

  // ---------------------------------------------------------------------------
  // Topic-channel filter

  /** `channelTitle.toLowerCase().endsWith(' - topic')`. */
  predicate IsTopicChannel(channelTitle: string) {
    EndsWith(ToLowerAscii(channelTitle), TopicSuffix)
  }

  /** The test looks only at the last eight characters, each compared without regard to case. */
  lemma TopicChannelByCharacters(channelTitle: string)
    ensures IsTopicChannel(channelTitle) <==>
      |channelTitle| >= |TopicSuffix|
      && forall k :: 0 <= k < |TopicSuffix| ==> ToLowerChar(channelTitle[|channelTitle| - |TopicSuffix| + k]) == TopicSuffix[k]
  {
    var low := ToLowerAscii(channelTitle);
    if |channelTitle| >= |TopicSuffix| {
      var tail := low[|low| - |TopicSuffix|..];
      assert forall k :: 0 <= k < |TopicSuffix| ==> tail[k] == ToLowerChar(channelTitle[|channelTitle| - |TopicSuffix| + k]);
    }
  }

  /** The upstream names topic channels `<artist> - Topic`; every such title passes the filter. */
  lemma ArtistTopicPasses(artist: string)
    ensures IsTopicChannel(artist + " - Topic")
  {
    var t := artist + " - Topic";
    TopicChannelByCharacters(t);
    assert t[|artist|..] == " - Topic";
  }

  /** Order-preserving subsequence: `xs` is `ys` with some elements left out. */
  predicate IsSubsequence<T(==)>(xs: seq<T>, ys: seq<T>)
    decreases |ys|
  {
    if xs == [] then true
    else if ys == [] then false
    else if xs[0] == ys[0] then IsSubsequence(xs[1..], ys[1..])
    else IsSubsequence(xs, ys[1..])
  }

  /** `(searchJson.items || []).filter(...)`: the items from topic channels. */
  function TopicVideos(items: seq<SearchItem>): (r: seq<SearchItem>)
    ensures forall i :: 0 <= i < |r| ==> IsTopicChannel(r[i].channelTitle)
    decreases |items|
  {
    if items == [] then []
    else if IsTopicChannel(items[0].channelTitle) then [items[0]] + TopicVideos(items[1..])
    else TopicVideos(items[1..])
  }

  /** The filter keeps the order of the items it keeps. */
  lemma {:induction false} TopicVideosKeepOrder(items: seq<SearchItem>)
    ensures IsSubsequence(TopicVideos(items), items)
    decreases |items|
  {
    if items != [] {
      TopicVideosKeepOrder(items[1..]);
      var rest := TopicVideos(items[1..]);
      if !IsTopicChannel(items[0].channelTitle) && rest != [] {
        assert rest[0] != items[0];
      }
    }
  }

  /** Each topic-channel item is kept as often as it occurs, every other item is dropped. */
  lemma {:induction false} TopicVideosCount(items: seq<SearchItem>)
    ensures forall x :: multiset(TopicVideos(items))[x] == if IsTopicChannel(x.channelTitle) then multiset(items)[x] else 0
    decreases |items|
  {
    if items != [] {
      TopicVideosCount(items[1..]);
      assert items == [items[0]] + items[1..];
    }
  }

  /** What the filter keeps comes from its input. */
  lemma TopicVideosFromInput(items: seq<SearchItem>, x: SearchItem)
    requires x in TopicVideos(items)
    ensures x in items
  {
    TopicVideosCount(items);
    assert x in multiset(TopicVideos(items));
  }

  /** `searchJson.items || []`. */
  function ItemsOrEmpty<T>(items: Option<seq<T>>): seq<T> {
    match items
    case None => []
    case Some(xs) => xs
  }

  /** No search item survives the filter exactly when none comes from a topic channel. */
  lemma NoTopicVideos(items: seq<SearchItem>)
    ensures TopicVideos(items) == [] <==> forall i :: 0 <= i < |items| ==> !IsTopicChannel(items[i].channelTitle)
  {
    var r := TopicVideos(items);
    TopicVideosCount(items);
    if r == [] {
      forall i | 0 <= i < |items| ensures !IsTopicChannel(items[i].channelTitle) {
        assert items[i] in multiset(items);
      }
    } else {
      assert r[0] in multiset(r);
    }
  }

  // ---------------------------------------------------------------------------
  // Id list

  function VideoIds(items: seq<SearchItem>): (ids: seq<string>)
    ensures |ids| == |items| && forall i :: 0 <= i < |items| ==> ids[i] == items[i].videoId
  {
    seq(|items|, i requires 0 <= i < |items| => items[i].videoId)
  }

  /** `topicVideos.map(v => v.id.videoId).join(',')`. */
  function VideoIdList(items: seq<SearchItem>): string {
    Join(VideoIds(items), ',')
  }

  /** Video ids never hold a comma, so the id list splits back into the ids, in order. */
  lemma VideoIdListRoundTrip(items: seq<SearchItem>)
    requires items != []
    requires forall i :: 0 <= i < |items| ==> ',' !in items[i].videoId
    ensures Split(VideoIdList(items), ',') == VideoIds(items)
  {
    SplitJoin(VideoIds(items), ',');
  }

  // ---------------------------------------------------------------------------
  // Records

  /** `thumbnails.maxres || thumbnails.high || thumbnails.default`: the first label present, in that order. */
  function SelectThumbnail(thumbnails: map<string, string>): (r: Option<string>)
    ensures r.None? <==> forall j :: 0 <= j < |ThumbnailPriority| ==> ThumbnailPriority[j] !in thumbnails
    ensures r.Some? ==>
      exists j :: (0 <= j < |ThumbnailPriority|
        && ThumbnailPriority[j] in thumbnails && r.value == thumbnails[ThumbnailPriority[j]]
        && forall i :: 0 <= i < j ==> ThumbnailPriority[i] !in thumbnails)
  {
    assert ThumbnailPriority[0] == "maxres" && ThumbnailPriority[1] == "high" && ThumbnailPriority[2] == "default";
    if "maxres" in thumbnails then Some(thumbnails["maxres"])
    else if "high" in thumbnails then Some(thumbnails["high"])
    else if "default" in thumbnails then Some(thumbnails["default"])
    else None
  }

  /**
   * The object literal built for one details item; `None` when no thumbnail of the three is
   * there, where reading `.url` of `undefined` throws.
   */
  function ToRecord(v: VideoItem): (r: Option<ResultRecord>)
    ensures r.Some? <==> SelectThumbnail(v.thumbnails).Some?
    ensures r.Some? ==>
      && r.value.videoId == v.id
      && r.value.title == v.title
      && r.value.description == v.description
      && r.value.channelTitle == v.channelTitle
      && r.value.publishedAt == v.publishedAt
      && r.value.albumCover == SelectThumbnail(v.thumbnails).value
      && r.value.duration == Duration.ParseISO8601Duration(v.duration)
  {
    match SelectThumbnail(v.thumbnails)
    case None => None
    case Some(cover) =>
      Some(ResultRecord(v.id, v.title, v.description, v.channelTitle, v.publishedAt, cover,
                        Duration.ParseISO8601Duration(v.duration)))
  }

  /** `vidsJson.items.map(...)`: one record per item, same order; `None` as soon as one item throws. */
  function Records(items: seq<VideoItem>): (r: Option<seq<ResultRecord>>)
    ensures r.Some? <==> forall i :: 0 <= i < |items| ==> ToRecord(items[i]).Some?
    ensures r.Some? ==> |r.value| == |items| && forall i :: 0 <= i < |items| ==> r.value[i] == ToRecord(items[i]).value
    decreases |items|
  {
    if items == [] then Some([])
    else
      match ToRecord(items[0])
      case None => None
      case Some(first) =>
        match Records(items[1..])
        case None => None
        case Some(rest) => Some([first] + rest)
  }

  // ---------------------------------------------------------------------------
  // The handler

  /** The `/search` handler: the reply to `GET /search?song=...` given what the two upstream calls answer. */
  function Handle(song: Option<string>, search: SearchQuery -> Reply<SearchItem>, videos: VideosQuery -> Reply<VideoItem>): (r: Response)
    ensures r.BadRequest? <==> song.None? || song.value == ""
    ensures r.BadRequest? ==> r.error == MissingSong
    ensures song.Some? && song.value != "" && search(SearchQueryFor(song.value)).Failed? ==> r == ServerError
  {
    if song.None? || song.value == "" then BadRequest(MissingSong)
    else
      match search(SearchQueryFor(song.value))
      case Failed => ServerError
      case Body(found) =>
        var topics := TopicVideos(ItemsOrEmpty(found));
        if topics == [] then Found([])
        else
          match videos(VideosQueryFor(VideoIdList(topics)))
          case Failed => ServerError
          case Body(None) => ServerError
          case Body(Some(details)) =>
            match Records(details)
            case None => ServerError
            case Some(records) => Found(records)
  }

  /** The topic-channel items of the search reply for `song`. */
  function TopicResults(song: string, search: SearchQuery -> Reply<SearchItem>): seq<SearchItem>
    requires search(SearchQueryFor(song)).Body?
  {
    TopicVideos(ItemsOrEmpty(search(SearchQueryFor(song)).items))
  }

  /**
   * When no search item comes from a topic channel (or the reply has no `items`), the answer
   * is an empty array, not an error, and the details call is never made.
   */
  lemma EmptyFilterShortCircuits(song: string, search: SearchQuery -> Reply<SearchItem>, videos: VideosQuery -> Reply<VideoItem>)
    requires song != "" && search(SearchQueryFor(song)).Body?
    requires forall x :: x in ItemsOrEmpty(search(SearchQueryFor(song)).items) ==> !IsTopicChannel(x.channelTitle)
    ensures Handle(Some(song), search, videos) == Found([])
  {
    var items := ItemsOrEmpty(search(SearchQueryFor(song)).items);
    NoTopicVideos(items);
  }

  /**
   * When topic items exist, the answer follows the details reply item by item, in its order,
   * and is an error only when that reply failed, had no `items`, or held an item with none of
   * the three thumbnails.
   */
  lemma AnswerFollowsDetails(song: string, search: SearchQuery -> Reply<SearchItem>, videos: VideosQuery -> Reply<VideoItem>)
    requires song != "" && search(SearchQueryFor(song)).Body?
    requires TopicResults(song, search) != []
    ensures var reply := videos(VideosQueryFor(VideoIdList(TopicResults(song, search))));
      var r := Handle(Some(song), search, videos);
      && (r.Found? <==> reply.Body? && reply.items.Some? && Records(reply.items.value).Some?)
      && (r.Found? ==> r.records == Records(reply.items.value).value)
  {
    var topics := TopicResults(song, search);
    var reply := videos(VideosQueryFor(VideoIdList(topics)));
    var r := Handle(Some(song), search, videos);
    assert topics == TopicVideos(ItemsOrEmpty(search(SearchQueryFor(song)).items));
    if reply.Body? && reply.items.Some? && Records(reply.items.value).Some? {
      assert r == Found(Records(reply.items.value).value);
    } else {
      assert r == ServerError;
    }
  }

  /** The details reply answers only for ids that were asked for. */
  ghost predicate AnswersOnlyRequested(videos: VideosQuery -> Reply<VideoItem>) {
    forall q :: videos(q).Body? && videos(q).items.Some? ==>
      forall v :: v in videos(q).items.value ==> v.id in Split(q.ids, ',')
  }

  /**
   * Every record in a successful answer is for a video found by the search in a topic channel,
   * provided the details service answers only for the ids it was asked about: the handler
   * itself does not check this.
   */
  lemma OnlyTopicVideosAnswered(song: string, search: SearchQuery -> Reply<SearchItem>, videos: VideosQuery -> Reply<VideoItem>)
    requires song != "" && search(SearchQueryFor(song)).Body?
    requires forall x :: x in ItemsOrEmpty(search(SearchQueryFor(song)).items) ==> ',' !in x.videoId
    requires AnswersOnlyRequested(videos)
    ensures var r := Handle(Some(song), search, videos);
      r.Found? ==> forall k :: 0 <= k < |r.records| ==>
        exists x :: x in TopicResults(song, search) && IsTopicChannel(x.channelTitle) && x.videoId == r.records[k].videoId
  {
    var topics := TopicResults(song, search);
    var r := Handle(Some(song), search, videos);
    if topics == [] {
      EmptyFilterAnswer(song, search, videos);
    } else if r.Found? {
      TopicIdsCommaFree(ItemsOrEmpty(search(SearchQueryFor(song)).items));
      VideoIdListRoundTrip(topics);
      AnswerFollowsDetails(song, search, videos);
      var q := VideosQueryFor(VideoIdList(topics));
      RecordsForRequestedIds(topics, videos(q).items.value, r.records);
    }
  }

  lemma EmptyFilterAnswer(song: string, search: SearchQuery -> Reply<SearchItem>, videos: VideosQuery -> Reply<VideoItem>)
    requires song != "" && search(SearchQueryFor(song)).Body?
    requires TopicResults(song, search) == []
    ensures Handle(Some(song), search, videos) == Found([])
  {
  }

  /** The ids of the topic items hold no comma when no search item's id does. */
  lemma TopicIdsCommaFree(found: seq<SearchItem>)
    requires forall x :: x in found ==> ',' !in x.videoId
    ensures forall i :: 0 <= i < |TopicVideos(found)| ==> ',' !in TopicVideos(found)[i].videoId
  {
    var topics := TopicVideos(found);
    forall i | 0 <= i < |topics| ensures ',' !in topics[i].videoId {
      TopicVideosFromInput(found, topics[i]);
    }
  }

  /** Records built from details items whose ids were all requested are for requested videos. */
  lemma RecordsForRequestedIds(topics: seq<SearchItem>, details: seq<VideoItem>, records: seq<ResultRecord>)
    requires forall i :: 0 <= i < |topics| ==> IsTopicChannel(topics[i].channelTitle)
    requires forall v :: v in details ==> v.id in VideoIds(topics)
    requires Records(details) == Some(records)
    ensures forall k :: 0 <= k < |records| ==>
      exists x :: x in topics && IsTopicChannel(x.channelTitle) && x.videoId == records[k].videoId
  {
    forall k | 0 <= k < |records|
      ensures exists x :: x in topics && IsTopicChannel(x.channelTitle) && x.videoId == records[k].videoId
    {
      assert details[k] in details;
      var j :| 0 <= j < |topics| && VideoIds(topics)[j] == details[k].id;
      assert topics[j] in topics;
    }
  }

  // ---------------------------------------------------------------------------
  // Examples

  /** With `high` and `default` but no `maxres`, the cover is the `high` URL. */
  lemma HighBeatsDefault(high: string, low: string)
    ensures SelectThumbnail(map["high" := high, "default" := low]) == Some(high)
  {
  }

  /**
   * Three search items, two from topic channels: the details call asks for those two ids
   * joined by a comma, and the answer is one record per details item, in the details order.
   */
  lemma TwoOfThreeFromTopicChannels(
    song: string, a: SearchItem, b: SearchItem, c: SearchItem, v1: VideoItem, v2: VideoItem,
    search: SearchQuery -> Reply<SearchItem>, videos: VideosQuery -> Reply<VideoItem>)
    requires song != ""
    requires IsTopicChannel(a.channelTitle) && !IsTopicChannel(b.channelTitle) && IsTopicChannel(c.channelTitle)
    requires search(SearchQueryFor(song)) == Body(Some([a, b, c]))
    requires videos(VideosQueryFor(a.videoId + "," + c.videoId)) == Body(Some([v1, v2]))
    requires ToRecord(v1).Some? && ToRecord(v2).Some?
    ensures var r := Handle(Some(song), search, videos);
      r.Found? && |r.records| == 2 && r.records[0] == ToRecord(v1).value && r.records[1] == ToRecord(v2).value
  {
    TwoOfThreeFiltered(a, b, c);
    TwoIdsJoined(a, c);
    assert TopicResults(song, search) == [a, c];
    assert videos(VideosQueryFor(VideoIdList(TopicResults(song, search)))) == Body(Some([v1, v2]));
    TwoRecords(v1, v2);
    AnswerFollowsDetails(song, search, videos);
    assert Handle(Some(song), search, videos) == Found(Records([v1, v2]).value);
  }

  lemma TwoOfThreeFiltered(a: SearchItem, b: SearchItem, c: SearchItem)
    requires IsTopicChannel(a.channelTitle) && !IsTopicChannel(b.channelTitle) && IsTopicChannel(c.channelTitle)
    ensures TopicVideos([a, b, c]) == [a, c]
  {
    assert [c][1..] == [];
    assert TopicVideos([c]) == [c];
    assert [b, c][1..] == [c];
    assert TopicVideos([b, c]) == [c];
    assert [a, b, c][1..] == [b, c];
  }

  lemma TwoIdsJoined(a: SearchItem, c: SearchItem)
    ensures VideoIdList([a, c]) == a.videoId + "," + c.videoId
  {
    var ids := [a.videoId, c.videoId];
    assert VideoIds([a, c]) == ids;
    assert ids[1..] == [c.videoId];
    assert Join(ids[1..], ',') == c.videoId;
  }

  lemma TwoRecords(v1: VideoItem, v2: VideoItem)
    requires ToRecord(v1).Some? && ToRecord(v2).Some?
    ensures Records([v1, v2]).Some?
    ensures var r := Records([v1, v2]).value; |r| == 2 && r[0] == ToRecord(v1).value && r[1] == ToRecord(v2).value
  {
    var items := [v1, v2];
    assert forall i :: 0 <= i < |items| ==> ToRecord(items[i]).Some?;
  }
}
