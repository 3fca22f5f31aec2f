/** VideoCollection: one page of search results with its paging figures. */
module VideoCollections {
  import opened Wrappers
  import opened Values
  import Failures
  import opened Arguments
  import opened Videos

  datatype VideoCollection = VideoCollection(
    videos: seq<Video>,
    count: int,
    start: int,
    perPage: int,
    page: int,
    timeMs: int,
    totalCount: int,
    totalPages: int)

  /** empty(): no videos, page 1 of 0, 30 per page. */
  const Empty: VideoCollection := VideoCollection([], 0, 0, 30, 1, 0, 0, 0)

  /** Video's fromArray() on a value: a value that is not an array is a
      TypeError on the method's `$data` parameter. */
  function VideoFromValue(v: Value): (r: Result<Video, Error>)
    ensures !v.Arr? ==> r == Failure(Failures.TypeError("data"))
    ensures v.Arr? ==> r == VideoFromArray(v.entries)
  {
    if v.Arr? then VideoFromArray(v.entries) else Failure(Failures.TypeError("data"))
  }

  /** The videos of a list, read in order; the first that fails ends the list. */
  function VideosFromValues(items: seq<Value>): (r: Result<seq<Video>, Error>)
    ensures r.Success? <==> forall i :: 0 <= i < |items| ==> VideoFromValue(items[i]).Success?
    ensures r.Success? ==> (|r.value| == |items|
      && forall i :: 0 <= i < |items| ==> VideoFromValue(items[i]) == Success(r.value[i]))
  {
    MapResult(VideoFromValue, items)
  }

  predicate HasVideoList(data: PhpArray) {
    IsSet(data, "videos") && Find(data, "videos").value.Arr?
  }

  /** The video list of a page: empty unless it is set and an array. */
  function VideoListOf(data: PhpArray): (r: Result<seq<Video>, Error>)
    ensures HasVideoList(data) ==> r == VideosFromValues(ValuesOf(Find(data, "videos").value.entries))
    ensures !HasVideoList(data) ==> r == Success([])
  {
    if HasVideoList(data) then VideosFromValues(ValuesOf(Find(data, "videos").value.entries)) else Success([])
  }

  /** The paging figures, cast to integers, with their defaults. */
  function AssemblePage(data: PhpArray, videos: seq<Video>): (c: VideoCollection)
    ensures c.videos == videos
    ensures c.perPage == IntArg(data, "per_page", 30) && c.page == IntArg(data, "page", 1)
    ensures c.totalPages == IntArg(data, "total_pages", 0)
    ensures c.count == IntArg(data, "count", 0) && c.start == IntArg(data, "start", 0)
    ensures c.timeMs == IntArg(data, "time_ms", 0) && c.totalCount == IntArg(data, "total_count", 0)
  {
    VideoCollection(
      videos,
      IntArg(data, "count", 0),
      IntArg(data, "start", 0),
      IntArg(data, "per_page", 30),
      IntArg(data, "page", 1),
      IntArg(data, "time_ms", 0),
      IntArg(data, "total_count", 0),
      IntArg(data, "total_pages", 0))
  }

  /** fromArray(): the video list is read first; the paging figures never fail. */
  function CollectionFromArray(data: PhpArray): (r: Result<VideoCollection, Error>)
    ensures r.Success? <==> VideoListOf(data).Success?
    ensures r.Success? ==> r.value == AssemblePage(data, VideoListOf(data).value)
    ensures r.Failure? ==> r.error == VideoListOf(data).error
  {
    var videos :- VideoListOf(data);
    Success(AssemblePage(data, videos))
  }

  /** fromArray() as the source runs it: a loop over the video list. */
  method FromArray(data: PhpArray) returns (r: Result<VideoCollection, Error>)
    ensures r == CollectionFromArray(data)
  {
    var videos: seq<Video> := [];
    if HasVideoList(data) {
      var read := ReadVideos(ValuesOf(Find(data, "videos").value.entries));
      if read.Failure? {
        return Failure(read.error);
      }
      videos := read.value;
    }
    return Success(AssemblePage(data, videos));
  }

  /** The foreach over the video list; the first item that fails to read
      ends it. */
  method ReadVideos(items: seq<Value>) returns (r: Result<seq<Video>, Error>)
    ensures r == VideosFromValues(items)
  {
    var videos: seq<Video> := [];
    var i := 0;
    while i < |items|
      invariant SucceededUpTo(VideoFromValue, items, i, videos)
    {
      var v := ReadVideo(items[i]);
      if v.Failure? {
        MapResultFailsAt(VideoFromValue, items, i);
        return Failure(v.error);
      }
      SucceededStep(VideoFromValue, items, i, videos);
      videos := videos + [v.value];
      i := i + 1;
    }
    MapResultAll(VideoFromValue, items, videos);
    return Success(videos);
  }

  /** One step of the loop: Video's fromArray() on one item of the list. */
  method ReadVideo(item: Value) returns (r: Result<Video, Error>)
    ensures r == VideoFromValue(item)
  {
    if !item.Arr? {
      return Failure(Failures.TypeError("data"));
    }
    r := Videos.FromArray(item.entries);
  }

  /** toArray(). */
  function CollectionToArray(c: VideoCollection): (a: PhpArray)
    ensures Keys(a) == CollectionKeys
  {
    var a :=
      [Entry("videos", Arr(VideoList(c.videos))),
       Entry("count", Int(c.count)),
       Entry("start", Int(c.start)),
       Entry("per_page", Int(c.perPage)),
       Entry("page", Int(c.page)),
       Entry("time_ms", Int(c.timeMs)),
       Entry("total_count", Int(c.totalCount)),
       Entry("total_pages", Int(c.totalPages))];
    assert forall i :: 0 <= i < |a| ==> Keys(a)[i] == CollectionKeys[i];
    a
  }

  const CollectionKeys: seq<string> :=
    ["videos", "count", "start", "per_page", "page", "time_ms", "total_count", "total_pages"]

  /** `array_map` of Video's toArray() over the videos: a list. */
  function VideoList(vs: seq<Video>): (a: PhpArray)
    ensures |ValuesOf(a)| == |vs|
    ensures forall i :: 0 <= i < |vs| ==> ValuesOf(a)[i] == Arr(VideoToArray(vs[i]))
  {
    ListOf(seq(|vs|, i requires 0 <= i < |vs| => Arr(VideoToArray(vs[i]))))
  }

  lemma CollectionKeysDistinct()
    ensures forall i, j :: 0 <= i < j < |CollectionKeys| ==> CollectionKeys[i] != CollectionKeys[j]
  {
  }

  lemma CollectionArrayKeys(c: VideoCollection)
    ensures DistinctKeys(CollectionToArray(c))
  {
    CollectionKeysDistinct();
    var a := CollectionToArray(c);
    assert forall i :: 0 <= i < |a| ==> a[i].key == CollectionKeys[i];
  }

  /** A page written out and read back is the same page. */
  lemma CollectionRoundTrip(c: VideoCollection)
    ensures CollectionFromArray(CollectionToArray(c)) == Success(c)
  {
    var a := CollectionToArray(c);
    CollectionArrayKeys(c);
    FindDistinct(a, 0);
    FindDistinct(a, 1);
    FindDistinct(a, 2);
    FindDistinct(a, 3);
    FindDistinct(a, 4);
    FindDistinct(a, 5);
    FindDistinct(a, 6);
    FindDistinct(a, 7);
    var items := ValuesOf(VideoList(c.videos));
    forall i | 0 <= i < |c.videos| ensures VideoFromValue(items[i]) == Success(c.videos[i]) {
      VideoRoundTrip(c.videos[i]);
    }
    MapResultAll(VideoFromValue, items, c.videos);
    FromFullPage(a, c, VideoList(c.videos));
  }

  lemma FromFullPage(data: PhpArray, c: VideoCollection, vs: PhpArray)
    requires Find(data, "videos") == Some(Arr(vs)) && VideosFromValues(ValuesOf(vs)) == Success(c.videos)
    requires Find(data, "count") == Some(Int(c.count)) && Find(data, "start") == Some(Int(c.start))
    requires Find(data, "per_page") == Some(Int(c.perPage)) && Find(data, "page") == Some(Int(c.page))
    requires Find(data, "time_ms") == Some(Int(c.timeMs)) && Find(data, "total_count") == Some(Int(c.totalCount))
    requires Find(data, "total_pages") == Some(Int(c.totalPages))
    ensures CollectionFromArray(data) == Success(c)
  {
    assert VideoListOf(data) == Success(c.videos);
    IntArgOfInt(data, "count", 0, c.count);
    IntArgOfInt(data, "start", 0, c.start);
    IntArgOfInt(data, "per_page", 30, c.perPage);
    IntArgOfInt(data, "page", 1, c.page);
    IntArgOfInt(data, "time_ms", 0, c.timeMs);
    IntArgOfInt(data, "total_count", 0, c.totalCount);
    IntArgOfInt(data, "total_pages", 0, c.totalPages);
  }

  /** fromArray() of an empty array is empty(). */
  lemma FromEmptyArray()
    ensures CollectionFromArray([]) == Success(Empty)
  {
  }

  /** isEmpty(). */
  predicate IsEmpty(c: VideoCollection) { |c.videos| == 0 }

  /** count(): the number of videos on the page, not the `count` figure. */
  function Count(c: VideoCollection): (n: nat)
    ensures n == |c.videos|
    ensures n == 0 <==> IsEmpty(c)
  {
    |c.videos|
  }

  /** hasMorePages(). */
  predicate HasMorePages(c: VideoCollection) { c.page < c.totalPages }

  /** getNextPage(): the following page number while there is one. */
  function GetNextPage(c: VideoCollection): (n: Option<int>)
    ensures n.Some? <==> HasMorePages(c)
    ensures n.Some? ==> n.value == c.page + 1 && n.value <= c.totalPages
  {
    if HasMorePages(c) then Some(c.page + 1) else None
  }

  /** getPreviousPage(): the preceding page number, from page 2 on. */
  function GetPreviousPage(c: VideoCollection): (n: Option<int>)
    ensures n.Some? <==> c.page > 1
    ensures n.Some? ==> n.value == c.page - 1 && n.value >= 1
  {
    if c.page > 1 then Some(c.page - 1) else None
  }

  /** Going forward and then back returns to the page, and the other way round. */
  lemma PagingInverse(c: VideoCollection)
    ensures GetNextPage(c).Some? && c.page >= 1 ==> GetPreviousPage(c.(page := GetNextPage(c).value)) == Some(c.page)
    ensures GetPreviousPage(c).Some? && c.page <= c.totalPages ==>
      GetNextPage(c.(page := GetPreviousPage(c).value)) == Some(c.page)
  {
  }

  /** The empty page has no videos and no page after it. */
  lemma EmptyIsLast()
    ensures IsEmpty(Empty) && !HasMorePages(Empty) && GetNextPage(Empty) == None && GetPreviousPage(Empty) == None
  {
  }
}
