/** VideoIterator: walks the videos of a search page by page. The state is
    a page buffer with an index into it, the number of steps taken, whether
    a further page is expected, the current video and the parameters of the
    next request. The client's search() is an oracle from the request's
    parameters to a page or a failure; every failure ends the walk. */
module VideoIterators {
  import opened Wrappers
  import opened Videos
  import opened VideoCollections
  import opened SearchParameters

  /** What `EpornerClient::search()` does with one set of parameters:
      returns a page, or throws (which the iterator swallows). */
  datatype Fetch = Fetched(page: VideoCollection) | Failed

  type Search = SearchFields -> Fetch

  /** The iterator's fields as a value, with the log of the requests made
      so far (a modelling device: the source keeps no such log). */
  datatype IterState = IterState(
    params: SearchFields,
    collection: Option<VideoCollection>,
    index: nat,
    fetched: nat,
    more: bool,
    current: Option<Video>,
    requests: seq<SearchFields>)

  /** The state the constructor leaves: nothing fetched yet, more expected. */
  function Initial(p: SearchFields): IterState {
    IterState(p, None, 0, 0, true, None, [])
  }

  /** The buffer holds a video at the index. */
  predicate InBounds(s: IterState) {
    s.collection.Some? && s.index < |s.collection.value.videos|
  }

  function VideoAt(s: IterState): Video
    requires InBounds(s)
  {
    s.collection.value.videos[s.index]
  }

  /** fetchNextPage(). */
  function FetchNextPageOf(search: Search, s: IterState): IterState {
    var s' := s.(requests := s.requests + [s.params]);
    match search(s.params)
    case Fetched(c) =>
      s'.(collection := Some(c), index := 0, more := HasMorePages(c),
          params := if HasMorePages(c) then NextPageOf(s.params) else s.params)
    case Failed =>
      s'.(collection := Some(VideoCollections.Empty), more := false, current := None)
  }

  /** loadCurrentVideo(). */
  function LoadCurrentVideoOf(search: Search, s: IterState): IterState {
    if InBounds(s) then s.(current := Some(VideoAt(s)))
    else if s.more then
      var t := FetchNextPageOf(search, s);
      if InBounds(t) then t.(current := Some(VideoAt(t))) else t.(current := None)
    else s.(current := None)
  }

  /** rewind(). */
  function RewindOf(search: Search, s: IterState): IterState {
    FetchNextPageOf(search, s.(index := 0, fetched := 0, more := true))
  }

  /** next(). */
  function NextOf(search: Search, s: IterState): IterState {
    LoadCurrentVideoOf(search, s.(index := s.index + 1, fetched := s.fetched + 1))
  }

  /** valid(). */
  predicate IsValid(s: IterState) { s.current.Some? }

  // ---------------------------------------------------------------- fetching

  /** A failed request leaves the empty page in the buffer, no further page
      expected and no current video; the index and the next request's
      parameters stay as they were. */
  lemma FailedFetch(search: Search, s: IterState)
    requires search(s.params) == Failed
    ensures FetchNextPageOf(search, s) ==
      s.(collection := Some(VideoCollections.Empty), more := false, current := None, requests := s.requests + [s.params])
    ensures !InBounds(FetchNextPageOf(search, s))
  {
  }

  /** A page received is buffered from its start; a further page is expected
      exactly when the page is not the last one, and only then do the
      parameters move on, by exactly one page. The current video is left as
      it was. */
  lemma SuccessfulFetch(search: Search, s: IterState, c: VideoCollection)
    requires search(s.params) == Fetched(c)
    ensures FetchNextPageOf(search, s).collection == Some(c) && FetchNextPageOf(search, s).index == 0
    ensures FetchNextPageOf(search, s).more <==> c.page < c.totalPages
    ensures FetchNextPageOf(search, s).more ==> FetchNextPageOf(search, s).params == s.params.(page := s.params.page + 1)
    ensures !FetchNextPageOf(search, s).more ==> FetchNextPageOf(search, s).params == s.params
    ensures FetchNextPageOf(search, s).current == s.current && FetchNextPageOf(search, s).fetched == s.fetched
  {
  }

  /** Every fetch sends exactly one request, with the current parameters. */
  lemma FetchRequests(search: Search, s: IterState)
    ensures FetchNextPageOf(search, s).requests == s.requests + [s.params]
  {
  }

  // ---------------------------------------------------------------- loading

  /** A video left in the buffer is taken without a request. */
  lemma LoadFromBuffer(search: Search, s: IterState)
    requires InBounds(s)
    ensures LoadCurrentVideoOf(search, s) == s.(current := Some(s.collection.value.videos[s.index]))
  {
  }

  /** With the buffer used up and no further page expected, no request is
      made and there is no current video. */
  lemma LoadExhausted(search: Search, s: IterState)
    requires !InBounds(s) && !s.more
    ensures LoadCurrentVideoOf(search, s) == s.(current := None)
  {
  }

  /** Loading never makes more than one request; after a request the
      current video is the first of the new page, or none if the page is
      empty or the request failed. */
  lemma LoadAtMostOneFetch(search: Search, s: IterState)
    ensures var t := LoadCurrentVideoOf(search, s);
      |t.requests| <= |s.requests| + 1 && t.requests[..|s.requests|] == s.requests
    ensures var t := LoadCurrentVideoOf(search, s);
      |t.requests| == |s.requests| + 1 ==>
        match search(s.params)
        case Fetched(c) => t.current == (if |c.videos| > 0 then Some(c.videos[0]) else None)
        case Failed => t.current == None
  {
    var t := LoadCurrentVideoOf(search, s);
    if !InBounds(s) && s.more {
      assert t.requests == s.requests + [s.params];
    } else {
      assert t.requests == s.requests;
    }
  }

  /** A loaded state is valid exactly when its current video is the one at
      the index of the buffer. */
  lemma LoadedIsConsistent(search: Search, s: IterState)
    ensures var t := LoadCurrentVideoOf(search, s);
      IsValid(t) <==> InBounds(t)
    ensures var t := LoadCurrentVideoOf(search, s);
      IsValid(t) ==> t.current == Some(VideoAt(t))
  {
    if !InBounds(s) && s.more {
      var t := FetchNextPageOf(search, s);
      if search(s.params).Failed? {
        FailedFetch(search, s);
      }
    }
  }

  // ---------------------------------------------------------------- stepping

  /** next() counts one step and moves the index one on, unless it has to
      fetch a page, which starts the index over at 0 (or, when the request
      fails, keeps it). key() and count() both report the steps. */
  lemma NextAdvances(search: Search, s: IterState)
    ensures NextOf(search, s).fetched == s.fetched + 1
    ensures NextOf(search, s).index == s.index + 1 || NextOf(search, s).index == 0
    ensures InBounds(s.(index := s.index + 1)) ==>
      NextOf(search, s) == s.(index := s.index + 1, fetched := s.fetched + 1,
                               current := Some(s.collection.value.videos[s.index + 1]))
  {
  }

  /** rewind() starts the counters over and fetches once, but assigns no
      current video and leaves the parameters where the previous walk left
      them. */
  lemma RewindState(search: Search, s: IterState)
    ensures RewindOf(search, s).fetched == 0
    ensures RewindOf(search, s).index == 0 || search(s.params).Failed?
    ensures search(s.params).Fetched? ==> RewindOf(search, s).current == s.current
    ensures RewindOf(search, s).params == s.params || RewindOf(search, s).params == NextPageOf(s.params)
    ensures RewindOf(search, s).requests == s.requests + [s.params]
  {
  }

  // ---------------------------------------------------------------- foreach

  /** What a `foreach` over the iterator yields from state s once rewind()
      has run: while valid(), take current() and call next(); at most n
      videos. */
  function Drain(search: Search, s: IterState, n: nat): (vs: seq<Video>)
    ensures |vs| <= n
    decreases n
  {
    if n == 0 || !IsValid(s) then []
    else [s.current.value] + Drain(search, NextOf(search, s), n - 1)
  }

  /** `foreach` as the class is written: rewind(), then the Drain loop. */
  function Foreach(search: Search, p: SearchFields, n: nat): seq<Video> {
    Drain(search, RewindOf(search, Initial(p)), n)
  }

  /** The videos of the pages the search returns from p on, page after page,
      for at most `pages` pages: a failed request ends the list, and so does
      an empty page unless it is the first one. */
  function Walk(search: Search, p: SearchFields, first: bool, pages: nat): seq<Video>
    decreases pages
  {
    if pages == 0 then []
    else match search(p)
      case Failed => []
      case Fetched(c) =>
        if !first && |c.videos| == 0 then []
        else c.videos + (if HasMorePages(c) then Walk(search, NextPageOf(p), false, pages - 1) else [])
  }

  /** As written, a fresh iterator is not valid after rewind(): whatever
      the search returns, a `foreach` yields nothing. */
  lemma ForeachYieldsNothing(search: Search, p: SearchFields, n: nat)
    ensures !IsValid(RewindOf(search, Initial(p)))
    ensures Foreach(search, p, n) == []
  {
  }

  /** The smallest case: one page holding one video, which `foreach` over
      the iterator as written never yields. */
  lemma ForeachMissesFirstPage(v: Video)
    ensures var c := VideoCollection([v], 1, 0, 30, 1, 0, 1, 1);
      var search: Search := (q: SearchFields) => Fetched(c);
      Walk(search, Defaults, true, 1) == [v] && Foreach(search, Defaults, 1) == []
  {
    var c := VideoCollection([v], 1, 0, 30, 1, 0, 1, 1);
    var search: Search := (q: SearchFields) => Fetched(c);
    assert !HasMorePages(c);
    assert Walk(search, Defaults, true, 1) == c.videos + [];
  }

  /** rewind() as evidently intended: fetch, then load the current video, as
      next() does. */
  function RewindFixedOf(search: Search, s: IterState): IterState {
    LoadCurrentVideoOf(search, RewindOf(search, s))
  }

  function ForeachFixed(search: Search, p: SearchFields, n: nat): seq<Video> {
    Drain(search, RewindFixedOf(search, Initial(p)), n)
  }

  /** The first n elements of xs, or all of them if there are fewer. */
  function Take<T>(xs: seq<T>, n: nat): (r: seq<T>)
    ensures |r| == if n <= |xs| then n else |xs|
    ensures r <= xs
  {
    if n <= |xs| then xs[..n] else xs
  }

  lemma TakeCons<T>(x: T, xs: seq<T>, n: nat)
    requires n > 0
    ensures Take([x] + xs, n) == [x] + Take(xs, n - 1)
  {
    if n - 1 <= |xs| {
      assert ([x] + xs)[..n] == [x] + xs[..n - 1];
    }
  }

  /** The videos still to come from a valid state: the rest of the buffer,
      then the following pages if one is expected. */
  function Rest(search: Search, s: IterState, pages: nat): seq<Video>
    requires InBounds(s)
  {
    s.collection.value.videos[s.index..] + (if s.more then Walk(search, s.params, false, pages) else [])
  }

  /** Rest past the current video. */
  function Tail(search: Search, s: IterState, pages: nat): seq<Video>
    requires InBounds(s)
  {
    s.collection.value.videos[s.index + 1..] + (if s.more then Walk(search, s.params, false, pages) else [])
  }

  /** From a valid state, `foreach` yields the rest of the buffer and then
      the following pages, in order, up to n videos. */
  lemma {:induction false} DrainValid(search: Search, s: IterState, n: nat, pages: nat)
    requires InBounds(s) && s.current == Some(VideoAt(s)) && pages >= n
    ensures Drain(search, s, n) == Take(Rest(search, s, pages), n)
    decreases n, 2
  {
    if n > 0 {
      var tail := Tail(search, s, pages);
      assert Drain(search, NextOf(search, s), n - 1) == Take(tail, n - 1) by {
        DrainAfterStep(search, s, n, pages);
      }
      assert Rest(search, s, pages) == [VideoAt(s)] + tail by {
        var vs := s.collection.value.videos;
        assert vs[s.index..] == [vs[s.index]] + vs[s.index + 1..];
      }
      TakeCons(VideoAt(s), tail, n);
    }
  }

  /** After one next() from a valid state, `foreach` yields the rest of what
      was to come. */
  lemma {:induction false} DrainAfterStep(search: Search, s: IterState, n: nat, pages: nat)
    requires InBounds(s) && s.current == Some(VideoAt(s)) && pages >= n > 0
    ensures Drain(search, NextOf(search, s), n - 1) == Take(Tail(search, s, pages), n - 1)
    decreases n, 1
  {
    var s1 := s.(index := s.index + 1, fetched := s.fetched + 1);
    if InBounds(s1) {
      StepInBuffer(search, s, n, pages);
    } else if s.more {
      StepRefetch(search, s, n, pages);
    } else {
      StepExhausted(search, s, n, pages);
    }
  }

  /** The DrainAfterStep case where the buffer is used up and a further page
      is expected. */
  lemma {:induction false} StepRefetch(search: Search, s: IterState, n: nat, pages: nat)
    requires InBounds(s) && pages >= n > 0 && s.more
    requires !InBounds(s.(index := s.index + 1, fetched := s.fetched + 1))
    ensures Drain(search, NextOf(search, s), n - 1) == Take(Tail(search, s, pages), n - 1)
    decreases n, 0
  {
    var s1 := s.(index := s.index + 1, fetched := s.fetched + 1);
    assert Tail(search, s, pages) == Walk(search, s1.params, false, pages) by {
      assert s.collection.value.videos[s.index + 1..] == [];
    }
    RefetchDrain(search, s1, n - 1, pages);
  }

  /** The DrainAfterStep case where the buffer is used up and no page follows. */
  lemma StepExhausted(search: Search, s: IterState, n: nat, pages: nat)
    requires InBounds(s) && pages >= n > 0 && !s.more
    requires !InBounds(s.(index := s.index + 1, fetched := s.fetched + 1))
    ensures Drain(search, NextOf(search, s), n - 1) == Take(Tail(search, s, pages), n - 1)
  {
    var s1 := s.(index := s.index + 1, fetched := s.fetched + 1);
    assert Tail(search, s, pages) == [] by {
      assert s.collection.value.videos[s.index + 1..] == [];
    }
    assert Drain(search, NextOf(search, s), n - 1) == [] by {
      LoadExhausted(search, s1);
    }
  }

  /** The DrainAfterStep case where the next video is still in the buffer. */
  lemma {:induction false} StepInBuffer(search: Search, s: IterState, n: nat, pages: nat)
    requires InBounds(s) && pages >= n > 0
    requires InBounds(s.(index := s.index + 1, fetched := s.fetched + 1))
    ensures Drain(search, NextOf(search, s), n - 1) == Take(Tail(search, s, pages), n - 1)
    decreases n, 0
  {
    var s1 := s.(index := s.index + 1, fetched := s.fetched + 1);
    var t := s1.(current := Some(VideoAt(s1)));
    assert NextOf(search, s) == t by {
      LoadFromBuffer(search, s1);
    }
    var tail := Tail(search, s, pages);
    assert Rest(search, t, pages) == tail by {
      assert t.collection == s.collection && t.index == s.index + 1;
      assert t.more == s.more && t.params == s.params;
    }
    DrainValid(search, t, n - 1, pages);
    assert Drain(search, t, n - 1) == Take(tail, n - 1);
  }

  /** After a next() that used up the buffer while a further page is
      expected, `foreach` yields that walk. */
  lemma {:induction false} RefetchDrain(search: Search, s1: IterState, n: nat, pages: nat)
    requires !InBounds(s1) && s1.more && pages > n
    ensures Drain(search, LoadCurrentVideoOf(search, s1), n) == Take(Walk(search, s1.params, false, pages), n)
    decreases n, 3
  {
    var t := LoadCurrentVideoOf(search, s1);
    match search(s1.params)
    case Failed =>
      assert t.current == None;
    case Fetched(c) =>
      if |c.videos| > 0 {
        assert t.current == Some(c.videos[0]);
        DrainValid(search, t, n, pages - 1);
        assert Rest(search, t, pages - 1) == Walk(search, s1.params, false, pages);
      } else {
        assert t.current == None;
      }
  }

  /** With the corrected rewind(), `foreach` yields the videos of the pages
      in the order the search returns them: the first n of the walk. */
  lemma ForeachFixedWalks(search: Search, p: SearchFields, n: nat, pages: nat)
    requires pages >= n + 2
    ensures ForeachFixed(search, p, n) == Take(Walk(search, p, true, pages), n)
  {
    var r := RewindOf(search, Initial(p));
    var t := RewindFixedOf(search, Initial(p));
    match search(p)
    case Failed =>
      assert t.current == None;
    case Fetched(c) =>
      if |c.videos| > 0 {
        assert t.current == Some(c.videos[0]);
        DrainValid(search, t, n, pages - 1);
        assert Rest(search, t, pages - 1) == Walk(search, p, true, pages);
      } else if HasMorePages(c) {
        assert r.params == NextPageOf(p) && !InBounds(r) && r.more;
        RefetchDrain(search, r, n, pages - 1);
        assert Walk(search, p, true, pages) == Walk(search, NextPageOf(p), false, pages - 1);
      } else {
        assert t.current == None;
        assert Walk(search, p, true, pages) == [];
      }
  }

  // ---------------------------------------------------------------- the class

  class VideoIterator {
    /** client->search(), as an oracle. */
    const search: Search
    var params: SearchParams
    var currentCollection: Option<VideoCollection>
    var currentIndex: nat
    var totalFetched: nat
    var hasMorePages: bool
    var currentVideo: Option<Video>
    ghost var requests: seq<SearchFields>

    ghost function State(): IterState
      reads this, params
    {
      IterState(params.Fields(), currentCollection, currentIndex, totalFetched, hasMorePages, currentVideo, requests)
    }

    /** The iterator keeps the caller's parameter object, not a copy. */
    constructor (search: Search, params: SearchParams)
      ensures this.search == search && this.params == params
      ensures State() == Initial(params.Fields())
    {
      this.search := search;
      this.params := params;
      currentCollection := None;
      currentIndex := 0;
      totalFetched := 0;
      hasMorePages := true;
      currentVideo := None;
      requests := [];
    }

    method Rewind()
      modifies this
      ensures State() == RewindOf(search, old(State()))
    {
      currentIndex := 0;
      totalFetched := 0;
      hasMorePages := true;
      FetchNextPage();
    }

    /** rewind() corrected: the current video is loaded after the fetch. */
    method RewindFixed()
      modifies this
      ensures State() == RewindFixedOf(search, old(State()))
    {
      Rewind();
      LoadCurrentVideo();
    }

    method Current() returns (v: Option<Video>)
      ensures v == State().current
    {
      return currentVideo;
    }

    method Key() returns (k: nat)
      ensures k == State().fetched
    {
      return totalFetched;
    }

    method Next()
      modifies this
      ensures State() == NextOf(search, old(State()))
    {
      currentIndex := currentIndex + 1;
      totalFetched := totalFetched + 1;
      LoadCurrentVideo();
    }

    method Valid() returns (b: bool)
      ensures b <==> IsValid(State())
    {
      return currentVideo != None;
    }

    method LoadCurrentVideo()
      modifies this
      ensures State() == LoadCurrentVideoOf(search, old(State()))
    {
      if currentCollection != None && currentIndex < |currentCollection.value.videos| {
        currentVideo := Some(currentCollection.value.videos[currentIndex]);
        return;
      }
      if hasMorePages {
        FetchNextPage();
        if currentCollection != None && currentIndex < |currentCollection.value.videos| {
          currentVideo := Some(currentCollection.value.videos[currentIndex]);
          return;
        }
      }
      currentVideo := None;
    }

    method FetchNextPage()
      modifies this
      ensures State() == FetchNextPageOf(search, old(State()))
    {
      requests := requests + [params.Fields()];
      var result := search(params.Fields());
      match result {
        case Fetched(c) =>
          currentCollection := Some(c);
          currentIndex := 0;
          hasMorePages := HasMorePages(c);
          if hasMorePages {
            params := params.NextPage();
          }
        case Failed =>
          currentCollection := Some(VideoCollections.Empty);
          hasMorePages := false;
          currentVideo := None;
      }
    }

    method Count() returns (n: nat)
      ensures n == State().fetched
    {
      return totalFetched;
    }

    method HasMore() returns (b: bool)
      ensures b == State().more
    {
      return hasMorePages;
    }

    /** The page the next request will ask for. */
    method GetCurrentPage() returns (page: int)
      ensures page == State().params.page
    {
      return params.page;
    }
  }
}
