/** Video: one video record as the API returns it, with its default
    thumbnail and its list of thumbnails. */
module Videos {
  import opened Wrappers
  import opened Values
  import Text
  import Failures
  import opened Arguments
  import opened Thumbs

  datatype Video = Video(
    id: string,
    title: string,
    keywords: string,
    views: int,
    rate: real,
    url: string,
    added: string,
    lengthSec: int,
    lengthMin: string,
    embed: string,
    defaultThumb: Thumb,
    thumbs: seq<Thumb>)

  /** The fields a video record must carry, in the order they are checked. */
  const RequiredFields: seq<string> := ["id", "title", "url", "embed"]

  function MissingFieldError(field: string): (e: Error)
    ensures e == Failures.Eporner("Missing required field: " + field)
  {
    Failures.Eporner("Missing required field: " + field)
  }

  /** The required field at position i is the first one from k on that is not set. */
  predicate MissingFirstAt(data: PhpArray, k: nat, i: int) {
    k <= i < |RequiredFields| && !IsSet(data, RequiredFields[i])
    && forall j :: k <= j < i ==> IsSet(data, RequiredFields[j])
  }

  /** A field that is set at k does not change which later field is missing first. */
  lemma MissingFirstEarlier(data: PhpArray, k: nat, i: int)
    requires k < |RequiredFields| && IsSet(data, RequiredFields[k]) && MissingFirstAt(data, k + 1, i)
    ensures MissingFirstAt(data, k, i)
  {
  }

  /** The required fields from position k on, checked in order. */
  function CheckRequired(data: PhpArray, k: nat): (o: Outcome<Error>)
    requires k <= |RequiredFields|
    ensures o.Pass? <==> forall j :: k <= j < |RequiredFields| ==> IsSet(data, RequiredFields[j])
    ensures o.Fail? ==> exists i :: MissingFirstAt(data, k, i) && o.error == MissingFieldError(RequiredFields[i])
    decreases |RequiredFields| - k
  {
    if k == |RequiredFields| then Pass
    else if !IsSet(data, RequiredFields[k]) then
      assert MissingFirstAt(data, k, k);
      Fail(MissingFieldError(RequiredFields[k]))
    else
      var o := CheckRequired(data, k + 1);
      assert o.Fail? ==> exists i :: MissingFirstAt(data, k, i) && o.error == MissingFieldError(RequiredFields[i]) by {
        if o.Fail? {
          var i :| MissingFirstAt(data, k + 1, i) && o.error == MissingFieldError(RequiredFields[i]);
          MissingFirstEarlier(data, k, i);
        }
      }
      o
  }

  /** validateRequired(): the loop over the required fields; the first that
      is missing or null ends it with "Missing required field: <name>". */
  method ValidateRequired(data: PhpArray) returns (o: Outcome<Error>)
    ensures o == CheckRequired(data, 0)
    ensures o.Pass? <==> forall j :: 0 <= j < |RequiredFields| ==> IsSet(data, RequiredFields[j])
  {
    var i := 0;
    while i < |RequiredFields|
      invariant 0 <= i <= |RequiredFields|
      invariant CheckRequired(data, i) == CheckRequired(data, 0)
    {
      if !IsSet(data, RequiredFields[i]) {
        return Fail(MissingFieldError(RequiredFields[i]));
      }
      i := i + 1;
    }
    return Pass;
  }

  /** The thumbnails of a list, each read by Thumb's fromArray(); the first
      that fails to read ends the list. */
  function ThumbsFromValues(items: seq<Value>): (r: Result<seq<Thumb>, Error>)
    ensures r.Success? <==> forall i :: 0 <= i < |items| ==> ThumbFromValue(items[i]).Success?
    ensures r.Success? ==> (|r.value| == |items|
      && forall i :: 0 <= i < |items| ==> ThumbFromValue(items[i]) == Success(r.value[i]))
  {
    MapResult(ThumbFromValue, items)
  }

  /** The default thumbnail: read when set, the fallback otherwise. */
  function DefaultThumbOf(data: PhpArray): (r: Result<Thumb, Error>)
    ensures IsSet(data, "default_thumb") ==> r == ThumbFromValue(Find(data, "default_thumb").value)
    ensures !IsSet(data, "default_thumb") ==> r == Success(DefaultThumb)
  {
    if IsSet(data, "default_thumb") then ThumbFromValue(Find(data, "default_thumb").value)
    else Success(DefaultThumb)
  }

  /** The thumbnail list: read when set and an array, empty otherwise. */
  predicate HasThumbList(data: PhpArray) {
    IsSet(data, "thumbs") && Find(data, "thumbs").value.Arr?
  }

  /** The thumbnail list of a record: the empty list unless it is set and an array. */
  function ThumbListOf(data: PhpArray): (r: Result<seq<Thumb>, Error>)
    ensures HasThumbList(data) ==> r == ThumbsFromValues(ValuesOf(Find(data, "thumbs").value.entries))
    ensures !HasThumbList(data) ==> r == Success([])
  {
    if HasThumbList(data) then ThumbsFromValues(ValuesOf(Find(data, "thumbs").value.entries)) else Success([])
  }

  /** The video the constructor receives: the required fields cast to
      strings, the optional ones cast with their defaults. */
  function Assemble(data: PhpArray, defaultThumb: Thumb, thumbs: seq<Thumb>): (v: Video)
    requires CheckRequired(data, 0).Pass?
    ensures v.id == ToStr(Find(data, "id").value) && v.title == ToStr(Find(data, "title").value)
    ensures v.url == ToStr(Find(data, "url").value) && v.embed == ToStr(Find(data, "embed").value)
    ensures v.keywords == StrCastArg(data, "keywords", "") && v.views == IntArg(data, "views", 0)
    ensures v.rate == FloatArg(data, "rate", 0.0) && v.added == StrCastArg(data, "added", "")
    ensures v.lengthSec == IntArg(data, "length_sec", 0) && v.lengthMin == StrCastArg(data, "length_min", "0:00")
    ensures v.defaultThumb == defaultThumb && v.thumbs == thumbs
  {
    assert IsSet(data, RequiredFields[0]) && IsSet(data, RequiredFields[1]);
    assert IsSet(data, RequiredFields[2]) && IsSet(data, RequiredFields[3]);
    Video(
      ToStr(Find(data, "id").value),
      ToStr(Find(data, "title").value),
      StrCastArg(data, "keywords", ""),
      IntArg(data, "views", 0),
      FloatArg(data, "rate", 0.0),
      ToStr(Find(data, "url").value),
      StrCastArg(data, "added", ""),
      IntArg(data, "length_sec", 0),
      StrCastArg(data, "length_min", "0:00"),
      ToStr(Find(data, "embed").value),
      defaultThumb,
      thumbs)
  }

  /** fromArray(): the required fields are checked first, then the default
      thumbnail and the list of thumbnails are read; the remaining fields are
      cast and take their defaults when missing. */
  function VideoFromArray(data: PhpArray): (r: Result<Video, Error>)
    ensures CheckRequired(data, 0).Fail? ==> r == Failure(CheckRequired(data, 0).error)
    ensures CheckRequired(data, 0).Pass? && DefaultThumbOf(data).Failure? ==> r == Failure(DefaultThumbOf(data).error)
    ensures CheckRequired(data, 0).Pass? && DefaultThumbOf(data).Success? && ThumbListOf(data).Failure? ==>
      r == Failure(ThumbListOf(data).error)
    ensures r.Success? <==>
      CheckRequired(data, 0).Pass? && DefaultThumbOf(data).Success? && ThumbListOf(data).Success?
    ensures r.Success? ==> (CheckRequired(data, 0).Pass? && DefaultThumbOf(data) == Success(r.value.defaultThumb)
      && ThumbListOf(data) == Success(r.value.thumbs)
      && r.value == Assemble(data, r.value.defaultThumb, r.value.thumbs))
  {
    var check := CheckRequired(data, 0);
    if check.Fail? then Failure(check.error)
    else
      var defaultThumb :- DefaultThumbOf(data);
      var thumbs :- ThumbListOf(data);
      Success(Assemble(data, defaultThumb, thumbs))
  }

  /** The foreach over the thumbnail list: each element read by Thumb's
      fromArray(), the first failure ending the loop. */
  method ReadThumbs(items: seq<Value>) returns (r: Result<seq<Thumb>, Error>)
    ensures r == ThumbsFromValues(items)
  {
    var thumbs: seq<Thumb> := [];
    var i := 0;
    while i < |items|
      invariant SucceededUpTo(ThumbFromValue, items, i, thumbs)
    {
      var t := ThumbFromValue(items[i]);
      if t.Failure? {
        MapResultFailsAt(ThumbFromValue, items, i);
        return Failure(t.error);
      }
      SucceededStep(ThumbFromValue, items, i, thumbs);
      thumbs := thumbs + [t.value];
      i := i + 1;
    }
    MapResultAll(ThumbFromValue, items, thumbs);
    return Success(thumbs);
  }

  /** fromArray() as the source runs it: the required-field loop, then the
      loop over the thumbnail list. */
  method FromArray(data: PhpArray) returns (r: Result<Video, Error>)
    ensures r == VideoFromArray(data)
  {
    var check := ValidateRequired(data);
    if check.Fail? {
      return Failure(check.error);
    }
    var defaultThumb := DefaultThumbOf(data);
    if defaultThumb.Failure? {
      return Failure(defaultThumb.error);
    }
    var thumbs: seq<Thumb> := [];
    if HasThumbList(data) {
      var read := ReadThumbs(ValuesOf(Find(data, "thumbs").value.entries));
      if read.Failure? {
        return Failure(read.error);
      }
      thumbs := read.value;
    }
    return Success(Assemble(data, defaultThumb.value, thumbs));
  }

  /** toArray(): every field under its wire name, the thumbnails as arrays. */
  function VideoToArray(v: Video): (a: PhpArray)
    ensures Keys(a) == VideoKeys
  {
    [Entry("id", Str(v.id)),
     Entry("title", Str(v.title)),
     Entry("keywords", Str(v.keywords)),
     Entry("views", Int(v.views)),
     Entry("rate", Float(v.rate)),
     Entry("url", Str(v.url)),
     Entry("added", Str(v.added)),
     Entry("length_sec", Int(v.lengthSec)),
     Entry("length_min", Str(v.lengthMin)),
     Entry("embed", Str(v.embed)),
     Entry("default_thumb", Arr(ThumbToArray(v.defaultThumb))),
     Entry("thumbs", Arr(ThumbList(v.thumbs)))]
  }

  const VideoKeys: seq<string> :=
    ["id", "title", "keywords", "views", "rate", "url", "added", "length_sec", "length_min", "embed",
     "default_thumb", "thumbs"]

  /** `array_map` of Thumb's toArray() over the thumbnails: a list. */
  function ThumbList(ts: seq<Thumb>): (a: PhpArray)
    ensures |ValuesOf(a)| == |ts|
    ensures forall i :: 0 <= i < |ts| ==> ValuesOf(a)[i] == Arr(ThumbToArray(ts[i]))
  {
    ListOf(seq(|ts|, i requires 0 <= i < |ts| => Arr(ThumbToArray(ts[i]))))
  }

  lemma VideoKeysDistinct()
    ensures forall i, j :: 0 <= i < j < |VideoKeys| ==> VideoKeys[i] != VideoKeys[j]
  {
  }

  lemma VideoArrayKeys(v: Video)
    ensures DistinctKeys(VideoToArray(v))
  {
    VideoKeysDistinct();
    var a := VideoToArray(v);
    assert forall i :: 0 <= i < |a| ==> a[i].key == VideoKeys[i];
  }

  /** A video written out and read back is the same video. */
  lemma VideoRoundTrip(v: Video)
    ensures VideoFromArray(VideoToArray(v)) == Success(v)
  {
    var a := VideoToArray(v);
    ScalarsWritten(v);
    ThumbsWritten(v);
    ThumbRoundTrip(v.defaultThumb);
    var items := ValuesOf(ThumbList(v.thumbs));
    forall i | 0 <= i < |v.thumbs| ensures ThumbFromValue(items[i]) == Success(v.thumbs[i]) {
      ThumbRoundTrip(v.thumbs[i]);
    }
    MapResultAll(ThumbFromValue, items, v.thumbs);
    FromFullVideoArray(a, v, ThumbList(v.thumbs));
  }

  /** toArray() stores every scalar field under its own key. */
  lemma ScalarsWritten(v: Video)
    ensures Find(VideoToArray(v), "id") == Some(Str(v.id)) && Find(VideoToArray(v), "title") == Some(Str(v.title))
    ensures Find(VideoToArray(v), "keywords") == Some(Str(v.keywords))
    ensures Find(VideoToArray(v), "views") == Some(Int(v.views))
    ensures Find(VideoToArray(v), "rate") == Some(Float(v.rate)) && Find(VideoToArray(v), "url") == Some(Str(v.url))
    ensures Find(VideoToArray(v), "added") == Some(Str(v.added))
    ensures Find(VideoToArray(v), "length_sec") == Some(Int(v.lengthSec))
    ensures Find(VideoToArray(v), "length_min") == Some(Str(v.lengthMin))
    ensures Find(VideoToArray(v), "embed") == Some(Str(v.embed))
  {
    FirstScalarsWritten(v);
    LaterScalarsWritten(v);
  }

  lemma FirstScalarsWritten(v: Video)
    ensures Find(VideoToArray(v), "id") == Some(Str(v.id)) && Find(VideoToArray(v), "title") == Some(Str(v.title))
    ensures Find(VideoToArray(v), "keywords") == Some(Str(v.keywords))
    ensures Find(VideoToArray(v), "views") == Some(Int(v.views))
    ensures Find(VideoToArray(v), "rate") == Some(Float(v.rate))
  {
    var a := VideoToArray(v);
    VideoArrayKeys(v);
    FindDistinct(a, 0);
    FindDistinct(a, 1);
    FindDistinct(a, 2);
    FindDistinct(a, 3);
    FindDistinct(a, 4);
  }

  lemma LaterScalarsWritten(v: Video)
    ensures Find(VideoToArray(v), "url") == Some(Str(v.url))
    ensures Find(VideoToArray(v), "added") == Some(Str(v.added))
    ensures Find(VideoToArray(v), "length_sec") == Some(Int(v.lengthSec))
    ensures Find(VideoToArray(v), "length_min") == Some(Str(v.lengthMin))
    ensures Find(VideoToArray(v), "embed") == Some(Str(v.embed))
  {
    var a := VideoToArray(v);
    VideoArrayKeys(v);
    FindDistinct(a, 5);
    FindDistinct(a, 6);
    FindDistinct(a, 7);
    FindDistinct(a, 8);
    FindDistinct(a, 9);
  }

  /** toArray() stores the thumbnails as arrays under their keys. */
  lemma ThumbsWritten(v: Video)
    ensures Find(VideoToArray(v), "default_thumb") == Some(Arr(ThumbToArray(v.defaultThumb)))
    ensures Find(VideoToArray(v), "thumbs") == Some(Arr(ThumbList(v.thumbs)))
  {
    var a := VideoToArray(v);
    VideoArrayKeys(v);
    FindDistinct(a, 10);
    FindDistinct(a, 11);
  }

  /** A record carrying every field in the form toArray() writes reads back as that video. */
  lemma FromFullVideoArray(data: PhpArray, v: Video, ts: PhpArray)
    requires Find(data, "id") == Some(Str(v.id)) && Find(data, "title") == Some(Str(v.title))
    requires Find(data, "keywords") == Some(Str(v.keywords)) && Find(data, "views") == Some(Int(v.views))
    requires Find(data, "rate") == Some(Float(v.rate)) && Find(data, "url") == Some(Str(v.url))
    requires Find(data, "added") == Some(Str(v.added)) && Find(data, "length_sec") == Some(Int(v.lengthSec))
    requires Find(data, "length_min") == Some(Str(v.lengthMin)) && Find(data, "embed") == Some(Str(v.embed))
    requires Find(data, "default_thumb") == Some(Arr(ThumbToArray(v.defaultThumb)))
    requires ThumbFromValue(Arr(ThumbToArray(v.defaultThumb))) == Success(v.defaultThumb)
    requires Find(data, "thumbs") == Some(Arr(ts)) && ThumbsFromValues(ValuesOf(ts)) == Success(v.thumbs)
    ensures VideoFromArray(data) == Success(v)
  {
    RequiredPresent(data, v.id, v.title, v.url, v.embed);
    ThumbsPresent(data, v, ts);
    AssembleFull(data, v);
  }

  lemma RequiredPresent(data: PhpArray, id: string, title: string, url: string, embed: string)
    requires Find(data, "id") == Some(Str(id)) && Find(data, "title") == Some(Str(title))
    requires Find(data, "url") == Some(Str(url)) && Find(data, "embed") == Some(Str(embed))
    ensures CheckRequired(data, 0).Pass?
  {
    assert IsSet(data, "embed") && IsSet(data, "url");
    assert CheckRequired(data, 3) == Pass;
    assert CheckRequired(data, 2) == Pass;
    assert IsSet(data, "title") && IsSet(data, "id");
    assert CheckRequired(data, 1) == Pass;
  }

  lemma ThumbsPresent(data: PhpArray, v: Video, ts: PhpArray)
    requires Find(data, "default_thumb") == Some(Arr(ThumbToArray(v.defaultThumb)))
    requires ThumbFromValue(Arr(ThumbToArray(v.defaultThumb))) == Success(v.defaultThumb)
    requires Find(data, "thumbs") == Some(Arr(ts)) && ThumbsFromValues(ValuesOf(ts)) == Success(v.thumbs)
    ensures DefaultThumbOf(data) == Success(v.defaultThumb)
    ensures ThumbListOf(data) == Success(v.thumbs)
  {
  }

  lemma AssembleFull(data: PhpArray, v: Video)
    requires CheckRequired(data, 0).Pass?
    requires Find(data, "id") == Some(Str(v.id)) && Find(data, "title") == Some(Str(v.title))
    requires Find(data, "keywords") == Some(Str(v.keywords)) && Find(data, "views") == Some(Int(v.views))
    requires Find(data, "rate") == Some(Float(v.rate)) && Find(data, "url") == Some(Str(v.url))
    requires Find(data, "added") == Some(Str(v.added)) && Find(data, "length_sec") == Some(Int(v.lengthSec))
    requires Find(data, "length_min") == Some(Str(v.lengthMin)) && Find(data, "embed") == Some(Str(v.embed))
    ensures Assemble(data, v.defaultThumb, v.thumbs) == v
  {
    StringArgOfString(data, "keywords", "", v.keywords);
    IntArgOfInt(data, "views", 0, v.views);
    FloatArgOfFloat(data, "rate", 0.0, v.rate);
    StringArgOfString(data, "added", "", v.added);
    IntArgOfInt(data, "length_sec", 0, v.lengthSec);
    StringArgOfString(data, "length_min", "0:00", v.lengthMin);
  }

  /** A record holding only the four required fields takes every default:
      no keywords, no views, rate 0, no date, length 0 and "0:00", the
      fallback thumbnail and no thumbnails. */
  lemma RequiredOnly(data: PhpArray, id: string, title: string, url: string, embed: string)
    requires Find(data, "id") == Some(Str(id)) && Find(data, "title") == Some(Str(title))
    requires Find(data, "url") == Some(Str(url)) && Find(data, "embed") == Some(Str(embed))
    requires !IsSet(data, "keywords") && !IsSet(data, "views") && !IsSet(data, "rate") && !IsSet(data, "added")
    requires !IsSet(data, "length_sec") && !IsSet(data, "length_min")
    requires !IsSet(data, "default_thumb") && !IsSet(data, "thumbs")
    ensures VideoFromArray(data) == Success(Video(id, title, "", 0, 0.0, url, "", 0, "0:00", embed, DefaultThumb, []))
  {
    RequiredPresent(data, id, title, url, embed);
  }

  /** hasThumbs(). */
  predicate HasThumbs(v: Video) { |v.thumbs| > 0 }

  /** getFirstThumb(): the first of the list, the default thumbnail when the
      list is empty. */
  function GetFirstThumb(v: Video): (t: Thumb)
    ensures HasThumbs(v) ==> t == v.thumbs[0]
    ensures !HasThumbs(v) ==> t == v.defaultThumb
    ensures t in v.thumbs || t == v.defaultThumb
  {
    if |v.thumbs| > 0 then v.thumbs[0] else v.defaultThumb
  }

  /** getKeywordsArray(): nothing for an empty keyword string (PHP's
      `empty`, which holds for "" and "0"), otherwise the comma-separated
      pieces, each trimmed. */
  function GetKeywordsArray(v: Video): (ks: seq<string>)
    ensures Text.IsPhpEmpty(v.keywords) ==> ks == []
    ensures !Text.IsPhpEmpty(v.keywords) ==>
      |ks| == |Text.Split(v.keywords, ',')|
      && forall i :: 0 <= i < |ks| ==> ks[i] == Text.Trim(Text.Split(v.keywords, ',')[i])
    ensures !Text.IsPhpEmpty(v.keywords) ==>
      |ks| == Text.CountChar(v.keywords, ',') + 1
      && forall i :: 0 <= i < |ks| ==> Text.IsTrimmed(ks[i]) && ',' !in ks[i]
  {
    if Text.IsPhpEmpty(v.keywords) then []
    else
      var parts := Text.Split(v.keywords, ',');
      Text.SplitCount(v.keywords, ',');
      var ks := seq(|parts|, i requires 0 <= i < |parts| => Text.Trim(parts[i]));
      assert forall i :: 0 <= i < |ks| ==> ',' !in ks[i] by {
        forall i | 0 <= i < |ks| ensures ',' !in ks[i] {
          var j :| Text.Surrounds(parts[i], j, ks[i]);
          assert forall c :: c in ks[i] ==> c in parts[i];
        }
      }
      ks
  }

  /** Keywords written out as "a, b, c" come back as the same keywords. */
  lemma KeywordsRoundTrip(v: Video, ks: seq<string>)
    requires |ks| >= 1
    requires forall i :: 0 <= i < |ks| ==> Text.IsTrimmed(ks[i]) && ',' !in ks[i]
    requires v.keywords == Text.Join(ks, ", ") && !Text.IsPhpEmpty(v.keywords)
    ensures GetKeywordsArray(v) == ks
  {
    var padded := Padded(ks);
    JoinPadded(ks, padded);
    Text.SplitJoin(padded, ',');
    TrimPaddedAll(ks, padded);
  }

  /** The pieces "a", " b", " c" of "a, b, c" when it is cut at the commas. */
  function Padded(ks: seq<string>): (p: seq<string>)
    requires |ks| >= 1
    requires forall i :: 0 <= i < |ks| ==> ',' !in ks[i]
    ensures |p| == |ks| && p[0] == ks[0]
    ensures forall i :: 1 <= i < |ks| ==> p[i] == " " + ks[i]
    ensures forall i :: 0 <= i < |p| ==> ',' !in p[i]
  {
    seq(|ks|, i requires 0 <= i < |ks| => if i == 0 then ks[0] else " " + ks[i])
  }

  lemma TrimPaddedAll(ks: seq<string>, padded: seq<string>)
    requires |ks| >= 1 && |padded| == |ks| && padded[0] == ks[0]
    requires forall i :: 0 <= i < |ks| ==> Text.IsTrimmed(ks[i])
    requires forall i :: 1 <= i < |ks| ==> padded[i] == " " + ks[i]
    ensures seq(|padded|, i requires 0 <= i < |padded| => Text.Trim(padded[i])) == ks
  {
    forall i | 0 <= i < |ks| ensures Text.Trim(padded[i]) == ks[i] {
      if i == 0 { Text.TrimOfTrimmed(ks[0]); } else { Text.TrimPadded(ks[i]); }
    }
  }

  /** Joining with ", " is joining with "," the pieces after the first
      prefixed by a space. */
  lemma {:induction false} JoinPadded(ks: seq<string>, padded: seq<string>)
    requires |ks| >= 1 && |padded| == |ks| && padded[0] == ks[0]
    requires forall i :: 1 <= i < |ks| ==> padded[i] == " " + ks[i]
    ensures Text.Join(ks, ", ") == Text.Join(padded, [','])
    decreases |ks|
  {
    if |ks| > 1 {
      var tail := [" " + ks[1]] + padded[2..];
      JoinPadded(ks[1..], [ks[1]] + padded[2..]);
      assert Text.Join(tail, [',']) == " " + Text.Join([ks[1]] + padded[2..], [',']) by {
        if |ks| == 2 {
        } else {
          assert tail[1..] == padded[2..] && ([ks[1]] + padded[2..])[1..] == padded[2..];
        }
      }
      assert padded[1..] == tail;
    }
  }
}
