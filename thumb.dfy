/** Thumb: one thumbnail of a video, a size name, pixel dimensions and an
    image URL. */
module Thumbs {
  import opened Wrappers
  import opened Values
  import Text
  import Api
  import Failures
  import opened Arguments

  datatype Thumb = Thumb(size: string, width: int, height: int, src: string)

  /** The thumbnail a video falls back to when it has no default thumbnail. */
  const DefaultThumb: Thumb := Thumb("medium", 0, 0, "")

  /** fromArray(): missing or null keys take "medium", 0, 0 and ""; the
      dimensions are cast to integers; a size or source that is not a string
      is a TypeError. */
  function ThumbFromArray(data: PhpArray): (r: Result<Thumb, Error>)
    ensures r.Success? <==> StringTyped(data, "size") && StringTyped(data, "src")
    ensures r.Failure? ==> r.error.TypeError? && !StringTyped(data, r.error.parameter)
    ensures r.Success? ==> r.value.width == IntArg(data, "width", 0) && r.value.height == IntArg(data, "height", 0)
    ensures r.Success? ==>
      StringArg(data, "size", "medium") == Success(r.value.size) && StringArg(data, "src", "") == Success(r.value.src)
  {
    var size :- StringArg(data, "size", "medium");
    var src :- StringArg(data, "src", "");
    Success(Thumb(size, IntArg(data, "width", 0), IntArg(data, "height", 0), src))
  }

  /** fromArray() on a value: a value that is not an array is a TypeError on
      the method's `$data` parameter. */
  function ThumbFromValue(v: Value): (r: Result<Thumb, Error>)
    ensures !v.Arr? ==> r == Failure(Failures.TypeError("data"))
    ensures v.Arr? ==> r == ThumbFromArray(v.entries)
  {
    if v.Arr? then ThumbFromArray(v.entries) else Failure(Failures.TypeError("data"))
  }

  /** toArray(). */
  function ThumbToArray(t: Thumb): (a: PhpArray)
    ensures Keys(a) == ["size", "width", "height", "src"]
  {
    [Entry("size", Str(t.size)), Entry("width", Int(t.width)), Entry("height", Int(t.height)), Entry("src", Str(t.src))]
  }

  lemma ThumbArrayContents(t: Thumb)
    ensures Find(ThumbToArray(t), "size") == Some(Str(t.size))
    ensures Find(ThumbToArray(t), "width") == Some(Int(t.width))
    ensures Find(ThumbToArray(t), "height") == Some(Int(t.height))
    ensures Find(ThumbToArray(t), "src") == Some(Str(t.src))
  {
    var a := ThumbToArray(t);
    assert DistinctKeys(a);
    FindDistinct(a, 0);
    FindDistinct(a, 1);
    FindDistinct(a, 2);
    FindDistinct(a, 3);
  }

  /** A thumbnail written out and read back is the same thumbnail. */
  lemma ThumbRoundTrip(t: Thumb)
    ensures ThumbFromArray(ThumbToArray(t)) == Success(t)
    ensures ThumbFromValue(Arr(ThumbToArray(t))) == Success(t)
  {
    var a := ThumbToArray(t);
    ThumbArrayContents(t);
    StringArgOfString(a, "size", "medium", t.size);
    StringArgOfString(a, "src", "", t.src);
    IntArgOfInt(a, "width", 0, t.width);
    IntArgOfInt(a, "height", 0, t.height);
  }

  /** An empty array gives the fallback thumbnail. */
  lemma ThumbFromEmpty()
    ensures ThumbFromArray([]) == Success(DefaultThumb)
  {
  }

  /** getDimensions(): "<width>x<height>". */
  function GetDimensions(t: Thumb): (d: string)
    ensures Text.Split(d, 'x') == [Text.IntToDecimal(t.width), Text.IntToDecimal(t.height)]
  {
    var w, h := Text.IntToDecimal(t.width), Text.IntToDecimal(t.height);
    Text.DecimalHasNoSeparator(t.width, 'x');
    Text.DecimalHasNoSeparator(t.height, 'x');
    Text.SplitJoin([w, h], 'x');
    assert Text.Join([w, h], "x") == w + "x" + h;
    w + "x" + h
  }

  /** The dimension string names the width and the height, which `(int)`
      reads back from its two halves. */
  lemma DimensionsRoundTrip(t: Thumb)
    ensures |Text.Split(GetDimensions(t), 'x')| == 2
    ensures Text.ParseIntPrefix(Text.Split(GetDimensions(t), 'x')[0]) == t.width
    ensures Text.ParseIntPrefix(Text.Split(GetDimensions(t), 'x')[1]) == t.height
  {
    Text.ParseIntOfDecimal(t.width);
    Text.ParseIntOfDecimal(t.height);
  }

  predicate IsSmall(t: Thumb) { t.size == "small" }
  predicate IsMedium(t: Thumb) { t.size == "medium" }
  predicate IsBig(t: Thumb) { t.size == "big" }

  /** At most one size test holds, and a size from the domain passes exactly
      one of them. */
  lemma SizeTests(t: Thumb)
    ensures !(IsSmall(t) && IsMedium(t)) && !(IsSmall(t) && IsBig(t)) && !(IsMedium(t) && IsBig(t))
    ensures Api.IsValidThumbSize(t.size) <==> IsSmall(t) || IsMedium(t) || IsBig(t)
  {
  }
}
