/** RemovedVideo: the id of a video the site no longer serves. */
module RemovedVideos {
  import opened Wrappers
  import opened Values
  import Failures
  import Text

  type Error = Failures.Failure

  datatype RemovedVideo = RemovedVideo(id: string)

  /** fromArray(): the id is required and cast to a string. */
  function RemovedFromArray(data: PhpArray): (r: Result<RemovedVideo, Error>)
    ensures !IsSet(data, "id") ==> r == Failure(Failures.Eporner("Missing required field: id"))
    ensures IsSet(data, "id") ==> r == Success(RemovedVideo(ToStr(Find(data, "id").value)))
  {
    if !IsSet(data, "id") then Failure(Failures.Eporner("Missing required field: id"))
    else Success(RemovedVideo(ToStr(Find(data, "id").value)))
  }

  /** fromArray() on a value: a value that is not an array is a TypeError. */
  function RemovedFromValue(v: Value): (r: Result<RemovedVideo, Error>)
    ensures !v.Arr? ==> r == Failure(Failures.TypeError("data"))
    ensures v.Arr? ==> r == RemovedFromArray(v.entries)
  {
    if v.Arr? then RemovedFromArray(v.entries) else Failure(Failures.TypeError("data"))
  }

  /** fromString(). */
  function FromString(id: string): (r: RemovedVideo)
    ensures ToString(r) == id
  {
    RemovedVideo(id)
  }

  /** toArray(). */
  function RemovedToArray(r: RemovedVideo): (a: PhpArray)
    ensures Keys(a) == ["id"] && Find(a, "id") == Some(Str(r.id))
  {
    [Entry("id", Str(r.id))]
  }

  /** __toString(): the id. */
  function ToString(r: RemovedVideo): string {
    r.id
  }

  /** Written out and read back, and printed and read back, a removed video
      is unchanged. */
  lemma RemovedRoundTrip(r: RemovedVideo)
    ensures RemovedFromArray(RemovedToArray(r)) == Success(r)
    ensures FromString(ToString(r)) == r
  {
  }

  /** An integer id, as JSON may carry it, is read as its decimal form. */
  lemma IntegerId(data: PhpArray, id: int)
    requires Find(data, "id") == Some(Int(id))
    ensures RemovedFromArray(data) == Success(RemovedVideo(Text.IntToDecimal(id)))
  {
  }
}
