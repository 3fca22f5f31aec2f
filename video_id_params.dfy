/** VideoIdParams: the parameters of the lookup by id, a thumbnail size and a
    response format. */
module VideoIdParameters {
  import opened Wrappers
  import opened Values
  import Api
  import ValidationErrors
  import Failures
  import opened Arguments

  datatype IdFields = IdFields(thumbsize: string, format: string)

  const IdDefaults: IdFields := IdFields(Api.DEFAULT_THUMBSIZE, Api.DEFAULT_FORMAT)

  predicate IdValid(f: IdFields) {
    Api.IsValidThumbSize(f.thumbsize) && Api.IsValidFormat(f.format)
  }

  /** validate(): the thumbnail size is checked first, then the format. */
  function ValidateIdFields(f: IdFields): (o: Outcome<Error>)
    ensures o.Pass? <==> IdValid(f)
    ensures !Api.IsValidThumbSize(f.thumbsize) ==>
      o == Fail(Failures.Invalid(ValidationErrors.InvalidThumbSize(f.thumbsize)))
    ensures Api.IsValidThumbSize(f.thumbsize) && !Api.IsValidFormat(f.format) ==>
      o == Fail(Failures.Invalid(ValidationErrors.InvalidFormat(f.format)))
  {
    if !Api.IsValidThumbSize(f.thumbsize) then
      Fail(Failures.Invalid(ValidationErrors.InvalidThumbSize(f.thumbsize)))
    else if !Api.IsValidFormat(f.format) then
      Fail(Failures.Invalid(ValidationErrors.InvalidFormat(f.format)))
    else
      Pass
  }

  /** toArray(): validates, then lists the two parameters. */
  function IdFieldsToArray(f: IdFields): (r: Result<PhpArray, Error>)
    ensures r.Failure? <==> !IdValid(f)
    ensures r.Failure? ==> Fail(r.error) == ValidateIdFields(f)
    ensures r.Success? ==> Keys(r.value) == ["thumbsize", "format"]
    ensures r.Success? ==>
      Find(r.value, "thumbsize") == Some(Str(f.thumbsize)) && Find(r.value, "format") == Some(Str(f.format))
  {
    var check := ValidateIdFields(f);
    if check.Fail? then Failure(check.error)
    else Success([Entry("thumbsize", Str(f.thumbsize)), Entry("format", Str(f.format))])
  }

  /** fromArray(): missing or null keys take their defaults; a value that is
      not a string is a TypeError. Nothing is validated. */
  function IdFieldsFromArray(data: PhpArray): (r: Result<IdFields, Error>)
    ensures r.Success? <==> StringTyped(data, "thumbsize") && StringTyped(data, "format")
    ensures r.Failure? ==> r.error.TypeError? && !StringTyped(data, r.error.parameter)
    ensures r.Success? && !IsSet(data, "thumbsize") ==> r.value.thumbsize == Api.DEFAULT_THUMBSIZE
    ensures r.Success? && !IsSet(data, "format") ==> r.value.format == Api.DEFAULT_FORMAT
    ensures r.Success? ==>
      StringArg(data, "thumbsize", Api.DEFAULT_THUMBSIZE) == Success(r.value.thumbsize) && StringArg(data, "format", Api.DEFAULT_FORMAT) == Success(r.value.format)
  {
    var thumbsize :- StringArg(data, "thumbsize", Api.DEFAULT_THUMBSIZE);
    var format :- StringArg(data, "format", Api.DEFAULT_FORMAT);
    Success(IdFields(thumbsize, format))
  }

  /** A request array read back gives the parameters it came from. */
  lemma IdArrayRoundTrip(f: IdFields)
    requires IdValid(f)
    ensures IdFieldsToArray(f).Success?
    ensures IdFieldsFromArray(IdFieldsToArray(f).value) == Success(f)
  {
  }

  lemma IdDefaultsValid()
    ensures IdValid(IdDefaults)
    ensures IdFieldsFromArray([]) == Success(IdDefaults)
  {
  }

  class VideoIdParams {
    var thumbsize: string
    var format: string

    function Fields(): IdFields
      reads this
    {
      IdFields(thumbsize, format)
    }

    constructor (thumbsize: string := Api.DEFAULT_THUMBSIZE, format: string := Api.DEFAULT_FORMAT)
      ensures Fields() == IdFields(thumbsize, format)
    {
      this.thumbsize := thumbsize;
      this.format := format;
    }

    method Validate() returns (o: Outcome<Error>)
      ensures o == ValidateIdFields(Fields())
    {
      o := ValidateIdFields(Fields());
    }

    method ToArray() returns (r: Result<PhpArray, Error>)
      ensures r == IdFieldsToArray(Fields())
    {
      r := IdFieldsToArray(Fields());
    }

    method SetThumbSize(thumbsize: string) returns (self: VideoIdParams)
      modifies this
      ensures self == this && Fields() == old(Fields()).(thumbsize := thumbsize)
    {
      this.thumbsize := thumbsize;
      self := this;
    }

    method SetFormat(format: string) returns (self: VideoIdParams)
      modifies this
      ensures self == this && Fields() == old(Fields()).(format := format)
    {
      this.format := format;
      self := this;
    }

    static method FromArray(data: PhpArray) returns (r: Result<VideoIdParams, Error>)
      ensures IdFieldsFromArray(data).Failure? ==> r == Failure(IdFieldsFromArray(data).error)
      ensures IdFieldsFromArray(data).Success? ==>
        r.Success? && fresh(r.value) && r.value.Fields() == IdFieldsFromArray(data).value
    {
      var f := IdFieldsFromArray(data);
      if f.Failure? {
        return Failure(f.error);
      }
      var p := new VideoIdParams(f.value.thumbsize, f.value.format);
      return Success(p);
    }
  }
}
