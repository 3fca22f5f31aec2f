/** ValidationException: the parameter that failed validation, the value it
    had, and a message, with one factory per check of the parameter model. */
module ValidationErrors {
  import opened Values
  import Text
  import Api

  datatype ValidationError = ValidationError(parameter: string, value: Value, message: string) {
    function GetParameter(): string { parameter }
    function GetValue(): Value { value }
  }

  /** The message the exception falls back to when it is given none. */
  function DefaultMessage(parameter: string, value: Value): string
  {
    "Invalid value '" + ToStr(value) + "' for parameter '" + parameter + "'"
  }

  /** The constructor. PHP's `?:` replaces every falsy message, so "0" is
      replaced as well as "". */
  function New(parameter: string, value: Value, message: string := ""): (e: ValidationError)
    ensures e.GetParameter() == parameter && e.GetValue() == value
    ensures !Text.IsPhpEmpty(message) ==> e.message == message
    ensures Text.IsPhpEmpty(message) ==> e.message == DefaultMessage(parameter, value)
  {
    ValidationError(parameter, value, if Text.IsPhpEmpty(message) then DefaultMessage(parameter, value) else message)
  }

  function JoinInts(xs: seq<int>, sep: string): string
  {
    Text.Join(seq(|xs|, i requires 0 <= i < |xs| => Text.IntToDecimal(xs[i])), sep)
  }

  function InvalidThumbSize(thumbsize: string): (e: ValidationError)
    ensures e.parameter == "thumbsize" && e.value == Str(thumbsize)
    ensures e.message == "Invalid thumbsize '" + thumbsize + "'. Valid values are: small, medium, big"
  {
    New("thumbsize", Str(thumbsize),
      "Invalid thumbsize '" + thumbsize + "'. Valid values are: " + Text.Join(Api.VALID_THUMB_SIZES, ", "))
  }

  /** The filter domain {0, 1, 2} as `implode(', ', ...)` lists it. */
  lemma FilterListing()
    ensures JoinInts(Api.VALID_GAY_OPTIONS, ", ") == "0, 1, 2"
    ensures JoinInts(Api.VALID_LQ_OPTIONS, ", ") == "0, 1, 2"
  {
    var ds := seq(3, i requires 0 <= i < 3 => Text.IntToDecimal(Api.VALID_GAY_OPTIONS[i]));
    assert ds == ["0", "1", "2"];
    assert Text.Join(ds[2..], ", ") == "2";
    assert Text.Join(ds[1..], ", ") == "1, 2" by { assert ds[1..][1..] == ds[2..]; }
  }

  function InvalidOrder(order: string): (e: ValidationError)
    ensures e.parameter == "order" && e.value == Str(order)
    ensures e.message == "Invalid order '" + order + "'. Valid values are: " + Text.Join(Api.VALID_ORDERS, ", ")
  {
    New("order", Str(order),
      "Invalid order '" + order + "'. Valid values are: " + Text.Join(Api.VALID_ORDERS, ", "))
  }

  function InvalidFormat(format: string): (e: ValidationError)
    ensures e.parameter == "format" && e.value == Str(format)
    ensures e.message == "Invalid format '" + format + "'. Valid values are: json, xml"
  {
    New("format", Str(format),
      "Invalid format '" + format + "'. Valid values are: " + Text.Join(Api.VALID_FORMATS, ", "))
  }

  /** The wire name "per_page" is reported, not the field name. */
  function InvalidPerPage(perPage: int): (e: ValidationError)
    ensures e.parameter == "per_page" && e.value == Int(perPage)
    ensures e.message == "Invalid per_page '" + Text.IntToDecimal(perPage) + "'. Valid range is: 1-1000"
  {
    New("per_page", Int(perPage),
      "Invalid per_page '" + Text.IntToDecimal(perPage) + "'. Valid range is: 1-"
      + Text.IntToDecimal(Api.MAX_PER_PAGE))
  }

  function InvalidPage(page: int): (e: ValidationError)
    ensures e.parameter == "page" && e.value == Int(page)
    ensures e.message == "Invalid page '" + Text.IntToDecimal(page) + "'. Valid range is: 1-1000000"
  {
    New("page", Int(page),
      "Invalid page '" + Text.IntToDecimal(page) + "'. Valid range is: 1-" + Text.IntToDecimal(Api.MAX_PAGE))
  }

  function InvalidGay(gay: int): (e: ValidationError)
    ensures e.parameter == "gay" && e.value == Int(gay)
    ensures e.message == "Invalid gay '" + Text.IntToDecimal(gay) + "'. Valid values are: 0, 1, 2"
  {
    FilterListing();
    New("gay", Int(gay),
      "Invalid gay '" + Text.IntToDecimal(gay) + "'. Valid values are: " + JoinInts(Api.VALID_GAY_OPTIONS, ", "))
  }

  function InvalidLq(lq: int): (e: ValidationError)
    ensures e.parameter == "lq" && e.value == Int(lq)
    ensures e.message == "Invalid lq '" + Text.IntToDecimal(lq) + "'. Valid values are: 0, 1, 2"
  {
    FilterListing();
    New("lq", Int(lq),
      "Invalid lq '" + Text.IntToDecimal(lq) + "'. Valid values are: " + JoinInts(Api.VALID_LQ_OPTIONS, ", "))
  }

  /** A missing required parameter: the value is null. */
  function MissingRequired(parameter: string): (e: ValidationError)
    ensures e.parameter == parameter && e.value == Null
    ensures e.message == "Required parameter '" + parameter + "' is missing"
  {
    New(parameter, Null, "Required parameter '" + parameter + "' is missing")
  }
}

/** The errors the library's operations end in. */
module Failures {
  import ValidationErrors

  datatype Failure =
    /** A ValidationException. */
    | Invalid(cause: ValidationErrors.ValidationError)
    /** The library's base exception, with its message (a missing required
        field, a JSON or XML document that does not parse). */
    | Eporner(message: string)
    /** PHP's TypeError: under strict typing, a value of the wrong type was
        passed to the named parameter. */
    | TypeError(parameter: string)
}
