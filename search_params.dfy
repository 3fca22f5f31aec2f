/** SearchParams: the parameters of the search call. The checks and the
    conversions are functions on the field values (SearchFields); the class
    SearchParams holds the fields the setters assign and returns itself from
    every setter, as the fluent interface does. */
module SearchParameters {
  import opened Wrappers
  import opened Values
  import Text
  import Api
  import ValidationErrors
  import Failures
  import opened Arguments

  type Error = Failures.Failure

  datatype SearchFields = SearchFields(
    query: string,
    perPage: int,
    page: int,
    thumbsize: string,
    order: string,
    gay: int,
    lq: int,
    format: string)

  /** The constructor's default arguments. */
  const Defaults: SearchFields := SearchFields(
    Api.DEFAULT_QUERY, Api.DEFAULT_PER_PAGE, Api.DEFAULT_PAGE, Api.DEFAULT_THUMBSIZE,
    Api.DEFAULT_ORDER, Api.DEFAULT_GAY, Api.DEFAULT_LQ, Api.DEFAULT_FORMAT)

  /** The checks validate() makes, one per checked parameter. The query is
      never checked. */
  datatype Check = ThumbSizeCheck | OrderCheck | FormatCheck | PerPageCheck | PageCheck | GayCheck | LqCheck

  /** The order in which validate() makes the checks. */
  const CheckOrder: seq<Check> :=
    [ThumbSizeCheck, OrderCheck, FormatCheck, PerPageCheck, PageCheck, GayCheck, LqCheck]

  /** Whether the field that check c looks at passes it. */
  predicate FieldOk(f: SearchFields, c: Check) {
    match c
    case ThumbSizeCheck => Api.IsValidThumbSize(f.thumbsize)
    case OrderCheck => Api.IsValidOrder(f.order)
    case FormatCheck => Api.IsValidFormat(f.format)
    case PerPageCheck => Api.IsValidPerPage(f.perPage)
    case PageCheck => Api.IsValidPage(f.page)
    case GayCheck => f.gay in Api.VALID_GAY_OPTIONS
    case LqCheck => f.lq in Api.VALID_LQ_OPTIONS
  }

  /** The exception check c throws. */
  function Rejection(f: SearchFields, c: Check): (e: ValidationErrors.ValidationError) {
    match c
    case ThumbSizeCheck => ValidationErrors.InvalidThumbSize(f.thumbsize)
    case OrderCheck => ValidationErrors.InvalidOrder(f.order)
    case FormatCheck => ValidationErrors.InvalidFormat(f.format)
    case PerPageCheck => ValidationErrors.InvalidPerPage(f.perPage)
    case PageCheck => ValidationErrors.InvalidPage(f.page)
    case GayCheck => ValidationErrors.InvalidGay(f.gay)
    case LqCheck => ValidationErrors.InvalidLq(f.lq)
  }

  /** Every check passes. */
  predicate Valid(f: SearchFields) {
    FieldOk(f, ThumbSizeCheck) && FieldOk(f, OrderCheck) && FieldOk(f, FormatCheck)
    && FieldOk(f, PerPageCheck) && FieldOk(f, PageCheck) && FieldOk(f, GayCheck) && FieldOk(f, LqCheck)
  }

  /** The check at position i is the first one from position k on that fails. */
  predicate FailsFirstAt(f: SearchFields, k: nat, i: int) {
    k <= i < |CheckOrder| && !FieldOk(f, CheckOrder[i])
    && forall j :: k <= j < i ==> FieldOk(f, CheckOrder[j])
  }

  /** A check that passes at k does not change which later check fails first. */
  lemma FailsFirstEarlier(f: SearchFields, k: nat, i: int)
    requires k < |CheckOrder| && FieldOk(f, CheckOrder[k]) && FailsFirstAt(f, k + 1, i)
    ensures FailsFirstAt(f, k, i)
  {
  }

  /** The checks from position k on, made one after the other: the first
      that fails throws its exception. */
  function ValidateFrom(f: SearchFields, k: nat): (o: Outcome<Error>)
    requires k <= |CheckOrder|
    ensures o.Pass? <==> forall j :: k <= j < |CheckOrder| ==> FieldOk(f, CheckOrder[j])
    ensures o.Fail? ==> exists i :: FailsFirstAt(f, k, i) && o.error == Failures.Invalid(Rejection(f, CheckOrder[i]))
    decreases |CheckOrder| - k
  {
    if k == |CheckOrder| then Pass
    else if !FieldOk(f, CheckOrder[k]) then
      assert FailsFirstAt(f, k, k);
      Fail(Failures.Invalid(Rejection(f, CheckOrder[k])))
    else
      var o := ValidateFrom(f, k + 1);
      assert o.Fail? ==> exists i :: FailsFirstAt(f, k, i) && o.error == Failures.Invalid(Rejection(f, CheckOrder[i])) by {
        if o.Fail? {
          var i :| FailsFirstAt(f, k + 1, i) && o.error == Failures.Invalid(Rejection(f, CheckOrder[i]));
          FailsFirstEarlier(f, k, i);
        }
      }
      o
  }

  /** validate(): passes when every check passes, and otherwise throws the
      exception of the first check, in the order of CheckOrder, that fails. */
  function ValidateFields(f: SearchFields): (o: Outcome<Error>)
    ensures o.Pass? <==> Valid(f)
    ensures o.Fail? ==> exists i :: FailsFirstAt(f, 0, i) && o.error == Failures.Invalid(Rejection(f, CheckOrder[i]))
  {
    var o := ValidateFrom(f, 0);
    assert Valid(f) <==> forall j :: 0 <= j < |CheckOrder| ==> FieldOk(f, CheckOrder[j]) by {
      assert FieldOk(f, CheckOrder[0]) == FieldOk(f, ThumbSizeCheck);
      assert FieldOk(f, CheckOrder[6]) == FieldOk(f, LqCheck);
    }
    o
  }

  /** The keys of the request array, in the order toArray() writes them. */
  const RequestKeys: seq<string> := ["query", "per_page", "page", "thumbsize", "order", "gay", "lq", "format"]

  /** The request parameters under their wire names. */
  function RequestArray(f: SearchFields): PhpArray {
    [Entry("query", Str(f.query)),
     Entry("per_page", Int(f.perPage)),
     Entry("page", Int(f.page)),
     Entry("thumbsize", Str(f.thumbsize)),
     Entry("order", Str(f.order)),
     Entry("gay", Int(f.gay)),
     Entry("lq", Int(f.lq)),
     Entry("format", Str(f.format))]
  }

  lemma RequestArrayKeys(f: SearchFields)
    ensures Keys(RequestArray(f)) == RequestKeys && DistinctKeys(RequestArray(f))
  {
    RequestKeysDistinct();
    var a := RequestArray(f);
    assert forall i :: 0 <= i < |a| ==> a[i].key == RequestKeys[i];
  }

  lemma RequestKeysDistinct()
    ensures forall i, j :: 0 <= i < j < |RequestKeys| ==> RequestKeys[i] != RequestKeys[j]
  {
  }

  lemma RequestArrayContents(f: SearchFields)
    ensures Keys(RequestArray(f)) == RequestKeys && DistinctKeys(RequestArray(f))
    ensures Find(RequestArray(f), "query") == Some(Str(f.query))
    ensures Find(RequestArray(f), "per_page") == Some(Int(f.perPage))
    ensures Find(RequestArray(f), "page") == Some(Int(f.page))
    ensures Find(RequestArray(f), "thumbsize") == Some(Str(f.thumbsize))
    ensures Find(RequestArray(f), "order") == Some(Str(f.order))
    ensures Find(RequestArray(f), "gay") == Some(Int(f.gay))
    ensures Find(RequestArray(f), "lq") == Some(Int(f.lq))
    ensures Find(RequestArray(f), "format") == Some(Str(f.format))
  {
    RequestArrayKeys(f);
    var a := RequestArray(f);
    FindDistinct(a, 0);
    FindDistinct(a, 1);
    FindDistinct(a, 2);
    FindDistinct(a, 3);
    FindDistinct(a, 4);
    FindDistinct(a, 5);
    FindDistinct(a, 6);
    FindDistinct(a, 7);
  }

  /** toArray(): validates, then lists the eight request parameters under
      their wire names. */
  function FieldsToArray(f: SearchFields): (r: Result<PhpArray, Error>)
    ensures r.Failure? <==> !Valid(f)
    ensures r.Failure? ==> Fail(r.error) == ValidateFields(f)
    ensures r.Success? ==> Keys(r.value) == RequestKeys && DistinctKeys(r.value)
    ensures r.Success? ==>
      Find(r.value, "query") == Some(Str(f.query)) && Find(r.value, "per_page") == Some(Int(f.perPage))
      && Find(r.value, "page") == Some(Int(f.page)) && Find(r.value, "thumbsize") == Some(Str(f.thumbsize))
      && Find(r.value, "order") == Some(Str(f.order)) && Find(r.value, "gay") == Some(Int(f.gay))
      && Find(r.value, "lq") == Some(Int(f.lq)) && Find(r.value, "format") == Some(Str(f.format))
  {
    var check := ValidateFields(f);
    if check.Fail? then Failure(check.error)
    else
      RequestArrayContents(f);
      Success(RequestArray(f))
  }

  /** fromArray(): every missing or null key takes its default; the integer
      fields are cast, the string fields must be strings. Nothing is validated. */
  function FieldsFromArray(data: PhpArray): (r: Result<SearchFields, Error>)
    ensures r.Success? <==>
      StringTyped(data, "query") && StringTyped(data, "thumbsize")
      && StringTyped(data, "order") && StringTyped(data, "format")
    ensures r.Failure? ==> r.error.TypeError? && !StringTyped(data, r.error.parameter)
    ensures r.Success? ==>
      StringArg(data, "query", Api.DEFAULT_QUERY) == Success(r.value.query)
      && StringArg(data, "thumbsize", Api.DEFAULT_THUMBSIZE) == Success(r.value.thumbsize)
      && StringArg(data, "order", Api.DEFAULT_ORDER) == Success(r.value.order)
      && StringArg(data, "format", Api.DEFAULT_FORMAT) == Success(r.value.format)
    ensures r.Success? ==>
      r.value.perPage == IntArg(data, "per_page", Api.DEFAULT_PER_PAGE)
      && r.value.page == IntArg(data, "page", Api.DEFAULT_PAGE)
      && r.value.gay == IntArg(data, "gay", Api.DEFAULT_GAY)
      && r.value.lq == IntArg(data, "lq", Api.DEFAULT_LQ)
  {
    var query :- StringArg(data, "query", Api.DEFAULT_QUERY);
    var thumbsize :- StringArg(data, "thumbsize", Api.DEFAULT_THUMBSIZE);
    var order :- StringArg(data, "order", Api.DEFAULT_ORDER);
    var format :- StringArg(data, "format", Api.DEFAULT_FORMAT);
    Success(SearchFields(
      query,
      IntArg(data, "per_page", Api.DEFAULT_PER_PAGE),
      IntArg(data, "page", Api.DEFAULT_PAGE),
      thumbsize,
      order,
      IntArg(data, "gay", Api.DEFAULT_GAY),
      IntArg(data, "lq", Api.DEFAULT_LQ),
      format))
  }


  /** fromArray() of an empty array is the default parameter set. */
  lemma FromEmptyArray()
    ensures FieldsFromArray([]) == Success(Defaults)
  {
  }

  /** An array holding every field, with the string fields as strings, reads
      back as exactly those fields. */
  lemma FromFullArray(data: PhpArray, f: SearchFields)
    requires Find(data, "query") == Some(Str(f.query)) && Find(data, "per_page") == Some(Int(f.perPage))
    requires Find(data, "page") == Some(Int(f.page)) && Find(data, "thumbsize") == Some(Str(f.thumbsize))
    requires Find(data, "order") == Some(Str(f.order)) && Find(data, "gay") == Some(Int(f.gay))
    requires Find(data, "lq") == Some(Int(f.lq)) && Find(data, "format") == Some(Str(f.format))
    ensures FieldsFromArray(data) == Success(f)
  {
    StringArgOfString(data, "query", Api.DEFAULT_QUERY, f.query);
    StringArgOfString(data, "thumbsize", Api.DEFAULT_THUMBSIZE, f.thumbsize);
    StringArgOfString(data, "order", Api.DEFAULT_ORDER, f.order);
    StringArgOfString(data, "format", Api.DEFAULT_FORMAT, f.format);
    IntArgOfInt(data, "per_page", Api.DEFAULT_PER_PAGE, f.perPage);
    IntArgOfInt(data, "page", Api.DEFAULT_PAGE, f.page);
    IntArgOfInt(data, "gay", Api.DEFAULT_GAY, f.gay);
    IntArgOfInt(data, "lq", Api.DEFAULT_LQ, f.lq);
  }

  /** A request array read back gives the parameters it came from. */
  lemma ArrayRoundTrip(f: SearchFields)
    requires Valid(f)
    ensures FieldsToArray(f).Success?
    ensures FieldsFromArray(FieldsToArray(f).value) == Success(f)
  {
    RequestArrayContents(f);
    assert ValidateFields(f) == Pass;
    FromFullArray(RequestArray(f), f);
  }

  /** nextPage() and withPage(): a copy with only the page changed. */
  function WithPageOf(f: SearchFields, page: int): (g: SearchFields)
    ensures g.page == page
    ensures g.query == f.query && g.perPage == f.perPage && g.thumbsize == f.thumbsize
    ensures g.order == f.order && g.gay == f.gay && g.lq == f.lq && g.format == f.format
  {
    f.(page := page)
  }

  function NextPageOf(f: SearchFields): (g: SearchFields)
    ensures g == WithPageOf(f, f.page + 1)
  {
    f.(page := f.page + 1)
  }

  /** Only the page is changed: every other check gives what it gave before. */
  lemma WithPageChecks(f: SearchFields, page: int)
    ensures forall c :: c != PageCheck ==> (FieldOk(WithPageOf(f, page), c) <==> FieldOk(f, c))
    ensures Valid(f) ==> (Valid(WithPageOf(f, page)) <==> Api.IsValidPage(page))
  {
  }

  /** Paging forward from a valid set stays valid until the last page, and the
      step past it is rejected as an invalid page. */
  lemma NextPageValidity(f: SearchFields)
    requires Valid(f)
    ensures f.page < Api.MAX_PAGE ==> Valid(NextPageOf(f))
    ensures f.page == Api.MAX_PAGE ==>
      ValidateFields(NextPageOf(f)) == Fail(Failures.Invalid(ValidationErrors.InvalidPage(Api.MAX_PAGE + 1)))
  {
    var g := NextPageOf(f);
    if f.page == Api.MAX_PAGE {
    } else {
      WithPageChecks(f, f.page + 1);
    }
  }

  lemma {:induction false} QueryUncheckedFrom(f: SearchFields, query: string, k: nat)
    requires k <= |CheckOrder|
    ensures ValidateFrom(f.(query := query), k) == ValidateFrom(f, k)
    decreases |CheckOrder| - k
  {
    if k < |CheckOrder| {
      QueryIgnored(f, query, CheckOrder[k]);
      QueryUncheckedFrom(f, query, k + 1);
    }
  }

  /** No single check reads the query. */
  lemma QueryIgnored(f: SearchFields, query: string, c: Check)
    ensures FieldOk(f.(query := query), c) == FieldOk(f, c)
    ensures Rejection(f.(query := query), c) == Rejection(f, c)
  {
  }

  /** The query is never validated: changing it never changes the outcome. */
  lemma QueryUnchecked(f: SearchFields, query: string)
    ensures ValidateFields(f.(query := query)) == ValidateFields(f)
  {
    QueryUncheckedFrom(f, query, 0);
  }

  /** The parameter object. Each setter assigns one field and returns the
      object itself; nextPage() and withPage() return a new object. */
  class SearchParams {
    var query: string
    var perPage: int
    var page: int
    var thumbsize: string
    var order: string
    var gay: int
    var lq: int
    var format: string

    function Fields(): SearchFields
      reads this
    {
      SearchFields(query, perPage, page, thumbsize, order, gay, lq, format)
    }

    constructor (query: string := Api.DEFAULT_QUERY, perPage: int := Api.DEFAULT_PER_PAGE,
                 page: int := Api.DEFAULT_PAGE, thumbsize: string := Api.DEFAULT_THUMBSIZE,
                 order: string := Api.DEFAULT_ORDER, gay: int := Api.DEFAULT_GAY,
                 lq: int := Api.DEFAULT_LQ, format: string := Api.DEFAULT_FORMAT)
      ensures Fields() == SearchFields(query, perPage, page, thumbsize, order, gay, lq, format)
    {
      this.query := query;
      this.perPage := perPage;
      this.page := page;
      this.thumbsize := thumbsize;
      this.order := order;
      this.gay := gay;
      this.lq := lq;
      this.format := format;
    }

    method Validate() returns (o: Outcome<Error>)
      ensures o == ValidateFields(Fields())
    {
      o := ValidateFields(Fields());
    }

    method ToArray() returns (r: Result<PhpArray, Error>)
      ensures r == FieldsToArray(Fields())
    {
      r := FieldsToArray(Fields());
    }

    method SetQuery(query: string) returns (self: SearchParams)
      modifies this
      ensures self == this && Fields() == old(Fields()).(query := query)
    {
      this.query := query;
      self := this;
    }

    method SetPerPage(perPage: int) returns (self: SearchParams)
      modifies this
      ensures self == this && Fields() == old(Fields()).(perPage := perPage)
    {
      this.perPage := perPage;
      self := this;
    }

    method SetPage(page: int) returns (self: SearchParams)
      modifies this
      ensures self == this && Fields() == old(Fields()).(page := page)
    {
      this.page := page;
      self := this;
    }

    method SetThumbSize(thumbsize: string) returns (self: SearchParams)
      modifies this
      ensures self == this && Fields() == old(Fields()).(thumbsize := thumbsize)
    {
      this.thumbsize := thumbsize;
      self := this;
    }

    method SetOrder(order: string) returns (self: SearchParams)
      modifies this
      ensures self == this && Fields() == old(Fields()).(order := order)
    {
      this.order := order;
      self := this;
    }

    method SetGay(gay: int) returns (self: SearchParams)
      modifies this
      ensures self == this && Fields() == old(Fields()).(gay := gay)
    {
      this.gay := gay;
      self := this;
    }

    method SetLq(lq: int) returns (self: SearchParams)
      modifies this
      ensures self == this && Fields() == old(Fields()).(lq := lq)
    {
      this.lq := lq;
      self := this;
    }

    method SetFormat(format: string) returns (self: SearchParams)
      modifies this
      ensures self == this && Fields() == old(Fields()).(format := format)
    {
      this.format := format;
      self := this;
    }

    method NextPage() returns (p: SearchParams)
      ensures fresh(p) && p.Fields() == NextPageOf(Fields())
    {
      p := new SearchParams(query, perPage, page + 1, thumbsize, order, gay, lq, format);
    }

    method WithPage(page: int) returns (p: SearchParams)
      ensures fresh(p) && p.Fields() == WithPageOf(Fields(), page)
    {
      p := new SearchParams(query, perPage, page, thumbsize, order, gay, lq, format);
    }

    static method FromArray(data: PhpArray) returns (r: Result<SearchParams, Error>)
      ensures FieldsFromArray(data).Failure? ==> r == Failure(FieldsFromArray(data).error)
      ensures FieldsFromArray(data).Success? ==>
        r.Success? && fresh(r.value) && r.value.Fields() == FieldsFromArray(data).value
    {
      var f := FieldsFromArray(data);
      if f.Failure? {
        return Failure(f.error);
      }
      var v := f.value;
      var p := new SearchParams(v.query, v.perPage, v.page, v.thumbsize, v.order, v.gay, v.lq, v.format);
      return Success(p);
    }
  }
}
