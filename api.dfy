/** The API's constants: base URL, endpoints, parameter defaults, and the
    closed value domains with their membership predicates. */
module Api {

  const BASE_URL: string := "https://www.eporner.com"

  const ENDPOINT_SEARCH: string := "/api/v2/video/search/"
  const ENDPOINT_ID: string := "/api/v2/video/id/"
  const ENDPOINT_REMOVED: string := "/api/v2/video/removed/"

  const DEFAULT_QUERY: string := "all"
  const DEFAULT_PER_PAGE: int := 30
  const DEFAULT_PAGE: int := 1
  const DEFAULT_THUMBSIZE: string := "medium"
  const DEFAULT_ORDER: string := "latest"
  const DEFAULT_GAY: int := 0
  const DEFAULT_LQ: int := 1
  const DEFAULT_FORMAT: string := "json"

  const MAX_PER_PAGE: int := 1000
  const MAX_PAGE: int := 1000000

  const VALID_THUMB_SIZES: seq<string> := ["small", "medium", "big"]
  const VALID_ORDERS: seq<string> :=
    ["latest", "longest", "shortest", "top-rated", "most-popular", "top-weekly", "top-monthly"]
  const VALID_FORMATS: seq<string> := ["json", "xml"]
  const VALID_GAY_OPTIONS: seq<int> := [0, 1, 2]
  const VALID_LQ_OPTIONS: seq<int> := [0, 1, 2]

  /** Pixel width and height of each thumbnail size. */
  const THUMB_DIMENSIONS: map<string, (int, int)> :=
    map["small" := (190, 152), "medium" := (427, 240), "big" := (640, 360)]

  /** The full URL of an endpoint: the base URL followed by the endpoint path. */
  function GetUrl(endpoint: string): (url: string)
    ensures |url| == |BASE_URL| + |endpoint|
    ensures url[..|BASE_URL|] == BASE_URL && url[|BASE_URL|..] == endpoint
  {
    BASE_URL + endpoint
  }

  predicate IsValidThumbSize(thumbsize: string)
    ensures IsValidThumbSize(thumbsize) <==>
      thumbsize == "small" || thumbsize == "medium" || thumbsize == "big"
  {
    thumbsize in VALID_THUMB_SIZES
  }

  predicate IsValidOrder(order: string)
    ensures IsValidOrder(order) <==>
      order == "latest" || order == "longest" || order == "shortest" || order == "top-rated"
      || order == "most-popular" || order == "top-weekly" || order == "top-monthly"
  {
    order in VALID_ORDERS
  }

  /** The search and lookup formats; "txt" belongs to the removed-videos call only. */
  predicate IsValidFormat(format: string)
    ensures IsValidFormat(format) <==> format == "json" || format == "xml"
  {
    format in VALID_FORMATS
  }

  predicate IsValidPerPage(perPage: int)
    ensures IsValidPerPage(perPage) <==> 1 <= perPage <= 1000
  {
    perPage >= 1 && perPage <= MAX_PER_PAGE
  }

  predicate IsValidPage(page: int)
    ensures IsValidPage(page) <==> 1 <= page <= 1000000
  {
    page >= 1 && page <= MAX_PAGE
  }

  /** Every default lies in its own domain. */
  lemma DefaultsAreValid()
    ensures IsValidThumbSize(DEFAULT_THUMBSIZE) && IsValidOrder(DEFAULT_ORDER)
    ensures IsValidFormat(DEFAULT_FORMAT) && IsValidPerPage(DEFAULT_PER_PAGE)
    ensures IsValidPage(DEFAULT_PAGE)
    ensures DEFAULT_GAY in VALID_GAY_OPTIONS && DEFAULT_LQ in VALID_LQ_OPTIONS
  {
  }

  /** Every thumbnail size in the domain has its dimensions listed. */
  lemma DimensionsCoverSizes(size: string)
    requires IsValidThumbSize(size)
    ensures size in THUMB_DIMENSIONS
  {
  }
}
