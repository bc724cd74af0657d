/**
 * The request-resolution step of the movie-list proxy endpoint
 * (GET /api/movies/popular): from the configured upstream API key and the
 * optional `category` and `page` query parameters, either the HTTP error the
 * handler raises or the upstream list request it would issue. The fetch
 * itself and the pass-through of its response are not modelled.
 */
module PopularList {
  import opened Wrappers
  import opened EcmaParseInt

  /** The error raised through the framework: an HTTP status and its message. */
  datatype HttpError = HttpError(statusCode: int, statusMessage: string)

  /** The query object handed to the fetch: `api_key`, `language` and `page`. */
  datatype QueryParams = QueryParams(apiKey: string, language: string, page: int)

  /** The upstream GET request that the handler would issue. */
  datatype UpstreamRequest = UpstreamRequest(url: string, query: QueryParams)

  const MissingKeyError := HttpError(500, "TMDB_API_KEY missing in server runtimeConfig")
  const ListUrlPrefix := "https://api.themoviedb.org/3/movie/"
  const Language := "en-US"
  const DefaultPageText := "1"
  const MaxPage := 500
  const DefaultCategory := "popular"

  /** The allow-list from category names to upstream list endpoints. */
  const Allowed: map<string, string> :=
    map["popular" := "popular", "upcoming" := "upcoming", "top_rated" := "top_rated"]

  /** The upstream list endpoints a request may name. */
  const Segments: set<string> := Allowed.Values

  /** JavaScript truthiness of an optional string: absent and "" are falsy. */
  predicate Truthy(v: Option<string>) {
    v.Some? && v.value != ""
  }

  /** `(v as string) || fallback`: never falsy when the fallback is not. */
  function OrElse(v: Option<string>, fallback: string): (r: string)
    ensures fallback != "" ==> r != ""
    ensures Truthy(v) ==> r == v.value
    ensures !Truthy(v) ==> r == fallback
  {
    if Truthy(v) then v.value else fallback
  }

  function Min(a: int, b: int): int {
    if a <= b then a else b
  }

  function Max(a: int, b: int): int {
    if a >= b then a else b
  }

  /** The endpoint segment at the end of a request's URL. */
  function SegmentOf(req: UpstreamRequest): string {
    if |ListUrlPrefix| <= |req.url| then req.url[|ListUrlPrefix|..] else ""
  }

  /** What every request the handler issues looks like, for a given key. */
  predicate WellFormed(req: UpstreamRequest, key: string) {
    && |ListUrlPrefix| <= |req.url|
    && req.url[..|ListUrlPrefix|] == ListUrlPrefix
    && SegmentOf(req) in Segments
    && req.query.apiKey == key
    && req.query.language == Language
    && 1 <= req.query.page <= MaxPage
  }

  /**
   * The page sent upstream: the `page` parameter (or "1" when it is absent or
   * empty) goes through parseInt; a result that is not a finite positive
   * number becomes 1, and the page is then clamped to [1, 500].
   */
  function ResolvePage(pageParam: Option<string>): (page: int)
    ensures 1 <= page <= MaxPage
  {
    var parsed := ParseInt(OrElse(pageParam, DefaultPageText));
    var parsedPage := if parsed.Finite? && parsed.value > 0 then parsed.value else 1;
    Min(Max(parsedPage, 1), MaxPage)
  }

  /**
   * The upstream endpoint: the `category` parameter (or "popular" when it is
   * absent or empty) looked up in the allow-list, "popular" when it is not there.
   */
  function ResolveSegment(category: Option<string>): (segment: string)
    ensures segment in Segments
    ensures Truthy(category) && category.value in Allowed ==> segment == category.value
    ensures !(Truthy(category) && category.value in Allowed) ==> segment == DefaultCategory
  {
    var raw := OrElse(category, DefaultCategory);
    var mapped := if raw in Allowed then Allowed[raw] else "";
    assert Allowed[DefaultCategory] == DefaultCategory;
    if mapped != "" then mapped else DefaultCategory
  }

  /**
   * The handler up to the fetch: the credential gate, then the category and
   * page resolution and the construction of the upstream request.
   */
  function ResolveListRequest(apiKey: Option<string>, category: Option<string>, page: Option<string>)
    : (r: Result<UpstreamRequest, HttpError>)
    ensures r.Failure? <==> !Truthy(apiKey)
    ensures r.Failure? ==> r.error == MissingKeyError && r.error.statusCode == 500
    ensures r.Success? ==> WellFormed(r.value, apiKey.value)
    ensures r.Success? ==> SegmentOf(r.value) == ResolveSegment(category)
    ensures r.Success? ==> r.value.query.page == ResolvePage(page)
  {
    if !Truthy(apiKey) then
      Failure(MissingKeyError)
    else
      var segment := ResolveSegment(category);
      var req := UpstreamRequest(ListUrlPrefix + segment, QueryParams(apiKey.value, Language, ResolvePage(page)));
      assert req.url[..|ListUrlPrefix|] == ListUrlPrefix && SegmentOf(req) == segment;
      Success(req)
  }

  /** An absent or empty page parameter asks for page 1. */
  lemma AbsentPageIsOne(pageParam: Option<string>)
    requires !Truthy(pageParam)
    ensures ResolvePage(pageParam) == 1
  {
    assert Numeral("", "", "", 1, "") == DefaultPageText;
    ParseIntOfNumeral("", "", "", 1, "");
  }

  /**
   * A page parameter that parseInt cannot read asks for page 1: after its
   * white space and sign it is empty or starts with a non-digit ("abc3",
   * ".5", "- 3"). With ParseIntNaNIff, this covers every NaN case.
   */
  lemma NonNumericPageIsOne(w: string, sign: string, rest: string)
    requires SignParts(w, sign, rest)
    requires !(rest != [] && IsDigit(rest[0]))
    ensures ResolvePage(Some(w + sign + rest)) == 1
  {
    if w + sign + rest == "" {
      AbsentPageIsOne(Some(w + sign + rest));
    } else {
      ParseIntNaNIff(w, sign, rest);
    }
  }

  /**
   * A page parameter that reads as a number in [1, 500] passes through
   * unchanged, whatever its white space, sign, leading zeros and non-digit
   * tail ("3", " 3", "+3", "003", "3.9", "3abc").
   */
  lemma PageInRangePassesThrough(w: string, sign: string, zeros: string, m: nat, tail: string)
    requires NumeralParts(w, sign, zeros, tail)
    requires 1 <= Signed(sign, m) <= MaxPage
    ensures ResolvePage(Some(Numeral(w, sign, zeros, m, tail))) == Signed(sign, m)
  {
    ParseIntOfNumeral(w, sign, zeros, m, tail);
  }

  /** A page parameter that reads as 0 or a negative number asks for page 1 ("0", "-0", "+00", "-7"). */
  lemma NonPositivePageIsOne(w: string, sign: string, zeros: string, m: nat, tail: string)
    requires NumeralParts(w, sign, zeros, tail)
    requires Signed(sign, m) <= 0
    ensures ResolvePage(Some(Numeral(w, sign, zeros, m, tail))) == 1
  {
    ParseIntOfNumeral(w, sign, zeros, m, tail);
  }

  /** A page parameter that reads as a finite number above 500 is clamped to 500 ("9999", "+09999"). */
  lemma LargePageIsClamped(w: string, sign: string, zeros: string, m: nat, tail: string)
    requires NumeralParts(w, sign, zeros, tail)
    requires MaxPage < Signed(sign, m) < OverflowThreshold
    ensures ResolvePage(Some(Numeral(w, sign, zeros, m, tail))) == MaxPage
  {
    ParseIntOfNumeral(w, sign, zeros, m, tail);
  }

  /**
   * A page parameter whose value is at least 2^1024 - 2^970 (about 1.8e308)
   * parses to Infinity, which is not finite, so it asks for page 1 rather
   * than 500.
   */
  lemma OverflowingPageIsOne(w: string, sign: string, zeros: string, m: nat, tail: string)
    requires NumeralParts(w, sign, zeros, tail)
    requires Signed(sign, m) >= OverflowThreshold
    ensures ResolvePage(Some(Numeral(w, sign, zeros, m, tail))) == 1
  {
    ParseIntOfNumeral(w, sign, zeros, m, tail);
  }

  /** Resolving the decimal text of a resolved page gives that page again. */
  lemma ResolvePageIdempotent(pageParam: Option<string>)
    ensures ResolvePage(Some(Decimal(ResolvePage(pageParam)))) == ResolvePage(pageParam)
  {
    var page := ResolvePage(pageParam);
    assert Decimal(page) == Numeral("", "", "", page, "");
    PageInRangePassesThrough("", "", "", page, "");
  }

  /** An absent, empty or unknown category resolves exactly as `category=popular`. */
  lemma UnknownCategoryActsAsPopular(apiKey: Option<string>, category: Option<string>, page: Option<string>)
    requires !Truthy(category) || category.value !in Allowed
    ensures ResolveListRequest(apiKey, category, page) == ResolveListRequest(apiKey, Some(DefaultCategory), page)
  {
  }

  /**
   * A request the handler builds is a fixed point: resolving its own key,
   * segment and page again yields the same request. A request is built
   * exactly when the key is present and non-empty.
   */
  lemma ResolvedRequestIsFixedPoint(apiKey: Option<string>, category: Option<string>, page: Option<string>)
    requires Truthy(apiKey)
    ensures
      var req := ResolveListRequest(apiKey, category, page).value;
      ResolveListRequest(Some(req.query.apiKey), Some(SegmentOf(req)), Some(Decimal(req.query.page)))
        == Success(req)
  {
    var req := ResolveListRequest(apiKey, category, page).value;
    ResolvePageIdempotent(page);
    assert ListUrlPrefix + SegmentOf(req) == req.url;
  }

  /** Without a key, absent or empty, every request fails with 500, whatever its parameters. */
  lemma MissingKeyRejectsAnyQuery(category: Option<string>, page: Option<string>)
    ensures ResolveListRequest(None, category, page) == Failure(MissingKeyError)
    ensures ResolveListRequest(Some(""), category, page) == Failure(MissingKeyError)
  {
  }

  /** `?category=upcoming&page=3` asks the upcoming endpoint for page 3. */
  lemma UpcomingPageThreeScenario()
    ensures ResolveListRequest(Some("k"), Some("upcoming"), Some("3"))
      == Success(UpstreamRequest(ListUrlPrefix + "upcoming", QueryParams("k", "en-US", 3)))
  {
    assert ResolveSegment(Some("upcoming")) == "upcoming" by {
      assert "upcoming" in Allowed;
    }
    assert ResolvePage(Some("3")) == 3 by {
      assert Numeral("", "", "", 3, "") == "3";
      PageInRangePassesThrough("", "", "", 3, "");
    }
  }

  /** `?page=9999` asks the popular endpoint for page 500. */
  lemma LargePageScenario()
    ensures ResolveListRequest(Some("k"), None, Some("9999"))
      == Success(UpstreamRequest(ListUrlPrefix + "popular", QueryParams("k", "en-US", 500)))
  {
    assert ResolvePage(Some("9999")) == 500 by {
      assert Numeral("", "", "", 9999, "") == "9999";
      LargePageIsClamped("", "", "", 9999, "");
    }
  }

  /** `?category=trending&page=0x10` falls back to the popular endpoint, page 1. */
  lemma UnknownCategoryHexPageScenario()
    ensures ResolveListRequest(Some("k"), Some("trending"), Some("0x10"))
      == Success(UpstreamRequest(ListUrlPrefix + "popular", QueryParams("k", "en-US", 1)))
  {
    assert ResolveSegment(Some("trending")) == "popular" by {
      assert "trending" !in Allowed;
    }
    assert ResolvePage(Some("0x10")) == 1 by {
      assert Numeral("", "", "", 0, "x10") == "0x10";
      NonPositivePageIsOne("", "", "", 0, "x10");
    }
  }
}
