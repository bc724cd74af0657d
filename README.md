# Movie-list proxy: request resolution

The server of this movie front-end exposes `GET /api/movies/popular`, a thin
proxy in front of TMDB (The Movie Database) that hides the API key. Before it
forwards anything, the handler turns untrusted input into one upstream request:

- **Credential gate**: a missing or empty `tmdbApiKey` in the runtime
  configuration raises HTTP 500 "TMDB_API_KEY missing in server runtimeConfig",
  and no request is built.
- **Category allow-list**: `category` (or `popular` when it is absent or empty)
  is looked up in the map {`popular`, `upcoming`, `top_rated`}, each mapped to
  itself. Anything else silently falls back to `popular`.
- **Page normalisation**: `page` (or `"1"` when it is absent or empty) goes
  through JavaScript's `parseInt(…, 10)`. A result that is not a finite positive
  number becomes 1. The page is then clamped to [1, 500].
- **Request construction**: the URL is `https://api.themoviedb.org/3/movie/`
  followed by the segment. The query carries `api_key`, `language: en-US` and
  the page.

The project has three modules:

- `Wrappers` (wrappers.dfy): `Option` and `Result`.
- `EcmaParseInt` (ecma_parse_int.dfy): `parseInt` with radix 10, as section
  19.2.5 of ECMA-262 defines it. It skips leading white space (StrWhiteSpaceChar),
  takes one optional sign, then the longest run of decimal digits. No digits
  gives NaN. Integers whose magnitude reaches 2^1024 - 2^970 become ±Infinity,
  as the conversion to a Number does. Its behaviour is stated on every input:
  - `ParseIntNaNIff`: the result is NaN exactly when, after the white space and
    the sign, the text is empty or starts with a non-digit.
  - `ParseIntOfNumeral`: every other text is a numeral (white space, a sign,
    leading zeros, the digits of m, a non-digit tail), read as the signed m.
  - `NumeralOfNumber`: every text that does not give NaN is such a numeral.
  - `ParseIntOfDecimal`: the decimal text of an integer reads back as that integer.
- `PopularList` (popular_list.dfy): the handler as a function from
  (key option, category option, page option) to `Result<UpstreamRequest, HttpError>`,
  with lemmas for each branch.

A page string whose value is at least 2^1024 - 2^970 (about 1.8e308)
overflows to Infinity: every value with 310 or more significant digits, and
309-digit values from 17976931348623158079… up. `Number.isFinite` rejects it,
so such a page resolves to 1, not 500. The model keeps this behaviour of the code
(`OverflowingPageIsOne`). Every finite value above 500 is clamped to 500
(`LargePageIsClamped`).

## Model

| member | source | states |
|---|---|---|
| EcmaParseInt.ToNumber | server/api/movies/popular.get.ts:12-13 | the conversion to a Number is never NaN; it is +Infinity exactly from 2^1024 - 2^970 up, -Infinity exactly from the negation down, and otherwise the exact integer |
| EcmaParseInt.IsStrWhiteSpace | server/api/movies/popular.get.ts:12 | no white-space character that parseInt skips is a digit or a sign |
| EcmaParseInt.TrimStart | server/api/movies/popular.get.ts:12 | parseInt's trimming keeps a suffix of the input, drops only white space, and stops at the first character that is not white space |
| EcmaParseInt.LeadingDigits | server/api/movies/popular.get.ts:12 | the part parseInt reads is a prefix of the text, all decimal digits, and maximal: the next character, if any, is not a digit |
| EcmaParseInt.DigitsValue | server/api/movies/popular.get.ts:12 | the value of a digit string is 0 exactly when all its digits are zeros |
| EcmaParseInt.ParseInt | server/api/movies/popular.get.ts:12 | a finite result lies strictly between the overflow thresholds; the full behaviour on every input is carried by ParseIntNaNIff, ParseIntOfNumeral and NumeralOfNumber |
| EcmaParseInt.DigitsValueOfNatDecimal | server/api/movies/popular.get.ts:12 | the digit string of a non-negative integer has that integer as its value |
| EcmaParseInt.DigitsValueSkipsZeros | server/api/movies/popular.get.ts:12 | leading zeros do not change the value of a digit string |
| EcmaParseInt.NatDecimalOfDigits | server/api/movies/popular.get.ts:12 | a digit string without a leading zero is exactly the shortest decimal text of its value |
| EcmaParseInt.SplitLeadingZeros | server/api/movies/popular.get.ts:12 | every non-empty digit string is leading zeros followed by the shortest digits of some number |
| EcmaParseInt.LeadingDigitsOfDigits | server/api/movies/popular.get.ts:12 | a run of digits followed by a non-digit is exactly what parseInt takes as the number's digits |
| EcmaParseInt.TrimStartSkipsWhiteSpace | server/api/movies/popular.get.ts:12 | prefixing white space does not change the trimmed text |
| EcmaParseInt.ParseIntSkipsWhiteSpace | server/api/movies/popular.get.ts:12 | parseInt gives the same result with or without leading white space |
| EcmaParseInt.ParseSignedOfParts | server/api/movies/popular.get.ts:12 | the sign step removes one sign and scans the rest, negated exactly for "-" |
| EcmaParseInt.ParseIntOfParts | server/api/movies/popular.get.ts:12 | once all white space and the sign are split off, parseInt is the digit scan of the rest |
| EcmaParseInt.ParseDigitsOfNumeral | server/api/movies/popular.get.ts:12 | the digit scan of leading zeros, the digits of m and a non-digit tail yields m, or -m after "-", as a Number |
| EcmaParseInt.ParseIntOfNumeral | server/api/movies/popular.get.ts:12 | every numeral (white space, sign, leading zeros, digits of m, non-digit tail) parses to its signed value as a Number |
| EcmaParseInt.ParseIntOfDecimal | server/api/movies/popular.get.ts:12 | round trip: parseInt(w + decimal(n) + tail) is n as a Number, for any white space w and any tail not starting with a digit |
| EcmaParseInt.ParseIntNaNIff | server/api/movies/popular.get.ts:12 | both directions: parseInt gives NaN exactly when the text after the white space and the sign is empty or starts with a non-digit |
| EcmaParseInt.SplitSign | server/api/movies/popular.get.ts:12 | every text splits into white space, a sign and a rest exactly where parseInt splits it, so ParseIntNaNIff covers every input |
| EcmaParseInt.SplitDigits | server/api/movies/popular.get.ts:12 | text that starts with a digit is leading zeros, the digits of some number and a non-digit tail |
| EcmaParseInt.NumeralOfParts | server/api/movies/popular.get.ts:12 | split text whose rest starts with a digit is a numeral with the same white space and sign |
| EcmaParseInt.NumeralOfNumber | server/api/movies/popular.get.ts:12 | every text that parseInt does not read as NaN is a numeral and parses to its signed value |
| PopularList.OrElse | server/api/movies/popular.get.ts:11-12 | the `||` fallback gives the parameter when it is present and non-empty, the fallback otherwise, and never an empty string when the fallback is not empty |
| PopularList.ResolvePage | server/api/movies/popular.get.ts:12-15 | the resolved page always lies in [1, 500] |
| PopularList.ResolveSegment | server/api/movies/popular.get.ts:11-23 | the segment is one of popular, upcoming, top_rated; a category on the allow-list maps to itself; an absent, empty or unknown one maps to popular |
| PopularList.ResolveListRequest | server/api/movies/popular.get.ts:5-31 | it fails exactly when the key is absent or empty, and then with status 500 and the missing-key message; otherwise the URL is the fixed prefix plus an allowed segment, the query holds exactly the key, en-US and a page in [1, 500], and segment and page are those resolved from the parameters |
| PopularList.AbsentPageIsOne | server/api/movies/popular.get.ts:12-13 | an absent or empty page parameter resolves to page 1 |
| PopularList.NonNumericPageIsOne | server/api/movies/popular.get.ts:12-13 | a page parameter that is empty or has a non-digit after its white space and sign ("abc3", ".5", "- 3") resolves to page 1 |
| PopularList.PageInRangePassesThrough | server/api/movies/popular.get.ts:12-15 | a page parameter that reads as n in [1, 500] resolves to n, with any white space, sign, leading zeros and non-digit tail ("+3", "003", "3.9") |
| PopularList.NonPositivePageIsOne | server/api/movies/popular.get.ts:12-13 | a page parameter that reads as 0 or a negative number ("0", "-0", "+00", "-7") resolves to page 1 |
| PopularList.LargePageIsClamped | server/api/movies/popular.get.ts:12-15 | a page parameter that reads as a finite number above 500 ("9999", "+09999") resolves to page 500 |
| PopularList.OverflowingPageIsOne | server/api/movies/popular.get.ts:12-13 | a page parameter whose value is at least 2^1024 - 2^970 overflows to Infinity and resolves to page 1 |
| PopularList.ResolvePageIdempotent | server/api/movies/popular.get.ts:12-15 | resolving the decimal text of a resolved page gives the same page |
| PopularList.UnknownCategoryActsAsPopular | server/api/movies/popular.get.ts:11-23 | with an absent, empty or unknown category, the whole result equals the one for category=popular |
| PopularList.ResolvedRequestIsFixedPoint | server/api/movies/popular.get.ts:11-31 | feeding a built request's key, segment and page back in rebuilds the same request |
| PopularList.MissingKeyRejectsAnyQuery | server/api/movies/popular.get.ts:5-7 | for every category and page, an absent or empty key fails with the 500 missing-key error |
| PopularList.UpcomingPageThreeScenario | server/api/movies/popular.get.ts:11-31 | category=upcoming and page=3 ask the upcoming endpoint for page 3 |
| PopularList.LargePageScenario | server/api/movies/popular.get.ts:11-31 | page=9999 asks the popular endpoint for page 500 |
| PopularList.UnknownCategoryHexPageScenario | server/api/movies/popular.get.ts:11-31 | category=trending and page=0x10 ask the popular endpoint for page 1, because radix 10 reads only the leading 0 |

## Left out

- The upstream call and the response pass-through (`$fetch` and `return data`): network I/O against an opaque JSON body. The model stops at the request that would be issued.
- How the fetch library writes the query object into a query string: foreign code. The page stays an integer in `QueryParams`.
- The framework calls `useRuntimeConfig`, `getQuery`, `createError` and `eventHandler`: foreign code. Their results are the plain inputs and outputs of `ResolveListRequest`.
- Array-valued `page` or `category` parameters, which the handler casts to `string` without a check. Both parameters are modelled as optional strings.
- Inherited object keys such as `constructor`, which the object-literal lookup also matches. The allow-list is modelled as exactly its three keys.
- EcmaParseInt.ToNumber: finite values are kept exact, not rounded to 53 significant bits. Rounding is monotone and exact on small integers, so the comparisons with 0, 1 and 500 are unchanged. Negative zero is folded into 0; `Number.isFinite(-0)` is true and `-0 > 0` is false, so it still gives page 1.
- Strings are sequences of Unicode scalar values, not UTF-16 code units. Every white-space character and every digit lies in the Basic Multilingual Plane, so parseInt reads the same prefix.
- The movie-detail endpoint (server/api/movies/[id].get.ts) is not part of this model.
- The scroll-animation directive (app/plugins/animate.ts) is not part of this model: browser-only UI driven by IntersectionObserver callbacks.
- The build configuration (nuxt.config.ts) is not part of this model: it has no logic.
