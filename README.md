# nanoLink metadata pipeline — Dafny model

nanoLink is an Express service that, given a URL, fetches the page, extracts
its metadata (title, description, author, publisher, image, logo, language,
URL, date) and, when the description is missing, asks a language model to
fill the gaps. This project models the decision logic that `server.js` holds
itself, with the libraries around it treated as given inputs:

- **Digest post-processing** (`extractTextFromHtml`): trimming, joining the
  heading texts with single spaces, collapsing whitespace runs to one space,
  and cutting headings to 500 and body text to 2000 characters
  (module `Digest`, pure functions).
- **Enrichment gate and merge policy** (`enhanceMetadataWithGPT`): skip
  without a usable API key or when a description is present; otherwise copy
  the record and fill each of `description`, `author`, `publisher`, `lang`
  from the model's reply only when the field is falsy and the reply value is
  truthy and not the string `"null"`; any failure returns the input
  (module `Enrichment`: the method `EnhanceMetadata` follows the source's
  step-by-step assignments and is proved equal to the function `Enhanced`,
  about which the merge properties are proved).
- **Response normalization**: every field becomes `null` unless truthy, and
  `url` falls back to the requested URL (module `Response`).
- **Error classification**: the handler's ordered if/else chain from an
  error's `code` and upstream status to a status code and message
  (module `ErrorStatus`, a method over locals as in the source).

Field values are `Option<string>`; JavaScript truthiness is explicit
(`Metadata.Truthy`): `undefined`, `null` and the empty string are falsy.
The model's reply is an `Option<GptReply>`: `None` is a failed call or a
reply that `JSON.parse` rejects (or that parses to `null`, which makes the
field reads throw); the backend's answer is a parameter, and
`EnhanceMetadata` reports in `invoked` whether it would have been called.
A reply that parses to a JSON value without the four members behaves like
`Some(GptReply(None, None, None, None))`.

An empty string counts as absent everywhere, as JavaScript truthiness makes
it; the error handler maps errors straight to a status code and a message.

## Model

| member | source | states |
|---|---|---|
| `Enrichment.Enhanced` | server.js:107-166 | without a usable key or with a truthy description, or when the reply is missing, the result is the input record; non-enrichable fields never change; a truthy field is never overwritten; a field changes only to the reply's value, and only when that value is truthy and not `"null"`; every such value for a falsy field is adopted |
| `Enrichment.EnhanceMetadata` | server.js:107-166 | the step-by-step gate, copy and four guarded assignments produce exactly `Enhanced`; the backend is invoked exactly when the key is usable and the description is falsy |
| `Enrichment.CompleteRecordUnchanged` | server.js:147-159 | a record whose four enrichable fields are all truthy comes back identical whatever the reply |
| `Enrichment.EnhanceIdempotent` | server.js:147-159 | enriching the enriched record again with the same reply changes nothing |
| `Enrichment.PresentFieldIgnoresReply` | server.js:148-159 | the final value of a truthy or non-enrichable field does not depend on the reply |
| `Digest.Trim` | server.js:94 | `trim` splits the input into a whitespace run, the result, and a whitespace run, and the result has no whitespace at either end |
| `Digest.TrimFixpoint` | server.js:94 | `trim` leaves a string unchanged if and only if it has no whitespace at either end |
| `Digest.LeadingSpaces` | server.js:97 | the length of the leading whitespace run: all of it whitespace, followed by a non-whitespace character or the end |
| `Digest.TrailingSpaces` | server.js:94 | the length of the trailing whitespace run: all of it whitespace, preceded by a non-whitespace character or the start |
| `Digest.Collapse` | server.js:97 | `replace(/\s+/g, ' ')` never makes a string longer, and its result starts with whitespace exactly when the input does |
| `Digest.CollapseShape` | server.js:97 | after collapsing, no two adjacent characters are whitespace and the plain space is the only whitespace |
| `Digest.CollapseChar` | server.js:97 | one character collapses to itself, or to a plain space when it is whitespace |
| `Digest.CollapseSpaceRun` | server.js:97 | a non-empty whitespace run followed by a non-whitespace character or nothing becomes one space, followed by the collapsed rest |
| `Digest.CollapseAppend` | server.js:97 | collapsing a concatenation is the concatenation of the collapsed pieces whenever the cut does not split a whitespace run |
| `Digest.CollapseAroundRun` | server.js:97 | a whitespace run between a piece not ending in whitespace and one not starting with it becomes exactly one space, in place |
| `Digest.CollapseKeepsText` | server.js:97 | collapsing keeps every non-whitespace character, in order |
| `Digest.CollapseFixpoint` | server.js:97 | collapsing leaves a string unchanged if and only if its whitespace is already single plain spaces |
| `Digest.CollapseIdempotent` | server.js:97 | collapsing twice equals collapsing once |
| `Digest.JoinWithSpace` | server.js:95 | `join(' ')` of no parts is empty; of n parts has their total length plus n-1 separators |
| `Digest.JoinWithSpaceAt` | server.js:95 | in `join(' ')`, the i-th part sits right after the earlier parts and their separators, and a space follows every part but the last |
| `Digest.TrimAll` | server.js:95 | the `map` over the headings trims each text, keeping their number and order |
| `Digest.JoinedHeadings` | server.js:95 | no headings give the empty string, one heading its trimmed text, and n headings the total length of the trimmed texts plus n-1 separators |
| `Digest.JoinedHeadingsAt` | server.js:95 | the i-th trimmed heading sits in the joined headings right after the earlier ones and their separators, and a space follows every heading but the last |
| `Digest.Prefix` | server.js:101-103 | `substring(0, n)` is a prefix of length at most n, exactly n when the input is that long, and the whole input when it is not longer |
| `Digest.BodyText` | server.js:97 | the collapsed, trimmed body text has no edge whitespace, no two adjacent whitespace characters and only plain spaces; it keeps every non-whitespace character of the body in order; and it is the collapsed text with at most one space removed from each end |
| `Digest.TrimKeepsText` | server.js:94 | `trim` removes only whitespace: the non-whitespace characters are unchanged |
| `Digest.TrimSingleSpaced` | server.js:97 | trimming a single-spaced string removes at most one space at each end and keeps it single-spaced |
| `Digest.ExtractText` | server.js:94-104 | the title is the trimmed title text; headings are the at-most-500-character prefix of the joined trimmed headings, exactly 500 when longer; the meta description defaults to the empty string; content is the at-most-2000-character prefix of the body text, exactly 2000 when longer, starting with no whitespace and with no double whitespace |
| `Response.Normalize` | server.js:214-227 | each field other than `url` is null exactly when the record's value is falsy and otherwise that value; `url` is the record's truthy `url` or else the requested URL |
| `Response.Respond` | server.js:210-227 | the success response: with the gate closed or a failed reply it is the normalized scraped record; fields that are never enriched come out as without enrichment; no field other than `url` is ever the empty string |
| `Response.NoDescriptionWithoutKey` | server.js:107-220 | with no usable key, a record without a description yields a null `description` in the response |
| `Response.EnrichmentFillsOnlyNulls` | server.js:147-225 | a response field that is non-null without enrichment keeps exactly that value with enrichment |
| `Response.FailedReplyIsTransparent` | server.js:162-225 | a failed or unparsable reply yields the response of the unenriched record |
| `Response.GeneratedSummaryScenario` | server.js:144-225 | a reply with a description, null author and publisher and `lang: "en"` fills description and language and leaves author null |
| `ErrorStatus.ClassifyError` | server.js:232-244 | `ETIMEDOUT`/`ECONNABORTED` give 408 before anything else; otherwise a truthy upstream status is passed through with message `HTTP <status> error`, from which the status reads back; otherwise `ENOTFOUND` gives 404; otherwise 500; the code is never 0 |
| `ErrorStatus.Digits` | server.js:240 | the rendered numeral is non-empty, all decimal digits, and has no leading zero |
| `ErrorStatus.DecimalRoundTrip` | server.js:240 | reading the rendered status code back gives the number |

## Left out

- Express routing, the logging middleware, helmet, CORS, the rate limiter,
  the `/health` endpoint, the 404 fallback and `app.listen`: framework
  plumbing and I/O.
- The missing-`url` and `isValidUrl` checks of the route: a thin wrapper over
  the WHATWG `URL` constructor.
- The page fetch with `got` (headers, timeout, redirects, the
  `parseInt(timeout) ||` override): network I/O; its failures enter the model
  as an `ErrorStatus.ErrorInfo`.
- `metascraper` extraction: its rules live in library code; its output is
  the input `Metadata.Record`.
- Cheerio loading, element removal and selector queries: the selected texts
  are inputs in `Digest.PageText`.
- The prompt text, the OpenAI call and `JSON.parse`: a foreign service and
  parser, abstracted as `Option<GptReply>`; for that reason the `url` and
  `textData` arguments of `enhanceMetadataWithGPT`, used only in the prompt,
  are not parameters of `EnhanceMetadata`.
- Reply values that are JSON numbers, booleans or objects: the model keeps
  only string values (a truthy non-string would be adopted by the source).
- Configuration parsing (`dotenv`, `parseInt` defaults): the API key is a
  plain `Option<string>` parameter.
- Logging with `console.log`/`console.error`: output only.
- Digest.Prefix: strings are sequences of Unicode code points, while
  JavaScript's `substring` counts UTF-16 code units, so lengths differ for
  characters outside the Basic Multilingual Plane.
- ErrorStatus.Digits: integers are rendered in plain decimal; JavaScript's
  exponent notation for magnitudes of 10^21 and more, and non-integer status
  values, are not modelled.
