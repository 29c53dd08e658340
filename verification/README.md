# back-efra contact form: a verified model

The backend of this contact form is one Express file, `index.js`. It has two
pieces of logic worth a model:

- `sanitize`, which turns any request field into a string. A non-string
  becomes `""`. A string loses every match of the pattern `<[^>]*>?` and is
  then trimmed with `String.prototype.trim`.
- The `POST /formulario` handler. It sanitizes the four text fields
  (`nombre`, `correo`, `telefono`, `mensaje`), rejects a falsy
  `g-recaptcha-response` token, asks Google's reCAPTCHA siteverify service,
  inserts the lead into the SQLite table `formulario`, and redirects with an
  error or a success message.

The Dafny project has three modules:

- `JsValues` (`js_values.dfy`) holds the JavaScript values the handler sees.
  It defines truthiness and the property read `v.key`, which throws on
  `null` and `undefined`.
- `Sanitizer` (`sanitizer.dfy`) holds `sanitize`. It is split into a
  tag-stripping phase (`StripTags`, with `SkipTag` for the body of one tag)
  and a trimming phase (`Trim`, over the exact ECMAScript whitespace and
  line-terminator set). Lemmas pin both phases down completely: the
  equations for tag-free text, a closed tag and an unclosed tag determine
  `StripTags`, and `TrimSlice` with `TrimUnique` determine `Trim`.
- `FormSubmission` (`form_submission.dfy`) holds the handler as a method,
  `SubmitForm`. It runs over two objects:
  - `FormularioTable`: the rows plus the AUTOINCREMENT counter.
  - `SiteVerifier`: the reCAPTCHA service. It logs every token sent to it
    and answers with a given reply.

Two facts about `index.js` shape the model:

- It answers every request with a redirect to `/?error=...` or
  `/?success=...`. Its `formulario` table has no status or timestamp
  column.
- It rejects any falsy token, not only a missing one, so `""`, `0`, `false`
  and `null` are rejected too.

## Model

| member | source | states |
|---|---|---|
| `JsValues.Truthy` | index.js:48 | the falsy values, which `!token` (and `!data.success` on line 62) reject, are exactly `undefined`, `null`, `false`, `0` and `""`; every array and object is truthy |
| `JsValues.Member` | index.js:62 | a property read of a key no built-in property has (here `success`) throws exactly on `null`/`undefined`; it yields the object's field when present and `undefined` otherwise |
| `JsValues.ToStringThrows` | index.js:56 | converting the token with `${token}` can throw only for an object (one with an own `toString` field) or an array (holding such an item); strings, numbers and booleans always convert |
| `Sanitizer.SkipTag` | index.js:36 | after a `<`, the span runs up to and including the first `>`; with no `>` it runs to the end of the input; the rest is a suffix of the input |
| `Sanitizer.StripTags` | index.js:36 | the tag-stripped text never contains `<` and is never longer than the input |
| `Sanitizer.StripTagsSubmultiset` | index.js:36 | stripping only removes characters; none is added or duplicated |
| `Sanitizer.StripTagsNoTag` | index.js:36 | text without `<` passes stripping unchanged, a stray `>` included |
| `Sanitizer.StripTagsPrefix` | index.js:36 | a `<`-free prefix is kept in order and the rest is stripped independently |
| `Sanitizer.SkipTagClosed` | index.js:36 | a tag body ends at its first `>`, which is consumed |
| `Sanitizer.StripTagsClosedTag` | index.js:36 | `<`, text without `>`, then `>` is removed whole; a `<` inside the span is swallowed |
| `Sanitizer.StripTagsUnclosedTag` | index.js:36 | an unclosed `<` removes everything after it |
| `Sanitizer.StripTagsIdempotent` | index.js:36 | stripping a stripped text changes nothing |
| `Sanitizer.TrimmableIsWhiteSpaceOrLineTerminator` | index.js:36 | `IsTrimmable`, the set of characters `trim()` removes, is exactly the ECMAScript WhiteSpace code points (tab, vertical tab, form feed, byte order mark and every Zs space separator) plus the LineTerminator code points (line feed, carriage return, U+2028, U+2029) |
| `Sanitizer.TrimStart` | index.js:36 | drops exactly the leading whitespace: the result is a suffix starting at a non-whitespace character |
| `Sanitizer.TrimEnd` | index.js:36 | drops exactly the trailing whitespace: the result is a prefix ending at a non-whitespace character |
| `Sanitizer.Trim` | index.js:36 | the trimmed text has no whitespace at either edge and is never longer than the input |
| `Sanitizer.TrimSlice` | index.js:36 | the trimmed text is a contiguous slice of the input with only whitespace before and after it |
| `Sanitizer.TrimStartAt` | index.js:36 | leading whitespace stops at the first kept character |
| `Sanitizer.TrimEndAt` | index.js:36 | trailing whitespace starts after the last kept character |
| `Sanitizer.TrimAllTrimmable` | index.js:36 | an all-whitespace string trims to `""` |
| `Sanitizer.TrimUnique` | index.js:36 | any split into whitespace, a middle with no whitespace edges, and whitespace has that middle as `trim`'s result |
| `Sanitizer.TrimNoEdge` | index.js:36 | text without whitespace at its edges is left unchanged |
| `Sanitizer.TrimIdempotent` | index.js:36 | trimming a trimmed text changes nothing |
| `Sanitizer.TrimCharsFrom` | index.js:36 | every character of the trimmed text occurs in the input |
| `Sanitizer.Sanitize` | index.js:34-37 | a non-string gives `""`; the result never contains `<`, has no whitespace at its edges, and is never longer than the input string |
| `Sanitizer.SanitizeIdempotent` | index.js:34-37 | sanitizing a sanitized value changes nothing |
| `Sanitizer.SanitizeNoTag` | index.js:36 | a string without `<` is changed only by trimming |
| `Sanitizer.SanitizeClosedTag` | index.js:36 | text before the first `<` survives; a closed tag vanishes and the rest is stripped on its own |
| `Sanitizer.SanitizeUnclosedTag` | index.js:36 | an unclosed `<` cuts the string there, then the prefix is trimmed |
| `Sanitizer.SanitizeWrapped` | index.js:36 | `<b>Ana</b>`-shaped input sanitizes to the trimmed text between the tags |
| `FormSubmission.FormularioTable.constructor` | index.js:23-29 | a new table is empty and its counter starts at id 1 |
| `FormSubmission.FormularioTable.Insert` | index.js:67-75 | a failed insert changes nothing; a successful one appends exactly one row, with an id greater than every existing id, and keeps the ids increasing |
| `FormSubmission.SiteVerifier.Verify` | index.js:53-59 | each call sends the token to the service once and returns its reply |
| `FormSubmission.SuccessFlag` | index.js:52-65 | reading `data.success` throws exactly when the call threw or the reply is `null`/`undefined`; otherwise it yields the flag, or `undefined` when absent |
| `FormSubmission.Passed` | index.js:62 | verification passes exactly when the reply is an object whose `success` field exists and is truthy; a thrown call, a `null` reply, a missing field or a falsy flag does not pass |
| `FormSubmission.SanitizeBody` | index.js:41-45 | every stored field has no `<` and no whitespace at its edges |
| `FormSubmission.SubmitForm` | index.js:39-86 | a falsy token gives MissingToken; a token whose string conversion throws, a thrown call or an unreadable `success` gives VerificationError; a falsy `success` gives VerificationFailed; a store failure gives SaveError; Sent happens iff the token converts, verification passed and the insert succeeded; the service is called exactly once, with the token, iff the token is truthy and converts; every outcome except Sent leaves the table unchanged; Sent appends exactly one row of sanitized fields with a fresh, larger id |

## Left out

- Express setup, CORS, the body parsers and serving `public/index.html` (index.js:1-17) are framework plumbing. The request body enters the model already parsed, as `FormBody`.
- Opening `./data/form.db` and running `CREATE TABLE` (index.js:19-31) are I/O. The table starts empty; a failed open or a missing table shows up only as the `fault` flag of `Insert`.
- The `fetch` to the siteverify endpoint and `response.json()` (index.js:53-59) are network I/O. They become the reply given to `SiteVerifier`: a thrown error or a parsed JSON value. The request body the call sends is not modelled beyond whether converting the token to a string throws. That covers the hard-coded secret, which differs from the unused `RECAPTCHA_SECRET` constant on line 8, and the token interpolated without URL encoding.
- Redirect URLs and their messages, `console.log`/`console.error` and `app.listen` (index.js:49, 60, 64, 72-73, 77, 83-84, 89-91) are presentation and I/O. Each redirect is one `Outcome` constructor.
- The `res.status(500)` after a `return` (index.js:74) is unreachable and not modelled.
- Concurrent requests interleave at each `await` and at the insert callback; the model runs one request as one sequential step.
- `JsValue` has no `NaN`, no `BigInt` and no property inheritance. JSON and url-encoded bodies produce none of these, and no built-in prototype has a `success` property.
- JavaScript strings are UTF-16 code units and Dafny's `char` is a Unicode scalar value. Lone surrogates are not modelled; every character `trim` removes is in the Basic Multilingual Plane.
- `JsValues.Member`: the own properties of strings and arrays (`length`, indices) are not modelled; reading them gives `undefined` here. The handler reads only `success`, which neither has.
- `FormSubmission.FormularioTable.Insert`: store failures other than an exhausted id counter are an input flag. The model does not say when SQLite raises them.
