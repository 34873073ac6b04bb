# New-believer form handler, modelled in Dafny

The repository is one serverless request handler, `handler` in
`api/new-believer.ts`. It receives the church's "new believer" form. It sets
CORS headers and answers preflight requests. It rejects methods other than
POST, checks the server configuration and the submitted name, and then sends
one notification email through an email provider. It reports the provider's
answer as `200 {ok: true}` or `500 {error: …}`.

The model has six modules:

- `Wrappers`: an `Option` type.
- `Text`: the parts of JavaScript string behaviour the handler relies on:
  - the whitespace class shared by `trim` and the regular-expression class `\s`;
  - `trim`, specified by `IsTrimOf` and proved unique and idempotent;
  - `Array.prototype.join`, `includes` and character counting.
- `HtmlEscape`: the handler's `esc`, exactly as written: four global
  replacements, `&` first. It is proved equal to a per-character escaper.
  Its output contains no raw `<`, `>` or `"`, and every `&` in it starts an
  entity. It can be decoded back to its input, so it is injective.
- `EmailShape`: `isValidEmail`, the test of `/^[^\s@]+@[^\s@]+\.[^\s@]{2,}$/`.
  It is written as a scan for the first `@` and the first dot of the domain,
  and proved equivalent to the grammar of the pattern (`local@host.tld`).
- `Render`:
  - the `String(x ?? "").trim()` normalisation of the five form fields;
  - the subject line;
  - the nine-line plain-text body;
  - the HTML body with its escaped title and its four-row table;
  - the reply-to address;
  - the message handed to the provider.
- `Handler`:
  - `Respond` is the whole outcome as a function of the request, the
    environment variables, the submission time and the provider, following the
    handler's order of early returns.
  - `Handle` builds the same outcome step by step on a mutable `Response`
    object (`setHeader`, `status`, `json`, `end`), as the handler does. It is
    proved to produce exactly what `Respond` states.

The email provider is a function parameter `send: Email -> SendResult`. It
answers with delivery, an error object carrying a message, or an exception
whose message may be missing. The submission timestamp is a string parameter.
The environment variables are an `Env` record of optional strings. JavaScript
truthiness of `!apiKey`, `!to` and `!from` is `Present`: the value exists and is
not empty.

The escaper escapes the four characters `&`, `<`, `>` and `"`, and leaves the
single quote alone (`EscPlain`).

Lengths follow JavaScript, whose strings are UTF-16: `fullName.length` and the
`{2,}` of the email pattern (which has no `u` flag) count code units, so a
character outside the Basic Multilingual Plane, such as an emoji, counts twice
(`Text.Utf16Len`). A one-emoji name passes the name check, and `a@b.` followed
by one emoji is a valid email.

## Model

| member | source | states |
|---|---|---|
| Text.IsSpace | api/new-believer.ts:68-75 | the whitespace that `trim` removes and `\s` matches: the ECMAScript WhiteSpace and LineTerminator characters; its properties are stated by `Trim`, `TrimUnique` and `ValidEmailFacts` |
| Text.Utf16Len | api/new-believer.ts:77 | `length` of a JavaScript string: one code unit per character, two for a character above U+FFFF, so between the number of characters and twice that |
| Text.Utf16LenConcat | api/new-believer.ts:77 | lengths add up over concatenation |
| Text.Utf16LenBmp | api/new-believer.ts:77 | on text without characters above U+FFFF the length is the number of characters |
| Text.Trim | api/new-believer.ts:68-72 | `trim` returns the slice left after removing leading and trailing whitespace; only whitespace is removed, and the result has no whitespace at either end |
| Text.TrimUnique | api/new-believer.ts:68-72 | any slice that drops only whitespace and keeps no whitespace at its ends is exactly the result of `trim` |
| Text.TrimIdempotent | api/new-believer.ts:68-72 | trimming an already trimmed field changes nothing |
| Text.TrimAllSpace | api/new-believer.ts:68 | a whitespace-only (or empty) value trims to the empty string |
| Text.JoinContains | api/new-believer.ts:98-108 | every line of a list occurs in the list joined with a separator |
| HtmlEscape.Esc | api/new-believer.ts:110-115 | the four replacements in the source's order; what it computes is stated by `EscIsEscapeRef`, `EscSafe`, `UnescapeEsc` and `EscInjective` below |
| HtmlEscape.EscConcat | api/new-believer.ts:110-115 | `esc` of a concatenation is the concatenation of the `esc` results |
| HtmlEscape.EscOneChar | api/new-believer.ts:110-115 | on one character, the four sequential replacements give that character's entity (or the character itself); the `&` of an entity made by a later pass is never escaped again |
| HtmlEscape.EscIsEscapeRef | api/new-believer.ts:110-115 | the sequential replacements equal the per-character escaper, for every input |
| HtmlEscape.EscSafe | api/new-believer.ts:110-115 | the output has no raw `<`, `>` or `"`, and every `&` in it begins `&amp;`, `&lt;`, `&gt;` or `&quot;` |
| HtmlEscape.UnescapeEsc | api/new-believer.ts:110-115 | decoding the four entities gives back the input: escaping loses no information |
| HtmlEscape.EscInjective | api/new-believer.ts:110-115 | distinct inputs give distinct outputs |
| HtmlEscape.EscPlain | api/new-believer.ts:110-115 | a value without `&`, `<`, `>` or `"` is unchanged; in particular the single quote is not escaped |
| HtmlEscape.EscTag | api/new-believer.ts:110-115 | a tag around plain text, such as `<b>X</b>`, becomes `&lt;b&gt;X&lt;/b&gt;` |
| HtmlEscape.EscCountZero | api/new-believer.ts:110-115 | the output of `esc` contains no `<`, `>` or `"` at all |
| EmailShape.IsValidEmail | api/new-believer.ts:74-75 | the regular-expression test as a scan for the first `@` and the first dot of the domain; its meaning is stated by `IsValidEmailIff` |
| EmailShape.IsValidEmailIff | api/new-believer.ts:74-75 | the check accepts a value exactly when it is `local@host.tld` with a non-empty local part, a non-empty host, a last part of two or more UTF-16 code units, and no whitespace or `@` in any part |
| EmailShape.ValidEmailFacts | api/new-believer.ts:74-75 | an accepted value contains exactly one `@` and no whitespace |
| EmailShape.AcceptedExample | api/new-believer.ts:74-75 | `a@b.co` is accepted |
| EmailShape.RejectedExample | api/new-believer.ts:74-75 | `not-an-email` is rejected |
| EmailShape.AstralExample | api/new-believer.ts:75 | `a@b.` followed by one character above U+FFFF is accepted, because that character is two code units |
| EmailShape.ShortTldExample | api/new-believer.ts:75 | `a@b.c` is rejected: its last part is one code unit |
| Render.Field | api/new-believer.ts:68-72 | a field is its value with surrounding whitespace removed, and empty when the field is missing |
| Render.Normalize | api/new-believer.ts:66-72 | each of the five fields is taken from the body field of the same name, empty when missing, otherwise that value with its whitespace margins cut off; all are trimmed; a missing body gives five empty fields |
| Render.BlankNameIsEmpty | api/new-believer.ts:66-68 | a missing body, a missing name and a whitespace-only name all normalise to the empty name |
| Render.OrDash | api/new-believer.ts:102-105 | an empty optional field is shown as `-`, a non-empty one as itself |
| Render.Subject | api/new-believer.ts:87 | `New Believer Connection: ` followed by the name; stated by `Compose` and `DispatchedMessage` |
| Render.TextLines | api/new-believer.ts:98-107 | the nine lines of the plain-text body in the source's order; what they show is stated by `TextBodyShowsFields` |
| Render.TextBody | api/new-believer.ts:98-108 | the nine lines joined with a line feed; stated by `TextBodyShowsFields` |
| Render.TextBodyShowsFields | api/new-believer.ts:98-108 | the plain-text body contains `Full Name: ` with the name, each optional field unescaped or `-`, and the submission time |
| Render.Row | api/new-believer.ts:117-126 | a table row with an escaped caption cell and an escaped value cell; stated by `RowMarkup` and `TableShows` |
| Render.Table | api/new-believer.ts:138-143 | the rows one after the other; stated by `TableMarkup` and `TableShows` |
| Render.Page | api/new-believer.ts:129-146 | the page around the title and the rows; stated by `HtmlMarkupFixed` and `HtmlShowsFields` |
| Render.HtmlBody | api/new-believer.ts:129-146 | the page with the escaped subject as title and the Email, Phone, Address and Preferred Contact rows; stated by `HtmlMarkupFixed` and `HtmlShowsFields` |
| Render.RowMarkup | api/new-believer.ts:117-126 | the `<`, `>` and `"` characters of a row are those of its fixed frame; the caption and the value add none |
| Render.TableMarkup | api/new-believer.ts:138-143 | a table of n rows holds n times the frame's markup characters, whatever the values |
| Render.HtmlMarkupFixed | api/new-believer.ts:129-146 | the number of `<`, `>` and `"` characters in the HTML body is that of the template alone: no submission adds or removes markup |
| Render.TableShows | api/new-believer.ts:138-143 | every value of the table occurs in it, escaped |
| Render.HtmlShowsFields | api/new-believer.ts:129-146 | the HTML body contains the escaped subject and each optional field escaped, with empty fields as `-` |
| Render.ReplyTo | api/new-believer.ts:148 | the reply-to address is present exactly when the email matches the pattern, and it is then the email itself |
| Render.Compose | api/new-believer.ts:150-157 | the message's sender and recipient are the configured addresses, its subject is `New Believer Connection: ` followed by the trimmed name, its text and HTML are the two rendered bodies, and it has a reply-to exactly when the email matches the pattern |
| Handler.CorsHeaders | api/new-believer.ts:31-44 | `Access-Control-Allow-Origin` is set exactly when the origin is present and equals one of the two allowed origins, and then to that origin; `Vary`, `Access-Control-Allow-Methods` and `Access-Control-Allow-Headers` are always set; no other header is |
| Handler.SendOutcome | api/new-believer.ts:159-168 | success gives 200 `{ok: true}`; a provider error gives 500 with its message; an exception gives 500 with its message, or `Failed to send email.` when it has none |
| Handler.Respond | api/new-believer.ts:31-168 | the CORS headers on every reply; OPTIONS gives 200 and an empty body; another non-POST method gives 405; a missing key gives 500; a trimmed name shorter than two UTF-16 code units gives 400 whatever the mailbox configuration; then a missing sender or recipient gives 500; the provider is called if and only if every check passes, with the composed message, and its answer decides the status |
| Handler.StatusAndBody | api/new-believer.ts:47-168 | the status is always 200, 400, 405 or 500; an error body goes with every status but 200; a 200 is the preflight's empty reply or `{ok: true}` |
| Handler.DispatchedMessage | api/new-believer.ts:81-157 | the message sent has the configured sender and recipient, the trimmed name in its subject and its text, and a reply-to exactly when the trimmed email matches the pattern |
| Handler.BlankNameRejected | api/new-believer.ts:56-79 | once the key is present, a missing body, a missing name or a whitespace-only name gets 400 and the provider is not called |
| Handler.TrimmedNameKept | api/new-believer.ts:68-79 | a name that is already trimmed reaches the name check unchanged |
| Handler.AstralNameAccepted | api/new-believer.ts:77-85 | a name of one character above U+FFFF has length 2, so with the configuration in place it is sent and not rejected with 400 |
| Handler.EndToEnd | api/new-believer.ts:77-163 | a trimmed name of two or more code units with the configuration in place is sent with the name in the subject; delivery gives 200 `{ok: true}` and a provider error gives 500 with its message |
| Handler.Response.constructor | api/new-believer.ts:10 | a fresh response has no headers and no body |
| Handler.Response.SetHeader | api/new-believer.ts:39-44 | sets one header and changes nothing else |
| Handler.Response.Status | api/new-believer.ts:48 | sets the status code and changes nothing else |
| Handler.Response.Json | api/new-believer.ts:53 | writes the JSON body and changes nothing else |
| Handler.Response.End | api/new-believer.ts:48 | ends the response with an empty body and changes nothing else |
| Handler.SetCors | api/new-believer.ts:36-44 | the `setHeader` calls add exactly `CorsHeaders` to the response and leave status and body alone |
| Handler.Report | api/new-believer.ts:159-168 | the provider's answer is written to the response as `SendOutcome` states, headers unchanged |
| Handler.Handle | api/new-believer.ts:8-170 | the response's new headers, status and body, and the message handed to the provider, are exactly those of `Respond` |

## Left out

- The email provider client (`new Resend(apiKey)`, `resend.emails.send`) and the network are not modelled. The provider is the parameter `send`, a function from the message to its answer. Latency, timeouts and retries are out of scope.
- The `toLocaleString` timestamp depends on the clock and the locale. It is the parameter `submittedAt`.
- `process.env` reads are the `Env` record; the Vercel request and response objects are the `Request` record and the `Response` class.
- `console.error` logging in the catch block is not modelled, because it has no effect on the response.
- `String()` coercion of non-string body values is not modelled: body fields are optional strings, and a missing or `null` field is `None`.
- Exceptions thrown anywhere but the provider call (for example by a body getter) are not modelled. The catch block is modelled for the provider call only.
- Handler.SendOutcome: when the provider reports an error object without a message, the source answers `{}` (the `error` key is undefined). The model always carries a message string for a provider error.
- Header names are compared as exact strings; the case-insensitivity of HTTP header names is not modelled.
- The HTML template's line breaks, indentation and inline CSS are not reproduced byte for byte. The model keeps the tags, the escaped title, the four rows in their order and each row's two escaped cells.
- The commented-out earlier CORS block is dead code and is not modelled.
- Text is a sequence of Unicode scalar values, so a lone surrogate code unit, which a JavaScript string can hold, has no counterpart in the model. Lengths are still counted in UTF-16 code units (`Text.Utf16Len`).
- The whitespace class is listed explicitly from the ECMAScript WhiteSpace and LineTerminator sets. There is no Unicode database behind it.
- The example `<b>X</b>` is proved for every tag and body without special characters rather than on the literal strings themselves.
- The provider is called at most once because a reply records at most one dispatched message. Asynchrony and concurrent requests are not modelled.
