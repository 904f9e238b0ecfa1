# Lead capture for the quiz web app, modelled in Dafny

The Flask app in `webapp/app.py` collects an e-mail address from the quiz page.
`POST /submit-email` does four things:

- it normalises the address (strip, lower-case) and validates it against `EMAIL_RE`;
- it stores one `email_leads` row per address, re-reading the existing row when the unique index refuses a second insert;
- it pushes the contact and a tag to Systeme.io, with at most three attempts and a linear backoff;
- it stamps the push outcome on the row and answers `{"ok": true}`, whatever the push did.

Start-up also rewrites `DATABASE_URL`, and `_client_ip` derives the audit address.

The project models these steps as five modules:

| file | module | what it holds |
|---|---|---|
| `text.dfy` | `Optional`, `Text` | `Option`, and the Python string builtins the app uses: `strip`, `lower`, `str(int)`, `split(",")[0]`, `[:n]`, `startswith` and `replace(…, 1)`; `strip` and `lower` are characterised by value up to ASCII-only lowering, the others by their defining property |
| `email.dfy` | `EmailAddress` | normalisation, a hand-written predicate for the address syntax, the regular expression read literally, and a proof that the two agree on stripped input |
| `crm.dfy` | `Crm` | `push_to_systemeio`: `RetryFrom`/`Push` state the retry policy as functions; `PushToSystemeio` is the source's `for attempt` loop, proved to compute exactly `Push`; lemmas state what a push does |
| `leads.dfy` | `Leads` | the `EmailLead` row and a `LeadStore` class holding the table as a map from normalised e-mail to row |
| `ingestion.dfy` | `Config`, `Ingestion` | the `DATABASE_URL` rewrite; `_client_ip`; the `submit_email` handler as a method on the store; lemmas on the table it leaves behind |

Effects are parameters:

- The HTTP call is a `Transport`, a function from the attempt number (1 to 3) to a reply `(code, body)` or to a raised `RequestException` with its text.
- Each `time.sleep(0.8 * attempt)` is recorded as a delay of `8 * attempt` tenths of a second.
- The timestamp `ts_utc` is a `now` argument.
- `ipaddress.ip_address` is an arbitrary predicate `isIp`.

Behaviours worth noting; here the model follows the code:

- **Sleep after the last attempt.** The code also sleeps after the third failed attempt (line 144). A complete failure therefore takes delays `[8, 16, 24]` (4.8 s), not two sleeps.
- **Resubmission keeps old fields.** A resubmission does not refresh `profile`, `source_ip` or `user_agent`. Only the re-read happens (line 190), then only the three push columns are written (lines 193-195).
- **Skip also depends on the account e-mail.** The skip path requires `SYSTEMEIO_EMAIL` as well as the token and the tag id (line 114).
- **No tri-state sync status.** The row has a boolean `pushed_to_systemeio`, a status string and an error string. A skipped push stores `pushed = false`, status `skipped_missing_config` and the fixed message.
- **The success set is 2xx plus 409.** Line 137 lists 200, 201, 202 and 409. Only 409 falls outside the 2xx range that line 134 already accepts (`Crm.IsDelivered`).

## Model

The row type `Leads.Lead` carries the columns of `EmailLead` (webapp/app.py:53-62) in order:

- `id`;
- `createdAt` for `ts_utc`;
- `email`;
- `profile`, `sourceIp` and `userAgent`, each optional because the column is nullable;
- `pushed` for `pushed_to_systemeio`;
- `status` and `error` for `systemeio_status` and `systemeio_error`, both optional.

| member | source | states |
|---|---|---|
| `Text.IsSpace` | webapp/app.py:173 | the characters Python's `str.isspace` accepts, which are the ones `strip()` removes and the ones `\s` matches at line 40: U+0009-U+000D, U+001C-U+001F, U+0020, U+0085, U+00A0, U+1680, U+2000-U+200A, U+2028, U+2029, U+202F, U+205F and U+3000 |
| `Text.TrimStart` | webapp/app.py:173 | the result is a suffix of the input; everything removed is whitespace; it does not start with whitespace |
| `Text.TrimEnd` | webapp/app.py:173 | the result is a prefix of the input; everything removed is whitespace; it does not end with whitespace |
| `Text.Trim` | webapp/app.py:173 | `strip()`: the result is a slice `s[a..b]` of the input with only whitespace before `a` and from `b` on, and it neither starts nor ends with whitespace |
| `Text.TrimIdempotent` | webapp/app.py:173 | stripping twice equals stripping once |
| `Text.TrimEmptyIff` | webapp/app.py:178 | `s.strip()` is empty exactly when every character of `s` is whitespace |
| `Text.Lower` | webapp/app.py:173 | same length; each ASCII capital becomes the letter 32 code points above it, and every other character is kept |
| `Text.TrimLower` | webapp/app.py:173 | lower-casing commutes with stripping |
| `Text.NatToString` | webapp/app.py:135 | `str(code)` is a non-empty string of decimal digits without a leading zero |
| `Text.ParseNatToString` | webapp/app.py:135 | reading the decimal text back gives the code (round trip) |
| `Text.NatToStringInjective` | webapp/app.py:135 | distinct codes render to distinct status strings |
| `Text.Take` | webapp/app.py:139 | `body[:500]` is a prefix of the body, of length `min(|body|, 500)` |
| `Text.BeforeFirst` | webapp/app.py:88 | `split(",")[0]` is a prefix with no comma that ends at the first comma or at the end of the string |
| `Text.StartsWith` | webapp/app.py:28 | `s.startswith(prefix)`: `prefix` is a prefix of `s` |
| `Text.Find` | webapp/app.py:29 | the first occurrence of the pattern, or the length of the string when there is none |
| `Text.ReplaceFirst` | webapp/app.py:29 | `replace(old, new, 1)` replaces the first occurrence only, and changes nothing when there is none |
| `Text.ReplaceLeadingOccurrence` | webapp/app.py:28-29 | when the string starts with the pattern, exactly that prefix is replaced |
| `EmailAddress.Normalize` | webapp/app.py:173 | the key is `Lower(s[a..b])` for a slice with only whitespace around it in the input; it has no surrounding whitespace and no upper-case ASCII letter |
| `EmailAddress.NormalizeIdempotent` | webapp/app.py:173 | normalising an already-normalised address changes nothing |
| `EmailAddress.NormalizeIgnoresCase` | webapp/app.py:173 | addresses that differ only in letter case get the same key |
| `EmailAddress.NormalizeExample` | webapp/app.py:173 | `"Foo@Bar.com"` and `"foo@bar.com"` get the same key |
| `EmailAddress.IsEmail` | webapp/app.py:40 | the hand-written address syntax: no whitespace, exactly one `@` with a non-empty local part before it, and a dot strictly inside the domain |
| `EmailAddress.RegexMatch` | webapp/app.py:40 | `EMAIL_RE.match` read literally: local `@` label `.` tail, each a non-empty run of `[^@\s]`, optionally followed by one final newline that `$` lets through |
| `EmailAddress.IsEmailToPattern` | webapp/app.py:40 | an address the hand-written predicate accepts matches the pattern |
| `EmailAddress.PatternToIsEmail` | webapp/app.py:40 | an address matching the pattern is accepted by the hand-written predicate |
| `EmailAddress.IsEmailMatchesRegex` | webapp/app.py:40 | on stripped text, the predicate holds exactly when the pattern matches, including Python's `$` before a final newline |
| `EmailAddress.RejectsMissingDot` | webapp/app.py:40 | `"a@b"` is rejected |
| `EmailAddress.RejectsMissingAt` | webapp/app.py:40 | `"not-an-email"` is rejected |
| `EmailAddress.AcceptsExample` | webapp/app.py:40 | `"foo@bar.com"` is accepted |
| `Crm.IsDelivered` | webapp/app.py:134-138 | a reply ends the loop exactly when its code is in [200, 300) or is 409; an exception never does |
| `Crm.IsConfigured` | webapp/app.py:114 | the push is attempted only when the account e-mail, the token and the tag id are all non-empty |
| `Crm.AttemptError` | webapp/app.py:139-142 | a raised exception's text is kept as is; a failed reply gives an error starting `HTTP ` of at most 7 + the code's digits + 500 characters, which is `HTTP <code>: <body>` when the body has at most 500 characters |
| `Crm.Backoff` | webapp/app.py:144 | `time.sleep(0.8 * attempt)` as `8 * attempt` tenths of a second |
| `Crm.Backoffs` | webapp/app.py:144 | the n recorded delays are `8·1, …, 8·n` tenths of a second |
| `Crm.FinalError` | webapp/app.py:145 | a present, non-empty error is reported unchanged; an absent or empty one becomes `unknown_error`; so the result is never empty |
| `Crm.RetryFrom` | webapp/app.py:129-145 | the retry policy from a given attempt on: at most 3 requests and at least the current attempt; earlier delays are kept and at most one is added per remaining attempt; the error is `None` exactly on success; a failure has status `error`, three requests and a non-empty error |
| `Crm.Push` | webapp/app.py:109-145 | the whole push: at most 3 requests and 3 delays; a request is sent exactly when the configuration is complete; the error is `None` exactly on success and is non-empty otherwise |
| `Crm.PushToSystemeio` | webapp/app.py:109-145 | the imperative retry loop returns exactly the result, request count and delays of the retry policy `Push` |
| `Crm.RetryFromFacts` | webapp/app.py:130-145 | from any attempt on: at most 3 requests; it stops at the first delivered reply; success reports that reply's code; failure reports the third attempt's error after three delays |
| `Crm.PushSkipped` | webapp/app.py:114-115 | a missing account e-mail, token or tag id gives `(False, "skipped_missing_config", msg)` with no request and no sleep |
| `Crm.PushStopsAtFirstDelivery` | webapp/app.py:130-138 | a configured push makes 1 to 3 requests; every attempt before the last failed; it succeeds exactly when the last attempt was delivered |
| `Crm.PushDelivered` | webapp/app.py:134-138 | on success the status is `str(code)` of the last reply, which parses back to the code; the error is `None`; one delay per earlier failure |
| `Crm.PushFailed` | webapp/app.py:139-145 | on failure: three requests, none delivered, status `error`, the third attempt's error, delays `[8, 16, 24]` |
| `Crm.PushFailedHttpError` | webapp/app.py:139 | after three failed replies the error is `HTTP <code>: ` followed by at most the first 500 characters of the last body |
| `Crm.PushFailedException` | webapp/app.py:141-145 | when the third attempt raised, its text is the error, and an empty text reads as `unknown_error` |
| `Crm.ConflictIsDelivered` | webapp/app.py:137-138 | a 409 on the first attempt gives `(True, "409", None)` after one request and no sleep |
| `Crm.ServerErrorEveryTime` | webapp/app.py:130-145 | with a body of at most 500 characters, a 500 on every attempt gives `(False, "error", "HTTP 500: " + body)`, three requests and delays `[8, 16, 24]` |
| `Leads.NewLead` | webapp/app.py:60-62 | a newly inserted row is not pushed yet and has no CRM status or error |
| `Leads.WithPush` | webapp/app.py:193-195 | `pushed`, `status` and `error` take the push result; every other column is unchanged |
| `Leads.LeadStore.Valid` | webapp/app.py:53-55 | the table invariant: each row is stored under its own e-mail, which makes `email` unique (line 55); ids are distinct, as for a primary key (line 53), and below the next id to hand out |
| `Leads.LeadStore.constructor` | webapp/app.py:76-77 | an empty table whose ids start at 1 |
| `Leads.LeadStore.FindOrCreate` | webapp/app.py:183-190 | a new address inserts exactly one fresh, unpushed row under a new id; a known address leaves the table and the id counter as they were |
| `Leads.LeadStore.RecordPush` | webapp/app.py:193-196 | only the named row's push columns change; the table stays keyed by e-mail with distinct ids |
| `Config.DatabaseUri` | webapp/app.py:27-30 | a leading `postgres://` alone becomes `postgresql://`; any other non-empty URL is kept; an empty one becomes `sqlite:///dev.db`; the result is never empty |
| `Config.DatabaseUriIdempotent` | webapp/app.py:27-30 | rewriting an already rewritten URL changes nothing |
| `Ingestion.EmailKey` | webapp/app.py:173 | a missing field gives the empty key; a present one gives `Normalize` of its text; the key is stripped and is its own key |
| `Ingestion.ProfileOf` | webapp/app.py:174 | the profile is `None` exactly when the field is missing or blank, and otherwise is the stripped text |
| `Ingestion.FirstHop` | webapp/app.py:88 | the first forwarded hop is a slice of the text before the first comma (or of the whole header) with only whitespace around it there; it contains no comma and has no surrounding whitespace |
| `Ingestion.UserAgentOf` | webapp/app.py:175 | the `User-Agent` header when present (even empty), otherwise `-` |
| `Ingestion.HasText` | webapp/app.py:87-90 | Python truthiness of an optional string, as in `if xff:` and `remote_addr or "-"`: present and non-empty |
| `Ingestion.ClientIp` | webapp/app.py:84-95 | a non-empty `X-Forwarded-For` gives its first hop, a missing or empty one the peer address or `-`; any candidate `ip_address` rejects becomes `-`; the result is `-` or a valid IP |
| `Ingestion.Rejection` | webapp/app.py:178-181 | `email_required` exactly for an empty key; `email_invalid` exactly for a non-empty key that fails the pattern; no error exactly for a valid address |
| `Ingestion.SubmitResponse.HttpStatus` | webapp/app.py:179-202 | an accepted submission answers 200 and a rejected one 400, and no other code occurs |
| `Ingestion.EmailRequiredIff` | webapp/app.py:173-179 | `email_required` is answered exactly when the field is missing, empty or all whitespace |
| `Ingestion.StoreAfterSubmit` | webapp/app.py:183-195 | the table after a valid submission: the existing row, or a new row with the next id, the request's fields and no push yet, then stamped with the push result |
| `Ingestion.StoreLead` | webapp/app.py:183-196 | find-or-create, then one push, then the push columns of that row are stamped: the table becomes `StoreAfterSubmit` of the push result |
| `Ingestion.SubmitEmail` | webapp/app.py:166-202 | an invalid address gets a 400 with its error code, no push and an unchanged table; a valid one gets `ok: true` whatever the push returned, exactly one push, and the table `StoreAfterSubmit`; a table keyed by validated, normalised addresses stays so |
| `Ingestion.SubmitNewEmail` | webapp/app.py:183-186 | a new address grows the table by exactly one row, which starts unpushed and then carries the push result |
| `Ingestion.SubmitKnownEmail` | webapp/app.py:187-195 | a known address keeps the count; its row keeps its id, e-mail, timestamp, profile, source IP and user agent; only the three push columns change |
| `Ingestion.SubmitTouchesOneLead` | webapp/app.py:183-196 | the keys gain at most the submitted address, and every other row is untouched |
| `Ingestion.SubmitStampsLatestPush` | webapp/app.py:192-195 | the row's push columns always hold the latest push result |
| `Ingestion.SubmitTwice` | webapp/app.py:183-195 | submitting one address twice leaves one row: a new address gets the next id and the first request's timestamp, profile, IP and user agent, a known one keeps its own; the push columns hold the second push result |
| `Ingestion.SubmitTwoAddresses` | webapp/app.py:183-186 | two distinct new addresses give two rows |
| `Ingestion.SubmitKeepsKeysValid` | webapp/app.py:173-183 | every key stays a normalised address that passed validation |
| `Ingestion.OneLeadPerAddress` | webapp/app.py:55 | two keys that normalise alike are the same key: at most one row per normalised address |

## Left out

- Flask routing, JSON decoding (`abort(400)` on a bad body), `render_template` and `jsonify` are HTTP plumbing. The request is given as the fields the handler reads.
- Non-string `email` or `profile` values are not modelled: the model takes these fields as optional strings. A falsy one (`null`, `0`, `false`, `[]`, `{}`) is replaced by `""` at lines 173-174, so it behaves as the missing field the model does cover (`email_required`, or profile `None`). A truthy non-string makes `.strip()` raise, giving an HTTP 500.
- `/healthz` and `as_dict` are a count query, a wall-clock timestamp and `isoformat`.
- SQLAlchemy sessions, commit and rollback, and `db.create_all` are replaced by the map in `LeadStore`. The unique-index violation becomes the "already present" branch of `FindOrCreate`. Storage failures are not modelled.
- Column length limits (`String(255)`, `String(80)`, `String(40)`, `String(64)`) are not modelled; enforcing them depends on the database engine.
- Ids come from a counter that advances only when a row is created. Some engines also use up a sequence value on a refused insert; the model does not capture that.
- Concurrent submissions of one address are not modelled. The source relies on the database's unique index for them, and the model is sequential.
- `requests.post`, `_systemeio_headers`, the endpoint URL (`SYSTEMEIO_API_BASE.rstrip('/')`), the payload and `SYSTEMEIO_TIMEOUT` are left out. The transport is the injected `Transport`, and a timeout is one of its raised outcomes. Line 141 catches only `requests.RequestException`. Any other exception from `requests.post` leaves `push_to_systemeio` and ends the request with an HTTP 500. For a new address, line 186 has by then already committed the row, unpushed. `Crm.Attempt` cannot express that outcome.
- `time.sleep` is recorded as a list of delays in tenths of a second, not performed.
- `ipaddress.ip_address` is the parameter `isIp`, and the regex engine is replaced by the predicates in `EmailAddress`.
- Logging and loading configuration from environment variables are left out. Configuration is passed as arguments (`CrmConfig`, the tag id, the raw `DATABASE_URL`).
- Text.Lower: lower-cases ASCII letters only; Python's `str.lower` also maps non-ASCII letters, which the model leaves unchanged.
- `bot.py` holds the Telegram command handlers and polling loop. It is I/O against a library that is not part of this model.
- `webapp/__init__.py` is a stub app whose only logic is an empty-email check. It stores nothing and pushes nothing.
