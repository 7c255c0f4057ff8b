# Job-application mail triage, in Dafny

This project models the Go backend of a job-application tracker. It covers the part of the backend that decides things:

- **Inbox triage** (`email_reader.go`). The reader fetches the most recent messages of the mailbox. It records a job application for each message whose subject reads like an application acknowledgement or rejection (`isJobRelated`) and whose sender is a recruiting mailer (`isCareerDomain`).
- **JSON slice** (`jobparser.go`). From a language-model reply, the parser takes the first `{...}` span that the Go regular expression `\{.*?\}` finds. It returns an error when there is none.

Layout:

- `wrappers.dfy`: module `Wrappers`, with `Option` and `Result`.
- `strings.dfy`: module `Strings`. It holds `Lower`, the model of `strings.ToLower` on ASCII letters, and `Contains`, the model of `strings.Contains`.
- `email_reader.dfy`: module `EmailReader`. It holds the two predicates, the fetch window, the message and job datatypes, and the per-message decision `Triage`. It also holds the receive loop `ProcessMessages` and `CheckInbox` after login.
- `job_parser.dfy`: module `JobParser`. It holds the regular-expression scan, a characterisation of its result, and `ExtractJobDetails` around the foreign calls.

`isCareerDomain` is a loop with an early return in the source, so it is the method `IsCareerDomain`. That method is proved equal to the predicate `CareerAddress`: some pattern occurs in the lower-cased address. Functions and lemmas use the predicate. The message loop of `CheckInbox` is the method `ProcessMessages`. Its result is tied to the function `SavedJobs`, and the lemmas are proved about that function. The IMAP server is the parameter `fetch`: given the requested window, it returns the items the fetch delivered, with nil messages as `None`. The `SaveJob` calls are the returned sequence `saved`, in call order.

## Model

| member | source | states |
|---|---|---|
| Strings.LowerChar | email_reader.go:156 | an upper-case ASCII letter becomes the lower-case letter at the same alphabet position (`'A'` to `'a'`, ..., `'Z'` to `'z'`), and every other character is left unchanged |
| Strings.Lower | email_reader.go:156 | lower-casing keeps the length, maps each character through ASCII lower-casing, and leaves no upper-case letter |
| Strings.LowerIdempotent | email_reader.go:166 | lower-casing an already lower-cased string changes nothing |
| Strings.Contains | email_reader.go:158 | `Contains(s, p)` holds exactly when `p` occurs in `s` at some index |
| EmailReader.CareerAddress | email_reader.go:142-162 | the sender test used by the triage functions and lemmas: some one of the ten career patterns occurs in the lower-cased address |
| EmailReader.IsCareerDomain | email_reader.go:142-163 | the pattern scan with early return answers true exactly when one of the ten career patterns occurs in the lower-cased address |
| EmailReader.IsJobRelated | email_reader.go:165-171 | true exactly when the lower-cased subject contains one of "applied", "thank you", "application received", "we regret" |
| EmailReader.CareerAddressIgnoresCase | email_reader.go:156 | the sender verdict for an address equals the verdict for its lower-cased form |
| EmailReader.IsJobRelatedIgnoresCase | email_reader.go:166 | the subject verdict for a subject equals the verdict for its lower-cased form |
| EmailReader.MixedCaseSender | email_reader.go:156-159 | any address holding `Careers@` somewhere passes the sender test: lower-casing maps it to the `careers@` pattern |
| EmailReader.MixedCaseSubject | email_reader.go:166-168 | any subject holding `Thank You` somewhere passes the subject test: lower-casing maps it to the `thank you` phrase |
| EmailReader.UnknownIsNotCareer | email_reader.go:142-162 | the fallback sender "unknown" matches none of the career patterns |
| EmailReader.FetchWindow | email_reader.go:63-76 | an empty mailbox fetches nothing; otherwise the window ends at the last message, starts at 1 for at most 1000 messages and at `Messages - 999` beyond, lies within `1..Messages`, and has `min(Messages, 1000)` messages |
| EmailReader.FromAddress | email_reader.go:118-121 | the sender is the first From entry, or "unknown" when the list is empty or its first entry is nil |
| EmailReader.NoSenderNotCareer | email_reader.go:118-126 | a message with no usable From entry never passes the sender test |
| EmailReader.Readable | email_reader.go:95-112 | the four skips of the receive loop: the item is not nil, has an envelope, has a body, and the body parses |
| EmailReader.Triage | email_reader.go:95-135 | an item yields a record exactly when it survives every skip and both predicates hold; the record has company "Unknown", status "Applied", the subject as title, and the envelope's message id and date |
| EmailReader.SavedJobs | email_reader.go:93-135 | no more records than items, and every record has company "Unknown" and status "Applied" |
| EmailReader.SavedJobsAppend | email_reader.go:93-136 | the records saved for two consecutive batches are the records of the first followed by those of the second |
| EmailReader.SavedJobsExactly | email_reader.go:126-135 | a record is saved exactly when some received item triages to it |
| EmailReader.SavedJobJustified | email_reader.go:126-134 | every saved record comes from a readable message whose subject is job-related and whose sender is a career mailer, and carries that message's subject and id |
| EmailReader.ProcessMessages | email_reader.go:93-136 | the counter equals the number of received items, skipped ones included, and the saved records are exactly `SavedJobs` of the stream, in order |
| EmailReader.CheckInbox | email_reader.go:63-93 | an empty mailbox counts and saves nothing; otherwise the fetch window is requested and what it delivers is counted and triaged |
| JobParser.CloseFrom | jobparser.go:38 | the lazy `.*?\}` finds the first `}` after the `{` on the same line, or reports that no `}` closes on that line |
| JobParser.MatchAt | jobparser.go:38 | a match starts at `i` exactly when a `{` there is closed on the same line, and it ends just after the first such `}` |
| JobParser.FindFrom | jobparser.go:38-39 | the scan returns the leftmost position where a match starts, and none when no position can start one |
| JobParser.FindString | jobparser.go:38-39 | the result is empty exactly when no `{` is closed on its own line; otherwise it starts with `{`, ends with `}`, holds no newline and no earlier `}`, and occurs in the content at the leftmost position where a match can start |
| JobParser.MatchIsUnique | jobparser.go:38-39 | a span that opens at the leftmost possible `{` and ends at the first `}` after it on the same line is the result, so the properties above determine it |
| JobParser.ExampleEmptyObject | jobparser.go:38-39 | `"x {} y"` yields `"{}"` |
| JobParser.ExampleNewlineBreaksSpan | jobparser.go:38-39 | `"{\n} {a}"` yields `"{a}"`: a newline ends the span |
| JobParser.ExampleLeftmostNotShortest | jobparser.go:38-39 | `"{{a}"` yields `"{{a}"`: the leftmost start wins over a shorter later span |
| JobParser.ExampleLazyStop | jobparser.go:38-39 | `"{a}}"` yields `"{a}"`: the match stops at the first `}` |
| JobParser.ExtractJson | jobparser.go:38-42 | the error "no JSON found in OpenAI response" comes back exactly when no span exists; otherwise the slice is the non-empty, braced `FindString` match of the content |
| JobParser.ExtractJobDetails | jobparser.go:31-52 | every error path (the request error, no JSON, the unmarshal error) returns empty company and title; otherwise the decoded company and title come back with no error |

## Left out

- IMAP dialing, TLS, login, inbox selection, and the fetch goroutine with its channel (email_reader.go:26-61, 78-91). These are network I/O and concurrency. The delivered messages are the result of the `fetch` parameter, and an error during the fetch just shortens what it delivers.
- The global `CharsetReader` hook (email_reader.go:19-24) is library configuration.
- The envelope date formatting `Date.Format("2006-01-02")` is a library time call. The date is an opaque, already formatted string.
- Lower: models `strings.ToLower` on ASCII letters only. Go's full Unicode case mapping is not modelled.
- The log lines are not modelled. That includes the `emailCount` printed for each parsed message at email_reader.go:124.
- `SaveJob` (SQLite `INSERT OR IGNORE` keyed on the unique `email_id`) is not modelled. The model records each call, so re-saving an already stored message id is not collapsed. The rest of database.go, dashboard.go, main.go and the frontend files are not part of this model either. They are persistence, an HTTP server, a timer, and presentation.
- The OpenAI request, `json.Unmarshal` and `TestOpenAI` are foreign calls. `ExtractJobDetails` takes the request outcome and the unmarshal function as parameters. The panic when the reply has no choices (`resp.Choices[0]`) is not modelled. The reply is taken to be the first choice's content or the request error.
- JobParser.FindString: models the regular expression over characters. Go matches over UTF-8 bytes. The braces and the newline are ASCII, so the spans agree. Invalid UTF-8 sequences, which Go would read as U+FFFD, are not modelled.
- The frontend files (App.jsx, JobList.jsx, JobCard.jsx, api.js) fetch the job list and render it as a table or as cards. api.js also defines a `deleteJob` helper that sends a DELETE request, and no shown file calls it. They are presentation and network calls and are not part of this model.
