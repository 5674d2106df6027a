# Gmail adapter core, modelled in Dafny

This project models the request/response shaping layer of a Gmail adapter for
an agent protocol server, in its two generations: the current `src` server
(tools that write markdown files and return records) and the older
`mcp_gmail` server (tools that answer with plain text). The model covers:

- the search-query builder of both generations: structured filters become
  `key:value` clauses in a fixed order, joined by spaces;
- the three walks over a message's MIME part tree: plain-text body extraction,
  recursive attachment discovery and the shallow "has attachments" scan;
- the filename sanitizer and the `YYYY/MM/DD` date validator;
- the header map (last occurrence wins), the metadata record with its fallback
  literals, the web link, and the message, thread and search-results
  documents;
- the decision logic of each tool and resource of both servers. This covers
  date checks, the exclusion between a raw query and explicit filters, the
  reported query, the fail-fast and collect-and-report batch policies, the
  thread subject and date range, label-name lookup, body previews and the
  attachment-metadata fallback.

Everything the adapter asks of its environment is a parameter:

- `Metadata.Env` carries the base64url-and-UTF-8 decoder of body data and the
  RFC 2822 date reformatter.
- `Tools.Provider` and `Legacy.LegacyProvider` carry the provider calls as
  total functions returning `Result`. A failure is the text of the exception
  the call raises.
- A written file is represented by its name and its content.

Modules, one file each: `Wrappers` (Option, Result), `Strings` (join, split,
line documents, decimal numbers, UTF-8 length), `Batch` (the two batch
policies), `Filename`, `Dates`, `Query`, `Mime`, `Metadata`, `Markdown`,
`Tools` (the current server) and `Legacy` (the older server).

Several documents are proved by reading them back. Splitting the produced text
at line breaks gives the promised lines. For example, line 3 of the search
results is `**Results:** N emails`, and line 0 of the older `get_emails` answer
is `Retrieved N emails:`.

Some behaviours of the code are easy to get wrong, and the model keeps them as
written:

- The current server's body preview is the first 200 characters with no
  ellipsis and no newline collapsing. Only the older server appends `...`.
- There is no field-selection projection. Every message document renders all
  fields.
- The current `get_emails` is fail-fast: the first failing id fails the call.
  Only the older server collects successes and failures and reports both.
- The older builder's `is_unread=False` adds an empty clause and never asks for
  `is:read`. `Query.LegacyFalseQuirk` states it as written.

## Model

| member | source | states |
|---|---|---|
| `Filename.Sanitize` | src/helpers.py:96-106 | the result is 1 to 200 characters, all letters, digits or `. - _ space`, so never `/` or `\`, and it never starts with a dot; its length is the input's plus 5 when the `file_` prefix was needed, capped at 200; the prefix appears exactly for an empty or dot-leading input; every kept input character is itself or `_` at its shifted position |
| `Filename.SanitizeFixpoint` | src/helpers.py:96-106 | the sanitizer returns its input unchanged if and only if the input is already a safe name |
| `Filename.SanitizeIdempotent` | src/helpers.py:96-106 | sanitizing a sanitized name changes nothing |
| `Filename.SanitizeTraversalExample` | src/helpers.py:96-100 | `../etc/passwd` becomes `file_.._etc_passwd` |
| `Filename.SanitizeEmptyExample` | src/helpers.py:99-100 | the empty name becomes `file_` |
| `Filename.SanitizeSafeExample` | src/helpers.py:103-106 | an already safe name such as `report 2024.pdf` is kept |
| `Dates.ValidateDateCharacterization` | src/helpers.py:70-82 | a present bound is accepted if and only if it is empty or is the zero-padded `YYYY/MM/DD` text of a real Gregorian day with year 1 to 9999 |
| `Dates.ParseFormatDate` | src/helpers.py:74-79 | the canonical text of a year, month and day spells that year, month and day |
| `Dates.FormatParseDate` | src/helpers.py:74-79 | every text of the strict shape is the canonical text of the fields it spells |
| `Dates.ParseDateDigits` | src/helpers.py:74-79 | the year, month and day of a well-shaped text are its digit groups read as decimal numbers |
| `Dates.ValidateDateAbsent` | mcp_gmail/server.py:74-75 | an absent or empty bound is valid (the older server's copy of the validator, identical to the current one) |
| `Dates.ValidateDateLeapDay` | src/helpers.py:78-80 | `2024/02/29` is accepted |
| `Dates.ValidateDateNotLeap` | src/helpers.py:78-82 | `2023/02/29` is rejected |
| `Dates.ValidateDateMonth13` | src/helpers.py:78-82 | `2024/13/01` is rejected |
| `Dates.ValidateDateApril31` | src/helpers.py:78-82 | `2024/04/31` is rejected |
| `Dates.ValidateDateYearZero` | src/helpers.py:78-82 | `0000/01/01` is rejected |
| `Dates.ValidateDateDashes` | src/helpers.py:74-75 | `2024-02-29` fails the shape check |
| `Mime.TextOfReached` | src/gmail.py:168-176 | the body walk fails exactly when a part it reaches has no MIME type, and otherwise returns the decoded data of the reached `text/plain` parts concatenated in depth-first, left-to-right order |
| `Mime.ExtractBody` | src/gmail.py:179-186 | a single-part payload gives its decoded data whatever its type, or `''` without data; a multipart payload gives the walk over its parts |
| `Mime.PlainChildrenIgnored` | src/gmail.py:171-175 | the children of a `text/plain` part never affect the body |
| `Mime.OtherLeavesSilent` | src/gmail.py:170-176 | childless parts of other types contribute nothing, so an HTML-only message has the empty body |
| `Mime.BodyExample` | mcp_gmail/gmail.py:184-196 | the older copy of the walk looks into a `multipart/alternative` part, skips the HTML sibling and concatenates plain parts in order |
| `Mime.FindAttachmentsPreorder` | src/gmail.py:661-678 | the recursive walk equals "every part in pre-order, keep those with a non-empty filename and attachment id, make an entry of each", so it also descends below reported parts |
| `Mime.FindAttachmentsMember` | src/gmail.py:661-678 | an entry is listed if and only if some part anywhere in the tree is reported and produces it |
| `Mime.ListAttachments` | src/gmail.py:681-695 | a multipart payload gives the walk over its parts; a single-part payload gives at most one entry, exactly when the payload itself is reported |
| `Mime.HasAttachments` | src/helpers.py:119-124 | true if and only if the payload has a parts list and one of its immediate parts has a non-empty filename |
| `Mime.HasAttachmentsShallow` | src/helpers.py:120-123 | a nested attachment and a single-part attachment are listed by the walk but not seen by the shallow scan |
| `Metadata.HeadersDict` | src/helpers.py:137-140 | the header map's keys are exactly the header names (case-sensitive), and each maps to the value of its last occurrence |
| `Metadata.HeadersDictExample` | mcp_gmail/gmail.py:215-218 | with `Subject`, `subject`, `Subject` headers the later `Subject` wins and `subject` is a separate key |
| `Metadata.HeaderOrLastWins` | src/helpers.py:159-162 | a header lookup gives the default when the name never occurs, otherwise the last occurrence's value |
| `Metadata.WebUrl` | src/helpers.py:21 | the link starts with `https://mail.google.com/mail/u/` |
| `Metadata.ParseWebUrlRoundTrip` | src/helpers.py:10-21 | reading the link back gives the account index and the message id |
| `Metadata.ParseWebUrlExact` | src/helpers.py:10-21 | only built links read back: a link that parses as an account index and a message id is exactly the link built from them, so the account is written without leading zeros |
| `Metadata.WebUrlInjective` | src/helpers.py:21 | different message ids give different links |
| `Metadata.WebUrlExample` | src/helpers.py:165 | the link of message `18c2f` in account 0 is `https://mail.google.com/mail/u/0/#all/18c2f` |
| `Metadata.BuildMetadata` | src/helpers.py:154-166 | fallbacks `No Subject`, `Unknown`, `Unknown`, thread id `''`, labels `[]`; otherwise the last header values; the date is `Unknown Date` for a missing or empty header or one that reads `Unknown Date`, the reformatted date when it parses and the raw text when it does not; the attachment flag is the shallow scan of immediate parts; the link reads back as account 0 and the id, so it is exactly the account-0 link of the id |
| `Markdown.EmailDocumentReadBack` | src/helpers.py:181-200 | the message document's line 0 is `# Email: <subject>`, lines 2 to 9 are the id, thread id, from, to, date, comma-joined labels, attachment flag and link fields in that order, and line 13 is `## Body`, whatever the body |
| `Markdown.ThreadMarkdown` | src/helpers.py:217-252 | no messages give the stub; otherwise the head with the first message's subject and the message count, then one section per message numbered 1 to n in input order |
| `Markdown.EmptyThreadReadBack` | src/helpers.py:217-218 | the stub names the thread id and says `No messages found.` |
| `Markdown.ThreadReadBack` | src/helpers.py:220-232 | the thread title carries the first message's subject (`No Subject` without one) and the count line the number of messages |
| `Markdown.MessageSectionReadBack` | src/helpers.py:234-240 | the i-th section is headed `## Message i` and names the message id, `unknown` when it has none |
| `Markdown.SearchDocument` | src/server.py:342-361 | the results document is the head with the query and count, then one `## Email i` section per message document, numbered from 1 in provider order |
| `Markdown.SearchDocumentReadBack` | src/server.py:342-345 | read back, the document states the query on line 2 and the result count on line 3 |
| `Query.ClausesSorted` | src/gmail.py:297-342 | clauses come out in the fixed order read-status, labels, from, to, subject, after, before, has:attachment, is:starred, is:important, in:trash |
| `Query.ClausesByKind` | src/gmail.py:300-339 | `read` gives `is:read` and `unread` gives `is:unread`, anything else nothing; one label clause per label in input order; one clause per non-empty string filter and per true flag, and nothing otherwise |
| `Query.FilterClauseOrigin` | src/gmail.py:307-339 | every clause after the read-status one comes from a listed label or a given filter value, never from read status |
| `Query.BuildQueryEmpty` | src/gmail.py:297-342 | the query is empty if and only if no filter is active |
| `Query.NoNegativeClauses` | src/gmail.py:312-339 | every emitted clause is non-empty and none starts with `-` |
| `Query.BuildQueryExample` | src/gmail.py:300-313 | `from_email='a@b.com'` with `read_status='unread'` gives `is:unread from:a@b.com` |
| `Query.BuildQueryRoundTrip` | src/gmail.py:342 | when no filter value contains a space, splitting the query at spaces and reading each term back gives exactly the emitted clauses |
| `Query.LegacyAgreesWithCurrent` | mcp_gmail/gmail.py:332-371 | the older builder with `is_unread=True` gives the current builder's query for `unread`, and with `is_unread=None` its query for no read status |
| `Query.LegacyFalseQuirk` | mcp_gmail/gmail.py:332-333 | `is_unread=False` adds an empty part, so the query is the no-read-status query with a leading space whenever that is non-empty |
| `Query.LegacyFalseExample` | mcp_gmail/gmail.py:371 | only `from_email='a'` with `is_unread=False` gives ` from:a` |
| `Query.LegacyNeverRead` | mcp_gmail/gmail.py:331-333 | the older builder never emits `is:read` |
| `Batch.FailFast` | src/server.py:402-427 | the batch succeeds if and only if every item does, with one result per item in order; otherwise it fails with the first failing item's error |
| `Batch.Collect` | mcp_gmail/server.py:440-445 | every item is tried; successes and failures each keep input order, hold exactly the items with that outcome, and their counts add up to the number of items |
| `Strings.Enumerate` | src/helpers.py:234-250 | accumulating numbered sections in a loop gives the sections numbered consecutively from the start value, concatenated in input order |
| `Strings.Utf8Length` | src/server.py:372 | the encoded size lies between one and four bytes per character |
| `Tools.MessageResource` | src/server.py:107-109 | the message resource succeeds exactly when the message loads, and is then its message document; otherwise it fails with the fetch or body-parse error |
| `Tools.WithBodies` | src/server.py:459-462 | the thread's bodies parse as a whole if and only if each does, giving each message paired with its body in order; otherwise the error is that of the first message whose body does not parse |
| `Tools.ThreadResource` | src/server.py:123-131 | a failing thread fetch fails the resource with its error; an empty thread renders the stub rather than failing; a body that does not parse fails it with that error; otherwise it succeeds with the thread document of all messages with their bodies |
| `Tools.SearchItem` | src/server.py:350-360 | a match yields its metadata and its message document exactly when it loads |
| `Tools.Results` | src/server.py:339-375 | a search result exists if and only if every match loads, else the first failure's error; it reports the query, the match count, one metadata record per match in provider order, the results document, its sanitized file name and its UTF-8 size |
| `Tools.SearchEmails` | src/server.py:285-316 | an invalid `after_date`, then an invalid `before_date`, is refused naming that field before anything is searched; a raw query mixed with an explicit parameter is refused; a listing failure propagates; a successful listing gives exactly the results of the one query chosen |
| `Tools.RawQueryNeverMerged` | src/server.py:293-314 | a successful search with a raw query had no explicit parameter, sent the raw query and reports it verbatim |
| `Tools.MixedQueryExamples` | src/server.py:295-305 | `has_attachment=False` beside a raw query is allowed, while an empty subject or `has_attachment=True` counts as explicit |
| `Tools.ReportedQueryShowsFromToSubject` | src/server.py:329-337 | on the structured path the reported query is the from, to and subject clauses of the sent query joined by spaces, or `all messages` when there are none |
| `Tools.ReportedQueryIgnores` | src/server.py:330-337 | the reported query does not change with read status, dates, label or attachment filter |
| `Tools.ResultsReadBack` | src/server.py:343-344 | the results document states the reported query and the number of matches |
| `Tools.SearchEmailsReadBack` | src/server.py:370-375 | the document a search writes agrees with its record's query and match count |
| `Tools.DownloadEmail` | src/server.py:403-427 | one download succeeds exactly when the message loads, with the metadata, the message document, the file name sanitized from id and subject and the UTF-8 size; a failure names the id |
| `Tools.GetEmails` | src/server.py:397-427 | an empty id list is refused; otherwise success if and only if every id loads, one result per id in order with that id; otherwise the error names the first failing id |
| `Tools.DateOf` | src/server.py:469-471 | a message's date is its last `Date` header, `Unknown` without one |
| `Tools.DateRange` | src/server.py:468-472 | one message gives its date; more give `<first> to <last>` |
| `Tools.ThreadSubject` | src/server.py:464-466 | the thread subject is the first message's, `No Subject` without one |
| `Tools.GetThread` | src/server.py:452-491 | a failing fetch propagates and an empty thread is refused naming it; a non-empty thread succeeds if and only if every body parses, failing otherwise with the first body error; a success carries the count, id, subject, date range, thread document, sanitized file name and UTF-8 size |
| `Tools.GetThreadReadBack` | src/server.py:475-491 | the thread document's title carries the reported subject and its count line the reported count |
| `Tools.LabelName` | src/server.py:576-581 | the label name is the `name` of the first label with that id (the id when it has no name), and the id itself when no label has it |
| `Tools.LabelNameFirstWins` | src/server.py:628-633 | the first matching label decides, whatever follows |
| `Tools.AddLabel` | src/server.py:561-591 | modify, then fetch, then list labels; the first failing call decides the error; success reports the subject, the looked-up name and `added` |
| `Tools.RemoveLabel` | src/server.py:627-657 | list labels, then modify, then fetch; the first failing call decides the error; success reports `removed` |
| `Tools.FindById` | src/server.py:728 | the lookup finds the first attachment with the id, and nothing exactly when no attachment has it |
| `Tools.DownloadAttachment` | src/server.py:714-743 | the data is saved under the sanitized name and its length is the size; filename and MIME type come from the first listed attachment with the id, otherwise the requested name and `application/octet-stream` |
| `Tools.SavedNameStaysInDirectory` | src/server.py:719-724 | the saved name is a single safe path component, never `.` or `..` |
| `Tools.BodyPreview` | src/server.py:182 | the preview is a prefix of the body of length at most 200 |
| `Tools.BodyPreviewCut` | src/server.py:233 | a short body is its own preview; a long one is cut at 200 with nothing appended |
| `Legacy.ShownHeaders` | mcp_gmail/server.py:45-52 | from and to default to `Unknown`, subject to `No Subject`, date (raw) to `Unknown Date`; otherwise each is the last header value |
| `Legacy.FormatMessage` | mcp_gmail/server.py:43-61 | formatting succeeds exactly when the body parses, and is the header block followed by the body and a newline |
| `Legacy.FormatMessageReadBack` | mcp_gmail/server.py:54-61 | read back, lines 1 to 4 are the From, To, Subject and Date lines and line 5 is the blank line before the body |
| `Legacy.MessageResource` | mcp_gmail/server.py:101-103 | the resource fails with the fetch error, otherwise it is the formatted message |
| `Legacy.ThreadResource` | mcp_gmail/server.py:117-125 | a failing thread fetch fails with its error; a message that cannot be formatted fails it with that error; otherwise it succeeds with the header line, then one `--- Message i ---` section per message numbered from 1 in thread order; an empty thread gives only the header line |
| `Legacy.FormatThread` | mcp_gmail/server.py:121-123 | the messages of a thread are formatted in order; it succeeds if and only if each one can be, and otherwise fails with the error of the first that cannot |
| `Legacy.ThreadResourceReadBack` | mcp_gmail/server.py:120 | the thread text opens with `Email Thread (ID: <id>)` |
| `Legacy.FetchAll` | mcp_gmail/server.py:248-250 | listed matches are fetched in order and the first failing fetch fails the call |
| `Legacy.LegacySearchEmails` | mcp_gmail/server.py:224-262 | an invalid `after_date`, then `before_date`, is answered with an error text before searching; a listing failure and then a fetch failure propagate their errors; otherwise the matches of the built query are listed under `Found N messages` |
| `Legacy.LegacySearchDefaultQuery` | mcp_gmail/server.py:232-244 | with the default `is_unread=False` the sent query starts with the empty clause |
| `Legacy.QueryEmails` | mcp_gmail/server.py:277-295 | a listing failure and then a fetch failure propagate their errors; otherwise it succeeds, listing the matches of the raw query under a head quoting the query |
| `Legacy.ListingReadBack` | mcp_gmail/server.py:246-260 | split at line breaks, a listing is its head line followed by five lines per match (blank, id, sender, subject, date), in order |
| `Legacy.ListingLineAt` | mcp_gmail/server.py:257-260 | in those lines, match `i` shows `Message ID: <id>`, `From: <sender>`, `Subject: <subject>` and `Date: <date>` at lines `5i+1` to `5i+4` |
| `Legacy.QueryEmailsReadBack` | mcp_gmail/server.py:279-295 | a successful `query_emails` answer reads back as `Found N messages matching query: "<q>"` and the blocks of the fetched matches in provider order |
| `Legacy.LegacySearchEmailsReadBack` | mcp_gmail/server.py:246-262 | a successful search past the date checks reads back as `Found N messages matching criteria:` and the blocks of the fetched matches in provider order |
| `Legacy.Report` | mcp_gmail/server.py:447-462 | the retrieved messages are numbered from 1; the failure section appears only when some retrieval failed and is numbered from 1 again |
| `Legacy.FormatAll` | mcp_gmail/server.py:451-453 | the retrieved messages are formatted in order, each keeping its id; the first body that cannot be parsed fails the call with its error |
| `Legacy.LegacyGetEmails` | mcp_gmail/server.py:433-462 | no ids give `No message IDs provided.`; otherwise every id is tried, a formatting failure fails the call with its error, and the report lists the formatted successes and the failures |
| `Legacy.ReportReadBack` | mcp_gmail/server.py:448 | the report's first line is `Retrieved N emails:` with N the number retrieved |
| `Legacy.LegacyGetEmailsReadBack` | mcp_gmail/server.py:437-448 | the answer opens with the number of ids that could be fetched, and retrieved plus failed equals the number of ids |
| `Legacy.MarkMessageRead` | mcp_gmail/server.py:333-345 | removing `UNREAD` fails with the call's error, otherwise confirms with the id and the modified message's subject |
| `Legacy.ReadConfirmationReadBack` | mcp_gmail/server.py:341-345 | split at line breaks, the read confirmation is a blank line, `Message marked as read:`, `ID: <id>` and `Subject: <subject>` |
| `Legacy.AddLabelToMessage` | mcp_gmail/server.py:361-382 | modify first, then list labels; the confirmation names the subject and the looked-up label name with its id |
| `Legacy.RemoveLabelFromMessage` | mcp_gmail/server.py:398-419 | list labels first, then modify; the confirmation names the looked-up label name with its id |
| `Legacy.LabelConfirmationReadBack` | mcp_gmail/server.py:377-382 | split at line breaks, a label confirmation is a blank line, the headline, `ID: <id>`, `Subject: <subject>` and `<Added/Removed> Label: <name> (<label id>)` |
| `Legacy.LegacyPreview` | mcp_gmail/server.py:158 | the preview is the body when it has at most 200 characters, otherwise its first 200 characters followed by `...` |
| `Legacy.PreviewsAgree` | mcp_gmail/server.py:191 | the older preview is the current one plus `...` exactly when the body is longer than 200 |
| `Legacy.OrEmpty` | mcp_gmail/server.py:156-157 | `cc or ""` is the given text, or empty when absent or empty |
| `Legacy.ConfirmationReadBack` | mcp_gmail/server.py:152-159 | read back, the confirmation shows the headline, To, Subject, CC and BCC on lines 1 to 5 |
| `Legacy.ComposeSendReadBack` | mcp_gmail/server.py:185-192 | the draft and the send confirmation name the id on line 1 (`None` when the provider gave none) and agree on the lines below |

## Left out

- OAuth and token handling, and every provider call wrapper. Each call is an
  arrow of the provider record. Its `max_results` argument and the paging it
  controls are not modelled.
- MIME message creation and base64 encoding for sending and drafts (a foreign
  library). `compose_email`, `send_email` and `create_draft` are modelled from
  the id the provider returned.
- The current `create_draft` and `send_email` result records, which copy their
  arguments. Only their body preview is modelled (`Tools.BodyPreview`).
- Base64url and UTF-8 decoding. They are one uninterpreted function `decode`,
  so decoding failures are not modelled.
- The internals of `format_email_date`: RFC 2822 parsing and local-time
  conversion. They are the `reformatDate` parameter; only the fallbacks around
  it are modelled.
- Filename.Sanitize: letters and digits are the ASCII ones, where Python's
  `str.isalnum` also accepts other Unicode letters and digits.
- Dates.ValidateDateCharacterization: `\d` is an ASCII digit, where Python's
  `re` also accepts other Unicode decimal digits.
- A part without a `body` object, a message without `payload` or `headers`, and
  a header without `name` or `value`. These keys are assumed present: the body
  walk indexes them directly, and the `.get` defaults of
  `check_message_has_attachments` and `list_message_attachments` for a
  missing payload are not modelled.
- The answer of the older server's `modify_message_labels` is taken to be a
  full message with its headers, since that server reads the subject straight
  from it; the current server fetches the message again instead.
- The state change a label modification makes. The provider arrows are pure
  functions, so a fetch after a modification is not tied to it.
- `list_labels`, `list_attachments` and `list_available_labels`. Each copies
  provider data into records or lines with no decision logic; the listing
  walk itself is `Mime.ListAttachments`.
- File writes, the export directory and paths, the protocol framework,
  `lifespan`, logging and the `async` machinery. A written file is represented
  by its name and content.
- The unused `thread` argument of `format_thread_as_markdown`.
- Python exceptions other than those the tools anticipate. A provider or
  body-parse failure is a `Failure` carrying its message.
