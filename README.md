# Notice-board change detector, modelled in Dafny

The program checks a library's public notice board. Each run it extracts
the top notices from the list page. It inserts them into a small table
keyed by notice number, and the inserts that succeed are the new notices.
It then sends one e-mail digest of those new notices. This project models
the logic of that run in Dafny and proves what it promises:

- `Extractor` (extractor.dfy) is `parse_top_notices` after the page has
  been turned into a tree. Its input is the page's `a[onclick]` anchors in
  document order. Each anchor is given as its `onclick` text, its stripped
  title and the stripped cell texts of its enclosing table row, if it has
  one.
- `DetailPattern` (detail_pattern.dfy) is the `fnDetail(...)` pattern that
  pulls a notice number out of `onclick`. It is written as a deterministic
  left-most, greedy matcher.
- `DateShape` (date_shape.dfy) is the full-match date pattern
  `\d{4}[./-]\d{2}[./-]\d{2}`.
- `RecordStore` (record_store.dfy) is the `notices` table and
  `save_notices_and_collect_new`. The table is a class whose `rows` field
  is a `map` from notice number to record. Its `Insert` method adds a row
  only when the number is not yet a key, and its contract gives the new
  table in terms of the old one. That is the table's primary-key insert,
  and a refused insert is the integrity error the source catches. The
  batch method loops over the records calling `Insert`, and it alone is
  proved against the value-level function `Reconcile`.
- `Notifier` (notifier.dfy) is `send_email_for_new_items` up to the mail
  transport. It decides between nothing new, missing settings, and one
  digest: sender, recipient, subject and body.
- `Decimal` (decimal.dfy) renders counts and positions as the f-strings
  do. `Notices` (notices.dfy) holds the record type and first-occurrence
  facts about notice numbers.
- `Pipeline` (pipeline.dfy) is `main`'s fixed order: extract five, then
  reconcile, then notify.

Three facts about the model's boundaries:

- The model returns the notifier's decision as an `Outcome` value; the code
  returns nothing and only prints or sends.
- The code catches only the primary-key conflict. Any other storage error
  ends the run, which the model does not represent.
- The code falls back from the recipient address to the sender address while
  it reads the environment. That reading is not modelled: the three settings
  are parameters.

## Model

| member | source | states |
|---|---|---|
| `DetailPattern.SearchDigits` | src/main.py:86-96 | a captured notice number is always a non-empty string of digits |
| `DetailPattern.SearchNeedsCall` | src/main.py:92-94 | an `onclick` with no `fnDetail(` anywhere yields no number, so the anchor is skipped |
| `DetailPattern.DetailCallRoundTrip` | src/main.py:86-96 | searching `fnDetail('N')` or `fnDetail("N")` recovers exactly N for every digit string N |
| `DateShape.ComposeIsShaped` | src/main.py:108 | four digits, a separator, two digits, a separator and two digits always match, with each separator one of `. / -` chosen independently |
| `DateShape.ShapedIsComposed` | src/main.py:108 | every matching cell is exactly such a composition; there is no calendar check |
| `DateShape.PermissiveExamples` | src/main.py:108 | `2024/05/10`, `2024.13.99` and mixed separators match; `2024/5/10` and a trailing space do not |
| `Extractor.LinkRoundTrip` | src/main.py:101 | the detail link is `DETAIL_BASE?no=N`, and the number can be read back from the link |
| `Extractor.FirstDateIsFirstMatch` | src/main.py:103-110 | a row's date is `""` exactly when no cell matches; otherwise it is the first matching cell in row order |
| `Extractor.FindDate` | src/main.py:107-110 | the cell loop with its `break` returns the first matching cell, or `""` |
| `Extractor.CollectItems` | src/main.py:88-112 | the anchor loop builds exactly the candidate records, in anchor order |
| `Extractor.CandidatesAppend` | src/main.py:90-112 | each anchor contributes on its own, so output order follows anchor order; a skipped anchor contributes nothing |
| `Extractor.CandidateWellFormed` | src/main.py:92-112 | a kept anchor gives a record with a digit number, a non-empty title, the number's detail link, and its row's first date-shaped cell or `""` |
| `Extractor.CandidatesWellFormed` | src/main.py:90-112 | every record of the anchor loop is well formed in that sense |
| `Extractor.DateCellExample` | src/main.py:97-112 | a row with cell `2024/05/10` yields that date; without a row the date is `""`; an empty title drops the anchor |
| `Extractor.DedupByNumber` | src/main.py:115-121 | the `seen`/`unique` loop computes the first-occurrence de-duplication |
| `Extractor.DedupFirstOccurrences` | src/main.py:115-121 | de-duplicated numbers are pairwise distinct and none is lost; each kept record is the first one with its number; order follows the input |
| `Extractor.DedupDistinct` | src/main.py:115-121 | input with distinct numbers passes through unchanged |
| `Extractor.TakePrefix` | src/main.py:123 | `unique[:limit]` is a prefix of at most `limit` records, with Python's reading of a negative limit |
| `Extractor.ParseTopNotices` | src/main.py:84-123 | the extractor computes the slice of the de-duplicated candidates |
| `Extractor.TopNoticesProperties` | src/main.py:84-123 | at most `limit` records, distinct numbers, all well formed, each the first candidate with its number, in anchor order |
| `Extractor.TopNoticesTruncates` | src/main.py:123 | with more distinct matches than `limit`, exactly the first `limit` come back |
| `RecordStore.NoticeStore.Open` | src/main.py:36-48 | a run starts from the table's current rows, each stored under its own number |
| `RecordStore.NoticeStore.Insert` | src/main.py:62-70 | the insert succeeds exactly when the number is not a key, and only then changes the table |
| `RecordStore.NoticeStore.SaveNoticesAndCollectNew` | src/main.py:51-75 | the batch loop leaves the table and returns the new records that `Reconcile` describes, keeping every row under its own number |
| `RecordStore.ReconcileKeys` | src/main.py:61-70 | the keys afterwards are the old keys plus the batch's numbers; none is removed |
| `RecordStore.ReconcileRows` | src/main.py:61-70 | existing rows are never overwritten, and each new key holds the batch's first record with that number |
| `RecordStore.ReconcileNewIds` | src/main.py:59-70 | the new records' numbers are the batch numbers that were not yet keys, which are exactly the keys the call added |
| `RecordStore.ReconcileNewItems` | src/main.py:59-70 | each new record's number was absent before and absent from earlier batch records; numbers are distinct; batch order is kept |
| `RecordStore.ReconcileKnown` | src/main.py:61-70 | a batch whose numbers are all keys returns nothing and changes nothing |
| `RecordStore.ReconcileIdempotent` | src/main.py:61-75 | a second call with the same batch returns `[]` and leaves the table unchanged |
| `RecordStore.ReconcileIntoEmpty` | src/main.py:59-70 | into an empty table, a batch of distinct numbers comes back whole |
| `RecordStore.ReconcileIntoEmptyRows` | src/main.py:61-70 | the empty table then holds exactly the batch's records under their numbers |
| `Decimal.NatToStringRoundTrip` | src/main.py:138-143 | a rendered count or position is digits without leading zeros, and parsing it back gives the number |
| `Decimal.NatToStringInjective` | src/main.py:138-143 | different numbers render differently |
| `Notifier.SubjectCarriesCount` | src/main.py:138 | the subject carries the number of new notices, and it can be read back |
| `Notifier.DateOrDash` | src/main.py:142 | the date shown is never empty, and a non-empty date shows as itself |
| `Notifier.EntryLinesShape` | src/main.py:141-144 | item k gets two lines: `k. (date) title` with k from 1, then the indented link |
| `Notifier.DigestLinesShape` | src/main.py:139-144 | the body lines are the header with the count, then two lines per item in order: `k. (-) title` for an empty date or `k. (date) title` otherwise, with k from 1, then three spaces and the link |
| `Notifier.JoinSingle` | src/main.py:145 | joining one line gives that line |
| `Notifier.JoinAppend` | src/main.py:145 | joining two non-empty runs of lines puts exactly one newline between their joins, so the body is its lines in order, one newline apart |
| `Notifier.DigestBody` | src/main.py:139-145 | the body is the header (itself ending in a newline), a newline, then the item lines joined |
| `Notifier.BuildLines` | src/main.py:139-144 | the appending loop builds exactly those lines |
| `Notifier.DecideGating` | src/main.py:130-151 | an empty list, or any empty setting, sends nothing; otherwise exactly one message goes from sender to recipient, with the count in the subject and the lines joined in the body |
| `Notifier.SendEmailForNewItems` | src/main.py:126-151 | the notifier makes that decision and composes that message |
| `Pipeline.Run` | src/main.py:162-179 | a run extracts with limit 5, reconciles against the table and notifies with the new records |
| `Pipeline.SecondRunIsQuiet` | src/main.py:162-179 | a second run over the same page finds nothing new, leaves the table as it was, and sends nothing |
| `Pipeline.FirstRunReportsAll` | src/main.py:162-179 | on an empty table every extracted notice (at most five) is new and stored, and with complete settings one digest lists them all |

## Left out

- Fetching the page (`fetch_html`): HTTP transport, headers, the timeout and status errors are I/O.
- Building the tree and walking it (`select`, `get_text`, `find_parent`): this is the HTML library's work. The model starts from the anchors, their stripped titles and their row cells. Malformed markup is therefore not represented.
- The regular-expression engine: the two patterns are written as matchers. `\d` is read as ASCII `0`-`9`. `\s` is read as exactly six characters: space, tab, line feed, carriage return, vertical tab and form feed. Python's `\s` also matches the ASCII separators `\x1c`-`\x1f` and other Unicode spaces, and its `\d` other Unicode digits.
- `urlencode`: the model writes `no=` followed by the number. That is what `urlencode` produces for a string of ASCII digits, which every captured number is.
- The database file: creating the table (`init_db`), connecting, committing and closing. Only its rows and the primary-key insert are kept. Storage failures other than a key conflict are not modelled.
- Building the MIME message and the SMTP session (login, send, the caught exception, the console messages): these are foreign calls and network. A `Send` outcome stands for exactly one attempt to send.
- Reading the settings from the environment and `.env`, including stripping them and the fallback of the recipient to the sender: the three settings are parameters.
- `main`'s console output, and the diagnostic script `inspect_db.py`, which only prints.
- Concurrent runs racing on one table.
