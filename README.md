# Health coach agent: tip selector, chat log and chat-history commands

A Dafny model of the small deterministic core of a wellness-tracking chat application,
with proofs of what that core promises. The application is a Streamlit page. It keeps a
daily health log, shows randomised health tips, and passes questions to a local language
model. The model covers three pieces:

- **Tip selector** (`agent/tools.py`, module `Tips`). `get_daily_tip` filters the fixed
  tip table. It compares whole category labels after lowering both sides. When nothing
  matches, it builds a placeholder tip that keeps the requested category verbatim.
  Otherwise it draws one tip from the matches, or from the whole table when no category
  is given. Every returned tip is appended to the tip log (`log_tip_usage`).
- **Chat log store** (`agent/chat_utils.py`, module `ChatUtils`). `save_message` appends
  a user row and then a bot row to an append-only CSV file. `load_chat_history` reads
  every row, or returns the empty list `[]` when the file does not exist.
- **Page state** (`main.py`, modules `Recall` and `App`). This covers:
  - recognising recall commands: four fixed phrases, or the regular expression
    `last\s+(\d+)\s+chat` searched in the lower-cased query;
  - the number of exchanges a recall command asks for;
  - the history windows `[-2*num_pairs:]` and `[-10:]`;
  - the session copy of the chat history and the chat file;
  - the health-log table and its file (append one row, clear, and `tail(7)`).

Supporting modules:

- `Wrappers`: Option and Result values, and `dict.get`.
- `Text`: `str.lower()`, the `\s` and `\d` character classes, and `int()` on a digit run.
- `Slicing`: Python's `xs[start:]` and pandas' `tail(n)`.
- `CsvStore`: a CSV file that is only appended to, read whole, or deleted. It is a class
  with a `present` flag and the sequence of its rows.

The environment is passed in as parameters:

- `random.choice` becomes a caller-supplied draw `pick`. The tip is the element at
  `pick` modulo the pool size.
- `datetime.now()` becomes timestamp strings. `save_message` reads the clock once per
  row, so it takes two timestamps. The page's session entries take a third one.
- The agent call inside `main.py`'s `try` becomes a `Result`. `Success(text)` is the
  string `get_agent_response` returns. That function catches every exception of the
  model call itself and returns `"❌ Ollama/Mistral Error: …"` instead, so a model
  failure arrives as `Success`, and it is shown, appended to the session and saved as a
  bot row like any reply. `Failure(e)` stands for an exception that still escapes to
  `main.py`'s `except` before the session is updated; it is shown and nothing is stored.
- `int()` of a digit string longer than 4300 characters raises ValueError. This is
  CPython's default `sys.int_max_str_digits` since 3.10.7 and 3.11. The recall count is
  converted outside the `try`, so such a query stops the page's run (`Aborted`).

The tip table is a `const`, so `get_daily_tip` cannot change it. The recall scanner
relies on three classes being disjoint: `\s`, `\d` and the letter `c`. Because of that,
each `+` of the pattern consumes its longest run and backtracking finds no other match.
`Recall.MatchAt` is proved equivalent to the declarative `Recall.MatchesAt` in both
directions.

## Model

| member | source | states |
|---|---|---|
| Text.Lower | Health_coach_agent/main.py:125 | Lowering keeps the length and lowers each character on its own. |
| Text.DigitsRoundTrip | Health_coach_agent/main.py:138 | `int` applied to the decimal numeral of n gives back n. |
| Text.DigitsValue | Health_coach_agent/main.py:138 | `int()` of k digits is below 10^k. |
| Text.LeadingZero | Health_coach_agent/main.py:138 | A leading zero does not change the value `int` gives a digit run. |
| Slicing.LastSlice | Health_coach_agent/main.py:142 | `xs[-k:]` is a suffix of xs of length min(k, len). When k = 0 it is the whole of xs, because -0 is the start index 0. |
| Slicing.SliceFrom | Health_coach_agent/main.py:116 | `xs[start:]` is a suffix of xs. A start of 0 or more drops that many elements. A negative start keeps the last min(-start, len) elements. |
| Slicing.Tail | Health_coach_agent/main.py:58 | `tail(n)` is the suffix of length min(n, len). Unlike `[-0:]`, `tail(0)` is empty. |
| CsvStore.AppendFile.AppendRow | Health_coach_agent/agent/chat_utils.py:10 | Opening in append mode creates a missing file. The new row goes last and every earlier row stays as a prefix. |
| CsvStore.AppendFile.Remove | Health_coach_agent/main.py:165-166 | Deleting the file leaves no file and no rows. |
| Tips.TipsDataWellFormed | Health_coach_agent/agent/tools.py:7-13 | The fixed table has five tips, each with a text and a category. |
| Tips.Matching | Health_coach_agent/agent/tools.py:21 | The filter keeps exactly those table entries whose lowered category equals the lowered request. |
| Tips.Placeholder | Health_coach_agent/agent/tools.py:25 | The placeholder carries the requested category verbatim. |
| Tips.Choice | Health_coach_agent/agent/tools.py:23 | The drawn tip is an element of the pool. |
| Tips.SelectTip | Health_coach_agent/agent/tools.py:15-27 | The selected tip depends on the category. A truthy category with a match gives a table tip of that category. A truthy category with no match gives exactly the "No tips available for the category '...'" dict, with the category kept. None or "" gives some tip of the table. |
| Tips.EveryPoolTipReachable | Health_coach_agent/agent/tools.py:22-27 | Every tip of the pool the draw ranges over is returned for some draw. |
| Tips.PrefixMatchesNothing | Health_coach_agent/agent/tools.py:21 | Matching is on whole labels, not substrings: "Hydr" matches no tip and yields the placeholder. |
| Tips.CaseInsensitiveMatch | Health_coach_agent/agent/tools.py:21 | "hYDRATION" matches exactly the one hydration tip. |
| Tips.NothingMatches | Health_coach_agent/agent/tools.py:21 | When no label of the table matches, the filtered list is empty. |
| Tips.OnlyFirstMatches | Health_coach_agent/agent/tools.py:21 | When only the first label matches, the filtered list holds just that tip. |
| Tips.UsageRecord | Health_coach_agent/agent/tools.py:42-46 | The usage row is the time, the tip text and the category. A missing text becomes "" and a missing category becomes "General". |
| Tips.LogTipUsage | Health_coach_agent/agent/tools.py:32-46 | Appends exactly one usage row to the tip log and keeps the earlier rows. |
| Tips.GetDailyTip | Health_coach_agent/agent/tools.py:15-30 | Returns the selected tip and appends exactly one row for it, placeholder or not. The row holds the tip's own text and category. |
| ChatUtils.SaveMessage | Health_coach_agent/agent/chat_utils.py:8-13 | Appends exactly two rows after the existing ones: `[t1, "user", u]`, then `[t2, "bot", b]`. Each row has its own timestamp. |
| ChatUtils.LoadChatHistory | Health_coach_agent/agent/chat_utils.py:15-19 | Returns every row of the file, or `[]` when the file does not exist. |
| ChatUtils.TranscriptExtends | Health_coach_agent/agent/chat_utils.py:10 | One more save extends the log of earlier saves by exactly that call's two rows. |
| ChatUtils.TranscriptShape | Health_coach_agent/agent/chat_utils.py:8-19 | The transcript of N exchanges has 2N rows in call order. Row 2k is exchange k's user row and row 2k+1 its bot row. |
| ChatUtils.TranscriptRolesAlternate | Health_coach_agent/agent/chat_utils.py:12-13 | Roles alternate user, bot, user, and so on through the whole transcript. |
| ChatUtils.SaveAll | Health_coach_agent/agent/chat_utils.py:8-19 | N calls of `save_message` on a missing file, then a load, give exactly the transcript: 2N rows in call order, row 2k the user row and row 2k+1 the bot row of call k, roles alternating user, bot. |
| Recall.RunMaximal | Health_coach_agent/main.py:129 | A greedy `\s+` or `\d+` consumes only characters of its class and stops at the end of the text or at a character outside it. |
| Recall.RunUnique | Health_coach_agent/main.py:129 | Conversely, any run of the class that is followed by the end or by a character outside it is exactly what the greedy `+` consumes. |
| Recall.MatchAtSound | Health_coach_agent/main.py:129 | A successful scan at i is a match of the pattern at i, with that group 1. |
| Recall.MatchAtComplete | Health_coach_agent/main.py:129 | Every match of the pattern at i is what the scan at i finds, including its group 1. |
| Recall.SearchFrom | Health_coach_agent/main.py:129 | Searching from a position returns the leftmost position from there on where the pattern matches, or nothing when none does. |
| Recall.Search | Health_coach_agent/main.py:129 | `re.search` returns the leftmost match in the whole text, or nothing when no position matches. |
| Recall.ParseRecall | Health_coach_agent/main.py:125-138 | A query read as an ordinary question is not a fixed phrase and has no match at any position. A query read as a recall is a fixed phrase or has a match. RecallRecognised, LeftmostCount and PhraseCountsOne give the full iff and the count. |
| Recall.RecallRecognised | Health_coach_agent/main.py:125-134 | A query is a recall command (a count, or the `int()` error) iff its lowered form is one of the four phrases or contains a match of `last\s+(\d+)\s+chat`. |
| Recall.LeftmostCount | Health_coach_agent/main.py:136-138 | When the pattern matches, num_pairs is the value of the digits of the leftmost match. When those digits are more than 4300, `int()` raises instead. |
| Recall.NoDigitNoMatch | Health_coach_agent/main.py:129 | A text without digits contains no match. |
| Recall.PhraseCountsOne | Health_coach_agent/main.py:130-136 | Each fixed phrase asks for exactly one exchange. |
| Recall.LastDigitsChat | Health_coach_agent/main.py:129-138 | "last d chat" asks for `int(d)` exchanges when d has at most 4300 digits, and raises when it has more. |
| Recall.LastNChat | Health_coach_agent/main.py:129-138 | "last N chat" asks for N exchanges, for every N (0 included) whose numeral has at most 4300 digits. |
| Recall.RecallView | Health_coach_agent/main.py:140-147 | An empty history shows the "no previous chat" notice and nothing else. Otherwise the view is a suffix of the history in its original order. It holds min(2·num_pairs, len) entries when num_pairs ≥ 1, and the whole history when num_pairs = 0. |
| Recall.DisplayWindow | Health_coach_agent/main.py:116 | The chat display shows the last min(10, len) entries, in order. |
| App.ChatSession.Start | Health_coach_agent/main.py:112-113 | A new session starts from the file's rows, or from `[]` when there is no file. |
| App.ChatSession.HandleQuery | Health_coach_agent/main.py:123-159 | An empty query does nothing. A recall shows its view and changes nothing. A recall count past 4300 digits stops the run and changes nothing. Any reply string, the agent's own "❌ Ollama/Mistral Error" text included, appends `[ts, "user", q]`, `[ts, "bot", r]` to the session under one timestamp, and the same pair to the file under save_message's two timestamps. An exception caught by the page's `except` changes nothing. |
| App.ChatSession.ClearChat | Health_coach_agent/main.py:163-166 | The session history becomes empty and the chat file is removed. |
| App.ReloadAfterClear | Health_coach_agent/main.py:163-166 | After a clear, loading the chat history gives `[]`. |
| App.TipRequest | Health_coach_agent/main.py:73 | "All" asks for no category and every other choice for itself. The request is truthy exactly when the choice is neither "All" nor empty. |
| App.OfferedCategoriesAlwaysMatch | Health_coach_agent/main.py:72-75 | Every category choice the page offers selects a tip of the table, never the placeholder. |
| App.Align | Health_coach_agent/main.py:49 | Concatenation places each record value under the column of the same name. A column the record lacks gets a missing value. |
| App.NewRowInColumnOrder | Health_coach_agent/main.py:42-49 | The saved row holds date, sleep_hours, meals, mood and steps in `COLUMNS` order. |
| App.HealthLog.Open | Health_coach_agent/main.py:18-23 | A missing or empty file is written header-only and the table starts empty. Otherwise the table is the stored rows. |
| App.HealthLog.SaveLog | Health_coach_agent/main.py:41-50 | Appends exactly one row in `COLUMNS` order. The file is rewritten with the header and the table. |
| App.HealthLog.ClearLog | Health_coach_agent/main.py:61-63 | Leaves an empty table with the same columns, and writes it to the file. |
| App.RecentLogs | Health_coach_agent/main.py:55-58 | An empty table shows the "no logs" notice. Otherwise it shows the last min(7, len) rows in order. |

## Left out

- Text.Lower: lowers only the ASCII letters. Python's `str.lower()` also maps non-ASCII letters, and some of them to two characters.
- Text.IsDigit: `\d` and `int()` are modelled on the ASCII digits only. Python's `str` patterns also accept other Unicode decimal digits.
- Tips.Choice: says which tips can be drawn, not that the draw is uniform. Probability is not modelled.
- `agent/voice_tools.py` (speech synthesis and recognition) is not part of this model. It only calls external services.
- `agent/health_agent.py` is not part of this model. The agent's reply is a parameter of `App.ChatSession.HandleQuery`.
- Streamlit rendering, charts, audio embedding and HTML are presentation only.
- pandas' date and number coercion with `errors="coerce"` is library behaviour. Stored health-log rows are taken as opaque cells. `App.HealthLog.Open` receives them already read, and assumes that a stored file's header is `COLUMNS`; a file with other columns is not modelled.
- App.ChatSession.HandleQuery: models one run of the page. Streamlit re-runs the whole page on every widget interaction, and the chat box keeps its text, so a retained non-recall query is sent to the agent again and its pair appended again to the session and the file on every later run. Likewise `get_daily_tip` appends one tip-log row on every run. The sequence of runs is not modelled.
- CSV encoding, quoting and parsing are library behaviour. A file is its sequence of rows, and writing then reading is taken to give the same rows back. A row read back with a field count other than three is not modelled; the page would fail to unpack it.
- Filesystem errors, directory creation and concurrent writers are I/O plumbing. In particular, `HandleQuery` does not model a failure of `save_message` after the session was already updated.
- Recall.ParseRecall: the 4300-digit limit on `int()` is CPython's default since 3.10.7 and 3.11. A limit changed with `sys.set_int_max_str_digits`, and older interpreters without any limit, are not modelled.
