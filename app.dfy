/** The state `main.py` keeps between interactions: the session's copy of the chat history
    beside the chat file, and the health-log table beside its CSV file. */
module App {
  import opened Wrappers
  import opened Slicing
  import opened Recall
  import Tips
  import CsvStore
  import ChatUtils

  type ChatRow = ChatUtils.ChatRow

  /** What handling one query shows. */
  datatype QueryOutcome =
    | Ignored                                  // empty input: nothing happens
    | Recalled(view: Shown<ChatRow>)           // a recall command
    | Aborted                                  // `int()` raised on the recall count; the run stops
    | Answered(response: string)               // the coach's reply, shown and stored
    | AgentError(message: string)              // an exception caught by the page's `except`

  /** `st.session_state.chat_history`, kept beside the chat file. */
  class ChatSession {
    var history: seq<ChatRow>

    /** The first run of a session loads the history from the chat file. */
    constructor Start(file: CsvStore.AppendFile<ChatRow>)
      requires file.Valid()
      ensures history == (if file.present then file.rows else [])
    {
      new;
      history := ChatUtils.LoadChatHistory(file);
    }

    /** One run of the page with `query` in the chat box (the box keeps its text across
        runs, so each run handles it again). A recall command only shows entries; any other
        query asks the agent. `reply` is what happens inside the page's `try`: `Success(text)` is the
        string `get_agent_response` returns, and that includes its own
        "❌ Ollama/Mistral Error: ..." text when the model call fails, so such a text is shown
        and stored like any reply. `Failure(e)` is an exception that escapes to the page's
        `except` before the session is touched. On success the pair is appended to the
        session under one timestamp `now`, and to the file under the two timestamps
        `save_message` takes. */
    method HandleQuery(query: string, reply: Result<string, string>, now: string,
                       userTime: string, botTime: string, file: CsvStore.AppendFile<ChatRow>)
      returns (outcome: QueryOutcome)
      requires file.Valid()
      modifies this, file
      ensures file.Valid()
      ensures query == "" ==> outcome == Ignored
      ensures query != "" && ParseRecall(query).RecallOf? ==>
        outcome == Recalled(RecallView(old(history), ParseRecall(query).numPairs))
      ensures query != "" && ParseRecall(query).DigitLimitExceeded? ==> outcome == Aborted
      ensures query != "" && ParseRecall(query).NotRecall? && reply.Failure? ==>
        outcome == AgentError(reply.error)
      ensures query != "" && ParseRecall(query).NotRecall? && reply.Success? ==>
        outcome == Answered(reply.value) &&
        history == old(history) + [ChatUtils.ChatRow(now, "user", query), ChatUtils.ChatRow(now, "bot", reply.value)] &&
        file.present &&
        file.rows == old(file.rows) + [ChatUtils.ChatRow(userTime, "user", query), ChatUtils.ChatRow(botTime, "bot", reply.value)]
      ensures !outcome.Answered? ==> unchanged(this, file)
    {
      if query == "" {
        return Ignored;
      }
      var command := ParseRecall(query);
      match command
      case RecallOf(numPairs) =>
        return Recalled(RecallView(history, numPairs));
      case DigitLimitExceeded =>
        return Aborted;
      case NotRecall =>
        if reply.Failure? {
          return AgentError(reply.error);
        }
        history := history + [ChatUtils.ChatRow(now, "user", query)];
        history := history + [ChatUtils.ChatRow(now, "bot", reply.value)];
        ChatUtils.SaveMessage(file, query, reply.value, userTime, botTime);
        outcome := Answered(reply.value);
    }

    /** "Clear Chat History": empties the session and deletes the file when it exists. */
    method ClearChat(file: CsvStore.AppendFile<ChatRow>)
      requires file.Valid()
      modifies this, file
      ensures history == []
      ensures file.Valid() && !file.present && file.rows == []
    {
      history := [];
      if file.present {
        file.Remove();
      }
    }
  }

  /** After a clear, loading the history again finds nothing. */
  method ReloadAfterClear(session: ChatSession, file: CsvStore.AppendFile<ChatRow>)
    returns (reloaded: seq<ChatRow>)
    requires file.Valid()
    modifies session, file
    ensures session.history == [] && reloaded == []
  {
    session.ClearChat(file);
    reloaded := ChatUtils.LoadChatHistory(file);
  }

  /** The tip-category choices offered by the page. */
  const CATEGORY_OPTIONS: seq<string> := ["All", "Hydration", "Nutrition", "Exercise", "Sleep", "Mental Health"]

  /** `None if category == "All" else category`: "All" asks for any tip, every other
      choice for its own category. */
  function TipRequest(selection: string): (r: Option<string>)
    ensures r.None? <==> selection == "All"
    ensures r.Some? ==> r.value == selection
    ensures Tips.Truthy(r) <==> selection != "All" && selection != ""
  {
    if selection == "All" then None else Some(selection)
  }

  /** Every choice the page offers selects a tip of the table, never the placeholder. */
  lemma {:induction false} OfferedCategoriesAlwaysMatch(selection: string, pick: nat)
    requires selection in CATEGORY_OPTIONS
    ensures Tips.WellFormed(Tips.TIPS_DATA) && |Tips.TIPS_DATA| > 0
    ensures Tips.SelectTip(Tips.TIPS_DATA, TipRequest(selection), pick) in Tips.TIPS_DATA
  {
    Tips.TipsDataWellFormed();
    var table := Tips.TIPS_DATA;
    if selection != "All" {
      var k := if selection == "Hydration" then 0 else if selection == "Nutrition" then 1
        else if selection == "Sleep" then 2 else if selection == "Exercise" then 3 else 4;
      assert table[k]["category"] == selection;
      assert table[k] in table && Tips.SameCategory(table[k], selection);
    }
  }

  /** A cell of the health-log table. */
  datatype Cell = Text(text: string) | Num(value: int) | Missing

  type Row = seq<Cell>

  /** The table's columns, in file order. */
  const COLUMNS: seq<string> := ["date", "sleep_hours", "meals", "mood", "steps"]

  /** The form's `new_data` dict. */
  function NewData(today: string, sleepHours: int, meals: string, mood: string, steps: int): (record: map<string, Cell>) {
    map["date" := Text(today), "sleep_hours" := Num(sleepHours), "meals" := Text(meals),
        "mood" := Text(mood), "steps" := Num(steps)]
  }

  /** `pd.concat` places a record's values under the table's columns by name; a column
      the record lacks gets a missing value. */
  function Align(columns: seq<string>, record: map<string, Cell>): (r: Row)
    ensures |r| == |columns|
    ensures forall i :: 0 <= i < |columns| && columns[i] in record ==> r[i] == record[columns[i]]
    ensures forall i :: 0 <= i < |columns| && columns[i] !in record ==> r[i] == Missing
  {
    seq(|columns|, i requires 0 <= i < |columns| => Get(record, columns[i], Missing))
  }

  /** The saved row lists the form's fields in `COLUMNS` order. */
  lemma NewRowInColumnOrder(today: string, sleepHours: int, meals: string, mood: string, steps: int)
    ensures Align(COLUMNS, NewData(today, sleepHours, meals, mood, steps)) ==
      [Text(today), Num(sleepHours), Text(meals), Text(mood), Num(steps)]
  {
  }

  /** The health-log table `df` and the file `LOG_FILE` it is written to. */
  class HealthLog {
    var columns: seq<string>
    var rows: seq<Row>
    /** The header and data rows of the file. */
    var fileHeader: seq<string>
    var fileRows: seq<Row>

    /** The table has the fixed columns, every row one cell per column. */
    ghost predicate Valid()
      reads this
    {
      columns == COLUMNS && forall r | r in rows :: |r| == |COLUMNS|
    }

    /** Start-up: a missing or empty file (`stored == None`) is first written with the header
        only; the table is then read from the file. A stored file is left as it is, and its
        header is taken to be `COLUMNS`. */
    constructor Open(stored: Option<seq<Row>>)
      requires stored.Some? ==> forall r | r in stored.value :: |r| == |COLUMNS|
      ensures Valid()
      ensures rows == (if stored.Some? then stored.value else [])
      ensures fileHeader == COLUMNS && fileRows == rows
    {
      columns := COLUMNS;
      rows := if stored.Some? then stored.value else [];
      fileHeader := COLUMNS;
      fileRows := rows;
    }

    /** "Save Log": appends one row built from the form, then overwrites the file with the table. */
    method SaveLog(today: string, sleepHours: int, meals: string, mood: string, steps: int)
      requires Valid()
      modifies this
      ensures Valid()
      ensures rows == old(rows) + [[Text(today), Num(sleepHours), Text(meals), Text(mood), Num(steps)]]
      ensures fileHeader == COLUMNS && fileRows == rows
    {
      NewRowInColumnOrder(today, sleepHours, meals, mood, steps);
      rows := rows + [Align(columns, NewData(today, sleepHours, meals, mood, steps))];
      fileHeader, fileRows := columns, rows;
    }

    /** "Clear Wellness Log": an empty table with the same columns, written to the file. */
    method ClearLog()
      requires Valid()
      modifies this
      ensures Valid() && rows == []
      ensures fileHeader == COLUMNS && fileRows == []
    {
      columns, rows := COLUMNS, [];
      fileHeader, fileRows := columns, rows;
    }
  }

  /** The recent-log table and the dashboard: `df.tail(7)` when the table has rows,
      otherwise the "no health logs yet" notice (`None`). */
  function RecentLogs(rows: seq<Row>): (r: Option<seq<Row>>)
    ensures r.None? <==> rows == []
    ensures r.Some? ==> |r.value| == Min(7, |rows|) && r.value == rows[|rows| - |r.value|..]
  {
    if rows == [] then None else Some(Tail(rows, 7))
  }
}
