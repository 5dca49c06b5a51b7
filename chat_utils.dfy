/** The chat log store of `agent/chat_utils.py`: an append-only CSV file of chat turns. */
module ChatUtils {
  import CsvStore

  /** One row of the chat log: `[timestamp, role, message]`. */
  datatype ChatRow = ChatRow(timestamp: string, role: string, message: string)

  /** One call of `save_message`: both messages and the two timestamps it reads from the
      clock, one per row, so they need not be equal. */
  datatype Exchange = Exchange(userMsg: string, botMsg: string, userTime: string, botTime: string)

  /** The two rows one call writes, user first. */
  function PairRows(e: Exchange): (rows: seq<ChatRow>) {
    [ChatRow(e.userTime, "user", e.userMsg), ChatRow(e.botTime, "bot", e.botMsg)]
  }

  /** The log after the calls `es`, in order, starting from a missing file. */
  function Transcript(es: seq<Exchange>): (rows: seq<ChatRow>) {
    if es == [] then [] else Transcript(es[..|es| - 1]) + PairRows(es[|es| - 1])
  }

  /** `save_message(user_msg, bot_msg)`: appends the user row, then the bot row. */
  method SaveMessage(log: CsvStore.AppendFile<ChatRow>, userMsg: string, botMsg: string,
                     userTime: string, botTime: string)
    requires log.Valid()
    modifies log
    ensures log.Valid() && log.present
    ensures log.rows == old(log.rows) + PairRows(Exchange(userMsg, botMsg, userTime, botTime))
  {
    log.AppendRow(ChatRow(userTime, "user", userMsg));
    log.AppendRow(ChatRow(botTime, "bot", botMsg));
  }

  /** `load_chat_history()`: every row of the file, or no row when the file does not exist. */
  method LoadChatHistory(log: CsvStore.AppendFile<ChatRow>) returns (history: seq<ChatRow>)
    requires log.Valid()
    ensures !log.present ==> history == []
    ensures log.present ==> history == log.rows
  {
    if !log.present {
      return [];
    }
    history := log.rows;
  }

  /** One more call extends the transcript by exactly that call's two rows. */
  lemma TranscriptExtends(es: seq<Exchange>, e: Exchange)
    ensures Transcript(es + [e]) == Transcript(es) + PairRows(e)
  {
    assert (es + [e])[..|es|] == es;
  }

  /** After N calls the log holds 2N rows: row 2k is call k's user message and row 2k+1 its
      bot reply, each with the timestamp that call took for it. */
  lemma {:induction false} TranscriptShape(es: seq<Exchange>)
    ensures |Transcript(es)| == 2 * |es|
    ensures forall k :: 0 <= k < |es| ==>
      Transcript(es)[2 * k] == ChatRow(es[k].userTime, "user", es[k].userMsg) &&
      Transcript(es)[2 * k + 1] == ChatRow(es[k].botTime, "bot", es[k].botMsg)
  {
    if es != [] {
      var init := es[..|es| - 1];
      TranscriptShape(init);
      forall k | 0 <= k < |es|
        ensures Transcript(es)[2 * k] == ChatRow(es[k].userTime, "user", es[k].userMsg)
        ensures Transcript(es)[2 * k + 1] == ChatRow(es[k].botTime, "bot", es[k].botMsg)
      {
        if k < |init| {
          assert es[k] == init[k];
        }
      }
    }
  }

  /** Roles alternate user, bot, user, ... through the whole log. */
  lemma TranscriptRolesAlternate(es: seq<Exchange>)
    ensures forall i :: 0 <= i < |Transcript(es)| ==>
      Transcript(es)[i].role == if i % 2 == 0 then "user" else "bot"
  {
    TranscriptShape(es);
    forall i | 0 <= i < |Transcript(es)|
      ensures Transcript(es)[i].role == if i % 2 == 0 then "user" else "bot"
    {
      var k := i / 2;
      assert i == 2 * k + i % 2;
    }
  }

  /** `save_message` called once for each exchange of `es`, in order, starting from a
      missing file, followed by `load_chat_history`: 2N rows in call order, user and bot
      alternating, each row with the timestamp its call took for it. */
  method SaveAll(es: seq<Exchange>) returns (history: seq<ChatRow>)
    ensures history == Transcript(es)
    ensures |history| == 2 * |es|
    ensures forall k :: 0 <= k < |es| ==>
      history[2 * k] == ChatRow(es[k].userTime, "user", es[k].userMsg) &&
      history[2 * k + 1] == ChatRow(es[k].botTime, "bot", es[k].botMsg)
    ensures forall i :: 0 <= i < |history| ==> history[i].role == if i % 2 == 0 then "user" else "bot"
  {
    var log := new CsvStore.AppendFile<ChatRow>.Absent();
    var i := 0;
    while i < |es|
      invariant 0 <= i <= |es|
      invariant log.Valid() && log.rows == Transcript(es[..i])
      invariant log.present <==> i > 0
    {
      var e := es[i];
      TranscriptExtends(es[..i], e);
      assert es[..i + 1] == es[..i] + [e];
      SaveMessage(log, e.userMsg, e.botMsg, e.userTime, e.botTime);
      i := i + 1;
    }
    assert es[..|es|] == es;
    history := LoadChatHistory(log);
    TranscriptShape(es);
    TranscriptRolesAlternate(es);
  }
}
