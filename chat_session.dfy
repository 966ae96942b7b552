/**
 * `get_or_create_chat_session`: the lazily created, cached chat handle. A new
 * handle is primed by replaying the stored history, minus its last record,
 * sending only the user-role records, oldest first. The integrated app and
 * the classic app carry identical copies of this function.
 */
module ChatSession {
  import opened Wrappers
  import opened Text
  import opened DbUtils
  import opened Gemini
  import opened SessionState

  /** Python's `if history: history = history[:-1]`. */
  function DropLast(rows: seq<Row>): seq<Row>
  {
    if rows == [] then [] else rows[..|rows| - 1]
  }

  /** What replaying one stored record sends: its content when it is a user record, else nothing. */
  function ReplayOf(row: Row): seq<Message>
  {
    if row.role == User then [[TextPart(row.content)]] else []
  }

  /** Every message replaying `rows` sends, in the order sent. */
  function UserMessages(rows: seq<Row>): seq<Message>
  {
    if rows == [] then [] else UserMessages(rows[..|rows| - 1]) + ReplayOf(rows[|rows| - 1])
  }

  /** The positions of the user-role records of `rows`: ascending, and each one exactly once. */
  function UserPositions(rows: seq<Row>): (idx: seq<nat>)
    ensures forall k :: 0 <= k < |idx| ==> idx[k] < |rows| && rows[idx[k]].role == User
    ensures forall k, l :: 0 <= k < l < |idx| ==> idx[k] < idx[l]
    ensures forall i :: 0 <= i < |rows| && rows[i].role == User ==> i in idx
  {
    if rows == [] then []
    else
      var init := rows[..|rows| - 1];
      var idx := UserPositions(init);
      assert forall k :: 0 <= k < |idx| ==> rows[idx[k]] == init[idx[k]];
      idx + (if rows[|rows| - 1].role == User then [|rows| - 1] else [])
  }

  /** Replay sends exactly the user-role records, one message each, in stored order. */
  lemma {:induction false} UserMessagesInOrder(rows: seq<Row>)
    ensures |UserMessages(rows)| == |UserPositions(rows)|
    ensures forall k :: 0 <= k < |UserPositions(rows)| ==>
      UserMessages(rows)[k] == [TextPart(rows[UserPositions(rows)[k]].content)]
  {
    if rows != [] {
      var n := |rows|;
      var init := rows[..n - 1];
      UserMessagesInOrder(init);
      var idx, ms := UserPositions(init), UserMessages(init);
      var tail := if rows[n - 1].role == User then [n - 1] else [];
      var positions, messages := UserPositions(rows), UserMessages(rows);
      assert positions == idx + tail;
      assert messages == ms + ReplayOf(rows[n - 1]);
      forall k | 0 <= k < |positions|
        ensures messages[k] == [TextPart(rows[positions[k]].content)]
      {
        if k < |idx| {
          assert positions[k] == idx[k] && messages[k] == ms[k];
          assert rows[idx[k]] == init[idx[k]];
        } else {
          assert positions[k] == n - 1;
        }
      }
    }
  }

  /** Replaying two stretches of history one after the other sends what replaying them together sends. */
  lemma {:induction false} UserMessagesAppend(a: seq<Row>, b: seq<Row>)
    ensures UserMessages(a + b) == UserMessages(a) + UserMessages(b)
    decreases |b|
  {
    if b == [] {
      assert a + b == a;
    } else {
      var b' := b[..|b| - 1];
      assert (a + b)[..|a + b| - 1] == a + b';
      UserMessagesAppend(a, b');
    }
  }

  /**
   * In the classic app the user record of the turn in progress is stored before
   * the chat is created; dropping the last record keeps it from being sent twice.
   */
  lemma InFlightUserNotReplayed(h: seq<Row>, u: Row)
    ensures UserMessages(DropLast(h + [u])) == UserMessages(h)
  {
    assert (h + [u])[..|h + [u]| - 1] == h;
  }

  /** When the newest stored record is an assistant reply, dropping it sends the same messages. */
  lemma AssistantTailNotReplayed(h: seq<Row>)
    requires h != [] && h[|h| - 1].role == Assistant
    ensures UserMessages(DropLast(h)) == UserMessages(h)
  {
  }

  /** Replaying one more record sends what it sends after what the earlier ones sent. */
  lemma ReplayStep(rows: seq<Row>, i: nat)
    requires i < |rows|
    ensures UserMessages(rows[..i + 1]) == UserMessages(rows[..i]) + ReplayOf(rows[i])
  {
    assert rows[..i + 1][..i] == rows[..i];
  }

  /** What replaying the first `i` records sends is a prefix of what replaying them all sends. */
  lemma ReplayPrefix(prev: seq<Message>, rows: seq<Row>, i: nat)
    requires i <= |rows|
    ensures prev + UserMessages(rows[..i]) <= prev + UserMessages(rows)
  {
    ReplaySplit(rows, i);
    PrefixOfAppend(prev, UserMessages(rows[..i]), UserMessages(rows[i..]));
  }

  /** A send that fails part-way leaves a prefix of what a complete replay sends. */
  lemma FailedSendPrefix(prev: seq<Message>, rows: seq<Row>, i: nat)
    requires i < |rows| && rows[i].role == User
    ensures prev + UserMessages(rows[..i]) + [[TextPart(rows[i].content)]] <= prev + UserMessages(rows)
  {
    ReplayStep(rows, i);
    ReplayPrefix(prev, rows, i + 1);
    AppendAssoc(prev, UserMessages(rows[..i]), ReplayOf(rows[i]));
  }

  lemma ReplaySplit(rows: seq<Row>, i: nat)
    requires i <= |rows|
    ensures UserMessages(rows) == UserMessages(rows[..i]) + UserMessages(rows[i..])
  {
    assert rows == rows[..i] + rows[i..];
    UserMessagesAppend(rows[..i], rows[i..]);
  }

  lemma PrefixOfAppend(p: seq<Message>, a: seq<Message>, b: seq<Message>)
    ensures p + a <= p + (a + b)
  {
    assert (p + (a + b))[..|p + a|] == p + a;
  }

  /**
   * The replay loop: send every user record of `rows` in order; the first send
   * that raises ends the loop with its error.
   */
  method Replay(chat: Chat, rows: seq<Row>) returns (r: Outcome<string>)
    requires chat.history == chat.sent
    modifies chat
    ensures r.Pass? ==> chat.sent == old(chat.sent) + UserMessages(rows) && chat.history == chat.sent
    ensures r.Fail? ==> chat.sent <= old(chat.sent) + UserMessages(rows)
    ensures r.Fail? ==> |old(chat.sent)| < |chat.sent|
    ensures r.Fail? ==> chat.history == chat.sent[..|chat.sent| - 1]
    ensures r.Fail? ==> chat.service(chat.systemInstruction, chat.history, chat.sent[|chat.sent| - 1]) == Failure(r.error)
  {
    var i := 0;
    while i < |rows|
      invariant 0 <= i <= |rows|
      invariant chat.history == chat.sent
      invariant chat.sent == old(chat.sent) + UserMessages(rows[..i])
    {
      ReplayStep(rows, i);
      if rows[i].role == User {
        var reply := chat.SendMessage([TextPart(rows[i].content)]);
        if reply.Failure? {
          FailedSendPrefix(old(chat.sent), rows, i);
          return Fail(reply.error);
        }
      }
      i := i + 1;
    }
    assert rows[..i] == rows;
    r := Pass;
  }

  /** The messages a newly created chat for `sessionId` is primed with: the stored history replayed. */
  function Primed(rows: seq<Row>, sessionId: string): seq<Message>
  {
    UserMessages(DropLast(History(rows, sessionId)))
  }

  /**
   * `get_or_create_chat_session(session_id, system_prompt)`: the cached handle
   * untouched, or a new one primed from the stored history and then cached.
   */
  method GetOrCreateChatSession(session: Session, store: Store, sessionId: string,
                                systemPrompt: string, service: Service)
    returns (r: Result<Chat, string>)
    modifies session`geminiChat
    ensures old(session.geminiChat).Some? ==>
      r == Success(old(session.geminiChat).value) && session.geminiChat == old(session.geminiChat) &&
      unchanged(r.value)
    ensures old(session.geminiChat).None? && r.Success? ==>
      fresh(r.value) && session.geminiChat == Some(r.value) &&
      r.value.model == ModelName && r.value.systemInstruction == systemPrompt && r.value.service == service &&
      r.value.sent == Primed(store.rows, sessionId) &&
      r.value.history == r.value.sent
    ensures old(session.geminiChat).None? && |store.LoadHistory(sessionId)| <= 1 ==>
      r.Success? && r.value.sent == []
    ensures old(session.geminiChat).None? && r.Failure? ==> session.geminiChat.None?
    ensures r.Failure? ==> exists h, m :: service(systemPrompt, h, m) == Failure(r.error)
  {
    if session.geminiChat.Some? {
      return Success(session.geminiChat.value);
    }
    var history := store.LoadHistory(sessionId);
    var chat := new Chat.Create(systemPrompt, service);
    var replayed := Replay(chat, DropLast(history));
    if replayed.Fail? {
      assert service(systemPrompt, chat.history, chat.sent[|chat.sent| - 1]).Failure?;
      return Failure(replayed.error);
    }
    session.geminiChat := Some(chat);
    r := Success(chat);
  }
}
