/** The conversation store behind the chat assistant: a shared buffer of typed
    messages, one call that records a user/assistant exchange in it, and one
    that renders the buffer as a display string with one `User:` or `AI:` line
    per message. */
module Memory {
  import opened Wrappers
  import opened Text

  const HumanType: string := "human"
  const AIType: string := "ai"
  const UserPrefix: string := "User: "
  const AIPrefix: string := "AI: "
  /** What the formatter returns when there is nothing to show. */
  const NoHistory: string := "No previous conversation."

  /** A stored message: its type tag and its content, `None` when the message
      has no content attribute at all. Messages built by the conversation
      library always have one; `None` keeps the attribute test of the
      formatter visible. */
  datatype Message = Message(msgType: string, content: Option<string>)

  /** The two messages that one saved exchange adds: the query, then the reply. */
  function Exchange(userQuery: string, aiResponse: string): seq<Message>
  {
    [Message(HumanType, Some(userQuery)), Message(AIType, Some(aiResponse))]
  }

  /** A message yields a line exactly when it has content and is human or AI. */
  predicate Contributes(m: Message)
  {
    m.content.Some? && (m.msgType == HumanType || m.msgType == AIType)
  }

  /** The display line of one message, if it has one. */
  function LineOf(m: Message): (line: Option<string>)
    ensures line.Some? <==> Contributes(m)
    ensures m.content.Some? && m.msgType == HumanType ==> line == Some(UserPrefix + m.content.value)
    ensures m.content.Some? && m.msgType == AIType ==> line == Some(AIPrefix + m.content.value)
  {
    match m.content
    case None => None
    case Some(c) =>
      if m.msgType == HumanType then Some(UserPrefix + c)
      else if m.msgType == AIType then Some(AIPrefix + c)
      else None
  }

  /** The prefix of the line of a contributing message: `User: ` for a human
      message, `AI: ` otherwise, which for a contributing message means an AI
      message. */
  function PrefixOf(msgType: string): string
  {
    if msgType == HumanType then UserPrefix else AIPrefix
  }

  /** The line of one message as a list of zero or one lines. */
  function LineSeq(m: Message): seq<string>
  {
    match LineOf(m)
    case Some(l) => [l]
    case None => []
  }

  /** The lines the formatter collects, message by message. */
  function Lines(ms: seq<Message>): seq<string>
  {
    if |ms| == 0 then [] else LineSeq(ms[0]) + Lines(ms[1..])
  }

  /** The string the formatter returns for a stored history. */
  function Formatted(ms: seq<Message>): string
  {
    if |ms| == 0 then NoHistory
    else
      var lines := Lines(ms);
      if |lines| > 0 then Join(lines) else NoHistory
  }

  /** Reference definition: the positions of the messages that yield a line,
      in ascending order. */
  function Selected(ms: seq<Message>): (idx: seq<nat>)
    ensures forall k :: 0 <= k < |idx| ==> idx[k] < |ms|
    ensures forall j, k :: 0 <= j < k < |idx| ==> idx[j] < idx[k]
    ensures forall i :: 0 <= i < |ms| ==> (Contributes(ms[i]) <==> i in idx)
  {
    if |ms| == 0 then []
    else
      var prefix := ms[..|ms| - 1];
      assert forall i :: 0 <= i < |prefix| ==> prefix[i] == ms[i];
      Selected(prefix) + (if Contributes(ms[|ms| - 1]) then [|ms| - 1] else [])
  }

  /** Collecting lines distributes over concatenation of histories, so lines
      never change order or move across messages. */
  lemma {:induction false} LinesAppend(a: seq<Message>, b: seq<Message>)
    ensures Lines(a + b) == Lines(a) + Lines(b)
  {
    if |a| > 0 {
      assert (a + b)[1..] == a[1..] + b;
      LinesAppend(a[1..], b);
    } else {
      assert a + b == b;
    }
  }

  /** Line k of the output is the line of the k-th contributing message, so
      the number of lines is the number of contributing messages and the lines
      keep the order of the stored messages. */
  lemma {:induction false} LinesMatchSelected(ms: seq<Message>)
    ensures |Lines(ms)| == |Selected(ms)|
    ensures forall k :: 0 <= k < |Selected(ms)| ==> LineOf(ms[Selected(ms)[k]]) == Some(Lines(ms)[k])
  {
    if |ms| > 0 {
      var prefix := ms[..|ms| - 1];
      var m := ms[|ms| - 1];
      assert ms == prefix + [m];
      LinesMatchSelected(prefix);
      LinesAppend(prefix, [m]);
      assert Lines([m]) == LineSeq(m) by {
        assert [m][1..] == [];
      }
      var sel := Selected(ms);
      forall k | 0 <= k < |sel| ensures LineOf(ms[sel[k]]) == Some(Lines(ms)[k]) {
        if k < |Selected(prefix)| {
          assert ms[sel[k]] == prefix[Selected(prefix)[k]];
        }
      }
    }
  }

  /** No line at all exactly when no message contributes one. */
  lemma {:induction false} LinesEmptyIff(ms: seq<Message>)
    ensures |Lines(ms)| == 0 <==> forall i :: 0 <= i < |ms| ==> !Contributes(ms[i])
  {
    LinesMatchSelected(ms);
    var sel := Selected(ms);
    if |sel| > 0 {
      assert Contributes(ms[sel[0]]);
    }
  }

  /** Every line is a prefixed content of a human or an AI message. */
  lemma LineShape(ms: seq<Message>, k: nat)
    requires k < |Lines(ms)|
    ensures exists i :: 0 <= i < |ms| && Contributes(ms[i]) && Lines(ms)[k] == PrefixOf(ms[i].msgType) + ms[i].content.value
  {
    LinesMatchSelected(ms);
    var i := Selected(ms)[k];
    assert Contributes(ms[i]);
  }

  /** The sentinel comes back exactly when no message is a human or AI message
      with content, in particular for the empty history. */
  lemma FormattedSentinelIff(ms: seq<Message>)
    ensures Formatted(ms) == NoHistory <==> forall i :: 0 <= i < |ms| ==> !Contributes(ms[i])
  {
    LinesEmptyIff(ms);
    var lines := Lines(ms);
    if |lines| > 0 {
      LineShape(ms, 0);
      JoinEnds(lines);
      var i :| 0 <= i < |ms| && Contributes(ms[i]) && lines[0] == PrefixOf(ms[i].msgType) + ms[i].content.value;
      assert Formatted(ms)[0] == lines[0][0];
      assert Formatted(ms)[0] in {'U', 'A'};
      assert NoHistory[0] == 'N';
    }
  }

  /** A history that yields lines is shown as those lines joined. */
  lemma FormattedJoin(ms: seq<Message>)
    requires |Lines(ms)| > 0
    ensures Formatted(ms) == Join(Lines(ms))
  {
  }

  /** No prefixed line gains a newline from its prefix. */
  lemma PrefixedLineNewlineFree(msgType: string, c: string)
    requires Newline !in c
    ensures Newline !in PrefixOf(msgType) + c
  {
    var p := PrefixOf(msgType);
    assert Newline !in p by {
      assert p == UserPrefix || p == AIPrefix;
      assert UserPrefix == ['U', 's', 'e', 'r', ':', ' '];
      assert AIPrefix == ['A', 'I', ':', ' '];
    }
    var line := p + c;
    forall j | 0 <= j < |line| ensures line[j] != Newline {
      if j < |p| {
        assert line[j] == p[j];
      } else {
        assert line[j] == c[j - |p|];
      }
    }
  }

  /** When no line-yielding content holds a newline, splitting the formatted history at
      newlines gives back exactly the collected lines: one separator between
      neighbours, none at either end. */
  lemma FormattedSplit(ms: seq<Message>)
    requires |Lines(ms)| > 0
    requires forall i :: 0 <= i < |ms| && Contributes(ms[i]) ==> Newline !in ms[i].content.value
    ensures Split(Formatted(ms)) == Lines(ms)
  {
    var lines := Lines(ms);
    forall k | 0 <= k < |lines| ensures Newline !in lines[k] {
      LineShape(ms, k);
      var i :| 0 <= i < |ms| && Contributes(ms[i]) && lines[k] == PrefixOf(ms[i].msgType) + ms[i].content.value;
      PrefixedLineNewlineFree(ms[i].msgType, ms[i].content.value);
    }
    SplitJoin(lines);
    FormattedJoin(ms);
  }

  /** Saving an exchange appends the query line and then the reply line. */
  lemma LinesAfterSave(h: seq<Message>, userQuery: string, aiResponse: string)
    ensures Lines(h + Exchange(userQuery, aiResponse)) == Lines(h) + [UserPrefix + userQuery, AIPrefix + aiResponse]
  {
    var e := Exchange(userQuery, aiResponse);
    LinesAppend(h, e);
    assert e[1..][1..] == [];
    assert Lines(e[1..]) == [AIPrefix + aiResponse];
    assert Lines(e) == [UserPrefix + userQuery] + Lines(e[1..]);
  }

  /** After a save the history is never the sentinel. */
  lemma SavedHistoryShown(h: seq<Message>, userQuery: string, aiResponse: string)
    ensures Formatted(h + Exchange(userQuery, aiResponse)) != NoHistory
  {
    var ms := h + Exchange(userQuery, aiResponse);
    assert Contributes(ms[|h|]);
    FormattedSentinelIff(ms);
  }

  /** After a save the text is the old text extended by the two new lines, or
      just those lines when the old history showed nothing. */
  lemma FormattedAfterSave(h: seq<Message>, userQuery: string, aiResponse: string)
    ensures Formatted(h + Exchange(userQuery, aiResponse)) ==
      if |Lines(h)| == 0 then (UserPrefix + userQuery) + [Newline] + (AIPrefix + aiResponse)
      else Formatted(h) + [Newline] + (UserPrefix + userQuery) + [Newline] + (AIPrefix + aiResponse)
  {
    var q, r := UserPrefix + userQuery, AIPrefix + aiResponse;
    var ms := h + Exchange(userQuery, aiResponse);
    LinesAfterSave(h, userQuery, aiResponse);
    var before := Lines(h);
    var after := Lines(ms);
    assert after == (before + [q]) + [r];
    FormattedJoin(ms);
    if |before| == 0 {
      assert after == [q, r];
      assert [q, r][1..] == [r];
      assert Join(after) == q + [Newline] + r;
    } else {
      FormattedJoin(h);
      JoinSnoc(before, q);
      JoinSnoc(before + [q], r);
      assert Join(after) == Join(before) + [Newline] + q + [Newline] + r;
    }
  }

  /** A worked history: a system message and an AI message without content
      are dropped, the rest keep their order. */
  lemma FormattedExample()
    ensures Formatted([Message(HumanType, Some("hi")), Message("system", Some("be brief")),
                       Message(AIType, None), Message(AIType, Some("hello"))]) == "User: hi\nAI: hello"
  {
    var a, b := Message(HumanType, Some("hi")), Message("system", Some("be brief"));
    var c, d := Message(AIType, None), Message(AIType, Some("hello"));
    var u, v := UserPrefix + "hi", AIPrefix + "hello";
    assert u == "User: hi";
    assert v == "AI: hello";
    assert Lines([d]) == [v] by {
      assert [d][1..] == [];
    }
    assert Lines([c, d]) == [v] by {
      assert [c, d][1..] == [d];
    }
    assert Lines([b, c, d]) == [v] by {
      assert "system" != HumanType && "system" != AIType;
      assert [b, c, d][1..] == [c, d];
    }
    assert Lines([a, b, c, d]) == [u, v] by {
      assert [a, b, c, d][1..] == [b, c, d];
    }
    FormattedJoin([a, b, c, d]);
    assert [u, v][1..] == [v];
    assert Join([u, v]) == u + [Newline] + v;
  }

  /** The shared conversation buffer: the messages saved so far, oldest first. */
  class ConversationMemory {
    var messages: seq<Message>

    constructor ()
      ensures messages == []
    {
      messages := [];
    }

    /** Record one exchange: the user query as a human message, then the AI
        response as an AI message, after everything already stored. */
    method SaveChatHistory(userQuery: string, aiResponse: string)
      modifies this
      ensures messages == old(messages) + Exchange(userQuery, aiResponse)
    {
      messages := messages + Exchange(userQuery, aiResponse);
    }

    /** Render the stored history. Reads the buffer only: it has no modifies
        clause, so the stored messages are the same afterwards. */
    method GetChatHistory() returns (history: string)
      ensures history == Formatted(messages)
    {
      var historyMessages := messages;
      if |historyMessages| == 0 {
        return NoHistory;
      }
      var formattedHistory: seq<string> := [];
      var i := 0;
      while i < |historyMessages|
        invariant 0 <= i <= |historyMessages|
        invariant formattedHistory == Lines(historyMessages[..i])
      {
        var message := historyMessages[i];
        if message.content.Some? {
          if message.msgType == HumanType {
            formattedHistory := formattedHistory + [UserPrefix + message.content.value];
          } else if message.msgType == AIType {
            formattedHistory := formattedHistory + [AIPrefix + message.content.value];
          }
        }
        LinesAppend(historyMessages[..i], [message]);
        assert Lines([message]) == LineSeq(message) by {
          assert [message][1..] == [];
        }
        assert historyMessages[..i + 1] == historyMessages[..i] + [message];
        i := i + 1;
      }
      assert historyMessages[..i] == historyMessages;
      history := if |formattedHistory| > 0 then Join(formattedHistory) else NoHistory;
    }
  }
}
