/** The conversation context: messages appended one by one and truncated from
    the front to a token budget, never below the last two. */
module ConversationContext {
  datatype Message = Message(role: string, content: string)

  /** Tokens of one message: its content's count plus 4 for scaffolding. */
  function Cost(count: string -> nat, m: Message): nat {
    count(m.content) + 4
  }

  function Tokens(count: string -> nat, msgs: seq<Message>): nat {
    if msgs == [] then 0 else Tokens(count, msgs[..|msgs| - 1]) + Cost(count, msgs[|msgs| - 1])
  }

  /** Drop the oldest message while over budget and more than two remain. */
  function Truncated(count: string -> nat, budget: int, msgs: seq<Message>): seq<Message> {
    if Tokens(count, msgs) > budget && |msgs| > 2 then Truncated(count, budget, msgs[1..]) else msgs
  }

  lemma {:induction false} TokensConcat(count: string -> nat, a: seq<Message>, b: seq<Message>)
    ensures Tokens(count, a + b) == Tokens(count, a) + Tokens(count, b)
  {
    if b == [] {
      assert a + b == a;
    } else {
      assert (a + b)[..|a + b| - 1] == a + b[..|b| - 1];
      TokensConcat(count, a, b[..|b| - 1]);
    }
  }

  lemma TokensOfOne(count: string -> nat, m: Message)
    ensures Tokens(count, [m]) == count(m.content) + 4 && Tokens(count, []) == 0
  {
    assert [m][..0] == [];
  }

  predicate Fits(count: string -> nat, budget: int, msgs: seq<Message>) {
    Tokens(count, msgs) <= budget
  }

  /** What is kept is the longest suffix that fits, or the last two messages (or
      all, if fewer) when only shorter ones would fit. */
  lemma {:induction false} TruncatedIsLongestSuffix(count: string -> nat, budget: int, msgs: seq<Message>)
    returns (k: nat)
    ensures k <= |msgs| && Truncated(count, budget, msgs) == msgs[k..]
    ensures Fits(count, budget, msgs[k..]) || |msgs| - k <= 2
    ensures forall j :: 0 <= j < k ==> !Fits(count, budget, msgs[j..])
    ensures k > 0 ==> |msgs| - k >= 2
  {
    if Tokens(count, msgs) > budget && |msgs| > 2 {
      var rest := TruncatedIsLongestSuffix(count, budget, msgs[1..]);
      k := rest + 1;
      assert msgs[1..][rest..] == msgs[k..];
      forall j | 0 <= j < k ensures !Fits(count, budget, msgs[j..]) {
        if j > 0 {
          assert msgs[1..][j - 1..] == msgs[j..];
          assert !Fits(count, budget, msgs[1..][j - 1..]);
        } else {
          assert msgs[0..] == msgs;
        }
      }
    } else {
      k := 0;
    }
  }

  /** Truncating before an append changes nothing about truncating after it. */
  lemma {:induction false} TruncateThenAppend(count: string -> nat, budget: int, msgs: seq<Message>, m: Message)
    ensures Truncated(count, budget, Truncated(count, budget, msgs) + [m]) == Truncated(count, budget, msgs + [m])
  {
    if Tokens(count, msgs) > budget && |msgs| > 2 {
      TruncateThenAppend(count, budget, msgs[1..], m);
      TokensConcat(count, msgs, [m]);
      assert (msgs + [m])[1..] == msgs[1..] + [m];
    }
  }

  lemma {:induction false} TruncateTwice(count: string -> nat, budget: int, msgs: seq<Message>)
    ensures Truncated(count, budget, Truncated(count, budget, msgs)) == Truncated(count, budget, msgs)
  {
    if Tokens(count, msgs) > budget && |msgs| > 2 { TruncateTwice(count, budget, msgs[1..]); }
  }

  /** The context after appending a history one message at a time. */
  function AppendEach(count: string -> nat, budget: int, msgs: seq<Message>): seq<Message> {
    if msgs == [] then []
    else Truncated(count, budget, AppendEach(count, budget, msgs[..|msgs| - 1]) + [msgs[|msgs| - 1]])
  }

  /** Truncating after every append equals truncating the full history once. */
  lemma {:induction false} TruncateOnceSuffices(count: string -> nat, budget: int, msgs: seq<Message>)
    ensures AppendEach(count, budget, msgs) == Truncated(count, budget, msgs)
  {
    if msgs != [] {
      var n := |msgs| - 1;
      TruncateOnceSuffices(count, budget, msgs[..n]);
      TruncateThenAppend(count, budget, msgs[..n], msgs[n]);
      assert msgs[..n] + [msgs[n]] == msgs;
    }
  }

  class ContextManager {
    var messages: seq<Message>
    var saved: seq<Message>        // the session's rows in the database
    const persistent: bool         // a store and a session ID were given
    const maxTokens: int
    const count: string -> nat     // the encoder, or a quarter of the length without one
    ghost var history: seq<Message> // what the context is a truncation of

    ghost predicate Valid()
      reads this
    {
      Truncated(count, maxTokens, messages) == Truncated(count, maxTokens, history)
    }

    /** Resumes a session with everything the database has, not yet truncated. */
    constructor (maxTokens: int, count: string -> nat, persistent: bool, stored: seq<Message>)
      ensures Valid() && saved == stored && messages == history == if persistent then stored else []
      ensures this.maxTokens == maxTokens && this.count == count && this.persistent == persistent
    {
      this.maxTokens, this.count, this.persistent := maxTokens, count, persistent;
      saved := stored;
      messages, history := if persistent then stored else [], if persistent then stored else [];
    }

    method TotalTokens() returns (total: nat)
      ensures total == Tokens(count, messages)
    {
      total := 0;
      for i := 0 to |messages|
        invariant total == Tokens(count, messages[..i])
      {
        assert messages[..i + 1][..i] == messages[..i];
        total := total + count(messages[i].content);
        total := total + 4;
      }
      assert messages[..|messages|] == messages;
    }

    method Truncate()
      modifies this`messages
      ensures messages == Truncated(count, maxTokens, old(messages))
    {
      var total := TotalTokens();
      while total > maxTokens && |messages| > 2
        invariant total == Tokens(count, messages)
        invariant Truncated(count, maxTokens, messages) == Truncated(count, maxTokens, old(messages))
        decreases |messages|
      {
        messages := messages[1..];
        total := TotalTokens();
      }
    }

    /** AddMessage and its tool-call and tool-result siblings: append, try to save,
        truncate. A failed save is only logged. */
    method Add(m: Message, saveFails: bool)
      requires Valid()
      modifies this
      ensures Valid() && history == old(history) + [m]
      ensures messages == Truncated(count, maxTokens, history)
      ensures saved == if persistent && !saveFails then old(saved) + [m] else old(saved)
    {
      TruncateThenAppend(count, maxTokens, messages, m);
      TruncateThenAppend(count, maxTokens, history, m);
      messages := messages + [m];
      history := history + [m];
      if persistent && !saveFails {
        saved := saved + [m];
      }
      Truncate();
      TruncateTwice(count, maxTokens, history);
    }

    method GetMessages() returns (msgs: seq<Message>)
      requires Valid()
      modifies this`messages
      ensures Valid() && msgs == messages == Truncated(count, maxTokens, history)
    {
      Truncate();
      TruncateTwice(count, maxTokens, history);
      msgs := messages;
    }

    /** Replaces all but the last two messages by a summary; the database keeps
        the old rows. */
    method SummarizeOldest(summary: string)
      requires Valid()
      modifies this`messages, this`history
      ensures Valid()
      ensures |old(messages)| < 4 ==> messages == old(messages) && history == old(history)
      ensures |old(messages)| >= 4 ==>
        var was, n := old(messages), |old(messages)|;
        messages == [Message("system", "Summary of previous conversation: " + summary), was[n - 2], was[n - 1]]
        && history == messages
    {
      if |messages| < 4 { return; }
      messages := [Message("system", "Summary of previous conversation: " + summary)] + messages[|messages| - 2..];
      history := messages;
    }

    method SetMessages(msgs: seq<Message>)
      modifies this`messages, this`history
      ensures Valid() && history == msgs && messages == Truncated(count, maxTokens, msgs)
    {
      messages, history := msgs, msgs;
      Truncate();
      TruncateTwice(count, maxTokens, msgs);
    }
  }

  /** A summary survives the next truncation exactly when it fits the budget
      together with the two messages kept; otherwise it is the first to go. */
  lemma SummarySurvives(count: string -> nat, budget: int, summary: Message, a: Message, b: Message)
    ensures Truncated(count, budget, [summary, a, b]) ==
      if count(summary.content) + count(a.content) + count(b.content) + 12 <= budget then [summary, a, b] else [a, b]
  {
    assert [summary, a, b] == [summary] + [a] + [b];
    TokensConcat(count, [summary] + [a], [b]);
    TokensConcat(count, [summary], [a]);
    assert Tokens(count, [summary]) == Cost(count, summary);
    assert Tokens(count, [a]) == Cost(count, a);
    assert Tokens(count, [b]) == Cost(count, b);
    assert [summary, a, b][1..] == [a, b];
  }
}
