/**
 * The chatbot routes `/chatbot` and `/chatbot/stream`: the message list
 * sent to the language model, the reply gathered from its streamed
 * chunks, the conversation history handed back, and the event stream.
 * The model's stream is an input: the chunk texts it delivers, and the
 * message of the exception it ends with, if it fails.
 */
module Chatbot {
  import opened Wrappers
  import opened Json

  /** The system prompt of the learning assistant. */
  const SystemPrompt: string :=
    "\nYou are a friendly, professional, helpful assistant that guides students in learning English.\n" +
    "You are an expert in English education. You only answer questions related to learning English.\n" +
    "If the User want to translate something, you will translate it to English or vice-versa to arabic and give a brief explanation.\n" +
    "if the sent a single word, you will give the meaning of that word in English and Arabic.\n" +
    "If the user asks something unrelated, reply with: \"I can only answer questions about learning English.\"\n" +
    "Correct any typos the user makes.\n" +
    "You're talking to kids or teenagers.\n"

  datatype Role = SystemRole | HumanRole | AiRole

  /** A chat message for the language model. */
  datatype Message = Message(role: Role, content: string)

  /** One entry of the conversation history, as the client sends it. */
  type Entry = map<string, string>

  /** `msg.get(key, "")`. */
  function Field(entry: Entry, key: string): string
  {
    if key in entry then entry[key] else ""
  }

  predicate IsUserEntry(entry: Entry)
  {
    "role" in entry && entry["role"] == "user"
  }

  predicate IsAssistantEntry(entry: Entry)
  {
    "role" in entry && entry["role"] == "assistant"
  }

  /** The message an entry becomes: none unless its role is `user` or `assistant`. */
  function EntryMessages(entry: Entry): (r: seq<Message>)
    ensures |r| <= 1
    ensures r != [] <==> IsUserEntry(entry) || IsAssistantEntry(entry)
    ensures IsUserEntry(entry) ==> r == [Message(HumanRole, Field(entry, "content"))]
    ensures IsAssistantEntry(entry) ==> r == [Message(AiRole, Field(entry, "content"))]
  {
    if IsUserEntry(entry) then [Message(HumanRole, Field(entry, "content"))]
    else if IsAssistantEntry(entry) then [Message(AiRole, Field(entry, "content"))]
    else []
  }

  /** The messages of a whole history, in its order. */
  function HistoryMessages(history: seq<Entry>): (r: seq<Message>)
    ensures |r| <= |history|
    ensures forall k :: 0 <= k < |r| ==> r[k].role != SystemRole
  {
    if history == [] then []
    else HistoryMessages(history[..|history| - 1]) + EntryMessages(history[|history| - 1])
  }

  /** One more entry of the history adds its message, if any, at the end. */
  lemma HistoryMessagesStep(first: seq<Message>, history: seq<Entry>, i: nat)
    requires i < |history|
    ensures first + HistoryMessages(history[..i + 1]) == first + HistoryMessages(history[..i]) + EntryMessages(history[i])
  {
    assert history[..i + 1][..i] == history[..i];
  }

  /** Lines 13-23 (and 52-62): the system prompt, the history's messages, then the new user message. */
  method BuildMessages(history: seq<Entry>, message: string) returns (messages: seq<Message>)
    ensures messages == [Message(SystemRole, SystemPrompt)] + HistoryMessages(history) + [Message(HumanRole, message)]
  {
    messages := [Message(SystemRole, SystemPrompt)];
    var i := 0;
    while i < |history|
      invariant 0 <= i <= |history|
      invariant messages == [Message(SystemRole, SystemPrompt)] + HistoryMessages(history[..i])
    {
      var entry := history[i];
      HistoryMessagesStep([Message(SystemRole, SystemPrompt)], history, i);
      if "role" in entry && entry["role"] == "user" {
        assert IsUserEntry(entry);
        messages := messages + [Message(HumanRole, Field(entry, "content"))];
      } else if "role" in entry && entry["role"] == "assistant" {
        assert IsAssistantEntry(entry);
        messages := messages + [Message(AiRole, Field(entry, "content"))];
      } else {
        assert EntryMessages(entry) == [];
      }
      i := i + 1;
    }
    assert history[..i] == history;
    messages := messages + [Message(HumanRole, message)];
  }

  /** The concatenation of all chunk texts. */
  function Concat(chunks: seq<string>): string
  {
    if chunks == [] then "" else Concat(chunks[..|chunks| - 1]) + chunks[|chunks| - 1]
  }

  /** The chunks that are not empty, in order. */
  function NonEmpty(chunks: seq<string>): (r: seq<string>)
    ensures |r| <= |chunks|
    ensures forall k :: 0 <= k < |r| ==> r[k] != ""
    ensures forall x :: x != "" ==> multiset(r)[x] == multiset(chunks)[x]
  {
    if chunks == [] then []
    else
      assert chunks == chunks[..|chunks| - 1] + [chunks[|chunks| - 1]];
      NonEmpty(chunks[..|chunks| - 1]) + (if chunks[|chunks| - 1] != "" then [chunks[|chunks| - 1]] else [])
  }

  /** Keeping the non-empty chunks of two streams one after the other keeps them in that order. */
  lemma {:induction false} NonEmptyAppend(a: seq<string>, b: seq<string>)
    ensures NonEmpty(a + b) == NonEmpty(a) + NonEmpty(b)
    decreases |b|
  {
    if b == [] {
      assert a + b == a;
    } else {
      assert (a + b)[..|a + b| - 1] == a + b[..|b| - 1];
      assert (a + b)[|a + b| - 1] == b[|b| - 1];
      NonEmptyAppend(a, b[..|b| - 1]);
    }
  }

  /** Lines 26-29: the reply is the concatenation of the chunk texts, empty ones skipped. */
  method CollectReply(chunks: seq<string>) returns (full: string)
    ensures full == Concat(NonEmpty(chunks))
    ensures full == Concat(chunks)
  {
    full := "";
    var i := 0;
    while i < |chunks|
      invariant 0 <= i <= |chunks|
      invariant full == Concat(NonEmpty(chunks[..i]))
    {
      assert chunks[..i + 1][..i] == chunks[..i];
      if chunks[i] != "" {
        assert NonEmpty(chunks[..i + 1]) == NonEmpty(chunks[..i]) + [chunks[i]];
        ConcatAppend(NonEmpty(chunks[..i]), [chunks[i]]);
        assert [chunks[i]][..0] == [];
        full := full + chunks[i];
      } else {
        assert NonEmpty(chunks[..i + 1]) == NonEmpty(chunks[..i]) + [];
        assert NonEmpty(chunks[..i]) + [] == NonEmpty(chunks[..i]);
      }
      i := i + 1;
    }
    assert chunks[..i] == chunks;
    SkippingEmptyChunksKeepsText(chunks);
  }

  /** Skipping empty chunks does not change the concatenation. */
  lemma {:induction false} SkippingEmptyChunksKeepsText(chunks: seq<string>)
    ensures Concat(NonEmpty(chunks)) == Concat(chunks)
  {
    if chunks != [] {
      var init := chunks[..|chunks| - 1];
      SkippingEmptyChunksKeepsText(init);
      ConcatAppend(NonEmpty(init), if chunks[|chunks| - 1] != "" then [chunks[|chunks| - 1]] else []);
    }
  }

  lemma {:induction false} ConcatAppend(a: seq<string>, b: seq<string>)
    ensures Concat(a + b) == Concat(a) + Concat(b)
    decreases |b|
  {
    if b != [] {
      assert (a + b)[..|a + b| - 1] == a + b[..|b| - 1];
      assert (a + b)[|a + b| - 1] == b[|b| - 1];
      ConcatAppend(a, b[..|b| - 1]);
      assert Concat(b) == Concat(b[..|b| - 1]) + b[|b| - 1];
    } else {
      assert a + b == a;
    }
  }

  /** The history entry of the user's message. */
  function UserEntry(message: string): Entry
  {
    map["role" := "user", "content" := message]
  }

  /** The history entry of the assistant's reply. */
  function AssistantEntry(reply: string): Entry
  {
    map["role" := "assistant", "content" := reply]
  }

  /** Lines 32-34: a copy of the history with the user's message and the reply added. */
  method UpdateHistory(history: seq<Entry>, message: string, reply: string) returns (updated: seq<Entry>)
    ensures |updated| == |history| + 2
    ensures updated[..|history|] == history
    ensures updated[|history|] == UserEntry(message) && updated[|history| + 1] == AssistantEntry(reply)
  {
    updated := history;
    updated := updated + [UserEntry(message)];
    updated := updated + [AssistantEntry(reply)];
  }

  /** A sequence made of `history` and then `a` and `b` is `history + [a, b]`. */
  lemma TwoAppended(history: seq<Entry>, updated: seq<Entry>, a: Entry, b: Entry)
    requires |updated| == |history| + 2
    requires updated[..|history|] == history
    requires updated[|history|] == a && updated[|history| + 1] == b
    ensures updated == history + [a, b]
  {
    assert forall k :: 0 <= k < |history| ==> updated[k] == updated[..|history|][k];
  }

  /** What the model's stream delivers: its chunks, then possibly an exception. */
  datatype Stream = Stream(chunks: seq<string>, failure: Option<string>)

  /** The fields of the response model, in declaration order, all of them required. */
  const ResponseFields: seq<string> := ["status", "response", "conversation_history", "token_count"]

  /** The required fields of `fields` missing from a construction that gives `given`, in order. */
  function Missing(fields: seq<string>, given: set<string>): (r: seq<string>)
    ensures forall f :: f in r <==> f in fields && f !in given
  {
    if fields == [] then []
    else (if fields[0] in given then [] else [fields[0]]) + Missing(fields[1..], given)
  }

  /** Built from `response` and `conversation_history` alone, the response model misses `status` and `token_count`. */
  lemma AsWrittenMissesTwoFields()
    ensures Missing(ResponseFields, {"response", "conversation_history"}) == ["status", "token_count"]
  {
    var given := {"response", "conversation_history"};
    assert "status" !in given && "token_count" !in given;
    assert "response" in given && "conversation_history" in given;
    assert Missing(ResponseFields[3..], given) == ["token_count"];
    assert Missing(ResponseFields[2..], given) == ["token_count"];
    assert Missing(ResponseFields[1..], given) == ["token_count"];
  }

  /** Built with every field, the response model misses none. */
  lemma AllFieldsGiven()
    ensures Missing(ResponseFields, {"status", "response", "conversation_history", "token_count"}) == []
  {
  }

  /** What the client gets back from `/chatbot`. */
  datatype ChatReply =
    | Answered(status: string, response: string, history: seq<Entry>, tokenCount: int)
    | ServerError(detail: ChatError)

  /** Why the route answers 500: the stream failed, or the response failed validation. */
  datatype ChatError = StreamFailed(message: string) | InvalidResponse(missing: seq<string>)

  /**
   * `chatbot_chat` as written (lines 11-41): once the stream has been read,
   * the response model is built from `response` and `conversation_history`
   * alone, which fails validation, and the route's own handler turns that
   * into a 500.
   */
  method ChatbotChat(history: seq<Entry>, message: string, stream: Stream) returns (reply: ChatReply)
    ensures stream.failure.Some? ==> reply == ServerError(StreamFailed(stream.failure.value))
    ensures stream.failure.None? ==> reply == ServerError(InvalidResponse(["status", "token_count"]))
  {
    var messages := BuildMessages(history, message);
    if stream.failure.Some? {
      return ServerError(StreamFailed(stream.failure.value));
    }
    var full := CollectReply(stream.chunks);
    var updated := UpdateHistory(history, message, full);
    var missing := Missing(ResponseFields, {"response", "conversation_history"});
    AsWrittenMissesTwoFields();
    if missing != [] {
      return ServerError(InvalidResponse(missing));
    }
    reply := Answered("", full, updated, 0);
  }

  /**
   * `chatbot_chat` with the two required fields supplied, as
   * EndPoint/audio_book.py:38-45 fills them: status `success` and the token
   * count (an input here).
   */
  method ChatbotChatIntended(history: seq<Entry>, message: string, stream: Stream, tokenCount: int)
    returns (reply: ChatReply)
    ensures stream.failure.Some? ==> reply == ServerError(StreamFailed(stream.failure.value))
    ensures stream.failure.None? ==>
              && reply.Answered? && reply.status == "success" && reply.tokenCount == tokenCount
              && reply.response == Concat(stream.chunks)
              && reply.history == history + [UserEntry(message), AssistantEntry(Concat(stream.chunks))]
  {
    var messages := BuildMessages(history, message);
    if stream.failure.Some? {
      return ServerError(StreamFailed(stream.failure.value));
    }
    var full := CollectReply(stream.chunks);
    var updated := UpdateHistory(history, message, full);
    TwoAppended(history, updated, UserEntry(message), AssistantEntry(full));
    var missing := Missing(ResponseFields, {"status", "response", "conversation_history", "token_count"});
    AllFieldsGiven();
    if missing != [] {
      return ServerError(InvalidResponse(missing));
    }
    reply := Answered("success", full, updated, tokenCount);
  }

  /* ---- The event stream of `/chatbot/stream` ---- */

  /** `{'content': text, 'done': False}`. */
  function ContentEvent(text: string): Json
  {
    Obj(map["content" := Str(text), "done" := Bool(false)])
  }

  /** `{'content': '', 'done': True}`. */
  function DoneEvent(): Json
  {
    Obj(map["content" := Str(""), "done" := Bool(true)])
  }

  /** `{'error': message, 'done': True}`. */
  function ErrorEvent(message: string): Json
  {
    Obj(map["error" := Str(message), "done" := Bool(true)])
  }

  /** One content event per non-empty chunk, in order. */
  function ContentEvents(chunks: seq<string>): (r: seq<Json>)
    ensures |r| == |NonEmpty(chunks)|
    ensures forall k :: 0 <= k < |r| ==> r[k] == ContentEvent(NonEmpty(chunks)[k])
  {
    if chunks == [] then []
    else
      var last := chunks[|chunks| - 1];
      ContentEvents(chunks[..|chunks| - 1]) + (if last != "" then [ContentEvent(last)] else [])
  }

  /** The events of a whole stream: its content events, then the completion or the error event. */
  function StreamEvents(stream: Stream): (r: seq<Json>)
    ensures |r| == |NonEmpty(stream.chunks)| + 1
  {
    ContentEvents(stream.chunks)
    + (if stream.failure.Some? then [ErrorEvent(stream.failure.value)] else [DoneEvent()])
  }

  /** `generate_stream` (lines 64-73): the events it yields, in order. */
  method GenerateStream(stream: Stream) returns (events: seq<Json>)
    ensures events == StreamEvents(stream)
  {
    events := [];
    var i := 0;
    while i < |stream.chunks|
      invariant 0 <= i <= |stream.chunks|
      invariant events == ContentEvents(stream.chunks[..i])
    {
      var chunk := stream.chunks[i];
      assert stream.chunks[..i + 1][..i] == stream.chunks[..i];
      if chunk != "" {
        events := events + [ContentEvent(chunk)];
      }
      i := i + 1;
    }
    assert stream.chunks[..i] == stream.chunks;
    if stream.failure.Some? {
      events := events + [ErrorEvent(stream.failure.value)];
    } else {
      events := events + [DoneEvent()];
    }
  }
}

/** What the chatbot routes promise, over the functions that specify them. */
module ChatbotProperties {
  import opened Wrappers
  import opened Json
  import opened Chatbot

  /** The role a kept entry maps to. */
  function RoleOf(entry: Entry): Role
  {
    if IsUserEntry(entry) then HumanRole else AiRole
  }

  /** The messages of two histories one after the other are the two lists of messages one after the other. */
  lemma {:induction false} HistoryMessagesAppend(a: seq<Entry>, b: seq<Entry>)
    ensures HistoryMessages(a + b) == HistoryMessages(a) + HistoryMessages(b)
    decreases |b|
  {
    if b == [] {
      assert a + b == a;
    } else {
      assert (a + b)[..|a + b| - 1] == a + b[..|b| - 1];
      assert (a + b)[|a + b| - 1] == b[|b| - 1];
      HistoryMessagesAppend(a, b[..|b| - 1]);
    }
  }

  /**
   * A history of `user` and `assistant` entries only becomes one message
   * per entry, in order, with the entry's role and content (empty when it
   * has none).
   */
  lemma {:induction false} RolesMapInOrder(history: seq<Entry>)
    requires forall k :: 0 <= k < |history| ==> IsUserEntry(history[k]) || IsAssistantEntry(history[k])
    ensures |HistoryMessages(history)| == |history|
    ensures forall k :: 0 <= k < |history| ==>
              HistoryMessages(history)[k] == Message(RoleOf(history[k]), Field(history[k], "content"))
  {
    if history != [] {
      var init := history[..|history| - 1];
      RolesMapInOrder(init);
      assert forall k :: 0 <= k < |init| ==> init[k] == history[k];
    }
  }

  /** An entry of any other role adds no message. */
  lemma OtherRolesDropped(history: seq<Entry>, entry: Entry)
    requires !IsUserEntry(entry) && !IsAssistantEntry(entry)
    ensures HistoryMessages(history + [entry]) == HistoryMessages(history)
  {
    HistoryMessagesAppend(history, [entry]);
    assert [entry][..0] == [];
  }

  /** Every event but the last says `done: false`; the last one says `done: true`. */
  lemma OnlyLastEventDone(stream: Stream)
    ensures var events := StreamEvents(stream);
            forall k :: 0 <= k < |events| ==>
              events[k].Obj? && "done" in events[k].fields
              && (events[k].fields["done"] == Bool(true) <==> k == |events| - 1)
  {
  }

  /**
   * The content events carry the non-empty chunks in order, and their texts
   * put together are the reply that `/chatbot` would build from the same
   * stream.
   */
  lemma StreamCarriesReply(stream: Stream)
    ensures var events := StreamEvents(stream);
            var texts := NonEmpty(stream.chunks);
            && (forall k :: 0 <= k < |texts| ==> events[k] == ContentEvent(texts[k]))
            && Concat(texts) == Concat(stream.chunks)
  {
    SkippingEmptyChunksKeepsText(stream.chunks);
  }

  /** A failing stream ends with one error event carrying its message, and no completion event. */
  lemma FailingStreamEndsWithError(stream: Stream)
    requires stream.failure.Some?
    ensures var events := StreamEvents(stream);
            events[|events| - 1] == ErrorEvent(stream.failure.value)
            && forall k :: 0 <= k < |events| ==> events[k] != DoneEvent()
  {
    OnlyLastEventDone(stream);
    assert DoneEvent().fields["done"] == Bool(true) && "error" !in DoneEvent().fields;
  }
}
