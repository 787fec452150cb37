/**
 * The two tables the chat route reads and writes: conversations (owner and
 * title) and messages (in creation order).
 */
module Store {
  import opened Prompt

  /** A conversation row; `title` is "" while the conversation has no title. */
  datatype Conversation = Conversation(owner: string, title: string)

  /** A message row. */
  datatype Message = Message(conversationId: string, userId: string, role: string, content: string)

  /** The contents of both tables. */
  datatype State = State(conversations: map<string, Conversation>, messages: seq<Message>)

  /**
   * The `{ role, content }` turns of conversation `id`, oldest first: the
   * history query ordered by creation time.
   */
  function Thread(messages: seq<Message>, id: string): (turns: seq<ChatEntry>)
    ensures |turns| <= |messages|
  {
    if messages == [] then []
    else
      var rest := Thread(messages[1..], id);
      if messages[0].conversationId == id then [ChatEntry(messages[0].role, messages[0].content)] + rest else rest
  }

  /** `Boolean(existingConversation?.title)`: the conversation exists and has a non-empty title. */
  predicate HasTitle(st: State, id: string) {
    id in st.conversations && st.conversations[id].title != ""
  }

  /** The state after a new, untitled conversation `id` owned by `owner` is created. */
  function WithConversation(st: State, id: string, owner: string): State {
    State(st.conversations[id := Conversation(owner, "")], st.messages)
  }

  /** The state after message `m` is stored. */
  function WithMessage(st: State, m: Message): State {
    State(st.conversations, st.messages + [m])
  }

  /** The state after the title of conversation `id` is set; an update that matches no row changes nothing. */
  function WithTitle(st: State, id: string, title: string): State {
    if id in st.conversations then
      State(st.conversations[id := st.conversations[id].(title := title)], st.messages)
    else st
  }

  /** A message stored after the others comes last in its conversation's thread and leaves the other threads alone. */
  lemma {:induction false} ThreadAppend(messages: seq<Message>, m: Message, id: string)
    ensures Thread(messages + [m], id) ==
            Thread(messages, id) + (if m.conversationId == id then [ChatEntry(m.role, m.content)] else [])
  {
    if messages == [] {
      assert messages + [m] == [m];
      assert [m][1..] == [];
    } else {
      assert (messages + [m])[0] == messages[0];
      assert (messages + [m])[1..] == messages[1..] + [m];
      ThreadAppend(messages[1..], m, id);
    }
  }

  /** Setting a title keeps every row, changes no other conversation and no message, and keeps the owner. */
  lemma WithTitleChangesOnlyTitle(st: State, id: string, title: string)
    ensures var after := WithTitle(st, id, title);
            && after.conversations.Keys == st.conversations.Keys
            && after.messages == st.messages
            && (forall c :: c in st.conversations && c != id ==> after.conversations[c] == st.conversations[c])
            && (id in st.conversations ==> after.conversations[id] == Conversation(st.conversations[id].owner, title))
  {
  }

  /** The store the route talks to; its methods are the three writes the route performs. */
  class Store {
    var conversations: map<string, Conversation>
    var messages: seq<Message>

    function Contents(): State
      reads this
    {
      State(conversations, messages)
    }

    constructor ()
      ensures Contents() == State(map[], [])
    {
      conversations, messages := map[], [];
    }

    /** Inserts an untitled conversation under a freshly generated id. */
    method CreateConversation(id: string, owner: string)
      requires id !in conversations
      modifies this
      ensures Contents() == WithConversation(old(Contents()), id, owner)
    {
      conversations := conversations[id := Conversation(owner, "")];
    }

    /** Appends a message row. */
    method InsertMessage(m: Message)
      modifies this
      ensures Contents() == WithMessage(old(Contents()), m)
    {
      messages := messages + [m];
    }

    /** `update({ title }).eq('id', id)`. */
    method UpdateTitle(id: string, title: string)
      modifies this
      ensures Contents() == WithTitle(old(Contents()), id, title)
    {
      if id in conversations {
        conversations := conversations[id := conversations[id].(title := title)];
      }
    }
  }
}
