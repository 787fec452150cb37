/**
 * What the chat route sends upstream: a system prompt chosen by model id, the
 * stored turns of the conversation without those repeating the new message,
 * and the new user turn.
 */
module Prompt {
  import opened Wrappers
  import opened Text

  /** One `{ role, content }` entry of the upstream `messages` array, and one stored turn. */
  datatype ChatEntry = ChatEntry(role: string, content: string)

  const SystemRole: string := "system"
  const UserRole: string := "user"
  const AssistantRole: string := "assistant"

  const ReasoningModel: string := "deepseek-r1:7b"
  const FastModel: string := "llama3.1:8b"

  /** The model used when the request names none. */
  const DefaultModel: string := FastModel

  const ReasoningPrompt: string :=
    "You are a reasoning-focused assistant.\n" +
    "Explain concepts clearly and accurately.\n" +
    "Use proper paragraphs and bullet points when helpful.\n" +
    "Do NOT repeat words or phrases.\n" +
    "Do NOT expose chain-of-thought or internal reasoning.\n" +
    "Present conclusions cleanly and concisely."

  const FastPrompt: string :=
    "You are a fast, concise assistant.\n" +
    "Answer clearly and directly.\n" +
    "Keep responses short unless more detail is requested.\n" +
    "Avoid repetition.\n" +
    "Use bullet points only when helpful."

  const FallbackPrompt: string := "You are a helpful assistant. Be concise and clear."

  /** `getSystemPrompt`: each known model has its own prompt; every other model id gets the fallback. */
  function SystemPrompt(model: string): (p: string)
    ensures p == ReasoningPrompt <==> model == ReasoningModel
    ensures p == FastPrompt <==> model == FastModel
    ensures p == FallbackPrompt <==> model != ReasoningModel && model != FastModel
  {
    if model == ReasoningModel then ReasoningPrompt
    else if model == FastModel then FastPrompt
    else FallbackPrompt
  }

  /**
   * The stored turns passed on as context: every turn whose content equals
   * the trimmed new message is dropped (the new message itself, already
   * stored, and any earlier turn with the same text), the rest kept in order.
   */
  function PriorTurns(history: seq<ChatEntry>, trimmed: string): (turns: seq<ChatEntry>)
    ensures |turns| <= |history|
    ensures forall i :: 0 <= i < |turns| ==> turns[i] in history && turns[i].content != trimmed
  {
    if history == [] then []
    else if history[0].content != trimmed then [history[0]] + PriorTurns(history[1..], trimmed)
    else PriorTurns(history[1..], trimmed)
  }

  /** The `messagesToSend` array; `history` is `None` when the history read failed. */
  function MessagesToSend(model: string, history: Option<seq<ChatEntry>>, trimmed: string): (msgs: seq<ChatEntry>)
  {
    var context := match history
      case Some(h) => PriorTurns(h, trimmed)
      case None => [];
    [ChatEntry(SystemRole, SystemPrompt(model))] + context + [ChatEntry(UserRole, trimmed)]
  }

  // ---------------------------------------------------------------------------
  // Properties

  /** A stored turn is passed on exactly when its content differs from the new message. */
  lemma {:induction false} PriorTurnsMembership(history: seq<ChatEntry>, trimmed: string, e: ChatEntry)
    ensures e in PriorTurns(history, trimmed) <==> e in history && e.content != trimmed
  {
    if history != [] {
      PriorTurnsMembership(history[1..], trimmed, e);
      assert history == [history[0]] + history[1..];
    }
  }

  /** Filtering distributes over concatenation, so the kept turns stay in stored order. */
  lemma {:induction false} PriorTurnsAppend(a: seq<ChatEntry>, b: seq<ChatEntry>, trimmed: string)
    ensures PriorTurns(a + b, trimmed) == PriorTurns(a, trimmed) + PriorTurns(b, trimmed)
  {
    if a == [] {
      assert a + b == b;
    } else {
      HeadTailOfAppend(a, b);
      PriorTurnsAppend(a[1..], b, trimmed);
    }
  }

  /** When no stored turn repeats the new message, the whole history is passed on. */
  lemma {:induction false} PriorTurnsKeepsDistinct(history: seq<ChatEntry>, trimmed: string)
    requires forall i :: 0 <= i < |history| ==> history[i].content != trimmed
    ensures PriorTurns(history, trimmed) == history
  {
    if history != [] {
      PriorTurnsKeepsDistinct(history[1..], trimmed);
    }
  }

  /** The user turn stored just before the history read is not repeated in the context. */
  lemma PriorTurnsDropsNewMessage(history: seq<ChatEntry>, trimmed: string)
    ensures PriorTurns(history + [ChatEntry(UserRole, trimmed)], trimmed) == PriorTurns(history, trimmed)
  {
    PriorTurnsAppend(history, [ChatEntry(UserRole, trimmed)], trimmed);
  }

  /**
   * The array sent upstream is the system entry for the model, then the kept
   * turns (none when the history read failed), then the user turn; no entry
   * between the system entry and the user turn carries the new message, and
   * those entries are exactly the stored turns that differ from it.
   */
  lemma MessagesToSendShape(model: string, history: Option<seq<ChatEntry>>, trimmed: string)
    ensures var msgs := MessagesToSend(model, history, trimmed);
            && |msgs| == 2 + (if history.Some? then |PriorTurns(history.value, trimmed)| else 0)
            && msgs[0] == ChatEntry(SystemRole, SystemPrompt(model))
            && msgs[|msgs| - 1] == ChatEntry(UserRole, trimmed)
            && (history.None? ==> |msgs| == 2)
            && (forall i :: 0 < i < |msgs| - 1 ==> msgs[i].content != trimmed)
            && (forall e :: e in msgs[1..|msgs| - 1] <==> history.Some? && e in history.value && e.content != trimmed)
  {
    var msgs := MessagesToSend(model, history, trimmed);
    var context := if history.Some? then PriorTurns(history.value, trimmed) else [];
    assert msgs[1..|msgs| - 1] == context;
    if history.Some? {
      forall e
        ensures e in context <==> e in history.value && e.content != trimmed
      {
        PriorTurnsMembership(history.value, trimmed, e);
      }
    }
  }
}
