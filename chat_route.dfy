/**
 * `POST /api/chat`: authenticates the caller, resolves or creates the
 * conversation, validates the request, stores the user's message, sends the
 * conversation upstream and relays the reply, then stores the reply and
 * titles the conversation.
 *
 * What the collaborators answer (the request body, the signed-in user, each
 * store call's success, the upstream response and the JSON parser) is an
 * input, `Env`.
 */
module ChatRoute {
  import opened Wrappers
  import opened Text
  import opened Title
  import opened Prompt
  import opened Relay
  import opened Store

  /** A field of the JSON request body: absent, a string, or any other JSON value (including `null`). */
  datatype BodyField = Missing | Str(value: string) | NotString

  /** The request body; `conversationId` is "" when it is absent or falsy. */
  datatype Body = Body(message: BodyField, model: BodyField, conversationId: string)

  /** How `await req.json()` ends. */
  datatype BodyRead =
    | Parsed(body: Body)
    | BodyAborted   // the client aborted while the body was read
    | BodyFailed    // the body is not JSON, or is JSON `null`; any other value reads as a body whose fields are all `Missing`

  /** How `fetch` to the model server ends. */
  datatype Upstream =
    | ConnectAborted     // the client aborted before the response arrived
    | ConnectFailed      // any other error thrown by `fetch`
    | Answered(status: nat, events: Option<seq<ReadEvent>>)   // `events` is `None` when the response has no body

  /** What the collaborators answer during one request. */
  datatype Env = Env(
    bodyRead: BodyRead,
    user: Option<string>,           // the signed-in user's id; `None` when there is none or the lookup failed
    createdId: Option<string>,      // the id of a newly created conversation; `None` when the insert failed
    titleLookupFails: bool,
    userInsertFails: bool,
    historyFails: bool,
    upstream: Upstream,
    parse: string -> Option<Frame>,
    assistantInsertFails: bool,
    titleUpdateFails: bool)

  /** An error response with its HTTP status, or the 200 streaming response. */
  datatype Response =
    | ErrorResponse(status: nat)
    | StreamResponse(conversationId: string, pieces: seq<string>, end: StreamEnd)

  /** A response, the store afterwards, and the `messages` array sent upstream if the request got that far. */
  datatype Handled = Handled(response: Response, after: State, sent: Option<seq<ChatEntry>>)

  const StatusBadRequest: nat := 400
  const StatusUnauthorized: nat := 401
  const StatusClientClosed: nat := 499
  const StatusInternalError: nat := 500

  /** `response.ok`. */
  predicate IsOk(status: nat) {
    200 <= status <= 299
  }

  /**
   * A status the `Response` constructor accepts together with a body: one in
   * 200–599 that is not a null-body status (204, 205, 304).
   */
  predicate BodyStatus(status: nat) {
    200 <= status <= 599 && status != 204 && status != 205 && status != 304
  }

  /**
   * The status answered for a non-2xx upstream response: `ollamaResponse.status
   * || 500` when the `Response` constructor accepts it; for any other status
   * the constructor throws, and the outer `catch` answers 500.
   */
  function UpstreamErrorStatus(status: nat): (s: nat)
    ensures s != 0 && BodyStatus(s)
    ensures BodyStatus(status) ==> s == status
    ensures !BodyStatus(status) ==> s == StatusInternalError
    ensures status == 0 ==> s == StatusInternalError
  {
    if status == 0 then StatusInternalError
    else if BodyStatus(status) then status
    else StatusInternalError
  }

  /** The trimmed message when it is a string with something besides white space, `None` otherwise. */
  function ValidMessage(f: BodyField): (r: Option<string>)
    ensures r.Some? <==> f.Str? && !AllSpace(f.value)
    ensures r.Some? ==> r.value == Trim(f.value) && r.value != []
  {
    if f.Str? && Trim(f.value) != [] then Some(Trim(f.value)) else None
  }

  /** The model id: an absent field means the default model; a non-string value is rejected. */
  function ValidModel(f: BodyField): (r: Option<string>)
    ensures r.None? <==> f.NotString?
    ensures f.Missing? ==> r == Some(DefaultModel)
    ensures f.Str? ==> r == Some(f.value)
  {
    match f
    case Missing => Some(DefaultModel)
    case Str(m) => Some(m)
    case NotString => None
  }

  /**
   * The `finally` block of the stream: a reply with something besides white
   * space is stored as it was received; once it is stored, a conversation
   * that had no title at the start of the request gets one made from the
   * user's message.
   */
  function Persist(st: State, id: string, userId: string, trimmed: string, hadTitle: bool,
                   reply: string, insertFails: bool, updateFails: bool): State
  {
    if Trim(reply) == [] || insertFails then st
    else
      var stored := WithMessage(st, Message(id, userId, AssistantRole, reply));
      if !hadTitle && id != [] && !updateFails then WithTitle(stored, id, ConversationTitle(trimmed)) else stored
  }

  /** The stream once the upstream answered 2xx with a body: the frame loop, then the `finally` block. */
  function Streamed(env: Env, events: seq<ReadEvent>, userId: string, id: string, hadTitle: bool, trimmed: string,
                    stored: State, sent: Option<seq<ChatEntry>>): Handled {
    var run := Run(events, env.parse);
    var after := Persist(stored, id, userId, trimmed, hadTitle, Concat(run.pieces), env.assistantInsertFails, env.titleUpdateFails);
    Handled(StreamResponse(id, run.pieces, EndOf(run.exit)), after, sent)
  }

  /** The request from the upstream call on, once the user's message is stored and the prompt is built. */
  function Upstreamed(env: Env, userId: string, id: string, hadTitle: bool, trimmed: string,
                    stored: State, sent: Option<seq<ChatEntry>>): Handled {
    match env.upstream
    case ConnectAborted => Handled(ErrorResponse(StatusClientClosed), stored, sent)
    case ConnectFailed => Handled(ErrorResponse(StatusInternalError), stored, sent)
    case Answered(status, events) =>
      if !IsOk(status) then Handled(ErrorResponse(UpstreamErrorStatus(status)), stored, sent)
      else if events.None? then Handled(StreamResponse(id, [], Closed), stored, sent)
      else Streamed(env, events.value, userId, id, hadTitle, trimmed, stored, sent)
  }

  /** The request from the point where the user's message is stored. */
  function Relayed(env: Env, userId: string, id: string, hadTitle: bool, trimmed: string, model: string, st: State): Handled {
    if env.userInsertFails then Handled(ErrorResponse(StatusInternalError), st, None)
    else
      var stored := WithMessage(st, Message(id, userId, UserRole, trimmed));
      var history := if env.historyFails || id == [] then None else Some(Thread(stored.messages, id));
      Upstreamed(env, userId, id, hadTitle, trimmed, stored, Some(MessagesToSend(model, history, trimmed)))
  }

  /** The request from the point where the conversation is resolved. */
  function Validated(env: Env, body: Body, userId: string, id: string, hadTitle: bool, st: State): Handled {
    match ValidMessage(body.message)
    case None => Handled(ErrorResponse(StatusBadRequest), st, None)
    case Some(trimmed) =>
      match ValidModel(body.model)
      case None => Handled(ErrorResponse(StatusBadRequest), st, None)
      case Some(model) => Relayed(env, userId, id, hadTitle, trimmed, model, st)
  }

  /** The request once the caller is known to be signed in. */
  function Authorised(env: Env, body: Body, userId: string, st: State): Handled {
    if body.conversationId == [] then
      match env.createdId
      case None => Handled(ErrorResponse(StatusInternalError), st, None)
      case Some(id) => Validated(env, body, userId, id, false, WithConversation(st, id, userId))
    else
      var hadTitle := !env.titleLookupFails && HasTitle(st, body.conversationId);
      Validated(env, body, userId, body.conversationId, hadTitle, st)
  }

  /** The whole request: what `POST` answers, what the store holds afterwards, and what was sent upstream. */
  function Handle(env: Env, st: State): Handled {
    match env.bodyRead
    case BodyAborted => Handled(ErrorResponse(StatusClientClosed), st, None)
    case BodyFailed => Handled(ErrorResponse(StatusInternalError), st, None)
    case Parsed(body) =>
      match env.user
      case None => Handled(ErrorResponse(StatusUnauthorized), st, None)
      case Some(userId) => Authorised(env, body, userId, st)
  }

  /** The conversation id the request resolves to, when resolution succeeds. */
  function ResolvedId(env: Env, body: Body): (id: Option<string>)
    ensures id.Some? <==> body.conversationId != [] || env.createdId.Some?
    ensures body.conversationId != [] ==> id == Some(body.conversationId)
    ensures body.conversationId == [] ==> id == env.createdId
  {
    if body.conversationId != [] then Some(body.conversationId) else env.createdId
  }

  /** The request passes every check of `POST` before the upstream response is inspected. */
  predicate PassesChecks(env: Env) {
    && env.bodyRead.Parsed?
    && env.user.Some?
    && ResolvedId(env, env.bodyRead.body).Some?
    && ValidMessage(env.bodyRead.body.message).Some?
    && ValidModel(env.bodyRead.body.model).Some?
    && !env.userInsertFails
  }

  /** Whether the conversation counts as titled for this request: a failed lookup counts as untitled. */
  function HadTitle(env: Env, body: Body, st: State): bool {
    body.conversationId != [] && !env.titleLookupFails && HasTitle(st, body.conversationId)
  }

  /** The store once the conversation is resolved: a request that names none gets a new one. */
  function Resolved(env: Env, body: Body, userId: string, st: State): (after: State)
    requires ResolvedId(env, body).Some?
    ensures after.messages == st.messages
    ensures after.conversations.Keys == st.conversations.Keys + (if body.conversationId == [] then {ResolvedId(env, body).value} else {})
    ensures body.conversationId != [] ==> after == st
    ensures body.conversationId == [] ==> after.conversations[ResolvedId(env, body).value] == Conversation(userId, "")
    ensures forall c :: c in st.conversations && c != ResolvedId(env, body).value ==> after.conversations[c] == st.conversations[c]
  {
    if body.conversationId == [] then WithConversation(st, env.createdId.value, userId) else st
  }

  // ---------------------------------------------------------------------------
  // Properties

  /** A request that passes every check reaches the upstream call with the resolved id, title flag and store. */
  lemma HandleRelays(env: Env, st: State)
    requires PassesChecks(env)
    ensures var body := env.bodyRead.body;
            Handle(env, st) == Relayed(env, env.user.value, ResolvedId(env, body).value, HadTitle(env, body, st),
                                       ValidMessage(body.message).value, ValidModel(body.model).value,
                                       Resolved(env, body, env.user.value, st))
  {
  }

  /**
   * A request that fails a check is refused with 400, 401, 499 or 500 before
   * anything is sent upstream; the only store work it leaves behind is a
   * conversation created for it.
   */
  lemma HandleRefuses(env: Env, st: State)
    requires !PassesChecks(env)
    ensures var h := Handle(env, st);
            && h.sent.None?
            && h.response.ErrorResponse?
            && h.response.status in {StatusBadRequest, StatusUnauthorized, StatusClientClosed, StatusInternalError}
            && h.after == if env.bodyRead.Parsed? && env.user.Some? && env.bodyRead.body.conversationId == [] && env.createdId.Some?
                          then WithConversation(st, env.createdId.value, env.user.value) else st
  {
  }

  /**
   * Past the checks, the response streams exactly when the upstream answers
   * 2xx; otherwise the status is 499 when `fetch` was aborted, 500 when it
   * threw anything else, and `UpstreamErrorStatus` of the upstream's status
   * when it answered.
   */
  lemma RelayedStatus(env: Env, userId: string, id: string, hadTitle: bool, trimmed: string, model: string, st: State)
    requires !env.userInsertFails
    ensures var h := Relayed(env, userId, id, hadTitle, trimmed, model, st);
            && h.sent.Some?
            && (h.response.StreamResponse? <==> env.upstream.Answered? && IsOk(env.upstream.status))
            && (h.response.ErrorResponse? ==> h.response.status != 0 && !IsOk(h.response.status))
            && (h.response.ErrorResponse? && env.upstream.Answered? ==> h.response.status == UpstreamErrorStatus(env.upstream.status))
            && (env.upstream.ConnectAborted? ==> h.response == ErrorResponse(StatusClientClosed))
            && (env.upstream.ConnectFailed? ==> h.response == ErrorResponse(StatusInternalError))
  {
  }

  /**
   * Each failure before the upstream call answers 500: the conversation
   * cannot be created (whatever the message), or the user's message cannot
   * be stored.
   */
  lemma StoreFailureStatuses(env: Env, st: State)
    ensures env.bodyRead.Parsed? && env.user.Some? && ResolvedId(env, env.bodyRead.body).None? ==>
            Handle(env, st).response == ErrorResponse(StatusInternalError)
    ensures && env.bodyRead.Parsed? && env.user.Some? && ResolvedId(env, env.bodyRead.body).Some?
            && ValidMessage(env.bodyRead.body.message).Some? && ValidModel(env.bodyRead.body.model).Some?
            && env.userInsertFails ==>
            Handle(env, st).response == ErrorResponse(StatusInternalError)
  {
    if env.bodyRead.Parsed? && env.user.Some? {
      var body, userId := env.bodyRead.body, env.user.value;
      assert Handle(env, st) == Authorised(env, body, userId, st);
      if ResolvedId(env, body).Some? && ValidMessage(body.message).Some? && ValidModel(body.model).Some? {
        assert Authorised(env, body, userId, st) ==
               Relayed(env, userId, ResolvedId(env, body).value, HadTitle(env, body, st),
                       ValidMessage(body.message).value, ValidModel(body.model).value, Resolved(env, body, userId, st));
      }
    }
  }

  /**
   * Each failure of the upstream call answers with its own status: 499 when
   * `fetch` is aborted, 500 when it throws anything else; a non-2xx answer
   * gives the upstream's status when `Response` accepts it with a body, and
   * 500 for any other (0, 1xx, 304, 600 and above).
   */
  lemma UpstreamFailureStatuses(env: Env, st: State)
    requires PassesChecks(env)
    ensures env.upstream.ConnectAborted? ==> Handle(env, st).response == ErrorResponse(StatusClientClosed)
    ensures env.upstream.ConnectFailed? ==> Handle(env, st).response == ErrorResponse(StatusInternalError)
    ensures env.upstream.Answered? && !IsOk(env.upstream.status) ==>
            Handle(env, st).response == ErrorResponse(UpstreamErrorStatus(env.upstream.status))
    ensures env.upstream.Answered? && !IsOk(env.upstream.status) && BodyStatus(env.upstream.status) ==>
            Handle(env, st).response == ErrorResponse(env.upstream.status)
    ensures env.upstream.Answered? && !IsOk(env.upstream.status) && !BodyStatus(env.upstream.status) ==>
            Handle(env, st).response == ErrorResponse(StatusInternalError)
  {
    HandleRelays(env, st);
    var body := env.bodyRead.body;
    RelayedStatus(env, env.user.value, ResolvedId(env, body).value, HadTitle(env, body, st),
                  ValidMessage(body.message).value, ValidModel(body.model).value, Resolved(env, body, env.user.value, st));
  }

  /** Every error response carries a status that is neither 0 nor in the 2xx range. */
  lemma ErrorStatusIsNotOk(env: Env, st: State)
    ensures var r := Handle(env, st).response;
            r.ErrorResponse? ==> r.status != 0 && !IsOk(r.status)
  {
    if PassesChecks(env) {
      HandleRelays(env, st);
      var body := env.bodyRead.body;
      RelayedStatus(env, env.user.value, ResolvedId(env, body).value, HadTitle(env, body, st),
                    ValidMessage(body.message).value, ValidModel(body.model).value, Resolved(env, body, env.user.value, st));
    } else {
      HandleRefuses(env, st);
    }
  }

  /** The response streams exactly when every check passes and the upstream answers with a 2xx status; only then is anything sent upstream. */
  lemma StreamsExactlyWhenChecksPass(env: Env, st: State)
    ensures Handle(env, st).response.StreamResponse? <==>
            PassesChecks(env) && env.upstream.Answered? && IsOk(env.upstream.status)
    ensures Handle(env, st).sent.Some? <==> PassesChecks(env)
  {
    if PassesChecks(env) {
      HandleRelays(env, st);
      var body := env.bodyRead.body;
      RelayedStatus(env, env.user.value, ResolvedId(env, body).value, HadTitle(env, body, st),
                    ValidMessage(body.message).value, ValidModel(body.model).value, Resolved(env, body, env.user.value, st));
    } else {
      HandleRefuses(env, st);
    }
  }

  /** The 401 comes before any store work: an unauthenticated request, or one whose body could not be read, changes nothing and sends nothing. */
  lemma NoStoreWorkBeforeAuth(env: Env, st: State)
    requires !env.bodyRead.Parsed? || env.user.None?
    ensures Handle(env, st).after == st && Handle(env, st).sent.None?
    ensures env.bodyRead.BodyAborted? ==> Handle(env, st).response == ErrorResponse(StatusClientClosed)
    ensures env.bodyRead.BodyFailed? ==> Handle(env, st).response == ErrorResponse(StatusInternalError)
    ensures env.bodyRead.Parsed? ==> Handle(env, st).response == ErrorResponse(StatusUnauthorized)
  {
  }

  /**
   * The conversation is resolved before the message is validated: a signed-in
   * request with an invalid message or model is refused with 400, and when it
   * named no conversation, the conversation created for it stays behind.
   */
  lemma InvalidRequestKeepsCreatedConversation(env: Env, st: State)
    requires env.bodyRead.Parsed? && env.user.Some?
    requires ResolvedId(env, env.bodyRead.body).Some?
    requires ValidMessage(env.bodyRead.body.message).None? || ValidModel(env.bodyRead.body.model).None?
    ensures Handle(env, st).response == ErrorResponse(StatusBadRequest)
    ensures Handle(env, st).sent.None?
    ensures Handle(env, st).after == Resolved(env, env.bodyRead.body, env.user.value, st)
  {
  }

  /** The `finally` block appends the reply as received, exactly when it has something besides white space and its insert succeeds. */
  lemma PersistAppends(st: State, id: string, userId: string, trimmed: string, hadTitle: bool,
                       reply: string, insertFails: bool, updateFails: bool)
    ensures Persist(st, id, userId, trimmed, hadTitle, reply, insertFails, updateFails).messages ==
            st.messages + (if Trim(reply) != [] && !insertFails then [Message(id, userId, AssistantRole, reply)] else [])
  {
    if Trim(reply) == [] || insertFails {
      assert st.messages + [] == st.messages;
    } else {
      var stored := WithMessage(st, Message(id, userId, AssistantRole, reply));
      if !hadTitle && id != [] && !updateFails {
        WithTitleChangesOnlyTitle(stored, id, ConversationTitle(trimmed));
      }
    }
  }

  /** The `finally` block removes no conversation and leaves a titled one as it was. */
  lemma PersistKeepsConversations(st: State, id: string, userId: string, trimmed: string, hadTitle: bool,
                                  reply: string, insertFails: bool, updateFails: bool)
    ensures var after := Persist(st, id, userId, trimmed, hadTitle, reply, insertFails, updateFails);
            && after.conversations.Keys == st.conversations.Keys
            && (hadTitle ==> after.conversations == st.conversations)
  {
    if Trim(reply) != [] && !insertFails {
      var stored := WithMessage(st, Message(id, userId, AssistantRole, reply));
      WithTitleChangesOnlyTitle(stored, id, ConversationTitle(trimmed));
    }
  }

  /** The `finally` block changes no conversation but the request's own. */
  lemma PersistKeepsOtherConversations(st: State, id: string, userId: string, trimmed: string, hadTitle: bool,
                                       reply: string, insertFails: bool, updateFails: bool, c: string)
    requires c in st.conversations && c != id
    ensures var after := Persist(st, id, userId, trimmed, hadTitle, reply, insertFails, updateFails);
            c in after.conversations && after.conversations[c] == st.conversations[c]
  {
    var after := Persist(st, id, userId, trimmed, hadTitle, reply, insertFails, updateFails);
    if Trim(reply) != [] && !insertFails {
      var stored := WithMessage(st, Message(id, userId, AssistantRole, reply));
      if !hadTitle && id != [] && !updateFails {
        assert after == WithTitle(stored, id, ConversationTitle(trimmed));
        WithTitleChangesOnlyTitle(stored, id, ConversationTitle(trimmed));
      } else {
        assert after == stored;
      }
    } else {
      assert after == st;
    }
  }

  /**
   * The `finally` block changes the conversation only by retitling it, and
   * only when the reply was stored, the conversation had no title at the
   * start of the request, the id is set and the update succeeds; then the
   * title it sets is never empty.
   */
  lemma PersistTitlesUntitled(st: State, id: string, userId: string, trimmed: string, hadTitle: bool,
                              reply: string, insertFails: bool, updateFails: bool)
    requires id in st.conversations
    ensures var after := Persist(st, id, userId, trimmed, hadTitle, reply, insertFails, updateFails);
            after.conversations[id] != st.conversations[id] ==>
              !hadTitle && Trim(reply) != [] && !insertFails && id != [] && !updateFails
    ensures var after := Persist(st, id, userId, trimmed, hadTitle, reply, insertFails, updateFails);
            (id != [] && !updateFails && !hadTitle && Trim(reply) != [] && !insertFails) ==>
              after.conversations[id].title == ConversationTitle(trimmed) && HasTitle(after, id)
  {
  }

  lemma RelayedStreams(env: Env, userId: string, id: string, hadTitle: bool, trimmed: string, model: string, st: State)
    requires !env.userInsertFails && env.upstream.Answered? && IsOk(env.upstream.status) && env.upstream.events.Some?
    ensures var h := Relayed(env, userId, id, hadTitle, trimmed, model, st);
            h == Streamed(env, env.upstream.events.value, userId, id, hadTitle, trimmed,
                          WithMessage(st, Message(id, userId, UserRole, trimmed)), h.sent)
  {
    var stored := WithMessage(st, Message(id, userId, UserRole, trimmed));
    var history := if env.historyFails || id == [] then None else Some(Thread(stored.messages, id));
    var sent := Some(MessagesToSend(model, history, trimmed));
    assert Relayed(env, userId, id, hadTitle, trimmed, model, st) == Upstreamed(env, userId, id, hadTitle, trimmed, stored, sent);
    UpstreamedStreams(env, userId, id, hadTitle, trimmed, stored, sent);
  }

  lemma UpstreamedStreams(env: Env, userId: string, id: string, hadTitle: bool, trimmed: string,
                          stored: State, sent: Option<seq<ChatEntry>>)
    requires env.upstream.Answered? && IsOk(env.upstream.status) && env.upstream.events.Some?
    ensures Upstreamed(env, userId, id, hadTitle, trimmed, stored, sent) ==
            Streamed(env, env.upstream.events.value, userId, id, hadTitle, trimmed, stored, sent)
  {
  }

  lemma RelayedWithoutStream(env: Env, userId: string, id: string, hadTitle: bool, trimmed: string, model: string, st: State)
    requires env.userInsertFails || !(env.upstream.Answered? && IsOk(env.upstream.status) && env.upstream.events.Some?)
    ensures Relayed(env, userId, id, hadTitle, trimmed, model, st).after ==
            if env.userInsertFails then st else WithMessage(st, Message(id, userId, UserRole, trimmed))
  {
    if !env.userInsertFails {
      var stored := WithMessage(st, Message(id, userId, UserRole, trimmed));
      var sent := Relayed(env, userId, id, hadTitle, trimmed, model, st).sent;
      assert Relayed(env, userId, id, hadTitle, trimmed, model, st) == Upstreamed(env, userId, id, hadTitle, trimmed, stored, sent);
      UpstreamedWithoutStream(env, userId, id, hadTitle, trimmed, stored, sent);
    }
  }

  lemma UpstreamedWithoutStream(env: Env, userId: string, id: string, hadTitle: bool, trimmed: string,
                                stored: State, sent: Option<seq<ChatEntry>>)
    requires !(env.upstream.Answered? && IsOk(env.upstream.status) && env.upstream.events.Some?)
    ensures Upstreamed(env, userId, id, hadTitle, trimmed, stored, sent).after == stored
  {
    match env.upstream
    case ConnectAborted =>
    case ConnectFailed =>
    case Answered(status, events) =>
      if IsOk(status) {
        assert events.None?;
      }
  }

  lemma RelayedAppends(env: Env, userId: string, id: string, hadTitle: bool, trimmed: string, model: string, st: State)
    ensures var after := Relayed(env, userId, id, hadTitle, trimmed, model, st).after;
            && st.messages <= after.messages
            && after.conversations.Keys == st.conversations.Keys
            && (hadTitle ==> after.conversations == st.conversations)
  {
    if !env.userInsertFails && env.upstream.Answered? && IsOk(env.upstream.status) && env.upstream.events.Some? {
      RelayedStreams(env, userId, id, hadTitle, trimmed, model, st);
      var stored := WithMessage(st, Message(id, userId, UserRole, trimmed));
      var sent := Relayed(env, userId, id, hadTitle, trimmed, model, st).sent;
      StreamedKeeps(env, env.upstream.events.value, userId, id, hadTitle, trimmed, stored, sent);
      assert st.messages <= stored.messages;
    } else {
      RelayedWithoutStream(env, userId, id, hadTitle, trimmed, model, st);
    }
  }

  lemma StreamedKeeps(env: Env, events: seq<ReadEvent>, userId: string, id: string, hadTitle: bool, trimmed: string,
                      stored: State, sent: Option<seq<ChatEntry>>)
    ensures var after := Streamed(env, events, userId, id, hadTitle, trimmed, stored, sent).after;
            && stored.messages <= after.messages
            && after.conversations.Keys == stored.conversations.Keys
            && (hadTitle ==> after.conversations == stored.conversations)
  {
    var reply := Concat(Run(events, env.parse).pieces);
    PersistAppends(stored, id, userId, trimmed, hadTitle, reply, env.assistantInsertFails, env.titleUpdateFails);
    PersistKeepsConversations(stored, id, userId, trimmed, hadTitle, reply, env.assistantInsertFails, env.titleUpdateFails);
  }

  lemma RelayedReply(h: Handled, env: Env, userId: string, id: string, hadTitle: bool, trimmed: string, model: string, st: State)
    requires !env.userInsertFails && env.upstream.Answered? && IsOk(env.upstream.status) && env.upstream.events.Some?
    requires h == Relayed(env, userId, id, hadTitle, trimmed, model, st)
    ensures var run := Run(env.upstream.events.value, env.parse);
            var reply := Concat(run.pieces);
            && h.response == StreamResponse(id, run.pieces, EndOf(run.exit))
            && |h.after.messages| > 0
            && (h.after.messages[|h.after.messages| - 1] == Message(id, userId, AssistantRole, reply)
                <==> Trim(reply) != [] && !env.assistantInsertFails)
  {
    RelayedStreams(env, userId, id, hadTitle, trimmed, model, st);
    var stored := WithMessage(st, Message(id, userId, UserRole, trimmed));
    StreamedReply(h, env, env.upstream.events.value, userId, id, hadTitle, trimmed, stored, h.sent);
    var reply := Concat(Run(env.upstream.events.value, env.parse).pieces);
    var m := Message(id, userId, AssistantRole, reply);
    var messages := h.after.messages;
    if Trim(reply) != [] && !env.assistantInsertFails {
      assert messages == stored.messages + [m];
      assert messages[|messages| - 1] == m;
    } else {
      assert messages == stored.messages + [];
      assert messages[|messages| - 1].role == UserRole;
      RolesDiffer();
    }
  }

  lemma RolesDiffer()
    ensures UserRole != AssistantRole
  {
    assert UserRole[0] != AssistantRole[0];
  }

  lemma StreamedReply(h: Handled, env: Env, events: seq<ReadEvent>, userId: string, id: string, hadTitle: bool,
                      trimmed: string, stored: State, sent: Option<seq<ChatEntry>>)
    requires h == Streamed(env, events, userId, id, hadTitle, trimmed, stored, sent)
    ensures var run := Run(events, env.parse);
            var reply := Concat(run.pieces);
            && h.response == StreamResponse(id, run.pieces, EndOf(run.exit))
            && h.after.messages == stored.messages +
                 (if Trim(reply) != [] && !env.assistantInsertFails then [Message(id, userId, AssistantRole, reply)] else [])
  {
    var reply := Concat(Run(events, env.parse).pieces);
    PersistAppends(stored, id, userId, trimmed, hadTitle, reply, env.assistantInsertFails, env.titleUpdateFails);
  }

  lemma RelayedRetitles(env: Env, userId: string, id: string, trimmed: string, model: string, st: State)
    requires !env.userInsertFails && env.upstream.Answered? && IsOk(env.upstream.status) && env.upstream.events.Some?
    requires Trim(Concat(Run(env.upstream.events.value, env.parse).pieces)) != []
    requires !env.assistantInsertFails && !env.titleUpdateFails
    requires id in st.conversations && id != []
    ensures var after := Relayed(env, userId, id, false, trimmed, model, st).after;
            id in after.conversations && after.conversations[id].title == ConversationTitle(trimmed)
  {
    RelayedStreams(env, userId, id, false, trimmed, model, st);
    var stored := WithMessage(st, Message(id, userId, UserRole, trimmed));
    var reply := Concat(Run(env.upstream.events.value, env.parse).pieces);
    PersistTitlesUntitled(stored, id, userId, trimmed, false, reply, env.assistantInsertFails, env.titleUpdateFails);
  }

  lemma RelayedSent(env: Env, userId: string, id: string, hadTitle: bool, trimmed: string, model: string, st: State)
    requires !env.userInsertFails
    ensures Relayed(env, userId, id, hadTitle, trimmed, model, st).sent ==
            Some([ChatEntry(SystemRole, SystemPrompt(model))]
                 + (if env.historyFails || id == [] then [] else PriorTurns(Thread(st.messages, id), trimmed))
                 + [ChatEntry(UserRole, trimmed)])
  {
    var m := Message(id, userId, UserRole, trimmed);
    var stored := WithMessage(st, m);
    var history := if env.historyFails || id == [] then None else Some(Thread(stored.messages, id));
    var sent := Some(MessagesToSend(model, history, trimmed));
    UpstreamedSent(env, userId, id, hadTitle, trimmed, stored, sent);
    if history.Some? {
      ThreadAppend(st.messages, m, id);
      PriorTurnsDropsNewMessage(Thread(st.messages, id), trimmed);
    }
  }

  lemma UpstreamedSent(env: Env, userId: string, id: string, hadTitle: bool, trimmed: string,
                       stored: State, sent: Option<seq<ChatEntry>>)
    ensures Upstreamed(env, userId, id, hadTitle, trimmed, stored, sent).sent == sent
  {
  }

  /** Stored messages are never removed or changed, and no conversation is removed: a request only appends. */
  lemma MessagesOnlyGrow(env: Env, st: State)
    ensures st.messages <= Handle(env, st).after.messages
    ensures st.conversations.Keys <= Handle(env, st).after.conversations.Keys
  {
    if PassesChecks(env) {
      HandleRelays(env, st);
      var body := env.bodyRead.body;
      RelayedAppends(env, env.user.value, ResolvedId(env, body).value, HadTitle(env, body, st),
                     ValidMessage(body.message).value, ValidModel(body.model).value, Resolved(env, body, env.user.value, st));
    } else {
      HandleRefuses(env, st);
    }
  }

  /**
   * The prompt's context is the conversation's thread as it stood before the
   * request, without the turns repeating the new message: the user turn the
   * route stores just before reading the history is never sent twice.
   */
  lemma SentContextIsEarlierThread(env: Env, st: State)
    requires PassesChecks(env) && !env.historyFails
    requires env.bodyRead.body.conversationId != []
    ensures var body := env.bodyRead.body;
            var trimmed := ValidMessage(body.message).value;
            var sent := Handle(env, st).sent;
            && sent.Some?
            && sent.value == [ChatEntry(SystemRole, SystemPrompt(ValidModel(body.model).value))]
                             + PriorTurns(Thread(st.messages, body.conversationId), trimmed)
                             + [ChatEntry(UserRole, trimmed)]
  {
    HandleRelays(env, st);
    var body := env.bodyRead.body;
    RelayedSent(env, env.user.value, body.conversationId, HadTitle(env, body, st),
                ValidMessage(body.message).value, ValidModel(body.model).value, st);
  }

  /** The first request of a new conversation sends no context, only the system entry and the user turn. */
  lemma NewConversationSendsNoContext(env: Env, st: State)
    requires PassesChecks(env) && FreshId(env, st)
    requires env.bodyRead.body.conversationId == []
    requires forall m :: m in st.messages ==> m.conversationId in st.conversations
    ensures Handle(env, st).sent.Some? && |Handle(env, st).sent.value| == 2
  {
    HandleRelays(env, st);
    var body := env.bodyRead.body;
    var id := env.createdId.value;
    var resolved := Resolved(env, body, env.user.value, st);
    ThreadWithout(resolved.messages, id);
    RelayedSent(env, env.user.value, id, false, ValidMessage(body.message).value, ValidModel(body.model).value, resolved);
  }

  lemma {:induction false} ThreadWithout(messages: seq<Message>, id: string)
    requires forall m :: m in messages ==> m.conversationId != id
    ensures Thread(messages, id) == []
  {
    if messages != [] {
      assert messages[0] in messages;
      ThreadWithout(messages[1..], id);
    }
  }

  /**
   * Once the upstream answers with 2xx and a body, the response carries the
   * resolved conversation id and exactly what the frame loop enqueued, and
   * the reply is stored, whichever way the loop ended (done frame, reader
   * end, abort or stream error), exactly when it has something besides
   * white space and its insert succeeds.
   */
  lemma ReplyStoredOnEveryExit(env: Env, st: State)
    requires PassesChecks(env) && env.upstream.Answered? && IsOk(env.upstream.status)
    requires env.upstream.events.Some?
    ensures var h := Handle(env, st);
            var run := Run(env.upstream.events.value, env.parse);
            var reply := Concat(run.pieces);
            var id := ResolvedId(env, env.bodyRead.body).value;
            && h.response == StreamResponse(id, run.pieces, EndOf(run.exit))
            && |h.after.messages| > 0
            && (h.after.messages[|h.after.messages| - 1] == Message(id, env.user.value, AssistantRole, reply)
                <==> Trim(reply) != [] && !env.assistantInsertFails)
  {
    HandleRelays(env, st);
    var body := env.bodyRead.body;
    RelayedReply(Handle(env, st), env, env.user.value, ResolvedId(env, body).value, HadTitle(env, body, st),
                 ValidMessage(body.message).value, ValidModel(body.model).value, Resolved(env, body, env.user.value, st));
  }

  /**
   * The user's turn is stored before the upstream call, so it stays stored
   * when the upstream cannot be reached or answers with an error.
   */
  lemma UserTurnKeptOnUpstreamFailure(env: Env, st: State)
    requires PassesChecks(env)
    requires !(env.upstream.Answered? && IsOk(env.upstream.status))
    ensures var body := env.bodyRead.body;
            Handle(env, st).after ==
              WithMessage(Resolved(env, body, env.user.value, st),
                          Message(ResolvedId(env, body).value, env.user.value, UserRole, ValidMessage(body.message).value))
  {
    HandleRelays(env, st);
    var body := env.bodyRead.body;
    RelayedWithoutStream(env, env.user.value, ResolvedId(env, body).value, HadTitle(env, body, st),
                         ValidMessage(body.message).value, ValidModel(body.model).value, Resolved(env, body, env.user.value, st));
  }

  /** A conversation whose title was read successfully keeps that title. */
  lemma ExistingTitleKept(env: Env, st: State)
    requires env.bodyRead.Parsed? && env.bodyRead.body.conversationId != []
    requires !env.titleLookupFails && HasTitle(st, env.bodyRead.body.conversationId)
    ensures Handle(env, st).after.conversations == st.conversations
  {
    if PassesChecks(env) {
      HandleRelays(env, st);
      var body := env.bodyRead.body;
      RelayedAppends(env, env.user.value, body.conversationId, true,
                     ValidMessage(body.message).value, ValidModel(body.model).value, st);
    } else {
      HandleRefuses(env, st);
    }
  }

  /**
   * A failed title lookup counts as "no title": a titled conversation is
   * retitled from the new message once a reply is stored.
   */
  lemma FailedLookupRetitles(env: Env, st: State)
    requires PassesChecks(env) && env.bodyRead.body.conversationId != []
    requires env.titleLookupFails && HasTitle(st, env.bodyRead.body.conversationId)
    requires env.upstream.Answered? && IsOk(env.upstream.status) && env.upstream.events.Some?
    requires Trim(Concat(Run(env.upstream.events.value, env.parse).pieces)) != []
    requires !env.assistantInsertFails && !env.titleUpdateFails
    ensures var id := env.bodyRead.body.conversationId;
            && id in Handle(env, st).after.conversations
            && Handle(env, st).after.conversations[id].title == ConversationTitle(ValidMessage(env.bodyRead.body.message).value)
  {
    HandleRelays(env, st);
    var body := env.bodyRead.body;
    RelayedRetitles(env, env.user.value, body.conversationId, ValidMessage(body.message).value, ValidModel(body.model).value, st);
  }

  /** A newly created conversation gets an id that is not empty and not yet in use. */
  predicate FreshId(env: Env, st: State) {
    env.createdId.Some? ==> env.createdId.value != [] && env.createdId.value !in st.conversations
  }

  /** The `finally` block of the stream's `start` callback. */
  method PersistReply(store: Store, id: string, userId: string, trimmed: string, hadTitle: bool,
                      reply: string, insertFails: bool, updateFails: bool)
    modifies store
    ensures store.Contents() == Persist(old(store.Contents()), id, userId, trimmed, hadTitle, reply, insertFails, updateFails)
  {
    if Trim(reply) != [] {
      if !insertFails {
        store.InsertMessage(Message(id, userId, AssistantRole, reply));
        if !hadTitle && id != [] {
          var title := ConversationTitle(trimmed);
          if !updateFails {
            store.UpdateTitle(id, title);
          }
        }
      }
    }
  }

  /** `POST`: the checks in order, each failure answering at once with its status. */
  method Post(store: Store, env: Env) returns (response: Response, sent: Option<seq<ChatEntry>>)
    requires FreshId(env, store.Contents())
    modifies store
    ensures Handled(response, store.Contents(), sent) == Handle(env, old(store.Contents()))
  {
    sent := None;
    if env.bodyRead.BodyAborted? {
      return ErrorResponse(StatusClientClosed), sent;
    }
    if env.bodyRead.BodyFailed? {
      return ErrorResponse(StatusInternalError), sent;
    }
    var body := env.bodyRead.body;
    if env.user.None? {
      return ErrorResponse(StatusUnauthorized), sent;
    }
    var userId := env.user.value;

    var id := body.conversationId;
    var hadTitle := false;
    if id == [] {
      if env.createdId.None? {
        return ErrorResponse(StatusInternalError), sent;
      }
      id := env.createdId.value;
      store.CreateConversation(id, userId);
      hadTitle := false;
    } else {
      hadTitle := !env.titleLookupFails && HasTitle(store.Contents(), id);
    }

    var trimmed := ValidMessage(body.message);
    if trimmed.None? {
      return ErrorResponse(StatusBadRequest), sent;
    }
    var model := ValidModel(body.model);
    if model.None? {
      return ErrorResponse(StatusBadRequest), sent;
    }

    response, sent := RelayMessage(store, env, userId, id, hadTitle, trimmed.value, model.value);
  }

  /** `POST` from the point where the user's message is stored: the upstream call and the stream. */
  method RelayMessage(store: Store, env: Env, userId: string, id: string, hadTitle: bool, trimmed: string, model: string)
      returns (response: Response, sent: Option<seq<ChatEntry>>)
    modifies store
    ensures Handled(response, store.Contents(), sent) == Relayed(env, userId, id, hadTitle, trimmed, model, old(store.Contents()))
  {
    sent := None;
    if env.userInsertFails {
      return ErrorResponse(StatusInternalError), sent;
    }
    store.InsertMessage(Message(id, userId, UserRole, trimmed));

    var history: Option<seq<ChatEntry>> := None;
    if !env.historyFails && id != [] {
      history := Some(Thread(store.messages, id));
    }
    sent := Some(MessagesToSend(model, history, trimmed));

    match env.upstream
    case ConnectAborted =>
      return ErrorResponse(StatusClientClosed), sent;
    case ConnectFailed =>
      return ErrorResponse(StatusInternalError), sent;
    case Answered(status, events) =>
      if !IsOk(status) {
        return ErrorResponse(UpstreamErrorStatus(status)), sent;
      }
      if events.None? {
        // no body to read: the stream is closed at once and nothing is persisted
        return StreamResponse(id, [], Closed), sent;
      }
      var enqueued, assistantText, exit, end := Pump(events.value, env.parse);
      PersistReply(store, id, userId, trimmed, hadTitle, assistantText,
                   env.assistantInsertFails, env.titleUpdateFails);
      return StreamResponse(id, enqueued, end), sent;
  }
}
