/** rag_app.py's per-browser session (`st.session_state`): the login flag and
    username, the user's conversations and the conversation being shown, and
    the handlers that change them. Each method is one handled event: a button
    press or a submitted form. */
module RagApp {
  import opened Wrappers
  import opened Text
  import opened Pipeline
  import opened UserStore

  class Session {
    var loggedIn: bool
    var username: Option<string>
    var conversations: Conversations
    var current: Option<string>

    /** A username exactly while logged in; a current conversation only once
        logged in, and always one of the user's. */
    ghost predicate Valid()
      reads this
    {
      && (loggedIn <==> username.Some?)
      && (current.Some? ==> loggedIn && current.value in conversations)
    }

    /** The state `check_login` and `initialize_session_state` start from. */
    constructor ()
      ensures Valid()
      ensures !loggedIn && username.None? && conversations == map[] && current.None?
    {
      loggedIn, username, conversations, current := false, None, map[], None;
    }

    /** `if st.session_state.current_conversation:` (an empty name counts as
        none); in a valid session it names one of a logged-in user's conversations. */
    predicate HasActiveConversation()
      reads this
      ensures HasActiveConversation() && Valid() ==>
                loggedIn && username.Some? && current.Some? && current.value in conversations
    {
      current.Some? && current.value != ""
    }

    /** The Login button of `check_login`. A logged-in session is left alone;
        otherwise the store is loaded and the user's conversations are taken
        over exactly when `Authenticate` accepts. The page goes on past
        `st.stop()` only for a session that was already logged in. */
    method Login(store: UserDataFile, name: string, password: string, checkpw: (string, string) -> bool)
      returns (proceed: bool)
      requires Valid()
      modifies this, store
      ensures Valid()
      ensures proceed == old(loggedIn)
      ensures old(loggedIn) ==> unchanged(this) && unchanged(store)
      ensures !old(loggedIn) ==> store.contents == Stored(LoadedUsers(old(store.contents)))
      ensures !old(loggedIn) ==>
                match Authenticate(LoadedUsers(old(store.contents)), name, password, checkpw)
                case Some(c) => loggedIn && username == Some(name) && conversations == c && current == old(current)
                case None => !loggedIn && username == old(username) && conversations == old(conversations) && current == old(current)
    {
      proceed := loggedIn;
      if loggedIn {
        return;
      }
      var users := store.Load();
      if name in users && checkpw(password, users[name].password) {
        loggedIn := true;
        username := Some(name);
        conversations := users[name].conversations;
      }
    }

    /** "Create Conversation" (in the sidebar of `main` and in `chat_interface`):
        a blank name changes nothing; any other name is set to an empty
        conversation, replacing one of that name, becomes current, and all the
        conversations are saved to the user's record. */
    method CreateConversation(store: UserDataFile, name: string)
      requires Valid() && loggedIn
      modifies this, store
      ensures Valid() && loggedIn && username == old(username)
      ensures IsBlank(name) ==> unchanged(this) && unchanged(store)
      ensures !IsBlank(name) ==>
                && conversations == old(conversations)[name := []]
                && current == Some(name)
                && store.contents == Stored(WithConversations(LoadedUsers(old(store.contents)), username, conversations))
    {
      if IsBlank(name) {
        return;
      }
      conversations := conversations[name := []];
      current := Some(name);
      SaveConversation(store, username, conversations);
    }

    /** A conversation button in the sidebar of `main`: it becomes current. */
    method SelectConversation(name: string)
      requires Valid() && loggedIn && name in conversations
      modifies this
      ensures Valid()
      ensures current == Some(name)
      ensures loggedIn == old(loggedIn) && username == old(username) && conversations == old(conversations)
    {
      current := Some(name);
    }

    /** `current_history.append(...)` for one turn: the user's message, then
        the assistant's when there is one, at the end of one of the user's
        conversations; nothing else changes. */
    method RecordTurn(cur: string, query: string, reply: Option<string>)
      requires Valid() && cur in conversations
      modifies this
      ensures Valid()
      ensures conversations == old(conversations)[cur := old(conversations)[cur] + TurnMessages(query, reply)]
      ensures loggedIn == old(loggedIn) && username == old(username) && current == old(current)
    {
      var history := conversations[cur] + [Message(UserRole, query)];
      var turn := if reply.Some? then history + [Message(AssistantRole, reply.value)] else history;
      assert turn == conversations[cur] + TurnMessages(query, reply);
      conversations := conversations[cur := turn];
    }

    /** The "Enviar" form of `chat_interface`, given the retrieval service's
        response and the `content` list the chat API returned (None when that
        call failed). A blank query changes nothing. Otherwise the user's
        message is appended first; retrieval then decides whether the model is
        asked at all; the assistant's message is appended unless a call
        failed, the error being caught after the user's message is already in
        place. The reply is stored as the text lines 357-362 make of the
        content list (the code as written stores the list itself; see
        ReplyStorage). The conversation is not saved to the store. */
    method ChatTurn(query: string, retrieval: HttpResponse<seq<ScoredChunk>>, generated: Option<seq<ContentBlock>>)
      returns (sent: Option<ChatRequest>)
      requires Valid() && HasActiveConversation()
      modifies this
      ensures Valid()
      ensures loggedIn == old(loggedIn) && username == old(username) && current == old(current)
      ensures IsBlank(query) ==> conversations == old(conversations) && sent.None?
      ensures !IsBlank(query) ==>
                var cur := current.value;
                conversations == old(conversations)[cur := old(conversations)[cur] + TurnMessages(query, AssistantReply(RetrieveChunks(retrieval), GeneratedText(generated)))]
      ensures sent.Some? <==> !IsBlank(query) && IsOk(retrieval.status) && retrieval.body != []
      ensures sent.Some? ==>
                var chunks := RetrieveChunks(retrieval).value;
                sent.value == RagAppChatRequest(RagAppPrompt(chunks), query, Some(old(conversations)[current.value] + [Message(UserRole, query)]))
    {
      sent := None;
      if IsBlank(query) {
        return;
      }
      var cur := current.value;
      var history := conversations[cur] + [Message(UserRole, query)];
      var chunks := RetrieveChunks(retrieval);
      if chunks.Success? && chunks.value != [] {
        sent := Some(RagAppChatRequest(RagAppPrompt(chunks.value), query, Some(history)));
      }
      RecordTurn(cur, query, AssistantReply(chunks, GeneratedText(generated)));
    }
  }
}
