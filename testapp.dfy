/** test.py's session (`st.session_state`): the password gate's two flags,
    the conversations, which only "Nueva Conversación" creates, and the
    conversation being shown. Each method is one handled event. */
module TestApp {
  import opened Wrappers
  import opened Text
  import opened Pipeline
  import opened UserStore

  const ConversationPrefix := "Conversaci\U{F3}n "

  /** `f"Conversación {n}"`. */
  function ConversationName(n: nat): string {
    ConversationPrefix + NatToDecimal(n)
  }

  /** A conversation name is the prefix followed by digits that read back as n. */
  lemma ConversationNameShape(n: nat)
    ensures var r := ConversationName(n);
            && StartsWith(r, ConversationPrefix)
            && |r| > |ConversationPrefix|
            && (forall k :: |ConversationPrefix| <= k < |r| ==> IsDigit(r[k]))
            && DecimalValue(r[|ConversationPrefix|..]) == n
  {
    var r := ConversationName(n);
    assert r[|ConversationPrefix|..] == NatToDecimal(n);
    DecimalRoundTrip(n);
  }

  /** Distinct numbers give distinct conversation names. */
  lemma ConversationNameInjective(a: nat, b: nat)
    ensures ConversationName(a) == ConversationName(b) ==> a == b
  {
    ConversationNameShape(a);
    ConversationNameShape(b);
  }

  /** The names "Conversación 1" to "Conversación n". */
  ghost function NumberedNames(n: nat): set<string> {
    set k: nat | 1 <= k <= n :: ConversationName(k)
  }

  /** The name given to conversation n + 1 is not among the first n, and adding
      it gives the first n + 1. */
  lemma NextNameIsFresh(n: nat)
    ensures ConversationName(n + 1) !in NumberedNames(n)
    ensures NumberedNames(n) + {ConversationName(n + 1)} == NumberedNames(n + 1)
  {
    forall k: nat | 1 <= k <= n
      ensures ConversationName(k) != ConversationName(n + 1)
    {
      ConversationNameInjective(k, n + 1);
    }
  }

  /** The reply test.py's chat turn stores: the fallback when nothing was
      retrieved, `response.content[0].text` otherwise, and none when
      retrieval, the chat call or the `content[0]` lookup failed. */
  function TestReply(retrieval: HttpResponse<seq<ScoredChunk>>, generated: Option<ChatResponse>): (r: Option<string>)
    ensures r.Some? <==>
      IsOk(retrieval.status) && (retrieval.body == [] || (generated.Some? && generated.value.content != []))
    ensures IsOk(retrieval.status) && retrieval.body == [] ==> r == Some(NoRelevantInformation)
    ensures retrieval.body != [] && r.Some? ==> r.value == generated.value.content[0].text
  {
    var text := if generated.Some? && FirstText(generated.value).Success?
                then Some(FirstText(generated.value).value) else None;
    AssistantReply(RetrieveChunks(retrieval), text)
  }

  class Session {
    var passwordVerified: bool
    var adminMode: bool
    var conversations: Conversations
    var current: Option<string>

    /** Having made n conversations, the session holds exactly "Conversación 1"
        to "Conversación n"; the current one is one of them. */
    ghost predicate Valid()
      reads this
    {
      && conversations.Keys == NumberedNames(|conversations|)
      && (current.Some? ==> current.value in conversations)
    }

    /** The state `check_password` and `initialize_session_state` start from. */
    constructor ()
      ensures Valid()
      ensures !passwordVerified && !adminMode && conversations == map[] && current.None?
    {
      passwordVerified, adminMode, conversations, current := false, false, map[], None;
      assert NumberedNames(0) == {};
    }

    /** The "Enviar" button of `check_password`: a session not yet verified
        becomes verified and in admin mode, both at once, exactly when the
        input equals the configured password. The rest of the page runs past
        `st.stop()` only when the session was verified before the press. */
    method CheckPassword(input: string, appPassword: string) returns (proceed: bool)
      modifies this
      ensures proceed == old(passwordVerified)
      ensures conversations == old(conversations) && current == old(current)
      ensures old(passwordVerified) || input != appPassword ==>
                passwordVerified == old(passwordVerified) && adminMode == old(adminMode)
      ensures !old(passwordVerified) && input == appPassword ==> passwordVerified && adminMode
    {
      proceed := passwordVerified;
      if !passwordVerified && input == appPassword {
        passwordVerified := true;
        adminMode := true;
      }
    }

    /** "Nueva Conversación": with n conversations, "Conversación n+1" is
        added empty and becomes current; that name is always new. */
    method NewConversation()
      requires Valid()
      modifies this
      ensures Valid()
      ensures var name := ConversationName(|old(conversations)| + 1);
              && name !in old(conversations)
              && conversations == old(conversations)[name := []]
              && current == Some(name)
      ensures passwordVerified == old(passwordVerified) && adminMode == old(adminMode)
    {
      var n := |conversations|;
      var name := ConversationName(n + 1);
      NextNameIsFresh(n);
      conversations := conversations[name := []];
      current := Some(name);
    }

    /** The conversation chosen in the select box becomes current. */
    method SelectConversation(selected: string)
      requires Valid() && selected in conversations
      modifies this
      ensures Valid()
      ensures current == Some(selected)
      ensures conversations == old(conversations)
      ensures passwordVerified == old(passwordVerified) && adminMode == old(adminMode)
    {
      assert selected != "" by {
        var k: nat :| 1 <= k <= |conversations| && selected == ConversationName(k);
      }
      if selected != "" {
        current := Some(selected);
      }
    }

    /** `admin_interface` in one run: the optional "Nueva Conversación" press,
        then the select box, whose value (one of the names listed after the
        press) becomes current whenever there is any conversation, so it
        overrides the conversation the press made current. */
    method AdminInterface(newPressed: bool, selected: string)
      requires Valid()
      requires newPressed ==> selected in conversations || selected == ConversationName(|conversations| + 1)
      requires !newPressed && conversations != map[] ==> selected in conversations
      modifies this
      ensures Valid()
      ensures var next := ConversationName(|old(conversations)| + 1);
              conversations == if newPressed then old(conversations)[next := []] else old(conversations)
      ensures current == if conversations != map[] then Some(selected) else old(current)
      ensures passwordVerified == old(passwordVerified) && adminMode == old(adminMode)
    {
      if newPressed {
        NewConversation();
      }
      if conversations != map[] {
        SelectConversation(selected);
      }
    }

    /** `current_history.append(...)` for one turn: the user's message, then
        the assistant's when there is one, at the end of an existing
        conversation; the set of names stays the same. */
    method RecordTurn(cur: string, query: string, reply: Option<string>)
      requires Valid() && cur in conversations
      modifies this
      ensures Valid()
      ensures conversations == old(conversations)[cur := old(conversations)[cur] + TurnMessages(query, reply)]
      ensures current == old(current)
      ensures passwordVerified == old(passwordVerified) && adminMode == old(adminMode)
    {
      var history := conversations[cur] + [Message(UserRole, query)];
      var turn := if reply.Some? then history + [Message(AssistantRole, reply.value)] else history;
      assert turn == conversations[cur] + TurnMessages(query, reply);
      conversations := conversations[cur := turn];
      assert conversations.Keys == old(conversations).Keys;
    }

    /** The "Enviar" button of `chat_interface`, given the retrieval service's
        response and the chat API's (None when that call failed). Without a
        current conversation, or with a blank query, nothing changes.
        Otherwise the user's message is appended first and the assistant's
        after it, unless retrieval, the chat call or reading `content[0]`
        failed: test.py does not catch those errors, so the run stops with
        only the user's message appended. */
    method ChatTurn(query: string, retrieval: HttpResponse<seq<ScoredChunk>>, generated: Option<ChatResponse>)
      returns (sent: Option<ChatRequest>)
      requires Valid()
      modifies this
      ensures Valid()
      ensures current == old(current)
      ensures passwordVerified == old(passwordVerified) && adminMode == old(adminMode)
      ensures current.None? || current.value == "" || IsBlank(query) ==>
                conversations == old(conversations) && sent.None?
      ensures current.Some? && current.value != "" && !IsBlank(query) ==>
                var cur := current.value;
                conversations == old(conversations)[cur := old(conversations)[cur] + TurnMessages(query, TestReply(retrieval, generated))]
      ensures sent.Some? <==>
                current.Some? && current.value != "" && !IsBlank(query) && IsOk(retrieval.status) && retrieval.body != []
      ensures sent.Some? ==>
                var chunks := RetrieveChunks(retrieval).value;
                sent.value == TestChatRequest(TestPrompt(chunks), query, Some(old(conversations)[current.value] + [Message(UserRole, query)]))
    {
      sent := None;
      if current.None? || current.value == "" || IsBlank(query) {
        return;
      }
      var cur := current.value;
      var history := conversations[cur] + [Message(UserRole, query)];
      var chunks := RetrieveChunks(retrieval);
      if chunks.Success? && chunks.value != [] {
        sent := Some(TestChatRequest(TestPrompt(chunks.value), query, Some(history)));
      }
      RecordTurn(cur, query, TestReply(retrieval, generated));
    }
  }
}
