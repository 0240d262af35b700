/** rag_app.py's chat turn as written stores, as the assistant's content,
    whatever `generate_response` returned: the SDK's list of content blocks
    (rag_app.py:209-210), not a string. The conversion at lines 357-362 only
    rebinds the local `response`. `save_conversation` then hands that list to
    `json.dump`, which cannot encode a content block (an empty list it writes
    as `[]`). This module models that path; the rest of the model stores the
    reply's text instead. */
module ReplyStorage {
  import opened Wrappers
  import opened Text
  import opened Pipeline
  import opened UserStore

  /** What a session message's "content" holds: a string, or a content-block list. */
  datatype SessionContent = TextContent(text: string) | BlockContent(blocks: seq<ContentBlock>)

  datatype SessionMessage = SessionMessage(role: string, content: SessionContent)

  type SessionConversations = map<string, seq<SessionMessage>>

  /** The assistant content the chat turn appends as written (rag_app.py:344-354):
      the fallback string when nothing was retrieved, else the block list itself. */
  function AsWrittenReply(chunks: Result<seq<string>, PipelineError>, generated: Option<seq<ContentBlock>>)
    : (r: Option<SessionContent>)
    ensures r.Some? <==> chunks.Success? && (chunks.value == [] || generated.Some?)
    ensures chunks.Success? && chunks.value == [] ==> r == Some(TextContent(NoRelevantInformation))
    ensures chunks.Success? && chunks.value != [] && generated.Some? ==> r == Some(BlockContent(generated.value))
  {
    if chunks.Failure? then None
    else if chunks.value == [] then Some(TextContent(NoRelevantInformation))
    else if generated.Some? then Some(BlockContent(generated.value))
    else None
  }

  /** The conversations after a non-blank chat turn on conversation `cur`, as written. */
  function AsWrittenTurn(c: SessionConversations, cur: string, query: string,
                         retrieval: HttpResponse<seq<ScoredChunk>>, generated: Option<seq<ContentBlock>>)
    : (r: SessionConversations)
    requires cur in c
    ensures r.Keys == c.Keys
    ensures forall n :: n in c && n != cur ==> r[n] == c[n]
    ensures var reply := AsWrittenReply(RetrieveChunks(retrieval), generated);
            var h := c[cur];
            && |r[cur]| == |h| + (if reply.Some? then 2 else 1)
            && r[cur][..|h|] == h
            && r[cur][|h|] == SessionMessage(UserRole, TextContent(query))
            && (reply.Some? ==> r[cur][|h| + 1] == SessionMessage(AssistantRole, reply.value))
  {
    var reply := AsWrittenReply(RetrieveChunks(retrieval), generated);
    var added := [SessionMessage(UserRole, TextContent(query))]
                 + if reply.Some? then [SessionMessage(AssistantRole, reply.value)] else [];
    c[cur := c[cur] + added]
  }

  /** `json.dump` can encode a content: a string, or a block list with no block in it. */
  predicate EncodableContent(content: SessionContent) {
    content.TextContent? || content.blocks == []
  }

  /** `json.dump` can encode the conversations: every content is encodable. */
  predicate Encodable(c: SessionConversations) {
    forall name, i :: name in c && 0 <= i < |c[name]| ==> EncodableContent(c[name][i].content)
  }

  /** The text an encodable content stands for: the string itself, or, for the
      empty list, `str([])`, which is how the chat page shows it. */
  function StoredText(content: SessionContent): (r: string)
    requires EncodableContent(content)
    ensures content.TextContent? ==> r == content.text
    ensures content.BlockContent? ==> r == "[]"
  {
    if content.TextContent? then content.text else "[]"
  }

  /** The conversations as the file holds them, when every content is encodable. */
  function AsStored(c: SessionConversations): Conversations
    requires Encodable(c)
  {
    map name | name in c ::
      seq(|c[name]|, i requires 0 <= i < |c[name]| => Message(c[name][i].role, StoredText(c[name][i].content)))
  }

  /** Conversations of strings, as session conversations. */
  function Lift(c: Conversations): SessionConversations {
    map name | name in c ::
      seq(|c[name]|, i requires 0 <= i < |c[name]| => SessionMessage(c[name][i].role, TextContent(c[name][i].content)))
  }

  /** `save_conversation` as written, from the file it finds: the load resets a
      missing or malformed file to `{}`; for a known user the file is opened for
      writing, which empties it, and `json.dump` writes it piece by piece and
      raises TypeError at the first content block, leaving an unfinished JSON
      text behind; with no content block anywhere, the save succeeds. An unknown user leaves the loaded store. */
  function AsWrittenSaveConversation(f: FileState, username: Option<string>, c: SessionConversations)
    : (r: FileState)
    ensures r.Corrupt? <==> username.Some? && username.value in LoadedUsers(f) && !Encodable(c)
    ensures !(username.Some? && username.value in LoadedUsers(f)) ==> r == Stored(LoadedUsers(f))
    ensures username.Some? && username.value in LoadedUsers(f) && Encodable(c) ==>
              r == Stored(WithConversations(LoadedUsers(f), username, AsStored(c)))
  {
    var users := LoadedUsers(f);
    if username.Some? && username.value in users then
      if Encodable(c) then Stored(WithConversations(users, username, AsStored(c))) else Corrupt
    else Stored(users)
  }

  /** As written: once a chat turn has stored a generated reply of at least
      one content block, the next
      "Create Conversation" (under another, non-blank name) leaves user_data.json
      truncated, the load after it resets the store to `{}`, and no account,
      the user's own included, can log in any more. */
  lemma GeneratedReplyBreaksNextSave(f: FileState, username: string, c: SessionConversations, cur: string,
                                     query: string, retrieval: HttpResponse<seq<ScoredChunk>>,
                                     blocks: seq<ContentBlock>, newName: string,
                                     checkpw: (string, string) -> bool)
    requires username in LoadedUsers(f) && cur in c && newName != cur && !IsBlank(newName)
    requires IsOk(retrieval.status) && retrieval.body != [] && blocks != []
    ensures var after: SessionConversations := AsWrittenTurn(c, cur, query, retrieval, Some(blocks))[newName := []];
            var saved := AsWrittenSaveConversation(f, Some(username), after);
            && saved == Corrupt
            && forall u, p :: Authenticate(LoadedUsers(saved), u, p, checkpw).None?
  {
    var after: SessionConversations := AsWrittenTurn(c, cur, query, retrieval, Some(blocks))[newName := []];
    var h := c[cur];
    assert after[cur][|h| + 1].content == BlockContent(blocks);
    assert !EncodableContent(after[cur][|h| + 1].content);
  }

  /** As written, a generated reply with no content block does not break the
      save: `json.dump` writes `[]`, and every account logs in as before. */
  lemma EmptyReplySaves(f: FileState, username: string, c: SessionConversations, cur: string,
                        query: string, retrieval: HttpResponse<seq<ScoredChunk>>, newName: string,
                        checkpw: (string, string) -> bool)
    requires username in LoadedUsers(f) && cur in c && Encodable(c)
    requires IsOk(retrieval.status) && retrieval.body != []
    ensures var after: SessionConversations := AsWrittenTurn(c, cur, query, retrieval, Some([]))[newName := []];
            var saved := AsWrittenSaveConversation(f, Some(username), after);
            && saved == Stored(WithConversations(LoadedUsers(f), Some(username), AsStored(after)))
            && forall u, p :: Authenticate(LoadedUsers(saved), u, p, checkpw).Some?
                          <==> Authenticate(LoadedUsers(f), u, p, checkpw).Some?
  {
    var turned := AsWrittenTurn(c, cur, query, retrieval, Some([]));
    assert turned[cur] == c[cur] + [SessionMessage(UserRole, TextContent(query)), SessionMessage(AssistantRole, BlockContent([]))];
    assert Encodable(turned[newName := []]);
  }

  /** Strings survive the round trip through the session form. */
  lemma LiftIsStored(c: Conversations)
    ensures Encodable(Lift(c))
    ensures AsStored(Lift(c)) == c
  {
    var l := Lift(c);
    assert Encodable(l);
    forall name | name in c
      ensures AsStored(l)[name] == c[name]
    {
      assert |AsStored(l)[name]| == |c[name]|;
      forall i | 0 <= i < |c[name]|
        ensures AsStored(l)[name][i] == c[name][i]
      {
        assert l[name][i] == SessionMessage(c[name][i].role, TextContent(c[name][i].content));
      }
    }
  }

  /** With replies stored as text, as lines 357-362 intend, the same save writes
      a store in which the user's conversations are replaced and every other
      account is kept, which is what `UserStore.SaveConversation` promises. */
  lemma TextRepliesSaveIntact(f: FileState, username: string, c: Conversations)
    requires username in LoadedUsers(f)
    ensures AsWrittenSaveConversation(f, Some(username), Lift(c))
         == Stored(WithConversations(LoadedUsers(f), Some(username), c))
  {
    LiftIsStored(c);
  }
}
