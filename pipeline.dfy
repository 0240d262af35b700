/** The `RAGPipeline` class that rag_app.py and test.py both define: the
    request it builds for each remote call and the way it reads the answer.
    The HTTP calls themselves are not modelled: each function receives the
    response the server sent. */
module Pipeline {
  import opened Wrappers
  import opened Text
  import UrlParse

  /** One chat message, the `{"role": ..., "content": ...}` dictionary. */
  datatype Message = Message(role: string, content: string)

  const UserRole := "user"
  const AssistantRole := "assistant"

  /** What the chat turn stores as the assistant's answer when retrieval finds nothing. */
  const NoRelevantInformation := "No relevant information found."

  const DefaultMode := "fast"
  const DefaultDocumentName := "document"

  /** What `requests.post` hands back, reduced to what the code reads. */
  datatype HttpResponse<B> = HttpResponse(status: int, reason: string, body: B)

  /** `response.ok`: false exactly when `raise_for_status` raises, which it
      does for a client error (400 to 499) and for a server error (500 to 599). */
  function IsOk(status: int): (ok: bool)
    ensures ok <==> status < 400 || 600 <= status
  {
    !(400 <= status < 500) && !(500 <= status < 600)
  }

  /** The exceptions the pipeline raises, as values. */
  datatype PipelineError =
    | UploadFailed(status: int, reason: string)
    | RetrievalFailed(status: int, reason: string)
    | EmptyContent

  // ---------------------------------------------------------------- upload_document

  /** The document name sent to the upload endpoint: the name given, unless it
      is missing or empty, in which case the last segment of the URL's path,
      unless that is empty too. */
  function DocumentName(url: string, name: Option<string>): (r: string)
    ensures r != ""
    ensures name.Some? && name.value != "" ==> r == name.value
    ensures (name.None? || name.value == "") ==> NamedAfterPath(UrlParse.Parse(url).path, r)
  {
    if name.Some? && name.value != "" then name.value
    else
      var path := UrlParse.Parse(url).path;
      var segment := LastSegment(path);
      if segment == "" then DefaultDocumentName else segment
  }

  /** `r` is the name a URL with path `path` gives a document: the default
      when the path is empty or ends in '/', else its last segment. */
  predicate NamedAfterPath(path: string, r: string) {
    if path == [] || path[|path| - 1] == '/' then r == DefaultDocumentName
    else '/' !in r && EndsWith(path, r) && (|r| == |path| || path[|path| - |r| - 1] == '/')
  }

  /** The JSON body posted to the upload endpoint. */
  datatype UploadPayload = UploadPayload(mode: string, name: string, url: string)

  /** `upload_document`: the payload it posts and, given the server's response,
      the parsed body it returns or the error it raises. */
  function UploadDocument<B>(response: HttpResponse<B>, url: string, name: Option<string> := None,
                             mode: string := DefaultMode)
    : (r: (UploadPayload, Result<B, PipelineError>))
    ensures r.0.url == url && r.0.mode == mode && r.0.name == DocumentName(url, name)
    ensures r.1.Success? <==> IsOk(response.status)
    ensures r.1.Success? ==> r.1.value == response.body
    ensures r.1.Failure? ==> r.1.error == UploadFailed(response.status, response.reason)
  {
    var payload := UploadPayload(mode, DocumentName(url, name), url);
    if IsOk(response.status) then (payload, Success(response.body))
    else (payload, Failure(UploadFailed(response.status, response.reason)))
  }

  // ---------------------------------------------------------------- retrieve_chunks

  /** One entry of the response's `scored_chunks` array; only its text is read. */
  datatype ScoredChunk = ScoredChunk(text: string)

  /** `[chunk["text"] for chunk in scored_chunks]`. */
  function ChunkTexts(chunks: seq<ScoredChunk>): (texts: seq<string>)
    ensures |texts| == |chunks|
    ensures forall i :: 0 <= i < |chunks| ==> texts[i] == chunks[i].text
  {
    if chunks == [] then [] else [chunks[0].text] + ChunkTexts(chunks[1..])
  }

  /** `retrieve_chunks`: one text per scored chunk, in the server's order, or
      the error raised for a failed request. An empty list is a success. */
  function RetrieveChunks(response: HttpResponse<seq<ScoredChunk>>): (r: Result<seq<string>, PipelineError>)
    ensures r.Success? <==> IsOk(response.status)
    ensures r.Success? ==> |r.value| == |response.body|
    ensures r.Success? ==> forall i :: 0 <= i < |response.body| ==> r.value[i] == response.body[i].text
    ensures r.Failure? ==> r.error == RetrievalFailed(response.status, response.reason)
  {
    if IsOk(response.status) then Success(ChunkTexts(response.body))
    else Failure(RetrievalFailed(response.status, response.reason))
  }

  // ---------------------------------------------------------------- create_system_prompt

  /** The fixed answer both prompts tell the model to give to any other question. */
  const Deflection := "Todav\U{ED}a no tengo ese conocimiento, pero seguir\U{E9} aprendiendo para poder ser de m\U{E1}s ayuda pronto."

  function Quoted(s: string): string {
    "'" + s + "'"
  }

  function JoinQuoted(items: seq<string>): string {
    if items == [] then ""
    else if |items| == 1 then Quoted(items[0])
    else JoinQuoted(items[..|items| - 1]) + ", " + Quoted(items[|items| - 1])
  }

  /** The text `{chunk_texts}` puts into the prompt: the list written as
      `['a', 'b']`, in which every item appears. */
  function ListText(items: seq<string>): (r: string)
    ensures StartsWith(r, "[") && EndsWith(r, "]")
    ensures items == [] ==> r == "[]"
    ensures forall k :: 0 <= k < |items| ==> Contains(r, items[k])
  {
    assert forall k :: 0 <= k < |items| ==> Contains("[" + JoinQuoted(items) + "]", items[k]) by {
      forall k | 0 <= k < |items|
        ensures Contains("[" + JoinQuoted(items) + "]", items[k])
      {
        JoinQuotedMentions(items, k);
        ContainsWithin("[", JoinQuoted(items), "]", items[k]);
      }
    }
    "[" + JoinQuoted(items) + "]"
  }

  const RagAppPromptHead := "Este asistente, Enrique, es el asistente interno de la Gestor\U{ED}a Mays para el puesto de gerente de la Gestor\U{ED}a.\n        /\n        Personalidad:\n        Estructurado, con capacidad para manejar sistemas y herramientas administrativas, y con una actitud proactiva hacia la mejora de procesos. A la vez, demuestra una cierta flexibilidad y empat\U{ED}a en la gesti\U{F3}n del equipo, asegur\U{E1}ndose de que haya consenso y evitando conflictos innecesarios.\n        /\n        Objetivo: Responder preguntas sobre los documentos a los que tengo acceso de manera precisa y explicando con cercan\U{ED}a y familiaridad. No cites directamente el texto de los documentos, interpretalo y da tu respuesta"
  const RagAppPromptLead := ".\n        /\n        Para cualquier otra pregunta responde: \""

  const TestPromptHead := "Este asistente, Enrique, es el asistente interno de la Gestor\U{ED}a Mays para el puesto de gerente de la Gestor\U{ED}a.\n/\nEnrique responde solo preguntas relacionadas con los documentos: "
  const TestPromptLead := ".\n/\nPara cualquier otra pregunta responde: \""

  /** rag_app.py's `create_system_prompt`. */
  function RagAppPrompt(chunkTexts: seq<string>): string {
    RagAppPromptHead + ListText(chunkTexts) + RagAppPromptLead + Deflection
  }

  /** test.py's `create_system_prompt`. */
  function TestPrompt(chunkTexts: seq<string>): string {
    TestPromptHead + ListText(chunkTexts) + TestPromptLead + Deflection
  }

  /** rag_app.py's prompt opens with the persona and objective, contains every
      retrieved text, and ends with the deflection sentence. */
  lemma RagAppPromptShape(chunkTexts: seq<string>)
    ensures StartsWith(RagAppPrompt(chunkTexts), RagAppPromptHead)
    ensures forall k :: 0 <= k < |chunkTexts| ==> Contains(RagAppPrompt(chunkTexts), chunkTexts[k])
    ensures EndsWith(RagAppPrompt(chunkTexts), Deflection)
  {
    Framed(RagAppPromptHead, ListText(chunkTexts), RagAppPromptLead, Deflection);
  }

  /** test.py's prompt opens with its introduction, contains every retrieved
      text, and ends with the deflection sentence. */
  lemma TestPromptShape(chunkTexts: seq<string>)
    ensures StartsWith(TestPrompt(chunkTexts), TestPromptHead)
    ensures forall k :: 0 <= k < |chunkTexts| ==> Contains(TestPrompt(chunkTexts), chunkTexts[k])
    ensures EndsWith(TestPrompt(chunkTexts), Deflection)
  {
    Framed(TestPromptHead, ListText(chunkTexts), TestPromptLead, Deflection);
  }

  lemma {:induction false} JoinQuotedMentions(items: seq<string>, k: nat)
    requires k < |items|
    ensures Contains(JoinQuoted(items), items[k])
  {
    var n := |items|;
    var last := items[n - 1];
    if k == n - 1 {
      assert OccursAt(last, last, 0);
      ContainsWithin("'", last, "'", last);
      if n > 1 {
        var front := JoinQuoted(items[..n - 1]) + ", ";
        assert JoinQuoted(items) == front + Quoted(last);
        ContainsWithin(front, Quoted(last), "", last);
        assert front + Quoted(last) + "" == JoinQuoted(items);
      }
    } else {
      JoinQuotedMentions(items[..n - 1], k);
      assert items[..n - 1][k] == items[k];
      ContainsWithin("", JoinQuoted(items[..n - 1]), ", " + Quoted(last), items[k]);
      assert "" + JoinQuoted(items[..n - 1]) + (", " + Quoted(last)) == JoinQuoted(items);
    }
  }

  // ---------------------------------------------------------------- generate_response

  const ChatModel := "claude-3-sonnet-20240229"
  const MaxTokens := 1024

  /** The arguments of `anthropic_client.messages.create`. */
  datatype ChatRequest = ChatRequest(
    model: string, maxTokens: nat, temperature: Option<real>, system: string, messages: seq<Message>)

  /** `conversation_history + [{"role": "user", "content": query}]`, with a
      missing history read as the empty list. */
  function ChatMessages(history: Option<seq<Message>>, query: string): (messages: seq<Message>)
    ensures var h := if history.Some? then history.value else [];
            && |messages| == |h| + 1
            && messages[..|h|] == h
            && messages[|h|] == Message(UserRole, query)
  {
    (if history.Some? then history.value else []) + [Message(UserRole, query)]
  }

  /** rag_app.py's request: temperature 0.7. */
  function RagAppChatRequest(system: string, query: string, history: Option<seq<Message>>): (r: ChatRequest)
    ensures r.model == ChatModel && r.maxTokens == MaxTokens && r.temperature == Some(0.7)
    ensures r.system == system && r.messages == ChatMessages(history, query)
  {
    ChatRequest(ChatModel, MaxTokens, Some(0.7), system, ChatMessages(history, query))
  }

  /** test.py's request: no temperature. */
  function TestChatRequest(system: string, query: string, history: Option<seq<Message>>): (r: ChatRequest)
    ensures r.model == ChatModel && r.maxTokens == MaxTokens && r.temperature.None?
    ensures r.system == system && r.messages == ChatMessages(history, query)
  {
    ChatRequest(ChatModel, MaxTokens, None, system, ChatMessages(history, query))
  }

  /** A block of the chat API's `content` list. */
  datatype ContentBlock = ContentBlock(text: string)

  /** What the chat API returns, reduced to its `content` list. */
  datatype ChatResponse = ChatResponse(content: seq<ContentBlock>)

  /** The string rag_app.py makes of the `content` list after the turn
      (lines 357-362): the blocks' texts joined by single spaces. */
  function JoinedText(blocks: seq<ContentBlock>): (r: string)
    ensures blocks == [] ==> r == ""
    ensures |blocks| == 1 ==> r == blocks[0].text
    ensures blocks != [] ==> StartsWith(r, blocks[0].text) && EndsWith(r, blocks[|blocks| - 1].text)
  {
    if blocks == [] then ""
    else if |blocks| == 1 then blocks[0].text
    else
      var front := JoinedText(blocks[..|blocks| - 1]);
      var last := blocks[|blocks| - 1].text;
      assert blocks[..|blocks| - 1][0] == blocks[0];
      assert (front + " " + last)[..|blocks[0].text|] == front[..|blocks[0].text|];
      EndsWithAppend(front + " ", last);
      front + " " + last
  }

  /** Where each of the first `n` texts starts in their join, and, last, one
      past its end: each text is followed by one separating space. */
  function Offsets(blocks: seq<ContentBlock>, n: nat): (o: seq<nat>)
    requires n <= |blocks|
    ensures |o| == n + 1 && o[0] == 0
  {
    if n == 0 then [0]
    else
      var p := Offsets(blocks, n - 1);
      p + [p[n - 1] + |blocks[n - 1].text| + 1]
  }

  /** `r` is the first `n` texts laid out at offsets `o`: `o[n]` is one past
      its end, every text is at its offset, and a single space follows every
      text but the last. */
  ghost predicate LaidOutAt(r: string, blocks: seq<ContentBlock>, o: seq<nat>, n: nat)
    requires n <= |blocks| && |o| == n + 1
  {
    && (n == 0 ==> r == "")
    && (n > 0 ==> |r| + 1 == o[n])
    && (forall k :: 0 <= k < n ==> o[k] + |blocks[k].text| <= |r|)
    && (forall k, j :: 0 <= k < n && 0 <= j < |blocks[k].text| ==> r[o[k] + j] == blocks[k].text[j])
    && (forall k :: 0 <= k < n - 1 ==> o[k] + |blocks[k].text| < |r| && r[o[k] + |blocks[k].text|] == ' ')
  }

  /** `r` is `" ".join` of the first `n` texts: as long as those texts plus one
      space between each two, every text at its offset, and a single space
      after every text but the last. */
  ghost predicate LaidOut(r: string, blocks: seq<ContentBlock>, n: nat)
    requires n <= |blocks|
  {
    LaidOutAt(r, blocks, Offsets(blocks, n), n)
  }

  /** The texts of a join laid out at offsets `o` stay in place when a space
      and one more text follow. */
  lemma SnocSegments(f: string, blocks: seq<ContentBlock>, o: seq<nat>, n: nat)
    requires 0 < n < |blocks| && |o| > n && o[n] == |f| + 1
    requires forall k :: 0 <= k < n ==> o[k] + |blocks[k].text| <= |f|
    requires forall k, j :: 0 <= k < n && 0 <= j < |blocks[k].text| ==> f[o[k] + j] == blocks[k].text[j]
    ensures forall k :: 0 <= k <= n ==> o[k] + |blocks[k].text| <= |f + " " + blocks[n].text|
    ensures forall k, j :: 0 <= k <= n && 0 <= j < |blocks[k].text| ==>
      (f + " " + blocks[n].text)[o[k] + j] == blocks[k].text[j]
  {
    var r := f + " " + blocks[n].text;
    forall k, j | 0 <= k <= n && 0 <= j < |blocks[k].text|
      ensures r[o[k] + j] == blocks[k].text[j]
    {
      if k < n {
        assert r[o[k] + j] == f[o[k] + j];
      }
    }
  }

  /** The separators of a join laid out at offsets `o` stay in place, and one
      more follows its last text. */
  lemma SnocSeparators(f: string, blocks: seq<ContentBlock>, o: seq<nat>, n: nat)
    requires 0 < n < |blocks| && |o| > n && o[n] == |f| + 1
    requires o[n - 1] + |blocks[n - 1].text| + 1 == o[n]
    requires forall k :: 0 <= k < n - 1 ==> o[k] + |blocks[k].text| < |f| && f[o[k] + |blocks[k].text|] == ' '
    ensures forall k :: 0 <= k < n ==>
      o[k] + |blocks[k].text| < |f + " " + blocks[n].text| && (f + " " + blocks[n].text)[o[k] + |blocks[k].text|] == ' '
  {
    var r := f + " " + blocks[n].text;
    forall k | 0 <= k < n
      ensures r[o[k] + |blocks[k].text|] == ' '
    {
      if k < n - 1 {
        assert r[o[k] + |blocks[k].text|] == f[o[k] + |blocks[k].text|];
      }
    }
  }

  /** One more space and text extend a join laid out at `o` by one block, at
      the offset one past the old end. */
  lemma LaidOutSnoc(f: string, blocks: seq<ContentBlock>, o: seq<nat>, n: nat)
    requires 0 < n < |blocks| && |o| == n + 1 && o[n] == o[n - 1] + |blocks[n - 1].text| + 1
    requires LaidOutAt(f, blocks, o, n)
    ensures LaidOutAt(f + " " + blocks[n].text, blocks, o + [o[n] + |blocks[n].text| + 1], n + 1)
  {
    var o' := o + [o[n] + |blocks[n].text| + 1];
    SnocSegments(f, blocks, o, n);
    SnocSeparators(f, blocks, o, n);
    assert forall k :: 0 <= k <= n ==> o'[k] == o[k];
  }

  /** The join of the first `n` texts is laid out. */
  lemma {:induction false} JoinedPrefixLayout(blocks: seq<ContentBlock>, n: nat)
    requires n <= |blocks|
    ensures LaidOut(JoinedText(blocks[..n]), blocks, n)
  {
    if n >= 2 {
      JoinedPrefixLayout(blocks, n - 1);
      assert blocks[..n][..n - 1] == blocks[..n - 1];
      var o := Offsets(blocks, n - 1);
      assert o[n - 1] == Offsets(blocks, n - 2)[n - 2] + |blocks[n - 2].text| + 1;
      assert o[n - 2] == Offsets(blocks, n - 2)[n - 2];
      LaidOutSnoc(JoinedText(blocks[..n - 1]), blocks, o, n - 1);
    } else if n == 1 {
      assert blocks[..1] == [blocks[0]];
    }
  }

  /** `JoinedText` is `" ".join` of the texts, laid out in full. */
  lemma JoinedTextLayout(blocks: seq<ContentBlock>)
    ensures LaidOut(JoinedText(blocks), blocks, |blocks|)
  {
    JoinedPrefixLayout(blocks, |blocks|);
    assert blocks[..|blocks|] == blocks;
  }

  /** Every position of a join of the first `n` texts is inside text `k` or
      is the space after it. */
  lemma {:induction false} FindBlock(blocks: seq<ContentBlock>, n: nat, i: nat) returns (k: nat)
    requires 0 < n <= |blocks| && i + 1 < Offsets(blocks, n)[n]
    ensures k < n && Offsets(blocks, n)[k] <= i <= Offsets(blocks, n)[k] + |blocks[k].text|
    ensures i == Offsets(blocks, n)[k] + |blocks[k].text| ==> k < n - 1
  {
    var o := Offsets(blocks, n);
    var p := Offsets(blocks, n - 1);
    assert o == p + [p[n - 1] + |blocks[n - 1].text| + 1];
    if i >= p[n - 1] {
      k := n - 1;
    } else {
      var q := Offsets(blocks, n - 2);
      assert p == q + [q[n - 2] + |blocks[n - 2].text| + 1];
      if i + 1 == p[n - 1] {
        k := n - 2;
      } else {
        k := FindBlock(blocks, n - 1, i);
      }
    }
  }

  /** The layout pins the join down: two strings laid out from the same texts are equal. */
  lemma LaidOutUnique(r1: string, r2: string, blocks: seq<ContentBlock>, n: nat)
    requires n <= |blocks| && LaidOut(r1, blocks, n) && LaidOut(r2, blocks, n)
    ensures r1 == r2
  {
    var o := Offsets(blocks, n);
    forall i | 0 <= i < |r1|
      ensures r1[i] == r2[i]
    {
      var k := FindBlock(blocks, n, i);
      if i < o[k] + |blocks[k].text| {
        assert r1[o[k] + (i - o[k])] == blocks[k].text[i - o[k]];
        assert r2[o[k] + (i - o[k])] == blocks[k].text[i - o[k]];
      }
    }
  }

  /** The reply text of a generation, None when the chat call failed. */
  function GeneratedText(generated: Option<seq<ContentBlock>>): (r: Option<string>)
    ensures r.Some? <==> generated.Some?
    ensures r.Some? ==> LaidOut(r.value, generated.value, |generated.value|)
  {
    if generated.Some? then JoinedTextLayout(generated.value); Some(JoinedText(generated.value)) else None
  }

  /** test.py's `response.content[0].text`, which raises IndexError on an empty list. */
  function FirstText(response: ChatResponse): (r: Result<string, PipelineError>)
    ensures r.Success? <==> response.content != []
    ensures r.Success? ==> r.value == response.content[0].text
    ensures r.Failure? ==> r.error == EmptyContent
  {
    if response.content == [] then Failure(EmptyContent) else Success(response.content[0].text)
  }

  // ---------------------------------------------------------------- the reply of a chat turn

  /** The assistant message a chat turn stores, given what retrieval returned and
      what generation produced (None when the chat call failed): nothing when
      either call failed, the fixed fallback when nothing was retrieved. */
  function AssistantReply(chunks: Result<seq<string>, PipelineError>, generated: Option<string>): (r: Option<string>)
    ensures r.Some? <==> chunks.Success? && (chunks.value == [] || generated.Some?)
    ensures chunks.Success? && chunks.value == [] ==> r == Some(NoRelevantInformation)
    ensures chunks.Success? && chunks.value != [] ==> r == generated
  {
    if chunks.Failure? then None
    else if chunks.value == [] then Some(NoRelevantInformation)
    else generated
  }

  /** What a chat turn appends to the conversation: the user's message and,
      when there is one, the assistant's after it. */
  function TurnMessages(query: string, reply: Option<string>): (added: seq<Message>)
    ensures |added| == if reply.Some? then 2 else 1
    ensures added[0] == Message(UserRole, query)
    ensures reply.Some? ==> added[1] == Message(AssistantRole, reply.value)
  {
    [Message(UserRole, query)] + if reply.Some? then [Message(AssistantRole, reply.value)] else []
  }

  /** The message list a chat turn sends: the query is already in the history
      when generate_response appends it again, so it ends with the query twice. */
  lemma SentMessagesRepeatQuery(history: seq<Message>, query: string)
    ensures var sent := ChatMessages(Some(history + [Message(UserRole, query)]), query);
            && |sent| == |history| + 2
            && sent[..|history|] == history
            && sent[|history|] == sent[|history| + 1] == Message(UserRole, query)
  {
    var h1 := history + [Message(UserRole, query)];
    var sent := ChatMessages(Some(h1), query);
    assert sent[..|h1|] == h1;
    assert sent[..|history|] == h1[..|history|];
  }
}
