# Enrique: a retrieval-augmented chat assistant, modelled in Dafny

The repository is a pair of Streamlit pages. `rag_app.py` has users register
and log in against a JSON file of bcrypt hashes, keeps each user's named
conversations, and answers each question by fetching snippets from the Ragie
retrieval service and asking Anthropic's chat API with a system prompt built
around them. `test.py` is a second page of the same shape with a single site
password, an admin panel that numbers conversations "Conversación 1", "Conversación 2", …,
and the same pipeline.

This project models the logic under the widgets:

- `Text`: Python's `str.strip()` (with Python's whitespace set), `str(int)`,
  `str.split('/')`, substring, prefix and suffix tests.
- `UrlParse`: the part of `urllib.parse.urlparse` that yields a URL's path.
- `Pipeline`: the `RAGPipeline` class both files define: the default document
  name, the upload payload, the `response.ok` check, the chunk-text extraction,
  both system-prompt templates, the chat request, and the reply a chat turn
  stores, including the text rag_app.py makes of the chat API's content
  blocks. Every HTTP response is a parameter; nothing calls the network.
- `UserStore`: `user_data.json` as a class whose one field is the file's state
  (missing, malformed, or a parsed map of username to
  `{password, conversations}`), with `ensure_user_data_file`,
  `load_user_data`, `save_user_data`, `register_user`, the decision of
  `check_login`, `save_conversation` and `preprocess_conversations`. bcrypt's
  `hashpw`/`checkpw` and the random salt are parameters.
- `RagApp`: rag_app.py's `st.session_state` as a class: login, conversation
  creation and selection, and the chat turn. It stores the reply as text,
  which is what rag_app.py:357-362 evidently intends.
- `ReplyStorage`: rag_app.py's chat turn as written, which stores the chat
  API's content-block list itself, and what that does to the next save (see
  "## Findings").
- `TestApp`: test.py's `st.session_state` as a class: the password gate, the
  numbered conversations (their names are proved always fresh), selection and
  the chat turn.

Behaviour the model makes explicit:

- A chat turn appends the user's message before generation, and
  `generate_response` appends the query again, so the message list sent to the
  chat API ends with the query twice (`Pipeline.SentMessagesRepeatQuery`).
- When retrieval or generation fails, the user's message is already in the
  conversation and no assistant message follows: the conversation grows by one.
- rag_app.py does not save after a chat turn (that call is commented out);
  conversations reach the file only when a conversation is created. As
  written, that save fails once any chat turn has stored a generated reply
  of at least one content block (see "## Findings").
- `load_user_data` resets a missing or malformed file to `{}`. `register_user`
  and `save_conversation` load first, so a refused registration or a save for
  an unknown user still heals a corrupt file.
- In test.py's `admin_interface`, the select box runs after the "Nueva
  Conversación" button in the same run, and its value becomes current, so the
  new conversation stays current only if the select box shows it.
- Both prompt f-strings open a quotation mark before the deflection sentence
  and never close it (the closing `"""` consumes it). The prompt still ends
  with the sentence.

Other facts of the code the model keeps: creating a conversation whose name
exists replaces it with an empty one, and there is no duplicate-name error.
Selecting a conversation can only pick an existing one, because the page
offers buttons for existing names only. The rag_app chat turn does not save
the conversation to the file.

`save_conversation` is defined twice in rag_app.py (lines 65-70 and 124-129),
with identical bodies; the second definition is the live one.

## Model

| member | source | states |
|---|---|---|
| Text.LeadingSpace | rag_app.py:107 | what `lstrip()` drops: every character before the count is whitespace, and the character after them, if any, is not |
| Text.TrailingSpace | rag_app.py:107 | what `rstrip()` drops: every character in the counted tail is whitespace, and the character before it, if any, is not |
| Text.Strip | rag_app.py:107 | `strip()` keeps the slice of `s` that starts after the leading whitespace and is followed by whitespace only; the result neither starts nor ends with whitespace; it is empty, which is what `not s.strip()` tests here and at rag_app.py:290, 337, 436 and test.py:141, exactly when every character is whitespace as Python defines it |
| Text.NatToDecimal | test.py:106 | `str(n)` is a non-empty string of digits without a leading zero: it starts with "0" only when it is "0", for n = 0 |
| Text.DecimalRoundTrip | test.py:106 | reading the digits of `str(n)` back gives `n` |
| Text.DecimalInjective | test.py:106 | distinct numbers render as distinct strings |
| Text.IntToDecimal | rag_app.py:58-59 | `str(i)` of an integer starts with "-" exactly when it is negative, and the digits after the sign are non-empty, have no leading zero (they are "0" if they start with "0") and read back as its magnitude |
| Text.SplitSlash | test.py:37 | `split('/')` gives at least one piece, no piece holds a slash, and the last piece is the text after the last slash |
| Text.SplitJoin | test.py:37 | joining the pieces of `split('/')` with slashes gives the string back |
| Text.LastSegment | test.py:37 | `split('/')[-1]` is the slash-free suffix that follows the last slash, or the whole string when it has none |
| UrlParse.FirstIndex | test.py:37 | the position of the first character from a set, or the end |
| UrlParse.SplitNetloc | test.py:37 | the network location holds no `/`, `?` or `#` (how it and the rest make up the input is `UrlParse.SplitNetlocParts`) |
| UrlParse.SplitSchemeParts | test.py:37 | the scheme is the lower-cased text before the first `:`, which starts with a letter and holds only scheme characters, and the rest is what follows that `:`; with no scheme the rest is the whole URL, and no scheme is found only when the URL does not start with a letter or every `:` after its first character has a non-scheme character before it |
| UrlParse.SplitNetlocParts | test.py:37 | with a leading `//`, the network location and the rest put together give what follows it, and the rest starts at `/`, `?` or `#`; without one, the network location is empty and the rest is the input |
| UrlParse.SplitOnceParts | test.py:37 | the text before the first occurrence of the delimiter, the delimiter and the text after it give back the input; without the delimiter everything is in the first part |
| UrlParse.SegmentStart | test.py:37 | where `_splitparams` starts looking for `;`: the path's last `/`, or its start when it has none |
| UrlParse.SplitParamsParts | test.py:37 | the path is cut into the part before a `;` and the params after it, with no `/` in the params, or the params are empty and the path is whole; it is cut whenever a `;` follows the last `/` |
| UrlParse.SplitParamsFirstCut | test.py:37 | the cut is at the first `;` after the last `/`: the part before the cut has no `;` from there on |
| UrlParse.Parse | test.py:37 | `urlparse(url).path` contains neither `?` nor `#` |
| Pipeline.DocumentName | test.py:36-37 | a non-empty given name is kept; otherwise the name is "document" when the URL's path is empty or ends with a slash, and else the last path segment: a slash-free suffix of the path that follows a slash or is the whole path; never empty |
| Pipeline.IsOk | test.py:47 | `response.ok` (also test.py:60 and rag_app.py:159, 173) is false exactly for a status from 400 to 599 |
| Pipeline.UploadDocument | test.py:35-50 | the payload carries the mode ("fast" unless one is given), the URL and the derived name; the response body is returned exactly when the status is not in 400-599, otherwise the failure carries the status and reason |
| Pipeline.ChunkTexts | test.py:64 | one text per scored chunk, in the same order |
| Pipeline.RetrieveChunks | test.py:52-64 | a successful response yields as many texts as scored chunks, in order, an empty list included; a failed one yields the status and reason |
| Pipeline.ListText | test.py:69 | the `{chunk_texts}` rendering of a list starts with "[" and ends with "]", is "[]" for no texts, and contains every text |
| Pipeline.RagAppPromptShape | rag_app.py:179-187 | rag_app.py's system prompt starts with its fixed persona text, contains every retrieved text, and ends with the deflection sentence "Todavía no tengo ese conocimiento, pero seguiré aprendiendo para poder ser de más ayuda pronto." |
| Pipeline.TestPromptShape | test.py:66-71 | test.py's system prompt starts with its own fixed text, contains every retrieved text, and ends with the same deflection sentence |
| Pipeline.ChatMessages | test.py:74-77 | the message list is the history (or `[]`) followed by exactly one user message with the query |
| Pipeline.RagAppChatRequest | rag_app.py:189-203 | rag_app.py asks model claude-3-sonnet-20240229 for up to 1024 tokens at temperature 0.7 with the given system prompt and message list |
| Pipeline.TestChatRequest | test.py:74-83 | test.py sends the same request without a temperature |
| Pipeline.JoinedText | rag_app.py:357-358 | the text made of the content blocks is empty for no blocks, the one block's text for one, and otherwise starts with the first block's text and ends with the last one's |
| Pipeline.JoinedTextLayout | rag_app.py:358 | `" ".join` of the blocks' texts in full: its length is the texts' lengths plus one space between each two, every text stands at its offset (the lengths of the texts before it, each plus one), and a single space follows every text but the last |
| Pipeline.LaidOutUnique | rag_app.py:358 | that layout determines the string: two strings laid out from the same texts are equal, so `JoinedText` is the only text meeting it |
| Pipeline.GeneratedText | rag_app.py:347-358 | a generation that succeeded gives a reply laid out as the space-separated join of its blocks' texts; a failed one gives none |
| TestApp.TestReply | test.py:144-152 | test.py's turn has a reply exactly when retrieval succeeded and either returned nothing or the chat call returned a non-empty content list; the reply is "No relevant information found." when nothing was retrieved and otherwise the first content block's text |
| Pipeline.FirstText | test.py:84 | the reply is the first content block's text; an empty content list is an error |
| Pipeline.AssistantReply | rag_app.py:344-354 | the stored reply is "No relevant information found." when nothing was retrieved, the generated text otherwise, and there is none when either call failed |
| Pipeline.TurnMessages | test.py:142-152 | a turn appends the user's message and then, when there is a reply, the assistant's |
| Pipeline.SentMessagesRepeatQuery | test.py:141-149 | the list sent during a chat turn is the old history followed by the query twice, two messages longer than the history |
| UserStore.LoadedUsers | rag_app.py:22-37 | a missing or malformed file reads as the empty store |
| UserStore.UserDataFile.EnsureExists | rag_app.py:15-19 | `{}` is written only when there is no file |
| UserStore.UserDataFile.Load | rag_app.py:22-37 | returns the parsed store, or `{}` for a missing or malformed file, and afterwards the file holds what was returned |
| UserStore.UserDataFile.Save | rag_app.py:40-49 | the file holds exactly the saved store |
| UserStore.Register | rag_app.py:106-118 | a blank username or password is refused without change; then a taken username is refused without change; otherwise exactly one key is added, with the hash and no conversations, and every other record is kept |
| UserStore.RegisterUser | rag_app.py:96-121 | the file ends up holding the loaded store after the registration decision, with the hash `hashpw(password, salt)` |
| UserStore.RegisterTwiceKeepsFirst | rag_app.py:111-113 | registering a name a second time is refused, changes nothing, and keeps the first hash |
| UserStore.Authenticate | rag_app.py:86-89 | login succeeds exactly when the username is in the store and `checkpw` accepts the password against its hash, and then yields that user's conversations |
| UserStore.RegisterThenAuthenticate | rag_app.py:116-117 | with a bcrypt whose hashes `checkpw` accepts, a fresh registration can log in with its password and starts with no conversations |
| UserStore.WithConversations | rag_app.py:124-129 | only the named user's conversations change; the hash, the other users and the key set are kept; an unknown user changes nothing |
| UserStore.SaveConversation | rag_app.py:124-129 | the file holds the loaded store with the user's conversations replaced |
| UserStore.SaveThenAuthenticate | rag_app.py:124-129 | what is saved is what the next successful login loads, messages and order included, and saving does not change which passwords are accepted |
| UserStore.PyStr | rag_app.py:58-59 | `str()` keeps a string, writes an integer in decimal with a sign exactly when it is negative and without a leading zero, and writes the constants as "True", "False" and "None" |
| UserStore.NormalizeMessage | rag_app.py:57-60 | a normalised message has exactly the keys "role" and "content", holding `str()` of the originals |
| UserStore.PreprocessConversations | rag_app.py:51-63 | fails exactly when some message lacks "role" or "content"; otherwise keeps every conversation name and, per conversation, the number and order of messages, each normalised |
| UserStore.PreprocessIdempotent | rag_app.py:51-63 | preprocessing the output of preprocessing changes nothing |
| UserStore.PreprocessedUnique | rag_app.py:51-63 | the preprocessed store is determined by its input |
| UserStore.SessionConversationsArePreprocessed | rag_app.py:51-63 | conversations made of string roles and contents pass through preprocessing unchanged |
| RagApp.Session.constructor | rag_app.py:75-77 | a session starts logged out, with no user, no conversations and none current |
| RagApp.Session.HasActiveConversation | rag_app.py:445 | a current conversation with a non-empty name, in a valid session, is one of a logged-in user's conversations |
| RagApp.Session.Login | rag_app.py:73-93 | a logged-out session becomes logged in, with the username and its conversations, exactly when `Authenticate` accepts, and stays as it was otherwise; a logged-in session is untouched; the page continues only if it was logged in before |
| RagApp.Session.CreateConversation | rag_app.py:433-442 | a blank name changes neither the session nor the file; any other name maps to `[]`, replacing an existing one, becomes current, the other conversations are kept, and the whole map is saved to the user's record |
| RagApp.Session.SelectConversation | rag_app.py:427-430 | the pressed conversation becomes current and nothing else changes |
| RagApp.Session.RecordTurn | rag_app.py:340-354 | the conversation gains the user's message and then, when there is a reply, the assistant's; nothing else changes |
| RagApp.Session.ChatTurn | rag_app.py:336-362 | a blank query changes nothing; otherwise only the current conversation changes: it gains the user's message and then, unless a call failed, the assistant's, stored as the text of the content blocks joined by spaces; the chat API is asked exactly when retrieval succeeded with some texts, with the rag_app prompt and the query repeated |
| TestApp.ConversationNameShape | test.py:106 | a conversation name is "Conversación " followed by at least one digit, and the digits read back as the number |
| TestApp.ConversationNameInjective | test.py:106 | distinct numbers give distinct "Conversación N" names |
| TestApp.NextNameIsFresh | test.py:105-108 | "Conversación n+1" is not among "Conversación 1" to "Conversación n" |
| TestApp.Session.constructor | test.py:11-12 | a session starts unverified, not in admin mode, with no conversations |
| TestApp.Session.CheckPassword | test.py:9-23 | the verified flag and admin mode are set together, only on an unverified session and only when the input equals the configured password; otherwise both stay; the page continues only if the session was verified before |
| TestApp.Session.NewConversation | test.py:105-108 | with n conversations, the new key is "Conversación n+1", it was not present, it maps to `[]` and becomes current; the keys stay exactly "Conversación 1" to "Conversación n+1" |
| TestApp.Session.SelectConversation | test.py:110-116 | the selected existing conversation becomes current |
| TestApp.Session.AdminInterface | test.py:103-116 | after an optional press, whenever any conversation exists the select box's value becomes current, overriding the one the press made current |
| TestApp.Session.RecordTurn | test.py:142-152 | the conversation gains the user's message and then, when there is a reply, the assistant's; the names and everything else stay |
| TestApp.Session.ChatTurn | test.py:121-152 | without a current conversation or with a blank query nothing changes; otherwise the current conversation gains the user's message and then, unless retrieval, the chat call or `content[0]` failed, the assistant's; other conversations are kept; the chat API is asked exactly when retrieval succeeded with some texts, with the test.py prompt and the query repeated |
| ReplyStorage.AsWrittenReply | rag_app.py:344-354 | as written, the assistant content is the fallback string when nothing was retrieved and the content-block list itself when a reply was generated; none when a call failed |
| ReplyStorage.AsWrittenTurn | rag_app.py:340-354 | as written, only the current conversation changes; it keeps its messages and gains the user's message and then, when there is one, the assistant content |
| ReplyStorage.AsWrittenSaveConversation | rag_app.py:124-129 | as written, saving for a known user leaves a file `json.load` rejects exactly when some message holds a non-empty content-block list, and otherwise stores the conversations, converted to strings, in place of the user's; an unknown user leaves the loaded store |
| ReplyStorage.StoredText | rag_app.py:43-44 | a string content is stored as itself and an empty block list, which `json.dump` writes as `[]`, as "[]" |
| ReplyStorage.GeneratedReplyBreaksNextSave | rag_app.py:40-49 | after a turn that stored a generated reply of at least one content block, saving with a new, non-blank conversation name added (rag_app.py:436-439) leaves the file unreadable, and afterwards no username and password logs in |
| ReplyStorage.EmptyReplySaves | rag_app.py:40-49 | after a turn whose generated reply has no content block, the same save succeeds, and exactly the username and password pairs accepted before are accepted after it |
| ReplyStorage.LiftIsStored | rag_app.py:43-44 | conversations of strings are encodable and come back unchanged from the stored form |
| ReplyStorage.TextRepliesSaveIntact | rag_app.py:124-129 | with replies stored as text, the same save writes the loaded store with the user's conversations replaced, as `UserStore.SaveConversation` promises |

## Left out

- Streamlit rendering: widgets, CSS, `st.markdown`, spinners, and the success and error banners. Each handler method stands for one button press or form submission.
- The HTTP calls and the Anthropic client are network I/O. Their responses are parameters. The endpoint URLs, the request headers and API keys are not modelled, nor is the retrieval request body `{"query": query}`.
- bcrypt is a foreign cryptographic library. `hashpw`, `checkpw` and the salt are parameters.
- JSON reading and writing is modelled only as "missing", "malformed" or "parsed". An I/O error inside `save_user_data` and the `try`/`except` around it in `register_user` (rag_app.py:115-121) are not modelled.
- A stored record without a "password" key raises KeyError at login, and one without "conversations" logs in with `{}`. The model's records always have both fields.
- `preprocess_conversations` handles only scalar JSON values (string, integer, boolean, null). Floats, nested lists or objects, and messages that are not objects are not modelled.
- UrlParse.Parse: the ValueErrors that `urlsplit` raises are not modelled: for unbalanced IPv6 brackets, for an invalid bracketed host (`_check_bracketed_netloc`), and from its NFKC check on the network location.
- Pipeline.ListText: the list is written as `['a', 'b']`. Python's `repr` quoting and escaping for texts that contain quotes, backslashes or unprintable characters is not reproduced, so the prompt lemmas `Pipeline.RagAppPromptShape` and `Pipeline.TestPromptShape` show each text verbatim only in this rendering.
- Pipeline.RetrieveChunks: a successful response is taken to be JSON with a `"scored_chunks"` list whose entries all have a `"text"`. The ValueError of `response.json()` on a body that is not JSON (test.py:63) and the KeyError for a missing key (test.py:64) are not modelled. A chat turn treats them like a failed retrieval, which `ChatTurn` covers.
- Pipeline.UploadDocument: the ValueError of `response.json()` on a successful response whose body is not JSON (test.py:50) is not modelled; the body is a parameter.
- Pipeline.FirstText: every content block is taken to have a `.text`. The AttributeError for a block without one (test.py:84) is not modelled. A chat turn treats it like a failed chat call, which `ChatTurn` covers.
- UserStore.LoadedUsers: a file holding valid JSON that is not an object, such as `null` or a list, is not modelled. `load_user_data` returns it, and the `username in user_data` test then raises TypeError (rag_app.py:86) or matches list items.
- RagApp.Session.ChatTurn: it stores the text of the content blocks, as rag_app.py:357-362 evidently intend. As written, the turn appends the block list itself (rag_app.py:209-210, 354), and `ReplyStorage` models that; the `completion` branch of the `hasattr` probing (rag_app.py:211-212) is not modelled.
- RagApp.Session.CreateConversation: it promises that the whole map is saved, which holds for conversations of strings. As written, once a turn has stored a generated reply of at least one content block, `json.dump` raises part-way through writing the file, and the next load resets it to `{}`. `ReplyStorage.GeneratedReplyBreaksNextSave` states this; see "## Findings".
- ReplyStorage.AsWrittenSaveConversation: an empty content-block list is written as the JSON list `[]`. The model's file holds strings only, so it records that content as the text "[]", which is how the chat page shows it (rag_app.py:309, 317); that a later login loads a list rather than a string is not modelled.
- Logging, `st.secrets`, the construction of the pipeline, `load_documents` (used only by commented-out code), the commented-out blocks of rag_app.py, and test.py's unused `document_sets`.
- Python dictionaries keep insertion order, but the model's maps do not. The order in which conversation buttons and select-box options are listed is not modelled. `preprocess_conversations` visits the names in an arbitrary order, which does not change its result.
- The choice between the Login and Register pages in rag_app.py's `main`.
- Two sessions writing `user_data.json` at once can overwrite each other's changes. Concurrency is not modelled.
- The conversation-creation block inside rag_app.py's `chat_interface` (lines 286-297) has the same body as the sidebar's, which `RagApp.Session.CreateConversation` models. `main` calls `chat_interface` only when a conversation is current, so that block never runs.

## Findings

| source | as written | input that shows it | evidently intended | confidence | as-written member | corrected member |
|---|---|---|---|---|---|---|
| rag_app.py:347-362 | the chat turn appends `response`, the chat API's list of content blocks (rag_app.py:209-210), and converts it to text only afterwards in a local variable; the next `save_conversation` opens user_data.json for writing and `json.dump` (rag_app.py:43-44) raises TypeError at the first block, so the file is left truncated and the next load resets it to `{}`, deleting every account | register, log in, create conversation "A", send a query whose retrieval returns chunks and whose generation returns at least one content block, then create conversation "B" | store the joined text of lines 357-362 as the assistant's content, so that every save writes valid JSON | not executed | ReplyStorage.GeneratedReplyBreaksNextSave | ReplyStorage.TextRepliesSaveIntact |

`RagApp.Session.ChatTurn` stores the corrected reply, `Pipeline.JoinedText` of
the blocks; `ReplyStorage.TextRepliesSaveIntact` proves that saving
conversations of strings writes what `UserStore.SaveConversation` promises.
