/** rag_app.py's user store: the file user_data.json, holding for each
    username a bcrypt hash and that user's conversations, and the functions
    that read and rewrite it. bcrypt is not modelled: `hashpw` and `checkpw`
    are parameters, and so is the salt `gensalt()` draws at random. */
module UserStore {
  import opened Wrappers
  import opened Text
  import opened Pipeline

  /** Conversation name to its messages, oldest first. */
  type Conversations = map<string, seq<Message>>

  /** `{"password": <bcrypt hash>, "conversations": {...}}`. */
  datatype UserRecord = UserRecord(password: string, conversations: Conversations)

  type Users = map<string, UserRecord>

  /** What is on disk: no file, a file that is not valid JSON, or a parsed store. */
  datatype FileState = Missing | Corrupt | Stored(users: Users)

  /** What `load_user_data` returns: the parsed store, or `{}` when the file is
      missing or malformed. */
  function LoadedUsers(f: FileState): (users: Users)
    ensures f.Stored? ==> users == f.users
    ensures !f.Stored? ==> users == map[]
  {
    if f.Stored? then f.users else map[]
  }

  class UserDataFile {
    var contents: FileState

    constructor (initial: FileState)
      ensures contents == initial
    {
      contents := initial;
    }

    /** `ensure_user_data_file`: writes `{}` when there is no file, and only then. */
    method EnsureExists()
      modifies this
      ensures contents == if old(contents).Missing? then Stored(map[]) else old(contents)
    {
      if contents.Missing? {
        contents := Stored(map[]);
      }
    }

    /** `load_user_data`: a missing or malformed file is reset to `{}`, so that
        afterwards the file always holds what was returned. */
    method Load() returns (users: Users)
      modifies this
      ensures users == LoadedUsers(old(contents))
      ensures contents == Stored(users)
    {
      match contents {
        case Stored(u) =>
          users := u;
        case _ =>
          users := map[];
          contents := Stored(map[]);
      }
    }

    /** `save_user_data`: the whole store is written back. */
    method Save(users: Users)
      modifies this
      ensures contents == Stored(users)
    {
      contents := Stored(users);
    }
  }

  // ---------------------------------------------------------------- register_user

  datatype RegisterOutcome = Registered | EmptyCredentials | UsernameTaken

  /** The decision of `register_user` on the loaded store: a blank username or
      password is refused, then a taken username; otherwise exactly one record
      is added, with the given hash and no conversations. */
  function Register(users: Users, username: string, password: string, hashed: string)
    : (r: (RegisterOutcome, Users))
    ensures IsBlank(username) || IsBlank(password) ==> r == (EmptyCredentials, users)
    ensures !IsBlank(username) && !IsBlank(password) && username in users ==> r == (UsernameTaken, users)
    ensures !IsBlank(username) && !IsBlank(password) && username !in users ==>
              && r.0 == Registered
              && r.1.Keys == users.Keys + {username}
              && r.1[username] == UserRecord(hashed, map[])
              && forall u :: u in users ==> r.1[u] == users[u]
  {
    if IsBlank(username) || IsBlank(password) then (EmptyCredentials, users)
    else if username in users then (UsernameTaken, users)
    else (Registered, users[username := UserRecord(hashed, map[])])
  }

  /** `register_user` on a submitted form. The file is created and loaded
      before the form is checked, so a missing or malformed file is reset to
      `{}` even when the registration is refused. */
  method RegisterUser(file: UserDataFile, username: string, password: string,
                      hashpw: (string, string) -> string, salt: string)
    returns (outcome: RegisterOutcome)
    modifies file
    ensures outcome == Register(LoadedUsers(old(file.contents)), username, password, hashpw(password, salt)).0
    ensures file.contents == Stored(Register(LoadedUsers(old(file.contents)), username, password, hashpw(password, salt)).1)
  {
    file.EnsureExists();
    var users := file.Load();
    if IsBlank(username) || IsBlank(password) {
      return EmptyCredentials;
    }
    if username in users {
      return UsernameTaken;
    }
    var hashed := hashpw(password, salt);
    users := users[username := UserRecord(hashed, map[])];
    file.Save(users);
    outcome := Registered;
  }

  /** Registering a name a second time is refused and keeps the first hash. */
  lemma RegisterTwiceKeepsFirst(users: Users, username: string, p1: string, h1: string, p2: string, h2: string)
    requires Register(users, username, p1, h1).0 == Registered
    ensures var after := Register(users, username, p1, h1).1;
            && Register(after, username, p2, h2).0 != Registered
            && Register(after, username, p2, h2).1 == after
            && after[username].password == h1
  {
  }

  // ---------------------------------------------------------------- check_login

  /** The test in `check_login`: the user's conversations when the username is
      in the store and `checkpw` accepts the password against its hash,
      nothing otherwise (and the two failures are not told apart). */
  function Authenticate(users: Users, username: string, password: string, checkpw: (string, string) -> bool)
    : (r: Option<Conversations>)
    ensures r.Some? <==> username in users && checkpw(password, users[username].password)
    ensures r.Some? ==> r.value == users[username].conversations
  {
    if username in users && checkpw(password, users[username].password)
    then Some(users[username].conversations)
    else None
  }

  /** With a hash function whose hashes `checkpw` accepts, a user who has just
      registered can log in with the same password and starts with no conversations. */
  lemma RegisterThenAuthenticate(users: Users, username: string, password: string, salt: string,
                                 hashpw: (string, string) -> string, checkpw: (string, string) -> bool)
    requires forall p, s :: checkpw(p, hashpw(p, s))
    requires Register(users, username, password, hashpw(password, salt)).0 == Registered
    ensures Authenticate(Register(users, username, password, hashpw(password, salt)).1, username, password, checkpw)
         == Some(map[])
  {
    assert checkpw(password, hashpw(password, salt));
  }

  // ---------------------------------------------------------------- save_conversation

  /** The store after `save_conversation`: the named user's conversations are
      replaced and nothing else changes; an unknown (or absent) user changes nothing. */
  function WithConversations(users: Users, username: Option<string>, conversations: Conversations)
    : (r: Users)
    ensures r.Keys == users.Keys
    ensures forall u :: u in users && username != Some(u) ==> r[u] == users[u]
    ensures username.Some? && username.value in users ==>
              r[username.value] == UserRecord(users[username.value].password, conversations)
    ensures !(username.Some? && username.value in users) ==> r == users
  {
    if username.Some? && username.value in users then
      users[username.value := users[username.value].(conversations := conversations)]
    else users
  }

  /** `save_conversation`: load, replace the user's conversations, save. The
      file is rewritten only when the user exists, but loading alone already
      resets a missing or malformed file to `{}`. */
  method SaveConversation(file: UserDataFile, username: Option<string>, conversations: Conversations)
    modifies file
    ensures file.contents == Stored(WithConversations(LoadedUsers(old(file.contents)), username, conversations))
  {
    var users := file.Load();
    if username.Some? && username.value in users {
      users := users[username.value := users[username.value].(conversations := conversations)];
      file.Save(users);
    }
  }

  /** What is saved is what the next login loads, messages and order included,
      and saving never changes whether a password is accepted. */
  lemma SaveThenAuthenticate(users: Users, username: string, conversations: Conversations,
                             password: string, checkpw: (string, string) -> bool)
    requires username in users
    ensures Authenticate(WithConversations(users, Some(username), conversations), username, password, checkpw)
         == if checkpw(password, users[username].password) then Some(conversations) else None
  {
  }

  // ---------------------------------------------------------------- preprocess_conversations

  /** The JSON scalars a loaded message field may hold (floats, lists and objects are not modelled). */
  datatype Value = Str(s: string) | Int(i: int) | Bool(b: bool) | Null

  /** Python's `str(value)` for those scalars: a string is kept as it is, an
      integer is written in decimal, and the constants by their Python names. */
  function PyStr(v: Value): (r: string)
    ensures v.Str? ==> r == v.s
    ensures v.Int? ==> |r| >= 1 && (r[0] == '-' <==> v.i < 0)
    ensures v.Int? ==> var digits := if v.i < 0 then r[1..] else r;
              && |digits| >= 1 && (digits[0] == '0' ==> digits == "0")
              && (forall k :: 0 <= k < |digits| ==> IsDigit(digits[k]))
              && DecimalValue(digits) == if v.i < 0 then -v.i else v.i
    ensures v.Bool? ==> r == if v.b then "True" else "False"
    ensures v.Null? ==> r == "None"
  {
    match v
    case Str(s) => s
    case Int(i) => IntToDecimal(i)
    case Bool(b) => if b then "True" else "False"
    case Null => "None"
  }

  /** A message as loaded from JSON: any keys, any values. */
  type RawMessage = map<string, Value>

  type RawConversations = map<string, seq<RawMessage>>

  predicate HasRoleAndContent(m: RawMessage) {
    "role" in m && "content" in m
  }

  /** The message `preprocess_conversations` builds from one loaded message. */
  function NormalizeMessage(m: RawMessage): (r: RawMessage)
    requires HasRoleAndContent(m)
    ensures r.Keys == {"role", "content"}
    ensures r["role"] == Str(PyStr(m["role"])) && r["content"] == Str(PyStr(m["content"]))
  {
    map["role" := Str(PyStr(m["role"])), "content" := Str(PyStr(m["content"]))]
  }

  predicate WellFormedConversation(messages: seq<RawMessage>) {
    forall i :: 0 <= i < |messages| ==> HasRoleAndContent(messages[i])
  }

  /** Every message of every conversation has both keys: otherwise the
      `message["role"]` or `message["content"]` lookup raises KeyError. */
  predicate WellFormed(conversations: RawConversations) {
    forall name :: name in conversations ==> WellFormedConversation(conversations[name])
  }

  /** `out` is `messages` normalised one by one: same length, same order. */
  predicate NormalizedConversation(messages: seq<RawMessage>, out: seq<RawMessage>) {
    && WellFormedConversation(messages)
    && |out| == |messages|
    && forall i :: 0 <= i < |messages| ==> out[i] == NormalizeMessage(messages[i])
  }

  /** `out` is what `preprocess_conversations(conversations)` returns: the same
      conversation names, each conversation normalised message by message. */
  predicate Preprocessed(conversations: RawConversations, out: RawConversations) {
    && out.Keys == conversations.Keys
    && forall name :: name in conversations ==> NormalizedConversation(conversations[name], out[name])
  }

  /** `preprocess_conversations`: None stands for the KeyError raised by a
      message without "role" or "content". */
  method PreprocessConversations(conversations: RawConversations) returns (r: Option<RawConversations>)
    ensures r.Some? <==> WellFormed(conversations)
    ensures r.Some? ==> Preprocessed(conversations, r.value)
  {
    var processed: RawConversations := map[];
    var pending := conversations.Keys;
    while pending != {}
      invariant pending <= conversations.Keys
      invariant processed.Keys == conversations.Keys - pending
      invariant forall name :: name in processed ==> NormalizedConversation(conversations[name], processed[name])
      decreases pending
    {
      var name :| name in pending;
      var messages := conversations[name];
      var out: seq<RawMessage> := [];
      var i := 0;
      while i < |messages|
        invariant 0 <= i <= |messages|
        invariant NormalizedConversation(messages[..i], out)
      {
        var message := messages[i];
        if !HasRoleAndContent(message) {
          assert !WellFormedConversation(conversations[name]);
          return None;
        }
        out := out + [NormalizeMessage(message)];
        i := i + 1;
      }
      assert messages[..i] == messages;
      processed := processed[name := out];
      pending := pending - {name};
    }
    r := Some(processed);
  }

  /** A preprocessed store is its own preprocessing: running
      `preprocess_conversations` a second time changes nothing. */
  lemma PreprocessIdempotent(conversations: RawConversations, out: RawConversations)
    requires Preprocessed(conversations, out)
    ensures WellFormed(out)
    ensures Preprocessed(out, out)
  {
    forall name | name in out
      ensures NormalizedConversation(out[name], out[name])
    {
      var messages := conversations[name];
      assert NormalizedConversation(messages, out[name]);
      forall i | 0 <= i < |out[name]|
        ensures HasRoleAndContent(out[name][i]) && out[name][i] == NormalizeMessage(out[name][i])
      {
        var n := NormalizeMessage(messages[i]);
        assert out[name][i] == n;
        assert NormalizeMessage(n) == n;
      }
    }
  }

  /** The preprocessing of a store is determined by it. */
  lemma PreprocessedUnique(conversations: RawConversations, a: RawConversations, b: RawConversations)
    requires Preprocessed(conversations, a) && Preprocessed(conversations, b)
    ensures a == b
  {
    forall name | name in a
      ensures a[name] == b[name]
    {
      assert NormalizedConversation(conversations[name], a[name]);
      assert NormalizedConversation(conversations[name], b[name]);
    }
  }

  /** A session message written out as JSON. */
  function ToRaw(m: Message): RawMessage {
    map["role" := Str(m.role), "content" := Str(m.content)]
  }

  function ConversationsToRaw(conversations: Conversations): RawConversations {
    map name | name in conversations :: seq(|conversations[name]|, i requires 0 <= i < |conversations[name]| => ToRaw(conversations[name][i]))
  }

  /** Conversations made of string roles and contents, as the chat pages
      build them, come out of `preprocess_conversations` unchanged. */
  lemma SessionConversationsArePreprocessed(conversations: Conversations)
    ensures Preprocessed(ConversationsToRaw(conversations), ConversationsToRaw(conversations))
  {
    var raw := ConversationsToRaw(conversations);
    forall name | name in raw
      ensures NormalizedConversation(raw[name], raw[name])
    {
      forall i | 0 <= i < |raw[name]|
        ensures HasRoleAndContent(raw[name][i]) && raw[name][i] == NormalizeMessage(raw[name][i])
      {
        assert raw[name][i] == ToRaw(conversations[name][i]);
      }
    }
  }
}
