/**
 * `ChatWithAI.execute`: one chat turn. The user's message is saved, the user's
 * whole history is rendered into a text prompt, the generator is called with
 * it, and the reply is saved as an AI message and returned.
 */
module ChatTurn {
  import opened Wrappers
  import Strings
  import opened ChatMessages
  import opened Gemini

  /** One history message as a prompt line: `SENDER: text`. */
  function HistoryLine(m: ChatMessage): (line: string)
  {
    SenderLabel(m.sender) + ": " + m.text
  }

  /** The prompt lines of a history, one per message and in the same order. */
  function HistoryLines(h: seq<ChatMessage>): (lines: seq<string>)
    ensures |lines| == |h|
    ensures forall i :: 0 <= i < |h| ==> lines[i] == HistoryLine(h[i])
  {
    if h == [] then [] else [HistoryLine(h[0])] + HistoryLines(h[1..])
  }

  /** The rendered history: its lines joined by newlines. */
  function Context(h: seq<ChatMessage>): (context: string)
  {
    Strings.Join(HistoryLines(h), "\n")
  }

  /** The prompt sent to the generator for `message` after history `h`. */
  function Prompt(h: seq<ChatMessage>, message: string): (p: string)
    ensures p == Context(h) + "\nUSER: " + message + "\nAI:"
    ensures |p| >= 3 && p[|p| - 3..] == "AI:"
  {
    Context(h) + "\nUSER: " + message + "\nAI:"
  }

  /**
   * The lines the prompt is made of: every history line (a single empty line
   * when there is no history), then the new message, then the `AI:` cue.
   */
  function PromptLines(h: seq<ChatMessage>, message: string): (lines: seq<string>)
    ensures |lines| >= 3 && lines[|lines| - 2..] == ["USER: " + message, "AI:"]
  {
    (if h == [] then [""] else HistoryLines(h)) + ["USER: " + message, "AI:"]
  }

  lemma {:induction false} JoinSnoc(parts: seq<string>, x: string, sep: string)
    requires |parts| >= 1
    ensures Strings.Join(parts + [x], sep) == Strings.Join(parts, sep) + sep + x
  {
    if |parts| > 1 {
      assert (parts + [x])[1..] == parts[1..] + [x];
      JoinSnoc(parts[1..], x, sep);
    }
  }

  /**
   * The prompt is exactly its lines joined by newlines: the whole history, with
   * nothing cut off and no other entry, then the new message and the cue.
   */
  lemma PromptIsJoinedLines(h: seq<ChatMessage>, message: string)
    ensures Prompt(h, message) == Strings.Join(PromptLines(h, message), "\n")
  {
    var first := if h == [] then [""] else HistoryLines(h);
    assert Strings.Join(first, "\n") == Context(h);
    JoinSnoc(first, "USER: " + message, "\n");
    JoinSnoc(first + ["USER: " + message], "AI:", "\n");
    assert first + ["USER: " + message] + ["AI:"] == PromptLines(h, message);
  }

  /** No message text and not the new message contain a newline. */
  predicate SingleLineTexts(h: seq<ChatMessage>, message: string)
  {
    '\n' !in message && forall m :: m in h ==> '\n' !in m.text
  }

  /** With single-line texts, splitting the prompt at newlines gives back exactly its lines. */
  lemma PromptSplitsIntoLines(h: seq<ChatMessage>, message: string)
    requires SingleLineTexts(h, message)
    ensures Strings.Split(Prompt(h, message), '\n') == PromptLines(h, message)
    ensures |Strings.Split(Prompt(h, message), '\n')| == (if h == [] then 1 else |h|) + 2
  {
    var lines := PromptLines(h, message);
    forall k | 0 <= k < |lines| ensures '\n' !in lines[k] {
      if k < |lines| - 2 && h != [] {
        assert h[k] in h;
      }
    }
    PromptIsJoinedLines(h, message);
    Strings.SplitJoin(lines, '\n');
  }

  /**
   * When the history already holds the user's message, the prompt carries the
   * line `USER: message` at least twice: once as history, once as the new turn.
   */
  lemma MessageLineRepeated(h: seq<ChatMessage>, u: ChatMessage)
    requires u in h && u.sender == User
    ensures multiset(PromptLines(h, u.text))["USER: " + u.text] >= 2
  {
    var i :| 0 <= i < |h| && h[i] == u;
    var lines := HistoryLines(h);
    assert lines[i] == "USER: " + u.text;
    assert multiset(lines)["USER: " + u.text] >= 1;
    assert PromptLines(h, u.text) == lines + ["USER: " + u.text] + ["AI:"];
  }

  /** The prompt of a turn: the history read right after saving `u`, and `u`'s text. */
  function TurnPrompt(rows: seq<ChatMessage>, u: ChatMessage): (p: string)
    ensures p == Strings.Join(PromptLines(History(rows + [u], u.userId), u.text), "\n")
  {
    var h := History(rows + [u], u.userId);
    PromptIsJoinedLines(h, u.text);
    Prompt(h, u.text)
  }

  /** The saved user message is among the history lines and is the trailing USER line as well. */
  lemma TurnPromptRepeatsMessage(rows: seq<ChatMessage>, u: ChatMessage)
    requires u.sender == User
    ensures TurnPrompt(rows, u) == Strings.Join(PromptLines(History(rows + [u], u.userId), u.text), "\n")
    ensures multiset(PromptLines(History(rows + [u], u.userId), u.text))["USER: " + u.text] >= 2
  {
    var h := History(rows + [u], u.userId);
    SavedMessageInHistory(rows, u);
    MessageLineRepeated(h, u);
  }

  /** The generator the use case calls: `generateText` under the given environment and exchange. */
  function Generator(apiKey: Option<string>, aiModelName: Option<string>,
                     fetch: Request -> Response): (generate: string -> Result<string, GenerateError>)
    ensures forall prompt :: generate(prompt) == GenerateText(apiKey, aiModelName, prompt, fetch)
    ensures !Strings.Truthy(apiKey) ==> forall prompt :: generate(prompt) == Err(MissingApiKey)
    ensures forall prompt :: generate(prompt).Ok? ==> generate(prompt).value != ""
  {
    prompt => GenerateText(apiKey, aiModelName, prompt, fetch)
  }

  /**
   * Without an API key every turn fails with the configuration error, so (by
   * `ChatWithAI.Execute`) only the USER message is saved.
   */
  lemma TurnWithoutKeyFails(rows: seq<ChatMessage>, u: ChatMessage, aiModelName: Option<string>,
                            fetch: Request -> Response)
    ensures Generator(None, aiModelName, fetch)(TurnPrompt(rows, u)) == Err(MissingApiKey)
    ensures Generator(Some(""), aiModelName, fetch)(TurnPrompt(rows, u)) == Err(MissingApiKey)
  {
  }

  /** The use case, holding its repository and a source of fresh message ids (`uuidv4`). */
  class ChatWithAI {
    const store: ChatMessageStore
    var nextId: nat

    /** Every id drawn from now on differs from every stored id. */
    ghost predicate Valid()
      reads this, store
    {
      forall m :: m in store.rows ==> m.id < nextId
    }

    constructor (store: ChatMessageStore, firstFreshId: nat)
      requires forall m :: m in store.rows ==> m.id < firstFreshId
      ensures this.store == store && Valid()
    {
      this.store := store;
      nextId := firstFreshId;
    }

    /** `uuidv4()`: an id not used before. */
    method FreshId() returns (id: nat)
      requires Valid()
      modifies this
      ensures Valid()
      ensures id == old(nextId) && nextId == id + 1
      ensures forall m :: m in store.rows ==> m.id != id
    {
      id := nextId;
      nextId := nextId + 1;
    }

    /**
     * The first half of `execute`: the USER message is saved, the user's history
     * is read back and rendered into the prompt.
     */
    method SaveUserMessage(userId: nat, message: string, userAt: nat)
      returns (u: ChatMessage, prompt: string)
      requires Valid()
      modifies this, store
      ensures Valid()
      ensures u == ChatMessage(old(nextId), userId, message, User, userAt)
      ensures nextId == old(nextId) + 1
      ensures store.rows == old(store.rows) + [u]
      ensures prompt == TurnPrompt(old(store.rows), u)
    {
      ghost var before := store.rows;
      var userMessageId := FreshId();
      u := ChatMessage(userMessageId, userId, message, User, userAt);
      var _ := store.Save(u);
      assert Valid();
      var history := store.FindByUserId(userId);
      prompt := Prompt(history, message);
      assert prompt == TurnPrompt(before, u);
    }

    /**
     * `execute(userId, message)`, with `generateText` as the parameter `generate`
     * (the application's is `Generator(apiKey, aiModelName, fetch)`) and the two
     * clock readings as parameters. The store gains the USER message and then, only
     * when the generator answers, the AI message, which is returned.
     */
    method Execute(userId: nat, message: string,
                   generate: string -> Result<string, GenerateError>,
                   userAt: nat, aiAt: nat)
      returns (r: Result<ChatMessage, GenerateError>)
      requires Valid()
      modifies this, store
      ensures Valid()
      ensures var u := ChatMessage(old(nextId), userId, message, User, userAt);
        var reply := generate(TurnPrompt(old(store.rows), u));
        && (reply.Err? ==> r == Err(reply.error) && store.rows == old(store.rows) + [u])
        && (reply.Ok? ==>
              var ai := ChatMessage(old(nextId) + 1, userId, reply.value, Ai, aiAt);
              r == Ok(ai) && store.rows == old(store.rows) + [u] + [ai])
      ensures forall m :: m in old(store.rows) ==> m.id != old(nextId) && m.id != old(nextId) + 1
    {
      ghost var before := store.rows;
      var userMessage, prompt := SaveUserMessage(userId, message, userAt);

      var reply := generate(prompt);
      if reply.Err? {
        return Err(reply.error);
      }

      var aiMessageId := FreshId();
      assert aiMessageId == old(nextId) + 1;
      var aiMessage := ChatMessage(aiMessageId, userId, reply.value, Ai, aiAt);
      var _ := store.Save(aiMessage);
      assert Valid();
      assert store.rows == before + [userMessage] + [aiMessage];
      r := Ok(aiMessage);
    }
  }
}
