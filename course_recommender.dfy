/**
 * The AI course recommender: the badge list rendered into the advisor prompt,
 * the two chat messages sent for a question, and the transcript / loading /
 * input state machine of `sendQuery`.
 *
 * The HTTP request is not modelled: `Ask` returns the messages it would send,
 * and `Settle` takes the outcome of the request as a `Response` value.
 */
module CourseRecommender {
  import opened Wrappers
  import opened Strings
  import opened LocalStorageUtil

  // ---------------------------------------------------------------------
  // existingBadges

  /** One badge as a list line: `- name: description`. The name and the
      description can be read back at fixed offsets. */
  function BadgeLine(n: NFT): (line: string)
    ensures |line| == 4 + |n.name| + |n.description|
    ensures line[..2] == "- " && line[2 + |n.name|..4 + |n.name|] == ": "
    ensures line[2..2 + |n.name|] == n.name && line[4 + |n.name|..] == n.description
  {
    "- " + n.name + ": " + n.description
  }

  /** The badge lines, in wallet order. */
  function BadgeLines(nfts: seq<NFT>): (lines: seq<string>)
    ensures |lines| == |nfts|
    ensures forall k :: 0 <= k < |nfts| ==> lines[k] == BadgeLine(nfts[k])
  {
    seq(|nfts|, k requires 0 <= k < |nfts| => BadgeLine(nfts[k]))
  }

  /** `existingBadges`: the badge lines joined by newlines; it is empty exactly
      when the wallet is. */
  function ExistingBadges(nfts: seq<NFT>): (badges: string)
    ensures badges == "" <==> nfts == []
  {
    Join(BadgeLines(nfts), '\n')
  }

  /** A single badge is a single line. */
  lemma ExistingBadgesSingle(n: NFT)
    ensures ExistingBadges([n]) == BadgeLine(n)
  {
  }

  /** One more badge adds one more line at the end. */
  lemma ExistingBadgesSnoc(nfts: seq<NFT>, n: NFT)
    requires nfts != []
    ensures ExistingBadges(nfts + [n]) == ExistingBadges(nfts) + "\n" + BadgeLine(n)
  {
    var lines := BadgeLines(nfts + [n]);
    assert lines[..|lines| - 1] == BadgeLines(nfts);
  }

  /** A badge whose name and description fit on one line. */
  predicate OneLine(n: NFT) {
    '\n' !in n.name && '\n' !in n.description
  }

  /** When no badge text holds a newline, the prompt's badge list splits back
      into exactly one line per badge, in order. */
  lemma ExistingBadgesLines(nfts: seq<NFT>)
    requires nfts != []
    requires forall k :: 0 <= k < |nfts| ==> OneLine(nfts[k])
    ensures Split(ExistingBadges(nfts), '\n') == BadgeLines(nfts)
  {
    var lines := BadgeLines(nfts);
    forall k | 0 <= k < |lines|
      ensures '\n' !in lines[k]
    {
      assert lines[k] == "- " + nfts[k].name + ": " + nfts[k].description;
    }
    SplitJoin(lines, '\n');
  }

  // ---------------------------------------------------------------------
  // messages

  datatype Role = System | User

  datatype ChatMessage = ChatMessage(role: Role, content: string)

  const ADVISOR_INTRO: string := "You are an AI course advisor. The user has the following achievement badges:\n"
  const ADVISOR_TASK: string := ".\n\nYour job is to recommend future courses the user should take based on their past achievements."

  /** The system message: the advisor text around the badge list. */
  function SystemPrompt(badges: string): (p: string)
    ensures |p| == |ADVISOR_INTRO| + |badges| + |ADVISOR_TASK|
    ensures p[..|ADVISOR_INTRO|] == ADVISOR_INTRO && p[|p| - |ADVISOR_TASK|..] == ADVISOR_TASK
  {
    ADVISOR_INTRO + badges + ADVISOR_TASK
  }

  /** The badge list can be read back out of the system prompt. */
  lemma SystemPromptRecoversBadges(badges: string)
    ensures var p := SystemPrompt(badges);
      && |p| == |ADVISOR_INTRO| + |badges| + |ADVISOR_TASK|
      && p[|ADVISOR_INTRO|..|p| - |ADVISOR_TASK|] == badges
  {
    var p := SystemPrompt(badges);
    assert p[|ADVISOR_INTRO|..] == badges + ADVISOR_TASK;
  }

  /** Different badge lists give different system prompts. */
  lemma SystemPromptInjective(a: string, b: string)
    requires SystemPrompt(a) == SystemPrompt(b)
    ensures a == b
  {
    SystemPromptRecoversBadges(a);
    SystemPromptRecoversBadges(b);
  }

  /** The request body's `messages`: the system prompt, then the question verbatim. */
  function Messages(badges: string, input: string): (ms: seq<ChatMessage>)
    ensures |ms| == 2
    ensures ms[0].role == System && ms[0].content == SystemPrompt(badges)
    ensures ms[1].role == User && ms[1].content == input
  {
    [ChatMessage(System, SystemPrompt(badges)), ChatMessage(User, input)]
  }

  // ---------------------------------------------------------------------
  // transcript entries

  /** How the request ended: a parsed body whose first choice may carry
      content, or a thrown error with its `message` and its string form. */
  datatype Response =
    | Success(content: Option<string>)
    | Failure(message: string, asText: string)

  const YOU: string := "\U{1F9D1} You: "
  const BOT: string := "\U{1F916} Bot: "
  const ERROR: string := "\U{26A0}\U{FE0F} Error: "
  const NO_RESPONSE: string := "No response"

  /** The transcript entry for a question. */
  function QuestionEntry(input: string): (entry: string)
    ensures |entry| == |YOU| + |input| && entry[..|YOU|] == YOU && entry[|YOU|..] == input
  {
    YOU + input
  }

  /** The trimmed reply, or the empty string when there is none. It is empty
      exactly when there is no content or the content is blank. */
  function ReplyText(content: Option<string>): (reply: string)
    ensures reply == "" <==> content.None? || AllWhitespace(content.value)
    ensures reply != "" ==> !IsWhitespace(reply[0]) && !IsWhitespace(reply[|reply| - 1])
  {
    TrimEmptyIff(content.GetOr(""));
    TrimHasNoOuterWhitespace(content.GetOr(""));
    if content.Some? then Trim(content.value) else ""
  }

  /** The transcript entry for the outcome of a request. */
  function ReplyEntry(r: Response): (entry: string)
    ensures r.Success? ==> |entry| > |BOT| && entry[..|BOT|] == BOT
    ensures r.Success? && r.content.Some? && !AllWhitespace(r.content.value) ==>
      entry[|BOT|..] == Trim(r.content.value)
    ensures r.Success? && (r.content.None? || AllWhitespace(r.content.value)) ==>
      entry[|BOT|..] == NO_RESPONSE
    ensures r.Failure? ==> |entry| >= |ERROR| && entry[..|ERROR|] == ERROR
    ensures r.Failure? && r.message != "" ==> entry[|ERROR|..] == r.message
    ensures r.Failure? && r.message == "" ==> entry[|ERROR|..] == r.asText
  {
    match r
    case Success(content) =>
      var reply := ReplyText(content);
      BOT + (if reply != "" then reply else NO_RESPONSE)
    case Failure(message, asText) =>
      ERROR + (if message != "" then message else asText)
  }

  /** A bot entry is never an error entry, nor a question entry. */
  lemma EntryKindsDistinct(input: string, r: Response)
    ensures ReplyEntry(r)[0] != QuestionEntry(input)[0]
    ensures r.Success? ==> ReplyEntry(r)[0] != ERROR[0]
    ensures r.Failure? ==> ReplyEntry(r)[0] != BOT[0]
  {
    assert QuestionEntry(input)[0] == YOU[0];
    if r.Success? {
      assert ReplyEntry(r)[0] == BOT[0];
    } else {
      assert ReplyEntry(r)[0] == ERROR[0];
    }
  }

  // ---------------------------------------------------------------------
  // the component's state

  /** Reads the badge list at render time: `getNFTs()` (which may seed the
      store) mapped to lines. */
  method CurrentBadges(store: Storage) returns (badges: string)
    modifies store`wallet
    ensures badges == ExistingBadges(old(store.Listed()))
    ensures store.wallet == old(store.AfterRead())
  {
    var nfts := store.GetNFTs();
    badges := ExistingBadges(nfts);
  }

  class Recommender {
    var input: string
    var chatLog: seq<string>
    var loading: bool

    constructor ()
      ensures input == "" && chatLog == [] && !loading
    {
      input := "";
      chatLog := [];
      loading := false;
    }

    /** The text box's `onChange`. */
    method SetInput(value: string)
      modifies this`input
      ensures input == value
    {
      input := value;
    }

    /** The synchronous part of `sendQuery`: on blank input nothing happens and
        no request is made; otherwise `loading` is set, the question is logged
        untrimmed, and the two messages to send are returned. */
    method Ask(badges: string) returns (request: Option<seq<ChatMessage>>)
      modifies this`loading, this`chatLog
      ensures AllWhitespace(input) ==> request.None? && loading == old(loading) && chatLog == old(chatLog)
      ensures !AllWhitespace(input) ==>
        && request == Some(Messages(badges, input))
        && loading
        && chatLog == old(chatLog) + [QuestionEntry(input)]
    {
      TrimEmptyIff(input);
      if Trim(input) == "" {
        return None;
      }
      loading := true;
      chatLog := chatLog + [QuestionEntry(input)];
      request := Some(Messages(badges, input));
    }

    /** The part of `sendQuery` after the request settles: the reply or the
        error is logged, then `loading` is cleared and the input emptied. */
    method Settle(response: Response)
      modifies this`chatLog, this`loading, this`input
      ensures chatLog == old(chatLog) + [ReplyEntry(response)]
      ensures !loading && input == ""
    {
      chatLog := chatLog + [ReplyEntry(response)];
      loading := false;
      input := "";
    }

    /** `sendQuery()` run to completion with the given outcome. */
    method SendQuery(badges: string, response: Response) returns (request: Option<seq<ChatMessage>>)
      modifies this`loading, this`chatLog, this`input
      ensures AllWhitespace(old(input)) ==>
        && request.None?
        && input == old(input) && loading == old(loading) && chatLog == old(chatLog)
      ensures !AllWhitespace(old(input)) ==>
        && request == Some(Messages(badges, old(input)))
        && chatLog == old(chatLog) + [QuestionEntry(old(input)), ReplyEntry(response)]
        && |chatLog| == |old(chatLog)| + 2 && chatLog[..|old(chatLog)|] == old(chatLog)
        && !loading && input == ""
    {
      request := Ask(badges);
      if request.Some? {
        Settle(response);
      }
    }
  }

  /** A question followed by a failed request leaves the question and the
      error in the transcript, and the box empty. */
  method QuestionThenError()
  {
    var r := new Recommender();
    r.SetInput("What next?");
    assert !AllWhitespace(r.input) by {
      assert !IsWhitespace(r.input[0]);
    }
    var request := r.SendQuery("", Failure("Network down", "TypeError"));
    assert request.Some? && request.value[1].content == "What next?";
    assert |r.chatLog| == 2 && r.chatLog[1][..|ERROR|] == ERROR;
    assert r.input == "" && !r.loading;
    r.SetInput(" \n ");
    assert AllWhitespace(r.input);
    request := r.SendQuery("", Success(None));
    assert request.None? && |r.chatLog| == 2;
  }
}
