/**
 * The scripted chat widget (src/components/ChatWidget.tsx): a transcript
 * that is only appended to, a text input, a "typing" flag, and a canned
 * reply chosen by an ordered chain of keyword tests on the lowercased
 * utterance.
 *
 * The 1500 ms reply timer is modelled as an explicit second step,
 * `ChatWidget.Resolve`, over the queue of texts whose timer has not fired.
 * Every send uses the same delay, so the timers fire in the order of the
 * sends and the queue is first in, first out.
 */
module Chat {
  import opened Text

  /** The `type` field of a message. */
  datatype Sender = User | Bot

  /** A transcript entry; its timestamp is not modelled. */
  datatype Message = Message(sender: Sender, text: string)

  const Greeting: string := "Hi there! I'm SoftSell's virtual assistant. How can I help you today?"

  /** The suggested questions, in the order they are shown. */
  const ExampleQuestions: seq<string> := [
    "How do I sell my license?",
    "What types of licenses do you buy?",
    "How long does the process take?",
    "Is my data secure?"
  ]

  /** The five canned replies, in the order of the chain that selects them. */
  datatype Topic = SellProcess | LicenseTypes | Turnaround | Security | Fallback

  const SellProcessReply: string := "To sell your license, start by clicking the 'Sell My Licenses' button at the top of our page. You'll be guided through our 3-step process: Upload your license details, receive a valuation, and get paid. It's that simple!"
  const LicenseTypesReply: string := "We purchase a wide range of software licenses including Microsoft, Adobe, Autodesk, VMware, Oracle, and many cloud service providers. If you're unsure about your specific license, just share the details with us and we'll let you know."
  const TurnaroundReply: string := "The entire process typically takes 2-3 business days from submission to payment. You'll receive a valuation within 24 hours, and once you accept, payment is processed within 1-2 business days."
  const SecurityReply: string := "Absolutely! Security is our top priority. We use bank-grade encryption for all transactions, and your personal information is protected according to strict data privacy standards. We never share your information with third parties without your consent."
  const FallbackReply: string := "Thanks for your question. To provide you with the most accurate information, one of our specialists will reach out to you shortly. If you'd like an immediate response, please try one of our example questions or call us at +1 (555) 123-4567."

  function ReplyText(topic: Topic): string {
    match topic
    case SellProcess => SellProcessReply
    case LicenseTypes => LicenseTypesReply
    case Turnaround => TurnaroundReply
    case Security => SecurityReply
    case Fallback => FallbackReply
  }

  /** The five replies are distinct, so the bot's answer tells which branch was taken. */
  lemma ReplyTextDistinct(a: Topic, b: Topic)
    ensures ReplyText(a) == ReplyText(b) <==> a == b
    ensures ReplyText(a) != ""
  {
  }

  /** The if/else-if chain of the deferred step, on the already lowercased text `t`. */
  function TopicOf(t: string): Topic {
    if Includes(t, "sell") && Includes(t, "license") then SellProcess
    else if Includes(t, "type") || (Includes(t, "what") && Includes(t, "license")) then LicenseTypes
    else if Includes(t, "long") || Includes(t, "time") || Includes(t, "take") then Turnaround
    else if Includes(t, "secure") || Includes(t, "safe") || Includes(t, "privacy") then Security
    else Fallback
  }

  /** The deferred step lowercases the utterance, then runs the chain. */
  function ChooseTopic(text: string): Topic {
    TopicOf(Lower(text))
  }

  /** The text of the bot message the deferred step appends for `text`. */
  function Reply(text: string): string {
    ReplyText(ChooseTopic(text))
  }

  // ---------------------------------------------------------------------
  // The same chain as an explicit rule table, evaluated first match wins.
  // ---------------------------------------------------------------------

  /**
   * A rule fires when, for one of its alternatives, the text includes
   * every keyword of that alternative.
   */
  datatype Rule = Rule(alternatives: seq<seq<string>>, topic: Topic)

  predicate Fires(rule: Rule, t: string) {
    exists k | 0 <= k < |rule.alternatives| ::
      forall w | w in rule.alternatives[k] :: Includes(t, w)
  }

  const Rules: seq<Rule> := [
    Rule([["sell", "license"]], SellProcess),
    Rule([["type"], ["what", "license"]], LicenseTypes),
    Rule([["long"], ["time"], ["take"]], Turnaround),
    Rule([["secure"], ["safe"], ["privacy"]], Security)
  ]

  /** Walks the table top to bottom; the fallback answers when no rule fires. */
  function FirstMatch(rules: seq<Rule>, t: string): Topic {
    if rules == [] then Fallback
    else if Fires(rules[0], t) then rules[0].topic
    else FirstMatch(rules[1..], t)
  }

  /**
   * First match wins: the topic is that of the earliest rule that fires,
   * and the fallback exactly when none does.
   */
  lemma {:induction false} FirstMatchIsEarliest(rules: seq<Rule>, t: string, k: nat)
    requires k < |rules| && Fires(rules[k], t)
    requires forall j | 0 <= j < k :: !Fires(rules[j], t)
    ensures FirstMatch(rules, t) == rules[k].topic
  {
    if k > 0 {
      assert !Fires(rules[0], t);
      FirstMatchIsEarliest(rules[1..], t, k - 1);
    }
  }

  lemma {:induction false} FirstMatchFallback(rules: seq<Rule>, t: string)
    requires forall j | 0 <= j < |rules| :: !Fires(rules[j], t)
    ensures FirstMatch(rules, t) == Fallback
  {
    if rules != [] {
      assert !Fires(rules[0], t);
      FirstMatchFallback(rules[1..], t);
    }
  }

  /** The if/else chain is the rule table read top to bottom. */
  lemma ChainIsRuleTable(text: string)
    ensures ChooseTopic(text) == FirstMatch(Rules, Lower(text))
  {
    var t := Lower(text);
    assert Fires(Rules[0], t) <==> Includes(t, "sell") && Includes(t, "license") by {
      assert Rules[0].alternatives[0] == ["sell", "license"];
    }
    assert Fires(Rules[1], t) <==> Includes(t, "type") || (Includes(t, "what") && Includes(t, "license")) by {
      assert Rules[1].alternatives[0] == ["type"];
      assert Rules[1].alternatives[1] == ["what", "license"];
    }
    assert Fires(Rules[2], t) <==> Includes(t, "long") || Includes(t, "time") || Includes(t, "take") by {
      assert Rules[2].alternatives[0] == ["long"];
      assert Rules[2].alternatives[1] == ["time"];
      assert Rules[2].alternatives[2] == ["take"];
    }
    assert Fires(Rules[3], t) <==> Includes(t, "secure") || Includes(t, "safe") || Includes(t, "privacy") by {
      assert Rules[3].alternatives[0] == ["secure"];
      assert Rules[3].alternatives[1] == ["safe"];
      assert Rules[3].alternatives[2] == ["privacy"];
    }
    if Fires(Rules[0], t) {
      FirstMatchIsEarliest(Rules, t, 0);
    } else if Fires(Rules[1], t) {
      FirstMatchIsEarliest(Rules, t, 1);
    } else if Fires(Rules[2], t) {
      FirstMatchIsEarliest(Rules, t, 2);
    } else if Fires(Rules[3], t) {
      FirstMatchIsEarliest(Rules, t, 3);
    } else {
      FirstMatchFallback(Rules, t);
    }
  }

  // ---------------------------------------------------------------------
  // Properties of the reply choice
  // ---------------------------------------------------------------------

  /** Text with both "sell" and "license" gets the first reply, whatever else it holds. */
  lemma SellAndLicenseWins(text: string)
    requires Includes(Lower(text), "sell") && Includes(Lower(text), "license")
    ensures ChooseTopic(text) == SellProcess
    ensures Reply(text) == ReplyText(SellProcess)
  {
  }

  /** The fallback answers exactly the text that holds none of the keyword tests. */
  lemma FallbackIffNoKeyword(text: string)
    ensures var t := Lower(text);
      ChooseTopic(text) == Fallback <==>
        !(Includes(t, "sell") && Includes(t, "license")) &&
        !Includes(t, "type") && !(Includes(t, "what") && Includes(t, "license")) &&
        !Includes(t, "long") && !Includes(t, "time") && !Includes(t, "take") &&
        !Includes(t, "secure") && !Includes(t, "safe") && !Includes(t, "privacy")
  {
  }

  /** Only the lowercased text matters: lowering the input first changes nothing. */
  lemma ChooseTopicOfLower(text: string)
    ensures ChooseTopic(Lower(text)) == ChooseTopic(text)
  {
    LowerIdempotent(text);
  }

  /** Inputs that differ only in letter case get the same reply. */
  lemma CaseInsensitive(a: string, b: string)
    requires SameUpToCase(a, b)
    ensures ChooseTopic(a) == ChooseTopic(b)
  {
    SameUpToCaseLower(a, b);
  }

  /** The four suggested questions, in list order, select the first four replies. */
  lemma ExampleQuestionTopics()
    ensures ChooseTopic(ExampleQuestions[0]) == SellProcess
    ensures ChooseTopic(ExampleQuestions[1]) == LicenseTypes
    ensures ChooseTopic(ExampleQuestions[2]) == Turnaround
    ensures ChooseTopic(ExampleQuestions[3]) == Security
  {
    SellQuestionTopic();
    TypesQuestionTopic();
    DurationQuestionTopic();
    SecurityQuestionTopic();
  }

  lemma SellQuestionTopic()
    ensures ChooseTopic(ExampleQuestions[0]) == SellProcess
  {
    var q := "how do i sell my license?";
    assert Lower(ExampleQuestions[0]) == q;
    assert OccursAt(q, "sell", 9) by { assert q[9] == 's' && q[10] == 'e' && q[11] == 'l' && q[12] == 'l'; }
    assert OccursAt(q, "license", 17) by {
      assert q[17] == 'l' && q[18] == 'i' && q[19] == 'c' && q[20] == 'e';
      assert q[21] == 'n' && q[22] == 's' && q[23] == 'e';
    }
  }

  lemma TypesQuestionKeywords()
    ensures !Includes("what types of licenses do you buy?", "sell")
    ensures Includes("what types of licenses do you buy?", "type")
  {
    var q := "what types of licenses do you buy?";
    NotIncludesByPair(q, "sell", 1);
    assert OccursAt(q, "type", 5) by { assert q[5] == 't' && q[6] == 'y' && q[7] == 'p' && q[8] == 'e'; }
  }

  lemma TypesQuestionTopic()
    ensures ChooseTopic(ExampleQuestions[1]) == LicenseTypes
  {
    assert Lower(ExampleQuestions[1]) == "what types of licenses do you buy?";
    TypesQuestionKeywords();
  }

  lemma DurationQuestionKeywords()
    ensures !Includes("how long does the process take?", "license")
    ensures !Includes("how long does the process take?", "type")
    ensures Includes("how long does the process take?", "long")
  {
    var q := "how long does the process take?";
    assert !Includes(q, "license") by {
      assert "license"[1] == 'i';
      NotIncludesByChar(q, "license", 1);
    }
    assert !Includes(q, "type") by {
      assert "type"[1] == 'y';
      NotIncludesByChar(q, "type", 1);
    }
    assert OccursAt(q, "long", 4) by { assert q[4] == 'l' && q[5] == 'o' && q[6] == 'n' && q[7] == 'g'; }
  }

  lemma DurationQuestionTopic()
    ensures ChooseTopic(ExampleQuestions[2]) == Turnaround
  {
    assert Lower(ExampleQuestions[2]) == "how long does the process take?";
    DurationQuestionKeywords();
  }

  lemma SecurityQuestionKeywords()
    ensures !Includes("is my data secure?", "license")
    ensures !Includes("is my data secure?", "type")
    ensures !Includes("is my data secure?", "long")
    ensures !Includes("is my data secure?", "time")
    ensures !Includes("is my data secure?", "take")
    ensures Includes("is my data secure?", "secure")
  {
    var q := "is my data secure?";
    NotIncludesByChar(q, "license", 0);
    NotIncludesByChar(q, "type", 2);
    NotIncludesByChar(q, "long", 0);
    NotIncludesByPair(q, "time", 0);
    NotIncludesByChar(q, "take", 2);
    assert OccursAt(q, "secure", 11) by {
      assert q[11] == 's' && q[12] == 'e' && q[13] == 'c';
      assert q[14] == 'u' && q[15] == 'r' && q[16] == 'e';
    }
  }

  lemma SecurityQuestionTopic()
    ensures ChooseTopic(ExampleQuestions[3]) == Security
  {
    assert Lower(ExampleQuestions[3]) == "is my data secure?";
    SecurityQuestionKeywords();
  }

  /** No suggested question is blank, so a suggestion click always sends. */
  lemma ExampleQuestionsNotBlank(k: nat)
    requires k < |ExampleQuestions|
    ensures !IsBlank(ExampleQuestions[k])
  {
    assert !IsSpace(ExampleQuestions[k][0]) by {
      assert ExampleQuestions[k][0] in "HWI";
    }
    NotBlank(ExampleQuestions[k], 0);
  }

  // ---------------------------------------------------------------------
  // The widget's state
  // ---------------------------------------------------------------------

  /** The texts of the messages from `who`, in transcript order. */
  function TextsBy(ms: seq<Message>, who: Sender): seq<string> {
    if ms == [] then []
    else TextsBy(ms[..|ms| - 1], who) + (if ms[|ms| - 1].sender == who then [ms[|ms| - 1].text] else [])
  }

  lemma TextsByAppend(ms: seq<Message>, m: Message, who: Sender)
    ensures TextsBy(ms + [m], who) == TextsBy(ms, who) + (if m.sender == who then [m.text] else [])
  {
    assert (ms + [m])[..|ms|] == ms;
  }

  /** Every message is the user's or the bot's: the two projections together account for the whole transcript. */
  lemma {:induction false} TextsBySplit(ms: seq<Message>)
    ensures |TextsBy(ms, User)| + |TextsBy(ms, Bot)| == |ms|
  {
    if ms != [] {
      TextsBySplit(ms[..|ms| - 1]);
    }
  }

  /** The replies owed to a sequence of questions, one each, in the same order. */
  function Replies(questions: seq<string>): (r: seq<string>)
    ensures |r| == |questions|
  {
    seq(|questions|, i requires 0 <= i < |questions| => Reply(questions[i]))
  }

  lemma RepliesAppend(questions: seq<string>, q: string)
    ensures Replies(questions + [q]) == Replies(questions) + [Reply(q)]
  {
  }

  /**
   * The user texts of the transcript are the `answered` ones followed by
   * the `pending` ones; the bot texts are the greeting followed by one
   * reply per answered text, in order; and the typing flag is only up
   * while a reply is still due.
   */
  predicate Consistent(messages: seq<Message>, answered: seq<string>, pending: seq<string>, isTyping: bool) {
    |messages| >= 1 && messages[0] == Message(Bot, Greeting) &&
    TextsBy(messages, User) == answered + pending &&
    TextsBy(messages, Bot) == [Greeting] + Replies(answered) &&
    (isTyping ==> pending != [])
  }

  /** The seeded transcript is consistent. */
  lemma InitialConsistent()
    ensures Consistent([Message(Bot, Greeting)], [], [], false)
  {
    assert [Message(Bot, Greeting)] == [] + [Message(Bot, Greeting)];
    TextsByAppend([], Message(Bot, Greeting), User);
    TextsByAppend([], Message(Bot, Greeting), Bot);
  }

  /** A send appends the user text and queues it; consistency is kept. */
  lemma SendKeepsConsistent(messages: seq<Message>, answered: seq<string>, pending: seq<string>, isTyping: bool, text: string)
    requires Consistent(messages, answered, pending, isTyping)
    ensures Consistent(messages + [Message(User, text)], answered, pending + [text], true)
  {
    TextsByAppend(messages, Message(User, text), User);
    TextsByAppend(messages, Message(User, text), Bot);
    assert answered + pending + [text] == answered + (pending + [text]);
  }

  /** A resolution answers the oldest pending text; consistency is kept. */
  lemma ResolveKeepsConsistent(messages: seq<Message>, answered: seq<string>, pending: seq<string>, isTyping: bool)
    requires Consistent(messages, answered, pending, isTyping) && pending != []
    ensures Consistent(messages + [Message(Bot, Reply(pending[0]))], answered + [pending[0]], pending[1..], false)
  {
    var reply := Message(Bot, Reply(pending[0]));
    TextsByAppend(messages, reply, User);
    TextsByAppend(messages, reply, Bot);
    assert answered + pending == (answered + [pending[0]]) + pending[1..];
    RepliesAppend(answered, pending[0]);
  }

  /**
   * Accounting: every user message has had its one reply, or is still
   * pending; the greeting is the one bot message that answers nothing, so
   * the transcript holds the greeting, two messages per answered text and
   * one per pending text.
   */
  lemma ConsistentCounts(messages: seq<Message>, answered: seq<string>, pending: seq<string>, isTyping: bool)
    requires Consistent(messages, answered, pending, isTyping)
    ensures |TextsBy(messages, Bot)| + |pending| == |TextsBy(messages, User)| + 1
    ensures |messages| == 1 + 2 * |answered| + |pending|
  {
    TextsBySplit(messages);
  }

  class ChatWidget {
    var messages: seq<Message>
    var inputValue: string
    var isTyping: bool
    /** The texts whose reply timer has not fired yet, oldest first. */
    var pending: seq<string>
    /** The user texts that have had their reply, oldest first. */
    ghost var answered: seq<string>

    ghost predicate Valid()
      reads this
    {
      Consistent(messages, answered, pending, isTyping)
    }

    /** A fresh widget: the greeting alone, an empty input, nobody typing. */
    constructor ()
      ensures Valid()
      ensures messages == [Message(Bot, Greeting)] && inputValue == "" && !isTyping && pending == []
    {
      messages := [Message(Bot, Greeting)];
      inputValue := "";
      isTyping := false;
      pending := [];
      answered := [];
      InitialConsistent();
    }

    /** The suggested questions are shown while the transcript has at most two messages. */
    predicate SuggestionsVisible()
      reads this
    {
      |messages| <= 2
    }

    /** The Send button is disabled while the input is blank or a reply is being typed. */
    predicate SendDisabled()
      reads this
    {
      IsBlank(inputValue) || isTyping
    }

    /** The input's change handler. */
    method SetInput(value: string)
      requires Valid()
      modifies this
      ensures Valid()
      ensures inputValue == value
      ensures messages == old(messages) && isTyping == old(isTyping) && pending == old(pending)
      ensures answered == old(answered)
    {
      inputValue := value;
    }

    /**
     * `handleSendMessage(text)`: blank text changes nothing; otherwise the
     * untrimmed text is appended as a user message, the input is cleared,
     * the typing flag is raised and the text's reply timer is started.
     */
    method SendMessage(text: string)
      requires Valid()
      modifies this
      ensures Valid()
      ensures IsBlank(text) ==>
        messages == old(messages) && inputValue == old(inputValue) &&
        isTyping == old(isTyping) && pending == old(pending)
      ensures !IsBlank(text) ==>
        messages == old(messages) + [Message(User, text)] && inputValue == "" &&
        isTyping && pending == old(pending) + [text]
      ensures answered == old(answered)
    {
      if IsBlank(text) {
        return;
      }
      SendKeepsConsistent(messages, answered, pending, isTyping, text);
      messages := messages + [Message(User, text)];
      inputValue := "";
      isTyping := true;
      pending := pending + [text];
    }

    /** `handleSendMessage()` with its default argument, the current input. */
    method SendInput()
      requires Valid()
      modifies this
      ensures Valid()
      ensures answered == old(answered)
      ensures IsBlank(old(inputValue)) ==>
        messages == old(messages) && inputValue == old(inputValue) &&
        isTyping == old(isTyping) && pending == old(pending)
      ensures !IsBlank(old(inputValue)) ==>
        messages == old(messages) + [Message(User, old(inputValue))] && inputValue == "" &&
        isTyping && pending == old(pending) + [old(inputValue)]
    {
      SendMessage(inputValue);
    }

    /** `handleKeyDown`: Enter without Shift sends the input; it does not look at the typing flag. */
    method KeyDown(key: string, shiftKey: bool)
      requires Valid()
      modifies this
      ensures Valid()
      ensures answered == old(answered)
      ensures key == "Enter" && !shiftKey && !IsBlank(old(inputValue)) ==>
        messages == old(messages) + [Message(User, old(inputValue))] && inputValue == "" &&
        isTyping && pending == old(pending) + [old(inputValue)]
      ensures !(key == "Enter" && !shiftKey && !IsBlank(old(inputValue))) ==>
        messages == old(messages) && inputValue == old(inputValue) &&
        isTyping == old(isTyping) && pending == old(pending)
    {
      if key == "Enter" && !shiftKey {
        SendInput();
      }
    }

    /** The Send button: a click on the disabled button does nothing. */
    method ClickSend()
      requires Valid()
      modifies this
      ensures Valid()
      ensures answered == old(answered)
      ensures old(SendDisabled()) ==>
        messages == old(messages) && inputValue == old(inputValue) &&
        isTyping == old(isTyping) && pending == old(pending)
      ensures !old(SendDisabled()) ==>
        messages == old(messages) + [Message(User, old(inputValue))] && inputValue == "" &&
        isTyping && pending == old(pending) + [old(inputValue)]
    {
      if !SendDisabled() {
        SendInput();
      }
    }

    /**
     * A suggestion button sends its question; the buttons exist only while
     * the suggestions are visible, and they do not look at the typing flag.
     */
    method ClickSuggestion(k: nat)
      requires Valid() && k < |ExampleQuestions|
      modifies this
      ensures Valid()
      ensures answered == old(answered)
      ensures old(SuggestionsVisible()) ==>
        messages == old(messages) + [Message(User, ExampleQuestions[k])] && inputValue == "" &&
        isTyping && pending == old(pending) + [ExampleQuestions[k]]
      ensures !old(SuggestionsVisible()) ==>
        messages == old(messages) && inputValue == old(inputValue) &&
        isTyping == old(isTyping) && pending == old(pending)
    {
      if SuggestionsVisible() {
        ExampleQuestionsNotBlank(k);
        SendMessage(ExampleQuestions[k]);
      }
    }

    /**
     * The oldest reply timer fires: the bot's reply to that text is
     * appended and the single typing flag is lowered, even when further
     * replies are still due. It runs only when a timer is pending.
     */
    method Resolve()
      requires Valid() && pending != []
      modifies this
      ensures Valid()
      ensures messages == old(messages) + [Message(Bot, Reply(old(pending)[0]))]
      ensures pending == old(pending)[1..] && answered == old(answered) + [old(pending)[0]]
      ensures !isTyping && inputValue == old(inputValue)
    {
      ResolveKeepsConsistent(messages, answered, pending, isTyping);
      var reply := Message(Bot, Reply(pending[0]));
      messages := messages + [reply];
      answered := answered + [pending[0]];
      pending := pending[1..];
      isTyping := false;
    }
  }
}
