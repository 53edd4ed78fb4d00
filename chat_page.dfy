/** The chat page (frontend/app/chat/page.tsx): the message history, the
    input box, the typing indicator and the mood selector, with the handlers
    that change them. The two-second delay before a reply is modelled as a
    separate step that delivers one scheduled reply. */
module ChatPage {
  import opened Wrappers
  import opened Text
  import opened Lists

  datatype Sender = User | Assistant

  /** One message of the history; `timestamp` is the clock reading. */
  datatype Message = Message(id: string, content: string, sender: Sender, timestamp: int)

  /** One button of the mood selector. */
  datatype MoodButton = MoodButton(emoji: string, name: string, value: int)

  const MoodButtons := [
    MoodButton("\U{1F622}", "Very Sad", 1),
    MoodButton("\U{1F614}", "Sad", 2),
    MoodButton("\U{1F610}", "Neutral", 3),
    MoodButton("\U{1F642}", "Happy", 4),
    MoodButton("\U{1F60A}", "Very Happy", 5)
  ]

  const QuickStartChips := [
    "I'm feeling stressed",
    "Tips for better sleep",
    "I'm feeling down today",
    "Help with anxiety",
    "Breathing exercises",
    "I need motivation"
  ]

  const Welcome := "Hello! I'm here to support you on your wellbeing journey. How are you feeling today?"

  /** The five canned replies. */
  const Responses := [
    "I understand how you're feeling. It's completely normal to experience these emotions. Would you like to talk more about what's on your mind?",
    "Thank you for sharing that with me. Your feelings are valid, and I'm here to support you. What would be most helpful for you right now?",
    "I hear you, and I want you to know that you're not alone in this. Let's explore some strategies that might help you feel better.",
    "That sounds challenging. Remember that it's okay to have difficult days. What usually helps you when you're feeling this way?",
    "I appreciate you opening up to me. Your wellbeing matters, and taking time to check in with yourself is a positive step."
  ]

  /** The test `m => m.value === mood`. */
  function HasValue(mood: int): MoodButton -> bool
  {
    (b: MoodButton) => b.value == mood
  }

  /** `moodEmojis.find(m => m.value === mood)?.label || "Unknown"`. */
  function MoodLabel(mood: int): (name: string)
    ensures 1 <= mood <= 5 ==> name == MoodButtons[mood - 1].name
    ensures !(1 <= mood <= 5) ==> name == "Unknown"
  {
    var found := Find(MoodButtons, HasValue(mood));
    assert forall k :: 0 <= k < |MoodButtons| ==> MoodButtons[k].value == k + 1;
    assert 1 <= mood <= 5 ==> found == Some(MoodButtons[mood - 1]) by {
      if 1 <= mood <= 5 {
        FindIsFirst(MoodButtons, HasValue(mood), mood - 1);
      }
    }
    if found.Some? && found.value.name != "" then found.value.name else "Unknown"
  }

  /** The message a mood button sends: "I'm feeling ", the lower-cased
      label of the mood, then " today". */
  function MoodMessage(mood: int): (text: string)
    ensures |text| == 12 + |MoodLabel(mood)| + 6
    ensures text[..12] == "I'm feeling " && text[|text| - 6..] == " today"
    ensures text[12..|text| - 6] == Lower(MoodLabel(mood))
  {
    var text := "I'm feeling " + Lower(MoodLabel(mood)) + " today";
    assert text[12..|text| - 6] == Lower(MoodLabel(mood));
    text
  }

  /** The mood message is never blank and is its own trim. */
  lemma MoodMessageTrimmed(mood: int)
    ensures MoodMessage(mood) != [] && Trim(MoodMessage(mood)) == MoodMessage(mood)
  {
    var text := MoodMessage(mood);
    assert text[0] == 'I';
    assert text[|text| - 1] == 'y';
    TrimUnpadded(text);
  }

  /** A known mood is named by its lower-cased label: mood 1 sends "I'm
      feeling " + "very sad" + " today". */
  lemma VerySadMessage()
    ensures Lower(MoodLabel(1)) == "very sad"
    ensures MoodMessage(1) == "I'm feeling " + "very sad" + " today"
  {
    assert MoodLabel(1) == "Very Sad";
    LowerVerySad();
  }

  lemma LowerVerySad()
    ensures Lower("Very Sad") == "very sad"
  {
    var lower := Lower("Very Sad");
    assert forall i :: 0 <= i < |lower| ==> lower[i] == LowerChar("Very Sad"[i]);
  }

  /** A value with no button is named "unknown". */
  lemma UnknownMoodMessage(mood: int)
    requires !(1 <= mood <= 5)
    ensures MoodMessage(mood) == "I'm feeling " + "unknown" + " today"
  {
    assert MoodLabel(mood) == "Unknown";
    LowerUnknown();
  }

  lemma LowerUnknown()
    ensures Lower("Unknown") == "unknown"
  {
    var lower := Lower("Unknown");
    assert forall i :: 0 <= i < |lower| ==> lower[i] == LowerChar("Unknown"[i]);
  }

  /** A user message is trimmed and not blank. */
  predicate WellFormed(m: Message)
  {
    m.sender == User ==> m.content != [] && Trim(m.content) == m.content
  }

  /** The page's state: the history, the input box, the typing indicator,
      the mood selector, and the number of replies scheduled by sends and
      not yet delivered. */
  datatype ChatState = ChatState(
    messages: seq<Message>,
    inputValue: string,
    isTyping: bool,
    selectedMood: Option<int>,
    showMoodSelector: bool,
    pendingReplies: nat)

  /** The history opens with an assistant message, every user message is
      trimmed and not blank, and the indicator is on only while a reply is
      scheduled. */
  predicate Valid(st: ChatState)
  {
    HistoryValid(st.messages) && (st.isTyping ==> st.pendingReplies > 0)
  }

  /** The history opens with an assistant message, and every user message
      is trimmed and not blank. */
  predicate HistoryValid(messages: seq<Message>)
  {
    && |messages| >= 1
    && messages[0].sender == Assistant
    && (forall k :: 0 <= k < |messages| ==> WellFormed(messages[k]))
  }

  /** Appending a well-formed message keeps the history valid. */
  lemma HistoryAppend(messages: seq<Message>, m: Message)
    requires HistoryValid(messages) && WellFormed(m)
    ensures HistoryValid(messages + [m])
  {
    forall k | 0 <= k < |messages| + 1
      ensures WellFormed((messages + [m])[k])
    {
      if k < |messages| {
        assert (messages + [m])[k] == messages[k];
      }
    }
  }

  /** The state the page mounts with. */
  function Initial(now: int): ChatState
  {
    ChatState([Message("1", Welcome, Assistant, now)], "", false, None, true, 0)
  }

  /** The quick-start chips show while the history holds at most one message. */
  predicate ChipsVisible(st: ChatState)
  {
    |st.messages| <= 1
  }

  /** The send button is disabled for a blank input or while typing. */
  predicate SendDisabled(st: ChatState)
  {
    Trim(st.inputValue) == [] || st.isTyping
  }

  /** The input box is disabled while typing. */
  predicate InputDisabled(st: ChatState)
  {
    st.isTyping
  }

  /** handleSendMessage at clock reading `now`. */
  function Send(st: ChatState, content: string, now: nat): ChatState
  {
    var trimmed := Trim(content);
    if trimmed == [] then st
    else st.(messages := st.messages + [Message(Decimal(now), trimmed, User, now)],
             inputValue := "", isTyping := true, pendingReplies := st.pendingReplies + 1)
  }

  /** The delayed reply of a send: canned reply `choice` (the random pick). */
  function Reply(st: ChatState, choice: nat, now: nat): ChatState
    requires st.pendingReplies > 0 && choice < |Responses|
  {
    st.(messages := st.messages + [Message(Decimal(now + 1), Responses[choice], Assistant, now)],
        isTyping := false, pendingReplies := st.pendingReplies - 1)
  }

  /** handleMoodSelect. */
  function SelectMood(st: ChatState, mood: int, now: nat): ChatState
  {
    Send(st.(selectedMood := Some(mood), showMoodSelector := false), MoodMessage(mood), now)
  }

  /** The page opens with the welcome message alone, chips shown and send
      disabled. */
  lemma InitialValid(now: int)
    ensures Valid(Initial(now)) && ChipsVisible(Initial(now)) && SendDisabled(Initial(now))
    ensures Initial(now).messages[0].content == Welcome
  {
    assert Trim("") == [];
  }

  /** A blank or whitespace-only message changes nothing. */
  lemma SendBlank(st: ChatState, content: string, now: nat)
    requires AllJsSpace(content)
    ensures Send(st, content, now) == st
  {
  }

  /** A message with something in it appends exactly one user message, the
      trimmed text, keeps the earlier history, clears the input, turns the
      indicator on, and leaves the mood selector alone. */
  lemma SendAppends(st: ChatState, content: string, now: nat)
    requires !AllJsSpace(content)
    ensures var next := Send(st, content, now);
      && |next.messages| == |st.messages| + 1
      && next.messages[..|st.messages|] == st.messages
      && next.messages[|st.messages|] == Message(Decimal(now), Trim(content), User, now)
      && next.inputValue == "" && next.isTyping && next.pendingReplies == st.pendingReplies + 1
      && next.selectedMood == st.selectedMood && next.showMoodSelector == st.showMoodSelector
  {
    assert Trim(content) != [];
  }

  /** Sending keeps the state valid; after a send that appends, the chips
      are hidden and the send button and the input box are disabled. */
  lemma SendKeepsValid(st: ChatState, content: string, now: nat)
    requires Valid(st)
    ensures Valid(Send(st, content, now))
    ensures !AllJsSpace(content) ==>
      var next := Send(st, content, now);
      !ChipsVisible(next) && SendDisabled(next) && InputDisabled(next)
  {
    var trimmed := Trim(content);
    if trimmed != [] {
      var m := Message(Decimal(now), trimmed, User, now);
      TrimIdempotent(content);
      HistoryAppend(st.messages, m);
      assert AllJsSpace("");
    }
  }

  /** A reply appends exactly one canned assistant message, keeps the earlier
      history, turns the indicator off and keeps the state valid. */
  lemma ReplyAppends(st: ChatState, choice: nat, now: nat)
    requires Valid(st) && st.pendingReplies > 0 && choice < |Responses|
    ensures var next := Reply(st, choice, now);
      && |next.messages| == |st.messages| + 1
      && next.messages[..|st.messages|] == st.messages
      && next.messages[|st.messages|] == Message(Decimal(now + 1), Responses[choice], Assistant, now)
      && !next.isTyping && next.inputValue == st.inputValue
      && Valid(next)
  {
    HistoryAppend(st.messages, Message(Decimal(now + 1), Responses[choice], Assistant, now));
  }

  /** Selecting a mood records it, hides the selector and sends the mood
      message, which is never blank. */
  lemma SelectMoodSends(st: ChatState, mood: int, now: nat)
    requires Valid(st)
    ensures var next := SelectMood(st, mood, now);
      && next.selectedMood == Some(mood) && !next.showMoodSelector
      && next.messages == st.messages + [Message(Decimal(now), MoodMessage(mood), User, now)]
      && Valid(next)
  {
    var text := MoodMessage(mood);
    var mid := st.(selectedMood := Some(mood), showMoodSelector := false);
    assert SelectMood(st, mood, now) == Send(mid, text, now);
    MoodMessageTrimmed(mood);
    SendTrimmed(mid, text, now);
  }

  /** Sending text that is already trimmed and not blank appends it as it is. */
  lemma SendTrimmed(st: ChatState, text: string, now: nat)
    requires Valid(st) && text != [] && Trim(text) == text
    ensures Send(st, text, now).messages == st.messages + [Message(Decimal(now), text, User, now)]
    ensures Send(st, text, now).selectedMood == st.selectedMood
    ensures Send(st, text, now).showMoodSelector == st.showMoodSelector
    ensures Valid(Send(st, text, now))
  {
    SendKeepsValid(st, text, now);
  }

  /** The page: the state fields the handlers update. */
  class Chat {
    var messages: seq<Message>
    var inputValue: string
    var isTyping: bool
    var selectedMood: Option<int>
    var showMoodSelector: bool
    var pendingReplies: nat

    function State(): ChatState
      reads this
    {
      ChatState(messages, inputValue, isTyping, selectedMood, showMoodSelector, pendingReplies)
    }

    constructor (now: int)
      ensures State() == Initial(now)
    {
      messages := [Message("1", Welcome, Assistant, now)];
      inputValue := "";
      isTyping := false;
      selectedMood := None;
      showMoodSelector := true;
      pendingReplies := 0;
    }

    /** Typing into the input box. */
    method SetInput(value: string)
      modifies this
      ensures State() == old(State()).(inputValue := value)
    {
      inputValue := value;
    }

    /** handleSendMessage. */
    method SendMessage(content: string, now: nat)
      modifies this
      ensures State() == Send(old(State()), content, now)
    {
      var trimmed := Trim(content);
      if trimmed == [] {
        return;
      }
      var userMessage := Message(Decimal(now), trimmed, User, now);
      messages := messages + [userMessage];
      inputValue := "";
      isTyping := true;
      pendingReplies := pendingReplies + 1;
    }

    /** The scheduled reply arrives. */
    method ReceiveReply(choice: nat, now: nat)
      requires pendingReplies > 0 && choice < |Responses|
      modifies this
      ensures State() == Reply(old(State()), choice, now)
    {
      var assistantMessage := Message(Decimal(now + 1), Responses[choice], Assistant, now);
      messages := messages + [assistantMessage];
      isTyping := false;
      pendingReplies := pendingReplies - 1;
    }

    /** handleMoodSelect. */
    method HandleMoodSelect(mood: int, now: nat)
      modifies this
      ensures State() == SelectMood(old(State()), mood, now)
    {
      selectedMood := Some(mood);
      showMoodSelector := false;
      var moodLabel := MoodLabel(mood);
      SendMessage("I'm feeling " + Lower(moodLabel) + " today", now);
    }

    /** handleChipClick: a chip sends its own text. */
    method ChipClick(chip: string, now: nat)
      modifies this
      ensures State() == Send(old(State()), chip, now)
    {
      SendMessage(chip, now);
    }
  }
}
