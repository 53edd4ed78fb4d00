/** The rule-based reply of the chatbot endpoint (backend/chatbot.py): a
    first-match keyword classifier over the lower-cased message, and the
    bookkeeping of the chat log entry that records each exchange. */
module Chatbot {
  import opened Wrappers
  import opened Text
  import opened Json

  const Greeting := "Hello! How are you feeling today?"
  const Sympathy := "I'm sorry you're feeling this way. Would you like to talk about it or try some relaxation techniques?"
  const Breathing := "Anxiety can be overwhelming. Want to try a guided breathing exercise?"
  const StressTip := "Managing stress is important. Try taking deep breaths or taking a short walk if you can."
  const Tips := "Here are some tips: 1) Talk to someone you trust. 2) Take breaks. 3) Try mindfulness exercises."
  const Crisis := "If you're struggling, please reach out to a professional or helpline. You're not alone."
  const Listening := "I'm here to listen. Tell me more about what's on your mind."

  /** The seven replies the bot can give. */
  const Replies := [Greeting, Sympathy, Breathing, StressTip, Tips, Crisis, Listening]

  /** basic_bot_response: the keyword rules in order, first match wins; the
      mood argument is accepted and ignored. */
  function BasicBotResponse(message: string, mood: Json): (r: string)
    ensures r in Replies
  {
    var m := Lower(message);
    if Contains(m, "hello") || Contains(m, "hi") then Greeting
    else if Contains(m, "sad") || Contains(m, "down") then Sympathy
    else if Contains(m, "anxious") || Contains(m, "anxiety") then Breathing
    else if Contains(m, "stress") then StressTip
    else if Contains(m, "tips") || Contains(m, "help") then Tips
    else if Contains(m, "hopeless") || Contains(m, "suicide") then Crisis
    else Listening
  }

  // ---------------------------------------------------------------------------
  // A reference reading of the rules as a table

  datatype Rule = Rule(keywords: seq<string>, reply: string)

  /** The rule table in the order the source tries it. */
  const Rules := [
    Rule(["hello", "hi"], Greeting),
    Rule(["sad", "down"], Sympathy),
    Rule(["anxious", "anxiety"], Breathing),
    Rule(["stress"], StressTip),
    Rule(["tips", "help"], Tips),
    Rule(["hopeless", "suicide"], Crisis)
  ]

  /** Some keyword of the list occurs in m. */
  predicate AnyKeyword(m: string, keywords: seq<string>)
  {
    keywords != [] && (Contains(m, keywords[0]) || AnyKeyword(m, keywords[1..]))
  }

  /** The reply of the first rule with a keyword in m, or the listening reply. */
  function FirstMatch(m: string, rules: seq<Rule>): string
  {
    if rules == [] then Listening
    else if AnyKeyword(m, rules[0].keywords) then rules[0].reply
    else FirstMatch(m, rules[1..])
  }

  /** The if/elif chain is the first-match reading of the rule table. */
  lemma BotResponseIsFirstMatch(message: string, mood: Json)
    ensures BasicBotResponse(message, mood) == FirstMatch(Lower(message), Rules)
  {
    var m := Lower(message);
    AnyOfTwo(m, "hello", "hi");
    AnyOfTwo(m, "sad", "down");
    AnyOfTwo(m, "anxious", "anxiety");
    AnyOfTwo(m, "tips", "help");
    AnyOfTwo(m, "hopeless", "suicide");
    assert ["stress"][1..] == [];
    assert AnyKeyword(m, Rules[3].keywords) <==> Contains(m, "stress");
    assert Rules[6..] == [];
    assert FirstMatch(m, Rules[5..]) == if AnyKeyword(m, Rules[5].keywords) then Crisis else Listening by {
      assert Rules[5..][1..] == Rules[6..];
    }
    assert FirstMatch(m, Rules[4..]) == if AnyKeyword(m, Rules[4].keywords) then Tips else FirstMatch(m, Rules[5..]) by {
      assert Rules[4..][1..] == Rules[5..];
    }
    assert FirstMatch(m, Rules[3..]) == if AnyKeyword(m, Rules[3].keywords) then StressTip else FirstMatch(m, Rules[4..]) by {
      assert Rules[3..][1..] == Rules[4..];
    }
    assert FirstMatch(m, Rules[2..]) == if AnyKeyword(m, Rules[2].keywords) then Breathing else FirstMatch(m, Rules[3..]) by {
      assert Rules[2..][1..] == Rules[3..];
    }
    assert FirstMatch(m, Rules[1..]) == if AnyKeyword(m, Rules[1].keywords) then Sympathy else FirstMatch(m, Rules[2..]) by {
      assert Rules[1..][1..] == Rules[2..];
    }
  }

  lemma AnyOfTwo(m: string, a: string, b: string)
    ensures AnyKeyword(m, [a, b]) <==> Contains(m, a) || Contains(m, b)
  {
    assert [a, b][1..] == [b];
    assert [b][1..] == [];
    assert AnyKeyword(m, [b]) <==> Contains(m, b);
  }

  /** The first rule that matches decides the reply, whatever later rules say. */
  lemma {:induction false} FirstMatchAt(m: string, rules: seq<Rule>, k: nat)
    requires k < |rules| && AnyKeyword(m, rules[k].keywords)
    requires forall j :: 0 <= j < k ==> !AnyKeyword(m, rules[j].keywords)
    ensures FirstMatch(m, rules) == rules[k].reply
  {
    if k > 0 {
      assert !AnyKeyword(m, rules[0].keywords);
      FirstMatchAt(m, rules[1..], k - 1);
    }
  }

  /** No rule matches: the listening reply. */
  lemma {:induction false} FirstMatchNone(m: string, rules: seq<Rule>)
    requires forall j :: 0 <= j < |rules| ==> !AnyKeyword(m, rules[j].keywords)
    ensures FirstMatch(m, rules) == Listening
  {
    if rules != [] {
      assert !AnyKeyword(m, rules[0].keywords);
      FirstMatchNone(m, rules[1..]);
    }
  }

  /** Rule k answers exactly when its keyword occurs and no earlier rule's does. */
  lemma RuleDecides(message: string, mood: Json, k: nat)
    requires k < |Rules| && AnyKeyword(Lower(message), Rules[k].keywords)
    requires forall j :: 0 <= j < k ==> !AnyKeyword(Lower(message), Rules[j].keywords)
    ensures BasicBotResponse(message, mood) == Rules[k].reply
  {
    BotResponseIsFirstMatch(message, mood);
    FirstMatchAt(Lower(message), Rules, k);
  }

  /** A message that contains no keyword gets the listening reply. */
  lemma NoKeywordListens(message: string, mood: Json)
    requires forall j :: 0 <= j < |Rules| ==> !AnyKeyword(Lower(message), Rules[j].keywords)
    ensures BasicBotResponse(message, mood) == Listening
  {
    BotResponseIsFirstMatch(message, mood);
    FirstMatchNone(Lower(message), Rules);
  }

  /** The reply depends only on the lower-cased message, never on the mood. */
  lemma ReplyDependsOnLowerCase(message: string, mood: Json, other: Json)
    ensures BasicBotResponse(message, mood) == BasicBotResponse(Lower(message), other)
  {
    BotResponseIsFirstMatch(message, mood);
    BotResponseIsFirstMatch(Lower(message), other);
    LowerIdempotent(message);
  }

  /** "hi" occurs inside "nothing", so the greeting shadows the crisis rule:
      a message that mentions suicide still gets the greeting. */
  lemma GreetingShadowsCrisis(m: string)
    requires m == "nothing, suicide"
    ensures Contains(Lower(m), "suicide")
    ensures BasicBotResponse(m, JNull) == Greeting
  {
    LowerUnchanged(m);
    HasBothKeywords(m);
    AnyOfTwo(m, "hello", "hi");
    RuleDecides(m, JNull, 0);
  }

  /** "hi" occurs at position 3 of "nothing, suicide" and "suicide" at 9. */
  lemma HasBothKeywords(m: string)
    requires m == "nothing, suicide"
    ensures Contains(m, "hi") && Contains(m, "suicide")
  {
    assert m[3..5] == "hi";
    ContainsAt(m, "hi", 3);
    assert m[9..16] == "suicide";
    ContainsAt(m, "suicide", 9);
  }

  /** "nothing, suicide" has no upper-case letter. */
  lemma LowerUnchanged(m: string)
    requires m == "nothing, suicide"
    ensures Lower(m) == m
  {
    assert forall i :: 0 <= i < |m| ==> !('A' <= m[i] <= 'Z');
    LowerNoUpper(m);
  }

  // ---------------------------------------------------------------------------
  // chatbot_reply

  /** One document of the chat log collection. */
  datatype ChatEntry = ChatEntry(userId: string, message: string, botResponse: Option<string>,
                                 timestamp: int, mood: Json)

  const ServerError := "Internal Server Error"

  /** `data.get("message", "")` as far as `message.lower()` accepts it: a
      missing key means "", text is itself, and any other value (null, a
      number, a list, an object) has no `lower` and raises. */
  function MessageText(data: Object): (t: Option<string>)
    ensures "message" !in data ==> t == Some("")
    ensures "message" in data ==> (t.Some? <==> data["message"].JStr?)
    ensures "message" in data && data["message"].JStr? ==> t == Some(data["message"].s)
  {
    if "message" !in data then Some("")
    else if data["message"].JStr? then Some(data["message"].s)
    else None
  }

  /** `data.get("mood", None)`: the stored value, or null when absent. */
  function MoodOf(data: Object): (mood: Json)
    ensures "mood" in data ==> mood == data["mood"]
    ensures "mood" !in data ==> mood == JNull
  {
    if "mood" in data then data["mood"] else JNull
  }

  /** chatbot_reply for an authenticated user over the JSON body: the entry
      is created with no response, the response is filled in, the entry is
      appended to the log, and the same response is returned. A message the
      classifier cannot lower-case raises before the insert, which Flask
      answers with a 500, and nothing is logged. */
  method ChatbotReply(userId: string, data: Object, now: int, log: seq<ChatEntry>)
    returns (r: Result<string>, newLog: seq<ChatEntry>)
    ensures r.Err? <==> MessageText(data).None?
    ensures r.Err? ==> r == Err(500, ServerError) && newLog == log
    ensures r.Ok? ==> r.value in Replies
    ensures r.Ok? ==> r.value == BasicBotResponse(MessageText(data).value, MoodOf(data))
    ensures r.Ok? ==> |newLog| == |log| + 1 && newLog[..|log|] == log
    ensures r.Ok? ==>
      newLog[|log|] == ChatEntry(userId, MessageText(data).value, Some(r.value), now, MoodOf(data))
  {
    var message := Get(data, "message");
    var mood := MoodOf(data);
    var text: string;
    if message.None? {
      text := "";
    } else if message.value.JStr? {
      text := message.value.s;
    } else {
      return Err(500, ServerError), log;
    }
    var entry := ChatEntry(userId, text, None, now, mood);
    var response := BasicBotResponse(text, mood);
    entry := entry.(botResponse := Some(response));
    newLog := log + [entry];
    r := Ok(response);
  }
}
