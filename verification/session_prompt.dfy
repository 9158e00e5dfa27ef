/**
 * The tutor instruction that `create_session` sends to the realtime
 * provider: the session settings read from the request with their
 * defaults, the three instruction tables, and the template they fill.
 */
module SessionPrompt {
  /** The five settings of a new session. */
  datatype Settings = Settings(level: string, theme: string, topic: string, personality: string, avatar: string)

  const DefaultLevel: string := "Intermediate"
  const DefaultTheme: string := "Daily Life"
  const DefaultTopic: string := ""
  const DefaultPersonality: string := "Friendly Mentor"
  const DefaultAvatar: string := "friendly"
  const NoTopic: string := "None - use general theme topics"

  /** How to speak at each English level. */
  const LevelInstructions: map<string, string> := map[
    "Beginner" := "Use very simple English, short sentences, and speak slowly. Avoid difficult vocabulary. Encourage the student gently.",
    "Intermediate" := "Use everyday English, with some new vocabulary. Ask questions, correct mistakes, and explain grammar in simple terms.",
    "Advanced" := "Use natural, fluent, and more complex English. Challenge the student with idioms, advanced grammar, and deeper discussions."
  ]

  /** What to talk about under each conversation theme. */
  const ThemePrompts: map<string, string> := map[
    "Daily Life" := "Talk about everyday routines, shopping, food, family, housing, and errands.",
    "Travel" := "Discuss destinations, flights, hotels, itineraries, directions, and travel experiences.",
    "Work/Business" := "Discuss workplaces, meetings, emails, presentations, negotiations, and career goals.",
    "Hobbies" := "Talk about free-time activities, sports, arts, collections, and personal interests.",
    "School/University" := "Discuss classes, assignments, majors, study tips, exams, and campus life.",
    "Culture & Society" := "Discuss customs, festivals, news, values, traditions, and social issues with sensitivity."
  ]

  /** The teaching style of each tutor personality. */
  const PersonalityInstructions: map<string, string> := map[
    "Friendly Mentor" := "Be warm, encouraging, and supportive. Use a gentle, caring tone. Celebrate small victories and provide positive reinforcement. Use phrases like 'Great job!' and 'You're doing wonderfully!'",
    "Professional Coach" := "Be structured, clear, and goal-oriented. Focus on practical improvement and measurable progress. Use business-like language and provide specific feedback. Be direct but respectful.",
    "Casual Friend" := "Be relaxed, informal, and conversational. Use everyday language, slang when appropriate, and keep things light and fun. Make jokes and use casual expressions like 'Hey there!' and 'No worries!'",
    "Academic Expert" := "Be precise, detailed, and scholarly. Use formal language and provide thorough explanations. Focus on grammar rules, vocabulary expansion, and linguistic accuracy. Be patient with complex explanations.",
    "Energetic Guide" := "Be enthusiastic, dynamic, and motivating. Use exclamation points, energetic language, and motivational phrases. Keep the energy high and encourage active participation. Use phrases like 'Let's go!' and 'You've got this!'",
    "Patient Teacher" := "Be calm, understanding, and methodical. Take time to explain things clearly and repeat when necessary. Use a soothing tone and be very patient with mistakes. Provide gentle guidance and reassurance."
  ]

  /** `dict.get(key, default)`: on the request's fields and on the prompt tables. */
  function Lookup(table: map<string, string>, key: string, default: string): (r: string)
    ensures key in table ==> r == table[key]
    ensures key !in table ==> r == default
  {
    if key in table then table[key] else default
  }

  /** The documented defaults, as a dict. */
  const Defaults: map<string, string> := map[
    "level" := DefaultLevel, "theme" := DefaultTheme, "topic" := DefaultTopic,
    "personality" := DefaultPersonality, "avatar" := DefaultAvatar
  ]

  /** The settings named by a dict that has all five keys. */
  function FromDict(d: map<string, string>): Settings
    requires "level" in d && "theme" in d && "topic" in d && "personality" in d && "avatar" in d
  {
    Settings(d["level"], d["theme"], d["topic"], d["personality"], d["avatar"])
  }

  /**
   * Lines 36-40: the settings of a session request are those of the
   * defaults dict updated with the request's fields.
   */
  function ReadSettings(fields: map<string, string>): (r: Settings)
    ensures r == FromDict(Defaults + fields)
  {
    Settings(
      Lookup(fields, "level", DefaultLevel),
      Lookup(fields, "theme", DefaultTheme),
      Lookup(fields, "topic", DefaultTopic),
      Lookup(fields, "personality", DefaultPersonality),
      Lookup(fields, "avatar", DefaultAvatar))
  }

  /** The style section: the personality's text, or the Friendly Mentor text for an unknown personality. */
  function StyleText(personality: string): (r: string)
    ensures r in PersonalityInstructions.Values
  {
    Lookup(PersonalityInstructions, personality, PersonalityInstructions[DefaultPersonality])
  }

  /** The topic line: the topic, or the general-topics note when the topic is empty. */
  function TopicText(topic: string): (r: string)
    ensures r != []
    ensures topic != [] ==> r == topic
  {
    if topic != [] then topic else NoTopic
  }

  /** The fixed teaching principles and correction guidelines. */
  const Guidelines: string :=
    "**Core Teaching Principles:**\n" +
    "- Start and maintain engaging, human-like discussions on everyday topics.\n" +
    "- If the student makes a grammatical or pronunciation mistake, correct them appropriately based on your personality style.\n" +
    "- Encourage students to express themselves and ask follow-up questions to keep the conversation flowing.\n" +
    "- Always provide constructive feedback and motivate students to keep practicing.\n" +
    "\n" +
    "**Correction Guidelines - IMPORTANT:**\n" +
    "- **Limit corrections per word**: If a student struggles with a word, correct it maximum 2-3 times, then move on.\n" +
    "- **Focus on communication**: Prioritize understanding and communication over perfect pronunciation.\n" +
    "- **Don't obsess over perfection**: If the student's pronunciation is understandable, don't keep correcting the same word.\n" +
    "- **Mix corrections with encouragement**: After 2-3 attempts, praise their effort and continue the conversation.\n" +
    "- **Choose your battles**: Only correct the most important mistakes, not every small error.\n" +
    "\n" +
    "**Important Guidelines:**\n" +
    "- Always follow the user's selected English level when providing feedback and corrections.\n" +
    "- Use the appropriate level instructions to guide the conversation and support the user's learning.\n" +
    "- Be patient and encouraging, especially with beginners who may need more support.\n" +
    "- Adapt your language and explanations based on the user's proficiency and comfort level.\n" +
    "- Keep the conversation engaging and fun to motivate the user to practice more.\n" +
    "- **Remember**: The goal is fluent communication, not perfect pronunciation. Don't let corrections interrupt the flow of conversation."

  /** The labels of the session-details lines, lines 106-112. */
  const DetailLabels: seq<string> := [
    "- Student's level: ",
    "- Level instructions: ",
    "- Conversation theme: ",
    "- Theme focus: ",
    "- Specific topic: ",
    "- Your personality: ",
    "- Teaching approach: "
  ]

  /** What the session-details lines show, in their order. */
  function DetailValues(s: Settings): (r: seq<string>)
    ensures |r| == |DetailLabels|
  {
    [ s.level,
      Lookup(LevelInstructions, s.level, ""),
      s.theme,
      Lookup(ThemePrompts, s.theme, ""),
      TopicText(s.topic),
      s.personality,
      Lookup(PersonalityInstructions, s.personality, "") ]
  }

  /** Labelled lines, each but the last ended by a newline. */
  function Lines(labels: seq<string>, values: seq<string>): string
    requires |labels| == |values|
  {
    if labels == [] then ""
    else if |labels| == 1 then labels[0] + values[0]
    else labels[0] + values[0] + "\n" + Lines(labels[1..], values[1..])
  }

  /** `w` occurs in `t`. */
  predicate Contains(t: string, w: string)
  {
    exists i :: 0 <= i <= |t| && w <= t[i..]
  }

  /** A text occurs in any text built around it. */
  lemma ContainsMiddle(x: string, w: string, y: string)
    ensures Contains(x + w + y, w)
  {
    assert (x + w + y)[|x|..] == w + y;
  }

  /** What occurs in `t` occurs in any text built around `t`. */
  lemma ContainsWithin(x: string, t: string, y: string, w: string)
    requires Contains(t, w)
    ensures Contains(x + t + y, w)
  {
    var i :| 0 <= i <= |t| && w <= t[i..];
    assert (x + t + y)[|x| + i..] == t[i..] + y;
  }

  /** Every labelled line occurs in the lines. */
  lemma {:induction false} LinesShowEach(labels: seq<string>, values: seq<string>)
    requires |labels| == |values|
    ensures forall k :: 0 <= k < |labels| ==> Contains(Lines(labels, values), labels[k] + values[k])
    decreases |labels|
  {
    if |labels| == 1 {
      ContainsMiddle("", labels[0] + values[0], "");
      assert "" + (labels[0] + values[0]) + "" == Lines(labels, values);
    } else if |labels| > 1 {
      var rest := Lines(labels[1..], values[1..]);
      LinesShowEach(labels[1..], values[1..]);
      ContainsMiddle("", labels[0] + values[0], "\n" + rest);
      assert "" + (labels[0] + values[0]) + ("\n" + rest) == Lines(labels, values);
      forall k | 1 <= k < |labels|
        ensures Contains(Lines(labels, values), labels[k] + values[k])
      {
        assert labels[1..][k - 1] == labels[k] && values[1..][k - 1] == values[k];
        ContainsWithin(labels[0] + values[0] + "\n", rest, "", labels[k] + values[k]);
        assert labels[0] + values[0] + "\n" + rest + "" == Lines(labels, values);
      }
    }
  }

  /** The session-details block, lines 105-112: every setting's line is in it. */
  function SessionDetails(s: Settings): (r: string)
    ensures forall k :: 0 <= k < |DetailLabels| ==> Contains(r, DetailLabels[k] + DetailValues(s)[k])
  {
    var values := DetailValues(s);
    LinesShowEach(DetailLabels, values);
    ShownAfterHeading(Lines(DetailLabels, values), DetailLabels, values);
    "**Session Details:**\n" + Lines(DetailLabels, values)
  }

  /** The lines shown after the heading are still shown. */
  lemma ShownAfterHeading(body: string, labels: seq<string>, values: seq<string>)
    requires |labels| == |values|
    requires forall k :: 0 <= k < |labels| ==> Contains(body, labels[k] + values[k])
    ensures forall k :: 0 <= k < |labels| ==> Contains("**Session Details:**\n" + body, labels[k] + values[k])
  {
    forall k | 0 <= k < |labels|
      ensures Contains("**Session Details:**\n" + body, labels[k] + values[k])
    {
      ContainsWithin("**Session Details:**\n", body, "", labels[k] + values[k]);
      assert "**Session Details:**\n" + body + "" == "**Session Details:**\n" + body;
    }
  }

  /** The head of the instruction, up to the style section. */
  function Opening(personality: string): string
  {
    "You are \"Safar AI\", an English speaking tutor with the personality of a " + personality + ". Your goal is to help students improve their spoken English through engaging, personality-driven conversations.\n\n**Your Personality & Teaching Style:**\n"
  }

  /** The last sentence of the instruction, after a blank line. */
  function Closing(personality: string): string
  {
    "\n\nRemember to embody your " + personality + " personality throughout the entire conversation while maintaining effective English teaching practices.\n"
  }

  /** The fixed part between the style section and the session details. */
  function Rules(): string
  {
    "\n\n" + Guidelines + "\n\n"
  }

  /** Everything before the session details: it holds the style section. */
  function BeforeDetails(personality: string): (r: string)
    ensures Contains(r, StyleText(personality))
  {
    ContainsMiddle(Opening(personality), StyleText(personality), Rules());
    Opening(personality) + StyleText(personality) + Rules()
  }

  /**
   * Lines 79-115: the instruction text. What it shows is stated on its
   * parts: `BeforeDetails` holds the style text and `SessionDetails` the
   * line of every setting.
   */
  function Instruction(s: Settings): string
  {
    BeforeDetails(s.personality) + SessionDetails(s) + Closing(s.personality)
  }
}

/** What the instruction promises for defaults and unknown settings. */
module SessionPromptProperties {
  import opened SessionPrompt

  /** A request without settings gets the documented defaults, each of which the tables know. */
  lemma EmptyRequestDefaults()
    ensures ReadSettings(map[]) == Settings("Intermediate", "Daily Life", "", "Friendly Mentor", "friendly")
    ensures "Intermediate" in LevelInstructions && "Daily Life" in ThemePrompts && "Friendly Mentor" in PersonalityInstructions
  {
  }

  /** Every setting the request gives overrides its default. */
  lemma RequestValuesWin(fields: map<string, string>)
    requires fields.Keys >= {"level", "theme", "topic", "personality", "avatar"}
    ensures ReadSettings(fields)
              == Settings(fields["level"], fields["theme"], fields["topic"], fields["personality"], fields["avatar"])
  {
  }

  /**
   * The defaults fill the session details with the Intermediate level
   * text, the Daily Life theme text, the general-topics note and the
   * Friendly Mentor approach.
   */
  lemma DefaultSessionDetails()
    ensures DetailValues(ReadSettings(map[]))
              == ["Intermediate", LevelInstructions["Intermediate"], "Daily Life", ThemePrompts["Daily Life"],
                  "None - use general theme topics", "Friendly Mentor", PersonalityInstructions["Friendly Mentor"]]
  {
  }

  /**
   * An unknown personality still gets the Friendly Mentor style section,
   * but an empty teaching-approach line.
   */
  lemma UnknownPersonality(personality: string)
    requires personality !in PersonalityInstructions
    ensures StyleText(personality) == PersonalityInstructions[DefaultPersonality]
    ensures Lookup(PersonalityInstructions, personality, "") == ""
  {
  }

  /** Unknown levels and themes leave their instruction lines empty; known ones never do. */
  lemma LevelAndThemeLines(level: string, theme: string)
    ensures Lookup(LevelInstructions, level, "") == "" <==> level !in LevelInstructions
    ensures Lookup(ThemePrompts, theme, "") == "" <==> theme !in ThemePrompts
  {
  }
}
