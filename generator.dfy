/**
  Framing of the assembled prompt for the completion service (app.py, lines 26-62) and the
  "Generate Markdown" step that calls it only when an API key was entered (app.py, lines 135-151).
  The completion call itself is a parameter: a function from the request to its outcome.
*/
module ContentGenerator {
  import opened Wrappers
  import opened Text
  import ReadmePrompt

  /** The fixed system instruction, with the source's own line breaks and indentation. */
  const SystemPrompt: string :=
    "You are a professional GitHub README.md generator. \n"
    + "        Create a well-structured, engaging markdown file based on the user's requirements.\n"
    + "        The README should be professional and showcase the user's profile effectively.\n"
    + "        You must only return the markdown content without any explanations, code comments, or extra text."

  /** The part of the user instruction before the interpolated prompt. */
  const UserPromptHeader: string :=
    "Generate a GitHub profile README.md file with the following requirements:\n        "

  /** The part of the user instruction after the interpolated prompt. */
  const UserPromptFooter: string :=
    "\n        \n"
    + "        Please ensure to:\n"
    + "        1. Use appropriate markdown formatting\n"
    + "        2. Include relevant emojis\n"
    + "        3. Create clear sections\n"
    + "        4. Make it visually appealing\n"
    + "        5. Include common GitHub profile sections like Skills, Projects, Contact\n"
    + "        6. Add any badges or stats if mentioned\n"
    + "        \n"
    + "        Return only the markdown code without any explanations, code comments, or additional text."

  datatype Role = System | User

  datatype Message = Message(role: Role, content: string)

  /** What the completion service does with one request: a reply text, or an exception. */
  datatype Completion = Completed(content: string) | Raised(reason: string)

  /** The user instruction: the prompt interpolated verbatim into the fixed template. */
  function UserPrompt(prompt: string): (u: string)
    ensures StartsWith(u, UserPromptHeader)
    ensures EndsWith(u, UserPromptFooter)
    ensures |u| == |UserPromptHeader| + |prompt| + |UserPromptFooter|
  {
    UserPromptHeader + prompt + UserPromptFooter
  }

  /** Takes the interpolated prompt back out of a user instruction, if it has the template's shape. */
  function ExtractPrompt(u: string): (prompt: Option<string>)
  {
    if |UserPromptHeader| + |UserPromptFooter| <= |u|
       && StartsWith(u, UserPromptHeader) && EndsWith(u, UserPromptFooter)
    then Some(u[|UserPromptHeader|..|u| - |UserPromptFooter|])
    else None
  }

  lemma ExtractUserPrompt(prompt: string)
    ensures ExtractPrompt(UserPrompt(prompt)) == Some(prompt)
  {
    var u := UserPrompt(prompt);
    assert u[|UserPromptHeader|..|u| - |UserPromptFooter|] == prompt;
  }

  /**
    The two messages of the chat request: the fixed system instruction, then the user
    instruction that carries the prompt verbatim.
  */
  function Messages(prompt: string): (ms: seq<Message>)
    ensures |ms| == 2
    ensures ms[0] == Message(System, SystemPrompt)
    ensures ms[1].role == User
    ensures ExtractPrompt(ms[1].content) == Some(prompt)
  {
    ExtractUserPrompt(prompt);
    [Message(System, SystemPrompt), Message(User, UserPrompt(prompt))]
  }

  /**
    One generation: a single request built from the prompt; the reply's text verbatim on
    success, nothing when the call raises.
  */
  function GenerateReadmeContent(prompt: string, complete: seq<Message> -> Completion): (markdown: Option<string>)
    ensures markdown.Some? <==> complete(Messages(prompt)).Completed?
    ensures markdown.Some? ==> markdown.value == complete(Messages(prompt)).content
  {
    match complete(Messages(prompt))
    case Completed(content) => Some(content)
    case Raised(_) => None
  }

  /** The result of pressing "Generate Markdown": the request sent, if any, and the stored markdown. */
  datatype GenerateStep = GenerateStep(sent: Option<seq<Message>>, markdown: Option<string>)

  /**
    Pressing "Generate Markdown". Without an API key nothing is sent and the stored markdown is
    kept; otherwise the prompt is assembled, sent once, and its outcome replaces the stored
    markdown, a failure included.
  */
  function OnGenerate(apiKey: string, description: string, flags: ReadmePrompt.Flags,
                      complete: seq<Message> -> Completion, stored: Option<string>): (step: GenerateStep)
    ensures step.sent.None? <==> apiKey == ""
    ensures apiKey == "" ==> step.markdown == stored
    ensures step.sent.Some? ==>
              && step.sent.value == Messages(ReadmePrompt.BuildPrompt(description, flags))
              && (step.markdown.Some? <==> complete(step.sent.value).Completed?)
              && (step.markdown.Some? ==> step.markdown.value == complete(step.sent.value).content)
  {
    if apiKey == "" then
      GenerateStep(None, stored)
    else
      var fullPrompt := ReadmePrompt.BuildPrompt(description, flags);
      GenerateStep(Some(Messages(fullPrompt)), GenerateReadmeContent(fullPrompt, complete))
  }

  /**
    The request that generation sends encodes the form exactly: its user message yields the
    description and every option back.
  */
  lemma {:induction false} RequestEncodesForm(apiKey: string, description: string, flags: ReadmePrompt.Flags,
                                              complete: seq<Message> -> Completion, stored: Option<string>)
    requires apiKey != ""
    ensures var step := OnGenerate(apiKey, description, flags, complete, stored);
            && step.sent.Some?
            && ExtractPrompt(step.sent.value[1].content).Some?
            && ReadmePrompt.ParsePrompt(ExtractPrompt(step.sent.value[1].content).value)
               == Some(ReadmePrompt.PromptRequest(description, flags))
  {
    ReadmePrompt.ParseBuildPrompt(description, flags);
  }

  /** A failed generation discards markdown generated earlier instead of keeping it. */
  lemma FailedGenerationClearsMarkdown(apiKey: string, description: string, flags: ReadmePrompt.Flags,
                                       complete: seq<Message> -> Completion, earlier: string)
    requires apiKey != ""
    requires complete(Messages(ReadmePrompt.BuildPrompt(description, flags))).Raised?
    ensures OnGenerate(apiKey, description, flags, complete, Some(earlier)).markdown == None
  {
  }
}
