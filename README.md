# GitHub profile README generator — Dafny model

The application lets a user describe the profile README they want, tick three options
(GitHub stats, top languages, contribution streak), have a hosted language model write the
markdown, and push the result to their profile repository: the repository whose name is their
own login. This project models the deterministic part of `app.py`:

- **Prompt assembly** (`prompt.dfy`, module `ReadmePrompt`): the description, a blank line, and
  one fixed directive line per ticked option in the order stats, languages, streak.
  `BuildPrompt` keeps the source's step-by-step appends. `Directives` says independently which
  lines the options add. `ParsePrompt` takes a prompt apart again, and the round trip proves that
  the prompt determines both the description and every option.
- **Prompt framing and generation** (`generator.dfy`, module `ContentGenerator`): the fixed system
  instruction and the user template, with their exact line breaks and indentation. The prompt
  sits verbatim between the template's header and its "Please ensure to:" instructions.
  The completion service is a parameter, a function from the request to a reply or an
  exception. `OnGenerate` is the "Generate Markdown" press. With no API key it sends nothing;
  otherwise it sends exactly one request and stores the outcome.
- **Create-or-update publishing** (`publisher.dfy`, module `RepositoryPublisher`): class
  `Repository` is the remote repository. It holds files keyed by branch and path, each with
  content and a revision marker (sha), plus the log of API calls made and an oracle. The oracle
  says whether a read, an update or a create raises, and which marker the remote assigns next.
  `UpdateReadme` is the source's `update_readme`. It is proved against the pure specification
  `PublishReadme`, and the lemmas beside that function state the branch decisions.
- **The profile repository and the push** (`profile.dfy`, module `ProfileRepository`): the
  lookup of the repository named after the login, and the guarded push to its default branch.

`wrappers.dfy` holds an `Option` type; `text.dfy` holds prefix and suffix tests on strings.

Four behaviours of the code are easy to miss:

- A failed generation stores "nothing" over markdown generated earlier (app.py:151, app.py:60-62).
  It does not leave the earlier markdown in place.
- The create fallback runs when the read raises and also when the update raises. Both calls sit in
  one `try` block (app.py:68-79).
- No separate "repository name must equal owner" check exists. The code only looks the repository
  up under the login as its name (app.py:170-173). The model proves that the push goes to the
  repository listed under the login. That this repository's name and owner equal the login rests
  on `Account.Valid()`, the assumed behaviour of the hosting API's repository lookup.
- A blank line (`"\n\n"`) separates the description from the directive lines (app.py:143).

## Model

| member | source | states |
|---|---|---|
| ReadmePrompt.Directives | app.py:144-149 | each directive line is present exactly when its option is ticked, only the three fixed lines occur, and they come in the order stats, languages, streak |
| ReadmePrompt.BuildPrompt | app.py:143-149 | the prompt starts with the description followed by "\n\n" (an empty description too), and its length is the description plus two plus the lengths of the ticked options' lines |
| ReadmePrompt.BuildPromptIsDirectives | app.py:143-149 | the prompt is exactly the description, "\n\n", then the enabled directive lines joined in order; a disabled option adds nothing |
| ReadmePrompt.ParseBuildPrompt | app.py:143-149 | parsing an assembled prompt yields back the description and all three options |
| ReadmePrompt.BuildPromptInjective | app.py:143-149 | two different form inputs never yield the same prompt |
| ReadmePrompt.StatsAndStreakScenario | app.py:143-149 | with stats and streak on and languages off, the prompt is the description, "\n\n", the stats line, then the streak line |
| ContentGenerator.UserPrompt | app.py:34-45 | the user instruction starts with the fixed header, ends with the fixed instructions, and has room for exactly the prompt between them |
| ContentGenerator.ExtractUserPrompt | app.py:34-45 | the text between header and instructions is the prompt, verbatim |
| ContentGenerator.Messages | app.py:29-50 | the request has two messages: the fixed system instruction, independent of the input, then a user message from which the prompt is recovered verbatim |
| ContentGenerator.GenerateReadmeContent | app.py:47-62 | the result is the reply's text verbatim when the completion call returns, and nothing when it raises |
| ContentGenerator.OnGenerate | app.py:135-151 | a request is sent exactly when the API key is non-empty; without a key the stored markdown is kept; with one, the request is built from the assembled prompt and its outcome replaces the stored markdown |
| ContentGenerator.RequestEncodesForm | app.py:135-151 | the request sent carries the description and every option, recoverable from its user message |
| ContentGenerator.FailedGenerationClearsMarkdown | app.py:151 | a generation that raises overwrites earlier markdown with nothing |
| RepositoryPublisher.Read | app.py:70 | reading README.md succeeds exactly when it exists at the branch and the read does not raise, and then returns its stored content and sha |
| RepositoryPublisher.Fallback | app.py:79-91 | the fallback makes one create call with the fixed create message; it succeeds exactly when the create does, and only then stores the new content |
| RepositoryPublisher.PublishReadme | app.py:66-91 | the first call is one read of README.md at the branch, and every call uses that branch; an update happens only right after a read that went through, carrying the sha read; on success the stored content is exactly the new content; on failure nothing is stored; no other file changes |
| RepositoryPublisher.UpdateWhenFound | app.py:69-78 | when README.md exists and the read and update go through, the update carries the path, the update message and the sha just read; no create happens; the result is true |
| RepositoryPublisher.CreateWhenReadOrUpdateFails | app.py:79-91 | when the read or the update raises, the last call is a create of README.md with the create message, exactly one create happens, and the result is true iff that create succeeds; a failed read is followed directly by the create, with no update |
| RepositoryPublisher.RejectedUpdateFails | app.py:68-91 | when README.md exists, the read goes through and the update raises, the calls are exactly the read, the update with the path, update message and sha just read, then the create; the result is false and no file changes |
| RepositoryPublisher.MissingFileIsCreated | app.py:80-88 | with no README.md on the branch there is one read, one create and no update, and the result is true iff the create does not raise |
| RepositoryPublisher.ExistingFileNeedsUpdate | app.py:66-91 | with README.md present, the create fallback cannot succeed, so the publish succeeds exactly when both the read and the update do |
| RepositoryPublisher.PublishConverges | app.py:66-91 | after a successful publish, publishing the same markdown again leaves the same content, and succeeds exactly when its read and update go through |
| RepositoryPublisher.Repository.GetContents | app.py:70 | a read returns what Read specifies and is logged, changing no file |
| RepositoryPublisher.Repository.UpdateFile | app.py:71-77 | an update succeeds only on an existing file whose sha matches, then stores the new content; it is logged with its arguments |
| RepositoryPublisher.Repository.CreateFile | app.py:82-87 | a create succeeds only when the file does not exist yet, then stores the new content; it is logged with its arguments |
| RepositoryPublisher.UpdateReadme | app.py:66-91 | the result, the files afterwards and the calls made are exactly those PublishReadme specifies, on the default branch "main" unless another is given |
| ProfileRepository.CheckSpecialRepository | app.py:17-24 | the lookup finds a repository exactly when the user owns one of that name, and that repository is owned by the login and carries the name asked for |
| ProfileRepository.SpecialRepositoryIsNamedAfterLogin | app.py:168-173 | the repository looked up for a push has name and owner both equal to the authenticated login |
| ProfileRepository.PushReadme | app.py:153-185 | there is no push without markdown, a token, a successful login and a repository named after the login; otherwise README.md of that repository is published to "main" as PublishReadme specifies for the remote's behaviour at the time of the call, and nothing changes on the paths that do not push |

## Left out

- The Streamlit layout, widgets, spinners, balloons, expanders, button presses and status messages (`st.error`, `st.warning`, `st.success`) are left out. They are presentation only; a push is modelled as the button having been pressed.
- The completion call is a parameter. Its model identifier, temperature, top_p, max_tokens and streaming flag are left out: they are a foreign, non-deterministic network call with floating-point sampling parameters.
- Client construction and authentication (`Github(token)`, `Groq(api_key=...)`, `get_user`) are left out as foreign library calls. Authentication is an `Option<Account>`, where None means the login raised.
- ProfileRepository.CheckSpecialRepository: a lookup that raises for reasons other than a missing repository (network, permissions) is not modelled separately. Any failed lookup is "no such repository".
- The base64 encoding of file content by the hosting library is left out. Content is stored as the string given.
- The revision marker the remote assigns after a write is an oracle value (`Oracle.newSha`), not a content hash.
- A hosting API call that raises is taken to have changed nothing. A write that lands on the remote but then raises (a timeout on the response, say) cannot be represented, so `PublishReadme`'s "failure stores nothing" rests on that assumption.
- Exceptions are modelled as result values and oracle booleans, not as control flow. Their messages are left out.
- The unused imports and the instructions text are not modelled.
