/** The course-search autocompletion route: a table of canned completions
    used in mock mode, the backend choice, and the `/complete` handler. The
    two outside services are parameters that return a completion or fail. */
module LlmRoutes {
  import opened Js

  /** The canned completions, in the table's own order. */
  const MockResponses: seq<(string, string)> := [
    ("javascript", " programming, web development, frontend"),
    ("python", " programming, data science, machine learning"),
    ("react", " development, frontend, web applications"),
    ("node", "js backend development, server-side programming"),
    ("data", " science, analytics, machine learning"),
    ("machine", " learning, AI, artificial intelligence"),
    ("web", " development, design, frontend, backend"),
    ("mobile", " app development, iOS, Android"),
    ("design", " UI/UX, graphic design, web design"),
    ("business", " management, entrepreneurship, marketing"),
    ("marketing", " digital marketing, social media, SEO"),
    ("finance", " investment, accounting, financial planning"),
    ("health", "care, medical, nursing, fitness"),
    ("cooking", " culinary arts, food preparation, recipes"),
    ("music", " production, instruments, theory"),
    ("art", " drawing, painting, digital art"),
    ("photography", " camera techniques, editing, composition"),
    ("language", " learning, speaking, grammar"),
    ("math", "ematics, algebra, calculus, statistics"),
    ("science", " physics, chemistry, biology"),
    ("history", " world history, ancient civilizations"),
    ("psychology", " human behavior, mental health"),
    ("philosophy", " ethics, logic, critical thinking"),
    ("java", " programming, enterprise development"),
    ("c++", " programming, systems development"),
    ("sql", " database, data management"),
    ("aws", " cloud computing, amazon web services"),
    ("docker", " containerization, devops"),
    ("git", " version control, software development"),
    ("default", " courses, learning, education")
  ]

  const DefaultResponse := " courses, learning, education"
  const PromptRequiredMessage := "Prompt is required"
  const CompletionFailedMessage := "Failed to generate completion"

  /** The index of the first entry whose key occurs in `p`, or -1. */
  function FirstMatch(table: seq<(string, string)>, p: string): (k: int)
    ensures -1 <= k < |table|
    ensures k >= 0 ==> Includes(p, table[k].0)
    ensures forall i | 0 <= i < |table| && (k == -1 || i < k) :: !Includes(p, table[i].0)
  {
    if table == [] then -1
    else if Includes(p, table[0].0) then 0
    else var k := FirstMatch(table[1..], p); if k == -1 then -1 else k + 1
  }

  /** `getMockResponse`: the completion of the first key, in table order,
      contained in the lower-cased, trimmed prompt, else the default entry. */
  function GetMockResponse(prompt: string): (r: string)
    ensures var p := Trim(ToLower(prompt));
      (FirstMatch(MockResponses, p) == -1 ==> r == DefaultResponse)
      && (FirstMatch(MockResponses, p) >= 0 ==>
            exists i | 0 <= i < |MockResponses| ::
              Includes(p, MockResponses[i].0) && r == MockResponses[i].1
              && forall j | 0 <= j < i :: !Includes(p, MockResponses[j].0))
  {
    var p := Trim(ToLower(prompt));
    var k := FirstMatch(MockResponses, p);
    if k == -1 then DefaultResponse else MockResponses[k].1
  }

  /** The default entry is the table's last, so a prompt that names it gets
      the same completion as one that names nothing. */
  lemma DefaultIsLastEntry()
    ensures MockResponses[|MockResponses| - 1] == ("default", DefaultResponse)
  {
  }

  /** A prompt naming JavaScript gets the JavaScript entry and not the later
      Java one, although it contains "java" too. */
  lemma JavascriptShadowsJava(rest: string)
    ensures GetMockResponse("javascript" + rest) == " programming, web development, frontend"
    ensures Includes(Trim(ToLower("javascript" + rest)), "java")
  {
    JavascriptPromptIncludes(rest);
    var p := Trim(ToLower("javascript" + rest));
    assert MockResponses[0].0 == "javascript";
    assert FirstMatch(MockResponses, p) == 0;
  }

  /** The lower-cased, trimmed prompt still starts with "javascript". */
  lemma JavascriptPromptIncludes(rest: string)
    ensures Includes(Trim(ToLower("javascript" + rest)), "javascript")
    ensures Includes(Trim(ToLower("javascript" + rest)), "java")
  {
    var s := "javascript" + rest;
    var l := ToLower(s);
    assert l[..10] == "javascript";
    TrimOfPrefix(l, 10);
    var p := Trim(l);
    assert "javascript" <= p[0..];
    assert "java" <= p[0..];
  }

  /** Trimming a string that starts with a non-space keeps its first `n`
      characters when they hold no space. */
  lemma TrimOfPrefix(s: string, n: nat)
    requires n <= |s| && NoSpace(s[..n]) && n > 0
    ensures |Trim(s)| >= n && Trim(s)[..n] == s[..n]
  {
    assert TrimStart(s) == s by {
      assert !IsSpace(s[0]) by { assert s[..n][0] == s[0]; }
    }
    assert !IsSpace(s[n - 1]) by { assert s[..n][n - 1] == s[n - 1]; }
  }

  /** A prompt of only white space gets the default completion. */
  lemma BlankPromptGetsDefault(prompt: string)
    requires forall k | 0 <= k < |prompt| :: IsSpace(prompt[k])
    ensures GetMockResponse(prompt) == DefaultResponse
  {
    var l := ToLower(prompt);
    forall k | 0 <= k < |l| ensures IsSpace(l[k]) {
      assert l[k] == LowerChar(prompt[k]);
    }
    TrimEmptyIffAllSpace(l);
    KeysAreNonEmpty();
    NothingMatchesEmpty(MockResponses);
  }

  lemma KeysAreNonEmpty()
    ensures forall i | 0 <= i < |MockResponses| :: MockResponses[i].0 != ""
  {
  }

  /** The empty prompt contains no non-empty key. */
  lemma NothingMatchesEmpty(table: seq<(string, string)>)
    requires forall i | 0 <= i < |table| :: table[i].0 != ""
    ensures FirstMatch(table, "") == -1
  {
  }

  /** How the service is configured: `MOCK_MODE === 'true'`, the custom
      server URL, and the Ollama model name (`OLLAMA_MODEL` or its default). */
  datatype Config = Config(mockMode: bool, customUrl: Option<string>, ollamaModel: string)

  datatype Backend = Mock | Custom | Ollama

  /** Mock mode wins, then a custom URL, then Ollama. */
  function ChooseBackend(c: Config): (b: Backend)
    ensures c.mockMode <==> b == Mock
    ensures b == Custom <==> !c.mockMode && !Missing(c.customUrl)
  {
    if c.mockMode then Mock else if !Missing(c.customUrl) then Custom else Ollama
  }

  /** The `model` label reported with a completion. */
  function ModelLabel(c: Config): (m: string)
    ensures ChooseBackend(c) == Mock ==> m == "mock"
    ensures ChooseBackend(c) == Custom ==> m == "custom"
    ensures ChooseBackend(c) == Ollama ==> m == c.ollamaModel
  {
    if c.mockMode then "mock" else if !Missing(c.customUrl) then "custom" else c.ollamaModel
  }

  datatype Response =
    | BadRequest(error: string)
    | Completed(completion: string, prompt: string, model: string)
    | ServerError(error: string, details: string)

  /** `POST /complete`, for the body's `prompt` (`None` when absent). */
  function Complete(c: Config, prompt: Option<string>, callCustom: string -> Result<string>,
                    callOllama: string -> Result<string>): (r: Response)
    ensures Missing(prompt) ==> r == BadRequest(PromptRequiredMessage)
    ensures !Missing(prompt) && ChooseBackend(c) == Mock ==>
      r == Completed(GetMockResponse(prompt.value), prompt.value, "mock")
    ensures !Missing(prompt) && ChooseBackend(c) != Mock ==>
      var res := if ChooseBackend(c) == Custom then callCustom(prompt.value) else callOllama(prompt.value);
      (res.Ok? ==> r == Completed(res.value, prompt.value, ModelLabel(c)))
      && (res.Err? ==> r == ServerError(CompletionFailedMessage, res.message))
  {
    if Missing(prompt) then BadRequest(PromptRequiredMessage)
    else
      var res := if c.mockMode then Ok(GetMockResponse(prompt.value))
                 else if !Missing(c.customUrl) then callCustom(prompt.value)
                 else callOllama(prompt.value);
      match res
      case Ok(completion) => Completed(completion, prompt.value, ModelLabel(c))
      case Err(m) => ServerError(CompletionFailedMessage, m)
  }

  /** In mock mode neither outside service is consulted: the reply is the
      same whatever they would answer. */
  lemma MockModeMakesNoCall(c: Config, prompt: Option<string>, custom1: string -> Result<string>,
                            ollama1: string -> Result<string>, custom2: string -> Result<string>,
                            ollama2: string -> Result<string>)
    requires c.mockMode
    ensures Complete(c, prompt, custom1, ollama1) == Complete(c, prompt, custom2, ollama2)
    ensures !Missing(prompt) ==> Complete(c, prompt, custom1, ollama1).Completed?
  {
  }
}
