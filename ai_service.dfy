/**
 * The generation service: provider dispatch, the user prompt, the fixed mock
 * project and the heuristic that picks the JSON text out of a free-form reply.
 *
 * The chat backends and `json.loads(text)["files"]` are foreign: they enter as
 * function-typed parameters (`Client`, `FilesLoader`) that the model never
 * looks inside.
 */
module AiService {
  import opened Wrappers
  import opened PyStr

  /** One entry of a generated project: a relative path and its text. */
  datatype GeneratedFile = GeneratedFile(path: string, content: string)

  /** The two network backends. */
  datatype Backend = OpenAI | Anthropic

  /** What a backend call is given: the backend, the API key (possibly None), the system prompt and the user prompt. */
  datatype ChatRequest = ChatRequest(backend: Backend, apiKey: Option<string>, system: string, user: string)

  /** The ways `generate_test_code` can fail. */
  datatype GenerationError =
    | InvalidProvider               // ValueError("Invalid provider")
    | ClientError(reason: string)   // the backend SDK raised
    | MalformedReply(text: string)  // json.loads raised, or the "files" key was missing

  /** A backend call: the reply text (the first choice's message or the first content block), or the SDK's error. */
  type Client = ChatRequest -> Result<string, string>

  /** `json.loads(text)["files"]`: the file list, or None when the parse or the lookup fails. */
  type FilesLoader = string -> Option<seq<GeneratedFile>>

  const Fence: string := "```json"
  const Ticks: string := "```"

  /** The fixed system prompt sent to both backends. */
  const SystemPrompt: string :=
    "You are an expert QA Automation Engineer specializing in Selenium, Python, and Pytest.\n" +
    "Your task is to generate a complete, runnable test automation project based on the provided test plan.\n" +
    "You must generate a Page Object Model (POM) structure.\n" +
    "\n" +
    "Output MUST be a valid JSON object with a single key \"files\", which is a list of objects.\n" +
    "Each object must have \"path\" (relative file path) and \"content\" (file content).\n" +
    "\n" +
    "Example Output:\n" +
    "{\n" +
    "  \"files\": [\n" +
    "    {\n" +
    "      \"path\": \"pages/login_page.py\",\n" +
    "      \"content\": \"class LoginPage:...\"\n" +
    "    },\n" +
    "    {\n" +
    "      \"path\": \"tests/test_login.py\",\n" +
    "      \"content\": \"def test_login():...\"\n" +
    "    }\n" +
    "  ]\n" +
    "}\n" +
    "\n" +
    "Include:\n" +
    "1. `requirements.txt` (MUST include: pytest, selenium, webdriver-manager)\n" +
    "2. `pytest.ini`\n" +
    "3. `README.md`\n" +
    "4. Page Object files in `pages/`\n" +
    "5. Test files in `tests/`\n" +
    "6. `conftest.py` for fixtures\n" +
    "\n" +
    "Follow best practices:\n" +
    "- Use `webdriver_manager` to automatically manage drivers.\n" +
    "- Use explicit waits (WebDriverWait).\n" +
    "- Use type hinting.\n" +
    "- specific selectors (ID, Name, CSS).\n"

  // ---------------------------------------------------------------------------
  // Prompt assembly

  /** Python's `url or 'N/A'`. */
  function UrlText(url: Option<string>): (r: string)
    ensures url.None? || url.value == [] ==> r == "N/A"
    ensures url.Some? && url.value != [] ==> r == url.value
  {
    if url.Some? && url.value != [] then url.value else "N/A"
  }

  /** The gloss on the generation mode: only the exact string "full" asks for a full implementation. */
  function ModeGloss(mode: string): (r: string)
    ensures r == "Full implementation with logic" <==> mode == "full"
    ensures r == "Template structure with TODOs" <==> mode != "full"
  {
    if mode == "full" then "Full implementation with logic" else "Template structure with TODOs"
  }

  /** The prompt's URL line. */
  function UrlLine(url: Option<string>): string {
    "Target URL: " + UrlText(url) + "\n"
  }

  /** The prompt's mode line: the mode as given, then its gloss. */
  function ModeLine(mode: string): string {
    "Generation Mode: " + mode + " (" + ModeGloss(mode) + ")\n"
  }

  /** The prompt's framework line; it names Selenium, Python and Pytest whatever the framework. */
  function FrameworkLine(framework: string): string {
    "Framework: " + framework + " (Selenium + Python + Pytest)\n"
  }

  /** In `a0 + u + s1 + m + s2 + f + s3 + plan + tail`, the parts `u`, `m`, `f` and `plan` sit at their offsets. */
  lemma PartsInOrder(a0: string, u: string, s1: string, m: string, s2: string, f: string, s3: string,
                     plan: string, tail: string)
    ensures var a1 := a0 + u + s1;
      var a2 := a1 + m + s2;
      var a3 := a2 + f + s3;
      var p := a3 + plan + tail;
      OccursAt(p, u, |a0|) && OccursAt(p, m, |a1|) && OccursAt(p, f, |a2|) && OccursAt(p, plan, |a3|)
  {
    var a1 := a0 + u + s1;
    var a2 := a1 + m + s2;
    var a3 := a2 + f + s3;
    OccursAfter(a0 + u, a0, u);
    OccursExtend(a0 + u, s1, u, |a0|);
    OccursAfter(a1 + m, a1, m);
    OccursExtend(a1 + m, s2, m, |a1|);
    OccursExtend(a1, m, u, |a0|);
    OccursExtend(a1 + m, s2, u, |a0|);
    OccursAfter(a2 + f, a2, f);
    OccursExtend(a2, f, u, |a0|);
    OccursExtend(a2, f, m, |a1|);
    OccursExtend(a2 + f, s3, u, |a0|);
    OccursExtend(a2 + f, s3, m, |a1|);
    OccursExtend(a2 + f, s3, f, |a2|);
    OccursAfter(a3 + plan, a3, plan);
    OccursExtend(a3, plan, u, |a0|);
    OccursExtend(a3, plan, m, |a1|);
    OccursExtend(a3, plan, f, |a2|);
    var b := a3 + plan;
    OccursExtend(b, tail, u, |a0|);
    OccursExtend(b, tail, m, |a1|);
    OccursExtend(b, tail, f, |a2|);
    OccursExtend(b, tail, plan, |a3|);
  }

  /**
   * The user prompt, the f-string's lines in order; `planJson` is `json.dumps(test_plan, indent=2)`.
   * The URL line (the URL or N/A, see `UrlText`), the mode line (the mode and its gloss, see
   * `ModeGloss`), the framework line and the plan sit at these offsets.
   */
  function Prompt(url: Option<string>, mode: string, framework: string, planJson: string): (r: string)
    ensures var a0 := "\n    ";
      var a1 := a0 + UrlLine(url) + "    ";
      var a2 := a1 + ModeLine(mode) + "    ";
      var a3 := a2 + FrameworkLine(framework) + "\n    Test Cases:\n    ";
      OccursAt(r, UrlLine(url), |a0|) && OccursAt(r, ModeLine(mode), |a1|) &&
      OccursAt(r, FrameworkLine(framework), |a2|) && OccursAt(r, planJson, |a3|)
  {
    var u, m, f := UrlLine(url), ModeLine(mode), FrameworkLine(framework);
    var a0, s1, s2, s3 := "\n    ", "    ", "    ", "\n    Test Cases:\n    ";
    var tail := "\n\n    Generate the full project structure.\n    ";
    PartsInOrder(a0, u, s1, m, s2, f, s3, planJson, tail);
    a0 + u + s1 + m + s2 + f + s3 + planJson + tail
  }

  /** The prompt contains the URL line, the mode line, the framework line and the serialised plan. */
  lemma PromptMentions(url: Option<string>, mode: string, framework: string, planJson: string)
    ensures var p := Prompt(url, mode, framework, planJson);
      Contains(p, UrlLine(url)) && Contains(p, ModeLine(mode)) &&
      Contains(p, FrameworkLine(framework)) && Contains(p, planJson)
  {
    var p, a0 := Prompt(url, mode, framework, planJson), "\n    ";
    var a1 := a0 + UrlLine(url) + "    ";
    var a2 := a1 + ModeLine(mode) + "    ";
    var a3 := a2 + FrameworkLine(framework) + "\n    Test Cases:\n    ";
    assert OccursAt(p, UrlLine(url), |a0|) && OccursAt(p, ModeLine(mode), |a1|);
    assert OccursAt(p, FrameworkLine(framework), |a2|) && OccursAt(p, planJson, |a3|);
  }

  // ---------------------------------------------------------------------------
  // The mock provider

  /** The fixed three-file project returned for provider "mock". */
  function MockFiles(): (r: seq<GeneratedFile>)
    ensures |r| == 3
    ensures r[0].path == "README.md" && r[1].path == "requirements.txt" && r[2].path == "tests/test_mock.py"
    ensures r[0].content == "# Mock Project\nThis is a generated mock project."
    ensures r[1].content == "pytest\nselenium"
    ensures r[2].content == "def test_example():\n    assert True"
  {
    [ GeneratedFile("README.md", "# Mock Project\nThis is a generated mock project."),
      GeneratedFile("requirements.txt", "pytest\nselenium"),
      GeneratedFile("tests/test_mock.py", "def test_example():\n    assert True") ]
  }

  // ---------------------------------------------------------------------------
  // Picking the JSON text out of a reply

  /**
   * The text handed to the JSON parser on the Anthropic path:
   * `content.split("```json")[1].split("```")[0]` when the reply has a ```json fence,
   * else `content[content.find("{"):content.rfind("}") + 1]` when it has a '{',
   * else the reply itself.
   */
  function ExtractJsonText(content: string): (r: string)
    ensures |r| <= |content|
    ensures Contains(content, Fence) ==> !Contains(r, Ticks)
    ensures !Contains(content, Fence) && !Contains(content, "{") ==> r == content
  {
    if Contains(content, Fence) then
      var pieces := Split(content, Fence);
      SplitSecond(content, Fence);
      Split(pieces[1], Ticks)[0]
    else if Contains(content, "{") then
      Slice(content, Find(content, "{"), RFind(content, "}") + 1)
    else
      content
  }

  /** The text after the first ```json opener: the suffix of the reply preceded by an opener with none before it. */
  function AfterFence(content: string): (r: string)
    requires Contains(content, Fence)
    ensures var k := |content| - |r| - |Fence|;
      OccursAt(content, Fence, k) && content[k + |Fence|..] == r &&
      forall i | 0 <= i < k :: !OccursAt(content, Fence, i)
  {
    var k := Find(content, Fence);
    assert |content[k + |Fence|..]| == |content| - k - |Fence|;
    content[k + |Fence|..]
  }

  /** The fenced rule as the two splits compute it: before the next ```json, then before the first ```. */
  lemma FencedPieces(content: string)
    requires Contains(content, Fence)
    ensures ExtractJsonText(content) == Before(Before(AfterFence(content), Fence), Ticks)
  {
    SplitSecond(content, Fence);
  }

  /** Where the two cuts of `FencedPieces` land, for any text following the opener. */
  lemma BeforeFenceThenTicks(after: string)
    ensures var j, m := Find(after, Ticks), Find(after, Fence);
      var r := Before(Before(after, Fence), Ticks);
      (!(0 <= j < m < j + |Ticks|) ==> r == Before(after, Ticks)) &&
      (0 <= j < m < j + |Ticks| ==> r == after[..m])
  {
    var j, m := Find(after, Ticks), Find(after, Fence);
    var piece := Before(after, Fence);
    if m >= 0 {
      assert piece == after[..m];
      assert after[m..m + |Ticks|] == Ticks by {
        assert after[m..m + |Fence|][..|Ticks|] == after[m..m + |Ticks|];
      }
      assert OccursAt(after, Ticks, m);
      assert 0 <= j <= m;
      FindInPrefix(after, Ticks, m);
      if j + |Ticks| <= m {
        assert Find(piece, Ticks) == j;
      } else {
        assert Find(piece, Ticks) == -1;
      }
    }
  }

  /**
   * The fenced rule, in terms of the text after the first ```json: up to the first ``` or to the end.
   * The one exception is a ``` that runs into the next ```json opener (four or five backticks before
   * "json"); the code then cuts at that opener and keeps one or two backticks.
   */
  lemma FencedRule(content: string)
    requires Contains(content, Fence)
    ensures var after := AfterFence(content);
      var j, m := Find(after, Ticks), Find(after, Fence);
      (!(0 <= j < m < j + |Ticks|) ==> ExtractJsonText(content) == Before(after, Ticks)) &&
      (0 <= j < m < j + |Ticks| ==> ExtractJsonText(content) == after[..m])
  {
    FencedPieces(content);
    BeforeFenceThenTicks(AfterFence(content));
  }

  /** An opener with no ``` after it: the result runs from the opener to the end of the reply. */
  lemma FencedUnclosed(content: string)
    requires Contains(content, Fence) && !Contains(AfterFence(content), Ticks)
    ensures ExtractJsonText(content) == AfterFence(content)
  {
    FencedRule(content);
    assert Find(AfterFence(content), Ticks) == -1;
    BeforeWhole(AfterFence(content), Ticks);
  }

  /** The brace rule: from the first '{' through the last '}', empty exactly when there is no '}' after the first '{'. */
  lemma BraceRule(content: string)
    requires !Contains(content, Fence) && Contains(content, "{")
    ensures var a, z := Find(content, "{"), RFind(content, "}");
      var r := ExtractJsonText(content);
      0 <= a < |content| &&
      (a <= z ==> z < |content| && r == content[a..z + 1]) &&
      (r == [] <==> !Contains(content, "}") || z < a) &&
      (r != [] ==> r[0] == '{' && r[|r| - 1] == '}')
  {
    var a, z := Find(content, "{"), RFind(content, "}");
    var r := ExtractJsonText(content);
    ContainsChar(content, '{');
    ContainsChar(content, '}');
    assert content[a] == '{';
    if z >= 0 {
      assert content[z] == '}';
      assert z != a;
    }
    assert r == Slice(content, a, z + 1);
    if a <= z {
      assert r == content[a..z + 1];
    } else {
      assert r == [];
    }
  }

  /** With a fence, the extracted text starts right after the first opener. */
  lemma FencedSubstring(content: string)
    requires Contains(content, Fence)
    ensures var k, r := Find(content, Fence) + |Fence|, ExtractJsonText(content);
      k + |r| <= |content| && r == content[k..k + |r|]
  {
    var k, r := Find(content, Fence) + |Fence|, ExtractJsonText(content);
    var after := AfterFence(content);
    assert after == content[k..];
    FencedPieces(content);
    CutWithinSuffix(content, k, Before(after, Fence), r);
  }

  /** A prefix of a prefix of `s[k..]` is the piece of `s` starting at `k`. */
  lemma CutWithinSuffix(s: string, k: nat, piece: string, r: string)
    requires k <= |s| && |piece| <= |s| - k && piece == s[k..][..|piece|] && |r| <= |piece| && r == piece[..|r|]
    ensures k + |r| <= |s| && r == s[k..k + |r|]
  {
    assert s[k..][..|r|] == s[k..k + |r|];
  }

  /** In every case the extracted text is one contiguous piece of the reply, so never longer than it. */
  lemma ExtractIsSubstring(content: string)
    ensures IsSubstring(ExtractJsonText(content), content)
    ensures |ExtractJsonText(content)| <= |content|
  {
    var r := ExtractJsonText(content);
    if Contains(content, Fence) {
      FencedSubstring(content);
      var k := Find(content, Fence) + |Fence|;
      assert r == content[k..k + |r|];
    } else if Contains(content, "{") {
      BraceRule(content);
      var a, z := Find(content, "{"), RFind(content, "}");
      if a <= z {
        assert r == content[a..z + 1];
      } else {
        assert r == content[0..0];
      }
    } else {
      assert r == content[0..|content|];
    }
  }

  /** No occurrence of a pattern that starts with a backtick inside backtick-free text. */
  lemma NoTickStart(c: string, p: string, n: nat)
    requires n <= |c| && p != [] && p[0] == '`' && '`' !in c[..n]
    ensures forall i | 0 <= i < n :: !OccursAt(c, p, i)
  {
    forall i | 0 <= i < n ensures !OccursAt(c, p, i) {
      assert c[..n][i] == c[i];
      MismatchAt(c, p, i, 0);
    }
  }

  /** A pattern opening with a backtick, placed after backtick-free text, is first found right there. */
  lemma FindAfterTickFree(pre: string, p: string, x: string)
    requires p != [] && p[0] == '`' && '`' !in pre
    ensures var s := pre + (p + x);
      Find(s, p) == |pre| && s[|pre| + |p|..] == x && s[..|pre|] == pre
  {
    var s := pre + (p + x);
    assert s[|pre|..] == p + x;
    assert s[|pre|..][..|p|] == p;
    assert s[|pre|..|pre| + |p|] == s[|pre|..][..|p|];
    assert s[..|pre|] == pre;
    NoTickStart(s, p, |pre|);
    assert OccursAt(s, p, |pre|);
    assert s[|pre| + |p|..] == s[|pre|..][|p|..];
  }

  /** A closing ``` not followed by a backtick does not start a ```json opener inside itself. */
  lemma CloserNotOpener(body: string, trailer: string)
    requires trailer == [] || trailer[0] != '`'
    ensures var after, j := body + (Ticks + trailer), |body|;
      forall i | j < i < j + |Ticks| :: !OccursAt(after, Fence, i)
  {
    var after, j := body + (Ticks + trailer), |body|;
    assert after[j..] == Ticks + trailer;
    assert Fence[1] == '`' && Fence[2] == '`';
    forall i | j < i < j + |Ticks| ensures !OccursAt(after, Fence, i) {
      if i + |Fence| <= |after| {
        assert after[j + 3] == (Ticks + trailer)[3] == trailer[0];
        MismatchAt(after, Fence, i, j + 3 - i);
      }
    }
  }

  /**
   * Prose (which may hold braces) before a ```json fence does not matter: a body without backticks
   * closed by ``` is extracted exactly, provided what follows the closing ``` does not start with a backtick.
   */
  lemma FenceWinsOverProse(prose: string, body: string, trailer: string)
    requires '`' !in prose && '`' !in body
    requires trailer == [] || trailer[0] != '`'
    ensures ExtractJsonText(prose + (Fence + (body + (Ticks + trailer)))) == body
  {
    var after := body + (Ticks + trailer);
    var c := prose + (Fence + after);
    FindAfterTickFree(prose, Fence, after);
    assert AfterFence(c) == after;
    FindAfterTickFree(body, Ticks, trailer);
    CloserNotOpener(body, trailer);
    var j := |body|;
    FencedRule(c);
    assert after[..j] == body;
  }

  /** In a backtick-free body followed by a backtick and an opener, the first ``` is at the end of the body. */
  lemma OverlapTicks(body: string)
    requires '`' !in body
    ensures Find(body + ("`" + Fence), Ticks) == |body|
  {
    var after, j := body + ("`" + Fence), |body|;
    assert after[..j] == body;
    assert after[j..] == "`" + Fence;
    assert after[j..j + 3] == after[j..][..3] == "```";
    assert OccursAt(after, Ticks, j);
    NoTickStart(after, Ticks, j);
  }

  /** In a backtick-free body followed by a backtick and an opener, the next opener starts one after the body. */
  lemma OverlapOpener(body: string)
    requires '`' !in body
    ensures var after := body + ("`" + Fence);
      Find(after, Fence) == |body| + 1 && after[..|body| + 1] == body + "`"
  {
    var after, j := body + ("`" + Fence), |body|;
    assert after[..j] == body;
    assert after[j..] == "`" + Fence;
    assert after[j + 1..] == after[j..][1..] == Fence;
    assert OccursAt(after, Fence, j + 1);
    NoTickStart(after, Fence, j);
    assert after[j + 3] == after[j..][3] == '`';
    MismatchAt(after, Fence, j, 3);
    assert after[..j + 1] == after[..j] + [after[j]];
  }

  /**
   * The overlap case on any body without backticks: a fourth backtick before the next "json" makes the
   * code stop at that opener and keep one backtick.
   */
  lemma OverlapKeepsBacktick(prose: string, body: string)
    requires '`' !in prose && '`' !in body
    ensures ExtractJsonText(prose + (Fence + (body + ("`" + Fence)))) == body + "`"
  {
    var after := body + ("`" + Fence);
    var c := prose + (Fence + after);
    FindAfterTickFree(prose, Fence, after);
    assert AfterFence(c) == after;
    OverlapTicks(body);
    OverlapOpener(body);
    FencedRule(c);
  }

  /** `json.loads(text)["files"]`, with its failure as an error. */
  function LoadFiles(load: FilesLoader, text: string): (r: Result<seq<GeneratedFile>, GenerationError>)
    ensures load(text).Some? ==> r == Success(load(text).value)
    ensures load(text).None? ==> r == Failure(MalformedReply(text))
  {
    match load(text)
    case Some(files) => Success(files)
    case None => Failure(MalformedReply(text))
  }

  /**
   * `generate_test_code`: "mock" returns the fixed project without a backend call; "openai" parses the
   * raw reply; "anthropic" parses the text picked out by `ExtractJsonText`; any other provider fails.
   */
  function GenerateTestCode(planJson: string, framework: string, url: Option<string>, mode: string,
                            apiKey: Option<string>, provider: string,
                            client: Client, load: FilesLoader): (r: Result<seq<GeneratedFile>, GenerationError>)
    ensures r == Failure(InvalidProvider) <==> provider != "mock" && provider != "openai" && provider != "anthropic"
  {
    if provider == "mock" then Success(MockFiles())
    else
      var prompt := Prompt(url, mode, framework, planJson);
      if provider == "openai" then
        match client(ChatRequest(OpenAI, apiKey, SystemPrompt, prompt))
        case Failure(e) => Failure(ClientError(e))
        case Success(content) => LoadFiles(load, content)
      else if provider == "anthropic" then
        match client(ChatRequest(Anthropic, apiKey, SystemPrompt, prompt))
        case Failure(e) => Failure(ClientError(e))
        case Success(content) => LoadFiles(load, ExtractJsonText(content))
      else Failure(InvalidProvider)
  }

  /** "mock" yields the three fixed files whatever the plan, framework, URL, mode, key, backend or parser. */
  lemma MockResult(planJson: string, framework: string, url: Option<string>, mode: string,
                   apiKey: Option<string>, client: Client, load: FilesLoader)
    ensures GenerateTestCode(planJson, framework, url, mode, apiKey, "mock", client, load) == Success(MockFiles())
  {
  }

  /**
   * "openai" and "anthropic" send the key, the system prompt and the user prompt to their backend; an SDK
   * error is the result's error; OpenAI's reply is parsed as it is, Anthropic's after `ExtractJsonText`.
   */
  lemma BackendResult(planJson: string, framework: string, url: Option<string>, mode: string,
                      apiKey: Option<string>, provider: string, client: Client, load: FilesLoader)
    requires provider == "openai" || provider == "anthropic"
    ensures var backend := if provider == "openai" then OpenAI else Anthropic;
      var reply := client(ChatRequest(backend, apiKey, SystemPrompt, Prompt(url, mode, framework, planJson)));
      var r := GenerateTestCode(planJson, framework, url, mode, apiKey, provider, client, load);
      (reply.Failure? ==> r == Failure(ClientError(reply.error))) &&
      (reply.Success? && provider == "openai" ==> r == LoadFiles(load, reply.value)) &&
      (reply.Success? && provider == "anthropic" ==> r == LoadFiles(load, ExtractJsonText(reply.value)))
  {
  }

  /** On a reply with no fence and no '{' both backends hand the same text to the parser. */
  lemma BackendsAgreeOnPlainReply(planJson: string, framework: string, url: Option<string>, mode: string,
                                  apiKey: Option<string>, reply: string, load: FilesLoader)
    requires !Contains(reply, Fence) && !Contains(reply, "{")
    ensures var client := (req: ChatRequest) => Success(reply);
      GenerateTestCode(planJson, framework, url, mode, apiKey, "openai", client, load)
      == GenerateTestCode(planJson, framework, url, mode, apiKey, "anthropic", client, load)
  {
  }
}
