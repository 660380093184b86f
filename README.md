# E2EAutoTests generation core, modelled in Dafny

E2EAutoTests turns a CSV test plan into a zipped Selenium/Pytest project. This model covers two parts of it.

- The generation service (`backend/app/services/ai_service.py`):
  - `generate_test_code` dispatches on the provider string. "mock" returns a fixed three-file project. "openai" and "anthropic" send a fixed system prompt and a user prompt to a chat backend. Any other provider fails.
  - Anthropic's reply passes through a heuristic before it is parsed. The heuristic takes the text of the first ```` ```json ```` fence, or else the span from the first `{` through the last `}`.
- The HTTP handlers (`backend/app/main.py`):
  - the API-key fallback;
  - the download filename `tests_e2e_<site>_<fw>.zip`;
  - the `.csv` check and the missing-column report of the upload endpoint.

Both files compute values and change no state, so the model is made of datatypes, functions and lemmas. Python's string operations are written out in the module `PyStr`:

- `in`;
- `find` and `rfind`, which return -1 when there is no match;
- `split` with a non-empty separator;
- `join`;
- `replace`, which replaces every occurrence from left to right; for a non-empty `old` this equals `new.join(s.split(old))`, and `Replace` is computed that way, with a contract that places the first replacement and, for one character by another, a proof that every occurrence is replaced;
- slicing, with Python's clamping of negative and out-of-range bounds;
- `endswith`.

Modules:

- `Wrappers`: `Option` and `Result`.
- `PyStr`: the Python string operations above and their laws (split then join gives back the text; a single character is replaced everywhere).
- `AiService`: the prompt, the mock project, the JSON-span heuristic and the dispatch.
- `Api`: the key fallback, the filename, and the CSV checks.

Code outside the model enters as parameters:

- The chat backend is a function `Client` from a `ChatRequest` to the reply text or the SDK's error.
- `json.loads(text)["files"]` is a function `FilesLoader` from text to the file list or None.
- `json.dumps(test_plan, indent=2)` is the text `planJson`.
- `urlparse(url).netloc` is an `Option<string>`, where None means `urlparse` raised.
- `os.getenv("OPENAI_API_KEY")` is an `Option<string>`.
- The table `pandas.read_csv` produced (or its error) is a `Result`.

Facts about the code that shape the model:

- The mock provider returns three fixed files. No file depends on the plan, the framework or the mode.
- The framework part of the filename replaces only `-` by `_`. Every other character is kept as it is. The code's own comment gives `selenium_python` for `selenium-python-pytest`, but the code yields `selenium_python_pytest`. `FrameworkShort` states what the code does.
- The fenced rule is `split("```json")[1].split("```")[0]`. That is the text after the first opener up to the first following ```` ``` ````, except when that ```` ``` ```` runs into the next ```` ```json ```` opener: four or five backticks before `json`. In that case the code cuts at the opener and keeps one or two backticks. For example, `` ```json````json `` yields a single backtick. `FencedRule` states both cases and `OverlapKeepsBacktick` shows the second.

## Model

| member | source | states |
|---|---|---|
| PyStr.Contains | backend/app/services/ai_service.py:86 | `p in s`: some index where `p` occurs; the empty string is in every string; nothing longer than `s` is in it |
| PyStr.Find | backend/app/services/ai_service.py:89 | `str.find`: -1 exactly when the pattern does not occur; otherwise a non-negative index where it occurs, with no occurrence before it |
| PyStr.RFind | backend/app/services/ai_service.py:90 | `str.rfind`: -1 exactly when the pattern does not occur; otherwise a non-negative index where it occurs, with no occurrence after it |
| PyStr.Before | backend/app/main.py:85 | the text before the first separator: a prefix of the text, followed by the separator when there is one, with no separator starting inside it and none contained in it |
| PyStr.BeforeWhole | backend/app/main.py:85 | without the separator, the whole text comes back |
| PyStr.Slice | backend/app/services/ai_service.py:91 | `s[i:j]` with Python's clamping: its length and each of its characters in terms of the clamped bounds |
| PyStr.Split | backend/app/services/ai_service.py:87 | `str.split(sep)`: at least one piece; the first piece is the text before the first separator; two or more pieces exactly when the separator occurs; no piece contains it |
| PyStr.Join | backend/app/main.py:90 | used by `Replace`, which this line calls; `sep.join(pieces)`: empty for no pieces; it starts with the first piece, followed by the separator when more pieces follow |
| PyStr.JoinOne | backend/app/main.py:90 | used by `Replace`, which this line calls; a single piece joins to itself, with no separator |
| PyStr.SplitJoin | backend/app/main.py:90 | used by `Replace`, which this line calls; joining the pieces of a split with the separator gives back the text |
| PyStr.Replace | backend/app/main.py:90 | `str.replace`: a text without the target comes back unchanged; otherwise the text before the first target, the replacement, then the rest after that target split on it and joined with the replacement |
| PyStr.ReplaceCharIsMap | backend/app/main.py:90 | replacing one character by another is the letter-by-letter rewrite `MapChar` |
| PyStr.ReplaceChar | backend/app/main.py:90 | replacing one character by another: same length, each occurrence replaced, every other character kept |
| PyStr.EndsWith | backend/app/main.py:42 | `s.endswith(suffix)` exactly when the suffix fits and each of its characters matches the last characters of `s` |
| AiService.UrlText | backend/app/services/ai_service.py:49 | `url or 'N/A'`: "N/A" for a missing or empty URL, the URL otherwise |
| AiService.ModeGloss | backend/app/services/ai_service.py:50 | the full-implementation gloss exactly when the mode is "full", the template gloss exactly otherwise |
| AiService.PartsInOrder | backend/app/services/ai_service.py:48-57 | in a text built from nine parts, the four variable parts occur at the offsets the parts before them give |
| AiService.Prompt | backend/app/services/ai_service.py:48-57 | the user prompt holds the URL line, the mode line, the framework line and the serialised plan in that order, each at its offset after the fixed text before it |
| AiService.PromptMentions | backend/app/services/ai_service.py:48-57 | the user prompt contains the URL line, the mode line, the framework line and the serialised plan |
| AiService.MockFiles | backend/app/services/ai_service.py:98-112 | exactly three files: README.md, requirements.txt and tests/test_mock.py, each with its fixed content |
| AiService.ExtractJsonText | backend/app/services/ai_service.py:86-91 | the text handed to the parser is never longer than the reply; with a fence it holds no ```` ``` ````; with no fence and no `{` it is the reply unchanged |
| AiService.AfterFence | backend/app/services/ai_service.py:87 | the text after the first opener: the suffix of the reply that follows an opener with no opener before it |
| AiService.FencedPieces | backend/app/services/ai_service.py:86-87 | with a fence, the extracted text is the text after the first opener, cut before the next opener and then before the first ```` ``` ```` |
| AiService.BeforeFenceThenTicks | backend/app/services/ai_service.py:87 | where the two cuts land: before the first ```` ``` ```` unless that one overlaps the next opener, else at the opener |
| AiService.FencedRule | backend/app/services/ai_service.py:86-87 | the fenced rule in terms of the text after the opener: up to the first ```` ``` ````, except in the overlap case, where it is up to the next opener |
| AiService.FencedUnclosed | backend/app/services/ai_service.py:86-87 | an opener with no ```` ``` ```` after it: the result is everything after the opener, to the end of the reply |
| AiService.BraceRule | backend/app/services/ai_service.py:88-91 | without a fence but with `{`: from the first `{` through the last `}`; empty exactly when no `}` follows the first `{`; otherwise it starts with `{` and ends with `}` |
| AiService.FencedSubstring | backend/app/services/ai_service.py:86-87 | with a fence, the extracted text is the piece of the reply that starts right after the first opener |
| AiService.ExtractIsSubstring | backend/app/services/ai_service.py:86-91 | in every case the extracted text is one contiguous piece of the reply |
| AiService.FindAfterTickFree | backend/app/services/ai_service.py:86-87 | a marker that starts with a backtick and follows backtick-free text is found right after that text |
| AiService.CloserNotOpener | backend/app/services/ai_service.py:87 | a closing ```` ``` ```` not followed by a backtick leaves no opener starting inside it |
| AiService.FenceWinsOverProse | backend/app/services/ai_service.py:86-88 | prose (braces allowed) followed by a fenced body without backticks and a closing ```` ``` ```` yields exactly the body; the fence takes precedence over the braces |
| AiService.OverlapTicks | backend/app/services/ai_service.py:87 | in a backtick-free body followed by a backtick and an opener, the first ```` ``` ```` is at the end of the body |
| AiService.OverlapOpener | backend/app/services/ai_service.py:87 | in the same text the next opener starts one character after the body |
| AiService.OverlapKeepsBacktick | backend/app/services/ai_service.py:87 | a backtick-free body followed by a fourth backtick and the next opener yields the body plus one backtick |
| AiService.GenerateTestCode | backend/app/services/ai_service.py:43-96 | fails with `InvalidProvider` exactly when the provider is none of "mock", "openai" and "anthropic" |
| AiService.MockResult | backend/app/services/ai_service.py:45-46 | "mock" yields the three fixed files whatever the other inputs, the backend and the parser |
| AiService.BackendResult | backend/app/services/ai_service.py:59-93 | each backend gets the key, the fixed system prompt and the user prompt; its error becomes the result's error; OpenAI's reply is parsed raw and Anthropic's after extraction |
| AiService.BackendsAgreeOnPlainReply | backend/app/services/ai_service.py:69-93 | for the same reply without a fence or `{`, both backends give the same result |
| Api.ResolveApiKey | backend/app/main.py:70 | the request's key unless it is missing or empty, else the environment's key |
| Api.WebsiteName | backend/app/main.py:78-87 | "app" without a URL or when `urlparse` raises; otherwise the netloc (the URL itself if the netloc is empty) up to its first `.`; never contains `.` |
| Api.FrameworkShort | backend/app/main.py:90 | same length as the framework; each `-` becomes `_` and every other character is kept; no `-` left |
| Api.FilenameLayout | backend/app/main.py:91 | where the prefix, the site, the underscore, the framework and ".zip" sit in `tests_e2e_<site>_<fw>.zip` |
| Api.DownloadFilename | backend/app/main.py:78-91 | the download name is "tests_e2e_", the site name, "_", the framework with `-` replaced, then ".zip", at fixed offsets |
| Api.DownloadFilenameWithoutUrl | backend/app/main.py:78-91 | without a URL the name is `tests_e2e_app_<fw>.zip` |
| Api.GenerateTests | backend/app/main.py:62-91 | generates with the resolved key; a generation failure is the handler's failure; otherwise the generated files, under the derived filename |
| Api.GenerateTestsOutcome | backend/app/main.py:62-91 | a mock request succeeds with the fixed files; an unknown provider fails with `InvalidProvider` |
| Api.Absent | backend/app/main.py:51 | a column is reported exactly when it is required and absent from the header; the report keeps the required order |
| Api.Missing | backend/app/main.py:50-52 | the missing required columns, in order; empty exactly when all six are present |
| Api.ParseCsv | backend/app/main.py:41-57 | a name not ending in ".csv" is refused first; a read error is passed on; the records come back exactly when no required column is missing, else the missing ones are reported |
| Api.CsvRefusedBeforeRead | backend/app/main.py:42-43 | the extension check does not depend on the upload's contents |
| Api.MissingExample | backend/app/main.py:50-53 | a worked case: a header missing only "Expected Result" is reported as missing exactly that column |

## Left out

- The network SDK calls (`AsyncOpenAI`, `AsyncAnthropic`) are abstracted behind `Client`. The model names, `max_tokens`, `response_format` and how the reply text is found in the response are not modelled. That includes OpenAI's message content being None.
- `json.loads(content)["files"]` is abstracted behind `FilesLoader`. A parse error and a missing "files" key both become `MalformedReply`.
- An entry of "files" that lacks "path" or "content" is not modelled. In the code, `create_project_zip` reads both keys of every entry (backend/app/services/generator.py:10-11), so such an entry makes the request fail later. A `GeneratedFile` always has both fields, so the model counts such a reply as one the loader refuses.
- `json.dumps(test_plan, indent=2)` is not modelled. The serialised plan is an input text.
- `create_project_zip` (backend/app/services/generator.py), the zip packaging, is left out. `Api.GenerateTests` returns the file list that would be zipped.
- The following are outside the model because they are framework plumbing, not logic:
  - FastAPI routing, CORS, `StreamingResponse` and the Content-Disposition header;
  - the `/health` endpoint;
  - the mapping of errors to HTTP status codes and detail strings.
- Because the status mapping is left out, so is one consequence of it: the missing-columns 400 is raised inside the `try`, so the generic `except` turns it into a 500. `MissingColumns` is kept as its own error.
- `urlparse` is not modelled. Its `netloc` is an input.
- `pandas.read_csv` and `to_dict` are not modelled. The table arrives parsed, with string cells.
- `os.getenv` and `load_dotenv` are not modelled. The environment's key is an input.
- An `UploadFile` whose filename is None is not modelled. `Api.ParseCsv` takes the filename as a string.
- `str.split` and `str.replace` with an empty separator are not modelled. Every use in the core has a non-empty separator.
- The generated paths are never checked by the code, and no backend call is retried. The model adds neither.
- Api.Absent: for a column list with repeats, the contract does not pin how often a column is reported. The only list the code filters, the required columns at backend/app/main.py:50, has no repeats.
