/**
 * The string rules of the HTTP handlers: the API-key fallback and the download
 * filename of `/api/generate`, and the extension and column checks of
 * `/api/parse-csv`.
 *
 * `urlparse` enters as its `netloc` result (None when it raises), the
 * environment's default key as a value, and `pandas.read_csv` as the table it
 * produced (or its error).
 */
module Api {
  import opened Wrappers
  import opened PyStr
  import AiService

  // ---------------------------------------------------------------------------
  // /api/generate

  /** The request body. `testPlanJson` stands for `json.dumps(test_plan, indent=2)`. */
  datatype GenerationRequest = GenerationRequest(
    testPlanJson: string, framework: string, url: Option<string>, mode: string,
    apiKey: Option<string>, provider: string)

  /** A successful response: the files that go into the zip and the suggested filename. */
  datatype Download = Download(files: seq<AiService.GeneratedFile>, filename: string)

  /** `request.api_key or os.getenv("OPENAI_API_KEY")`: the request's key unless it is missing or empty. */
  function ResolveApiKey(requestKey: Option<string>, envKey: Option<string>): (r: Option<string>)
    ensures requestKey.Some? && requestKey.value != [] ==> r == requestKey
    ensures requestKey.None? || requestKey.value == [] ==> r == envKey
  {
    if requestKey.Some? && requestKey.value != [] then requestKey else envKey
  }

  /**
   * The site label of the filename: "app" without a URL or when `urlparse` raises; otherwise the
   * netloc (the whole URL when the netloc is empty) up to its first '.'.
   */
  function WebsiteName(url: Option<string>, netloc: Option<string>): (r: string)
    ensures url.None? || url.value == [] ==> r == "app"
    ensures url.Some? && url.value != [] && netloc.None? ==> r == "app"
    ensures url.Some? && url.value != [] && netloc.Some? ==>
      var domain := if netloc.value == [] then url.value else netloc.value;
      |r| <= |domain| && r == domain[..|r|] && '.' !in r && (|r| < |domain| ==> domain[|r|] == '.')
    ensures '.' !in r
  {
    if url.None? || url.value == [] then "app"
    else match netloc
      case None => "app"
      case Some(n) =>
        var domain := if n == [] then url.value else n;
        ContainsChar(domain, '.');
        var site := if Contains(domain, ".") then Split(domain, ".")[0] else domain;
        ContainsChar(site, '.');
        assert Contains(domain, ".") ==> OccursAt(domain, ".", |site|);
        site
  }

  /** `framework.replace("-", "_")`: each '-' becomes '_', nothing else changes. */
  function FrameworkShort(framework: string): (r: string)
    ensures |r| == |framework|
    ensures forall i | 0 <= i < |r| :: r[i] == if framework[i] == '-' then '_' else framework[i]
    ensures '-' !in r
  {
    ReplaceChar(framework, '-', '_');
    Replace(framework, "-", "_")
  }

  /** Where the pieces of `tests_e2e_<site>_<fw>.zip` sit, for any site and framework text. */
  lemma FilenameLayout(site: string, fw: string)
    ensures var r, fwStart := "tests_e2e_" + site + "_" + fw + ".zip", 11 + |site|;
      |r| == 15 + |site| + |fw| &&
      r[..10] == "tests_e2e_" && r[10..10 + |site|] == site && r[10 + |site|] == '_' &&
      r[fwStart..fwStart + |fw|] == fw && r[|r| - 4..] == ".zip"
  {
    var r, fwStart := "tests_e2e_" + site + "_" + fw + ".zip", 11 + |site|;
    var p1 := "tests_e2e_" + site;
    var p2 := p1 + "_" + fw;
    assert r == p2 + ".zip";
    assert r[..|p2|] == p2 && r[|p2|..] == ".zip";
    assert p2[..|p1|] == p1;
    assert r[..10] == p1[..10];
    assert r[10..10 + |site|] == p1[10..];
    assert r[fwStart..fwStart + |fw|] == p2[fwStart..];
  }

  /**
   * The suggested download name `tests_e2e_<site>_<fw>.zip`: the prefix, the site name, an underscore,
   * the framework with '-' replaced, then ".zip", each at a fixed place.
   */
  function DownloadFilename(url: Option<string>, netloc: Option<string>, framework: string): (r: string)
    ensures var site := WebsiteName(url, netloc);
      var fwStart := 11 + |site|;
      |r| == 15 + |site| + |framework| &&
      r[..10] == "tests_e2e_" && r[10..10 + |site|] == site && r[10 + |site|] == '_' &&
      r[fwStart..fwStart + |framework|] == FrameworkShort(framework) &&
      '-' !in r[fwStart..fwStart + |framework|] &&
      r[|r| - 4..] == ".zip"
  {
    var site, fw := WebsiteName(url, netloc), FrameworkShort(framework);
    FilenameLayout(site, fw);
    "tests_e2e_" + site + "_" + fw + ".zip"
  }

  /** Without a URL the name is `tests_e2e_app_<fw>.zip`, whatever the netloc. */
  lemma DownloadFilenameWithoutUrl(url: Option<string>, netloc: Option<string>, framework: string)
    requires url.None? || url.value == []
    ensures DownloadFilename(url, netloc, framework) == "tests_e2e_" + "app" + "_" + FrameworkShort(framework) + ".zip"
  {
    assert WebsiteName(url, netloc) == "app";
  }

  /**
   * `generate_tests`: generate the files with the resolved key; a failure of generation is the
   * handler's failure, otherwise the files go to the zip under the derived name.
   */
  function GenerateTests(request: GenerationRequest, envKey: Option<string>, netloc: Option<string>,
                         client: AiService.Client, load: AiService.FilesLoader): (r: Result<Download, AiService.GenerationError>)
    ensures var generated := AiService.GenerateTestCode(
        request.testPlanJson, request.framework, request.url, request.mode,
        ResolveApiKey(request.apiKey, envKey), request.provider, client, load);
      (generated.Failure? ==> r == Failure(generated.error)) &&
      (generated.Success? ==>
         r.Success? && r.value.files == generated.value &&
         r.value.filename == DownloadFilename(request.url, netloc, request.framework))
  {
    var generated := AiService.GenerateTestCode(
      request.testPlanJson, request.framework, request.url, request.mode,
      ResolveApiKey(request.apiKey, envKey), request.provider, client, load);
    match generated
    case Failure(e) => Failure(e)
    case Success(files) => Success(Download(files, DownloadFilename(request.url, netloc, request.framework)))
  }

  /** A mock request always succeeds with the three fixed files; an unknown provider always fails. */
  lemma GenerateTestsOutcome(request: GenerationRequest, envKey: Option<string>, netloc: Option<string>,
                             client: AiService.Client, load: AiService.FilesLoader)
    ensures var r := GenerateTests(request, envKey, netloc, client, load);
      (request.provider == "mock" ==>
         r == Success(Download(AiService.MockFiles(), DownloadFilename(request.url, netloc, request.framework)))) &&
      (request.provider != "mock" && request.provider != "openai" && request.provider != "anthropic" ==>
         r == Failure(AiService.InvalidProvider))
  {
    AiService.MockResult(request.testPlanJson, request.framework, request.url, request.mode,
      ResolveApiKey(request.apiKey, envKey), client, load);
  }

  // ---------------------------------------------------------------------------
  // /api/parse-csv

  /** The columns every uploaded test plan must have. */
  const RequiredColumns: seq<string> :=
    ["Test Case ID", "Title", "Objective", "Preconditions", "Steps", "Expected Result"]

  /** What `pandas.read_csv` produced: the column labels and the rows as records. */
  datatype Table = Table(columns: seq<string>, records: seq<map<string, string>>)

  /** Why a CSV upload is refused. */
  datatype CsvError =
    | NotCsv                                  // "File must be a CSV", before anything is read
    | ReadFailed(reason: string)              // reading or parsing the upload raised
    | MissingColumns(columns: seq<string>)    // "Missing columns: ..."

  /** `a` is `b` with some elements left out, the rest in their order. */
  predicate IsSubsequence(a: seq<string>, b: seq<string>)
    decreases |b|
  {
    if a == [] then true
    else if b == [] then false
    else (a[0] == b[0] && IsSubsequence(a[1..], b[1..])) || IsSubsequence(a, b[1..])
  }

  /** `[col for col in cols if col not in header]`. */
  function Absent(cols: seq<string>, header: seq<string>): (r: seq<string>)
    decreases |cols|
    ensures forall c :: c in r <==> c in cols && c !in header
    ensures IsSubsequence(r, cols)
  {
    if cols == [] then []
    else
      var rest := Absent(cols[1..], header);
      assert rest != [] ==> IsSubsequence(rest, cols[1..]) && IsSubsequence(rest, cols);
      assert cols == [cols[0]] + cols[1..];
      if cols[0] !in header then
        assert ([cols[0]] + rest)[1..] == rest;
        [cols[0]] + rest
      else rest
  }

  /** The required columns absent from the header, in the required order; none exactly when all six are there. */
  function Missing(header: seq<string>): (r: seq<string>)
    ensures forall c :: c in r <==> c in RequiredColumns && c !in header
    ensures IsSubsequence(r, RequiredColumns)
    ensures r == [] <==> forall c | c in RequiredColumns :: c in header
  {
    Absent(RequiredColumns, header)
  }

  /** `parse_csv`: the extension check first, then the read, then the column check; the records on success. */
  function ParseCsv(filename: string, table: Result<Table, string>): (r: Result<seq<map<string, string>>, CsvError>)
    ensures !EndsWith(filename, ".csv") ==> r == Failure(NotCsv)
    ensures EndsWith(filename, ".csv") && table.Failure? ==> r == Failure(ReadFailed(table.error))
    ensures EndsWith(filename, ".csv") && table.Success? ==>
      (r.Success? <==> forall c | c in RequiredColumns :: c in table.value.columns) &&
      (r.Success? ==> r.value == table.value.records) &&
      (r.Failure? ==> r.error == MissingColumns(Missing(table.value.columns)))
  {
    if !EndsWith(filename, ".csv") then Failure(NotCsv)
    else match table
      case Failure(e) => Failure(ReadFailed(e))
      case Success(t) =>
        var missing := Missing(t.columns);
        if missing != [] then Failure(MissingColumns(missing)) else Success(t.records)
  }

  /** A name not ending in ".csv" is refused whatever the upload holds. */
  lemma CsvRefusedBeforeRead(filename: string, table1: Result<Table, string>, table2: Result<Table, string>)
    requires !EndsWith(filename, ".csv")
    ensures ParseCsv(filename, table1) == ParseCsv(filename, table2) == Failure(NotCsv)
  {
  }

  /** A header that lacks only the last required column: the report names exactly that one. */
  lemma MissingExample()
    ensures Missing(RequiredColumns[..5]) == ["Expected Result"]
  {
    var h, req := RequiredColumns[..5], RequiredColumns;
    assert forall i | 0 <= i < 5 :: req[i] in h by {
      forall i | 0 <= i < 5 ensures req[i] in h {
        assert h[i] == req[i];
      }
    }
    assert forall i | 0 <= i < 5 :: |h[i]| != |req[5]|;
    assert req[5] !in h;
    assert Absent(req[5..], h) == [req[5]];
    assert Absent(req[4..], h) == [req[5]];
    assert Absent(req[3..], h) == [req[5]];
    assert Absent(req[2..], h) == [req[5]];
    assert Absent(req[1..], h) == [req[5]];
  }
}
