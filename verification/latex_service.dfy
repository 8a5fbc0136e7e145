/** The LaTeX-to-PDF service's conversion endpoint (docker-latex/app.py):
 *  one engine run over `input.tex` in a fresh directory, then the decision
 *  between success and the two failures, every failure ending as a 500.
 *  The temporary directory, the file system and the engine are inputs: the
 *  engine's exit code, its error output and the artifact it leaves. */
module LatexService {
  import opened Wrappers
  import Text

  datatype Request = Request(latexContent: string, outputFilename: Option<string>)

  /** What running the engine produced: its exit code and error output, and
   *  the bytes of `input.pdf` if that file exists afterwards. */
  datatype EngineRun = EngineRun(exitCode: int, stderr: string, artifact: Option<seq<int>>)

  datatype Response = Converted(message: string, pdf: seq<int>) | HttpError(status: int, detail: string)

  /** The effects: the source file written, the engine command lines run,
   *  and the response. */
  datatype Outcome = Outcome(written: Option<(string, string)>, commands: seq<seq<string>>, response: Response)

  const OuterPrefix := "An error occurred during conversion: "

  /** `os.path.join(dir, name)` for a directory without a trailing slash. */
  function Join(dir: string, name: string): string
  {
    dir + "/" + name
  }

  /** The one engine command: non-stop mode, output into the same directory. */
  function Command(dir: string): (c: seq<string>)
    ensures |c| == 5 && c[0] == "pdflatex" && c[1] == "-interaction=nonstopmode" && c[3] == dir
  {
    ["pdflatex", "-interaction=nonstopmode", "-output-directory", dir, Join(dir, "input.tex")]
  }

  /** `str()` of an `HTTPException`: its status, a colon, then its detail. */
  function HttpExceptionText(status: int, detail: string): string
  {
    Text.IntToString(status) + ": " + detail
  }

  /** The outcome inside the `try`: `Ok` for success, `Err(text)` for the
   *  text of the exception raised. */
  function Inner(run: EngineRun): (r: Result<seq<int>, string>)
    ensures run.exitCode != 0 ==> r == Err(HttpExceptionText(500, "LaTeX compilation failed: " + run.stderr))
    ensures run.exitCode == 0 && run.artifact.None? ==> r == Err(HttpExceptionText(500, "PDF file was not generated"))
    ensures run.exitCode == 0 && run.artifact.Some? ==> r == Ok(run.artifact.value)
  {
    if run.exitCode != 0 then Err(HttpExceptionText(500, "LaTeX compilation failed: " + run.stderr))
    else if run.artifact.None? then Err(HttpExceptionText(500, "PDF file was not generated"))
    else Ok(run.artifact.value)
  }

  /** `convert_latex_to_pdf`: `ioError` is the message of an exception raised
   *  while preparing the directory or the source file, before the engine
   *  runs; whatever is raised is caught once more and reported as a 500. */
  function Convert(req: Request, dir: string, ioError: Option<string>, run: EngineRun): (o: Outcome)
    ensures ioError.Some? ==> o.commands == [] && o.response == HttpError(500, OuterPrefix + ioError.value)
    ensures ioError.None? ==>
      o.written == Some((Join(dir, "input.tex"), req.latexContent)) && o.commands == [Command(dir)]
    ensures o.response.HttpError? ==> o.response.status == 500 && OuterPrefix <= o.response.detail
    ensures o.response.Converted? <==> ioError.None? && run.exitCode == 0 && run.artifact.Some?
    ensures o.response.Converted? ==> o.response == Converted("Conversion successful", run.artifact.value)
  {
    if ioError.Some? then Outcome(None, [], HttpError(500, OuterPrefix + ioError.value))
    else
      var written := Some((Join(dir, "input.tex"), req.latexContent));
      match Inner(run)
      case Ok(pdf) => Outcome(written, [Command(dir)], Converted("Conversion successful", pdf))
      case Err(text) => Outcome(written, [Command(dir)], HttpError(500, OuterPrefix + text))
  }

  lemma FiveHundred()
    ensures Text.IntToString(500) == "500"
  {
    assert Text.NatToString(5) == "5";
    assert Text.NatToString(50) == "50";
  }

  /** The text of a 500: "500: " followed by its detail. */
  lemma ServerErrorText(detail: string)
    ensures HttpExceptionText(500, detail) == "500: " + detail
  {
    FiveHundred();
    assert "500" + ": " == "500: ";
  }

  /** A failing exit code is reported as a compilation failure carrying the
   *  engine's error output even when a PDF was left behind: the exit code
   *  is checked before the artifact. */
  lemma ExitCodeCheckedFirst(req: Request, dir: string, code: int, stderr: string, pdf: seq<int>)
    requires code != 0
    ensures Convert(req, dir, None, EngineRun(code, stderr, Some(pdf))).response ==
      HttpError(500, OuterPrefix + ("500: " + ("LaTeX compilation failed: " + stderr)))
    ensures Convert(req, dir, None, EngineRun(code, stderr, Some(pdf))) ==
      Convert(req, dir, None, EngineRun(code, stderr, None))
  {
    ServerErrorText("LaTeX compilation failed: " + stderr);
  }

  /** A clean exit without `input.pdf` is a failure, not a success. */
  lemma MissingArtifactFails(req: Request, dir: string, stderr: string)
    ensures Convert(req, dir, None, EngineRun(0, stderr, None)).response ==
      HttpError(500, OuterPrefix + ("500: " + "PDF file was not generated"))
  {
    ServerErrorText("PDF file was not generated");
  }

  /** The requested output name plays no part. */
  lemma OutputNameIgnored(content: string, a: Option<string>, b: Option<string>, dir: string,
                          ioError: Option<string>, run: EngineRun)
    ensures Convert(Request(content, a), dir, ioError, run) == Convert(Request(content, b), dir, ioError, run)
  {
  }
}
