/** The request-validation and parameter rules of four views
    (workflow/views.py): the prompts-or-files intake of
    `GenerateTaskView.post`, the batch count of `IterateWorkflowView.post`,
    the input/output record of `DatasetView.post`, and the page parameters
    of `DatasetView.get`. */
module Views {
  import opened Results
  import opened Text
  import opened Uuid
  import opened Records
  import opened Failures
  import opened Ingest

  /** A refused request: the HTTP status and the `error` text. */
  datatype Reply = Reply(status: int, message: string)

  const BadRequest: int := 400

  /** The status Django gives an exception that leaves the view; its body is
      Django's own error page, of which the model keeps the exception text. */
  const ServerError: int := 500

  // ---------------------------------------------------------------------
  // GenerateTaskView.post

  /** A request-body value as far as Python truthiness goes. */
  datatype Value = Null | Text(s: string) | Number(n: int) {
    predicate Truthy() {
      match this
      case Null => false
      case Text(s) => s != ""
      case Number(n) => n != 0
    }
  }

  /** An uploaded file: its name and what reading it as CSV gives. */
  datatype Contents = Unreadable(reason: string) | Readable(table: Table)
  datatype Upload = Upload(name: string, contents: Contents)

  /** What `ast.literal_eval` makes of the prompts text: a ValueError or
      SyntaxError with its text, a list, some other literal, or another
      exception (a TypeError for an unhashable dict key or set element, for
      instance), which the view does not catch. */
  datatype Literal =
    | Malformed(reason: string)
    | ListLiteral(items: seq<string>)
    | OtherLiteral
    | Raised(kind: string, reason: string)

  datatype GenerateForm = GenerateForm(
    files: seq<Upload>,
    prompts: Option<string>,
    totalExamples: Value,
    batchSize: Value,
    examplePerPrompt: Value)

  /** The accepted intake: the prompts to generate from, the value stored as
      the workflow's `total_examples` (None: left as it was), and the batch
      size handed on. */
  datatype Generation = Generation(prompts: seq<string>, totalExamples: Option<Value>, batchSize: Value)

  /** The refusal for one uploaded file, if any: extension first, then
      readability, then the `prompts` column. */
  function UploadProblem(u: Upload): (r: Option<string>)
    ensures r.None? <==>
              EndsWith(Lower(u.name), ".csv") && u.contents.Readable?
              && "prompts" in u.contents.table.columns
  {
    if !EndsWith(Lower(u.name), ".csv") then
      Some("Invalid file extension for " + u.name + ". Only .csv files are allowed.")
    else match u.contents
      case Unreadable(reason) => Some("Error reading CSV file: " + reason)
      case Readable(t) =>
        if "prompts" in t.columns then None
        else Some(" `prompts` column not found in the CSV file")
  }

  /** The `prompts` column of an accepted file, top to bottom. */
  function PromptColumn(u: Upload): (ps: seq<string>)
    requires UploadProblem(u).None?
    ensures |ps| == |u.contents.table.rows|
    ensures forall i :: 0 <= i < |ps| ==> ps[i] == u.contents.table.rows[i]["prompts"]
  {
    var t := u.contents.table;
    seq(|t.rows|, i requires 0 <= i < |t.rows| => t.rows[i]["prompts"])
  }

  /** The per-file loop: the first refused file stops it; otherwise the
      prompt columns are concatenated in upload order. */
  function ReadUploads(files: seq<Upload>): (r: Result<seq<string>, string>)
    ensures r.Ok? <==> forall i :: 0 <= i < |files| ==> UploadProblem(files[i]).None?
    decreases |files|
  {
    if |files| == 0 then Ok([])
    else match UploadProblem(files[0])
      case Some(msg) => Err(msg)
      case None =>
        match ReadUploads(files[1..])
        case Err(msg) => Err(msg)
        case Ok(rest) =>
          assert forall i :: 0 < i < |files| ==> files[i] == files[1..][i - 1];
          Ok(PromptColumn(files[0]) + rest)
  }

  /** A refusal is the refusal of the first refused file. */
  lemma {:induction false} ReadUploadsRefusal(files: seq<Upload>)
    ensures ReadUploads(files).Err? ==>
              exists i :: 0 <= i < |files| && Some(ReadUploads(files).error) == UploadProblem(files[i])
                && forall j :: 0 <= j < i ==> UploadProblem(files[j]).None?
    decreases |files|
  {
    if |files| > 0 && UploadProblem(files[0]).None? && ReadUploads(files[1..]).Err? {
      ReadUploadsRefusal(files[1..]);
      var msg := ReadUploads(files[1..]).error;
      var k :| 0 <= k < |files[1..]| && Some(msg) == UploadProblem(files[1..][k])
               && forall j :: 0 <= j < k ==> UploadProblem(files[1..][j]).None?;
      assert files[1..][k] == files[k + 1];
      forall j | 0 <= j < k + 1
        ensures UploadProblem(files[j]).None?
      {
        if j > 0 {
          assert files[j] == files[1..][j - 1];
        }
      }
    }
  }

  /** Uploads read in two batches give the first batch's prompts followed
      by the second's; a refusal in the first batch is the refusal. */
  lemma {:induction false} ReadUploadsAppend(a: seq<Upload>, b: seq<Upload>)
    ensures ReadUploads(a).Err? ==> ReadUploads(a + b) == ReadUploads(a)
    ensures ReadUploads(a).Ok? && ReadUploads(b).Ok? ==>
              ReadUploads(a + b) == Ok(ReadUploads(a).value + ReadUploads(b).value)
    ensures ReadUploads(a).Ok? && ReadUploads(b).Err? ==> ReadUploads(a + b) == ReadUploads(b)
    decreases |a|
  {
    if |a| == 0 {
      assert a + b == b;
      assert ReadUploads(a) == Ok([]);
      if ReadUploads(b).Ok? {
        assert [] + ReadUploads(b).value == ReadUploads(b).value;
      }
    } else {
      assert (a + b)[0] == a[0];
      assert (a + b)[1..] == a[1..] + b;
      ReadUploadsAppend(a[1..], b);
      if UploadProblem(a[0]).None? && ReadUploads(a[1..]).Ok? && ReadUploads(b).Ok? {
        var head := PromptColumn(a[0]);
        var ra := ReadUploads(a[1..]).value;
        var rb := ReadUploads(b).value;
        assert ReadUploads(a).value == head + ra;
        assert ReadUploads(a + b) == Ok(head + (ra + rb));
        Associative(head, ra, rb);
      }
    }
  }

  lemma Associative<T>(x: seq<T>, y: seq<T>, z: seq<T>)
    ensures x + (y + z) == (x + y) + z
  {
  }

  /** A single accepted file contributes exactly its prompt column. */
  lemma ReadOneUpload(u: Upload)
    requires UploadProblem(u).None?
    ensures ReadUploads([u]) == Ok(PromptColumn(u))
  {
    assert [u][1..] == [];
    assert ReadUploads([u][1..]) == Ok([]);
    assert PromptColumn(u) + [] == PromptColumn(u);
  }

  /** The intake of `GenerateTaskView.post`; `parse` is `ast.literal_eval`. */
  function GenerateTask(f: GenerateForm, parse: string -> Literal): (r: Result<Generation, Reply>)
    ensures r.Err? ==> r.error.status in {BadRequest, ServerError}
    ensures r.Err? && r.error.status == ServerError <==>
              |f.files| == 0 && Given(f.prompts) && f.examplePerPrompt.Truthy()
              && parse(f.prompts.value).Raised?
    ensures r.Ok? ==> r.value.batchSize.Truthy()
    ensures r.Ok? ==> (r.value.totalExamples.Some? ==> r.value.totalExamples.value.Truthy())
  {
    if |f.files| > 0 && Given(f.prompts) then
      Err(Reply(BadRequest, "Both prompts and file uploads are not allowed. Please provide either prompts or a file."))
    else if |f.files| > 0 then
      if !f.examplePerPrompt.Truthy() then
        Err(Reply(BadRequest, "example_per_prompt is required when uploading files."))
      else match ReadUploads(f.files)
        case Err(msg) => Err(Reply(BadRequest, msg))
        case Ok(ps) => Ok(Settle(ps, f.examplePerPrompt, f.examplePerPrompt))
    else if Given(f.prompts) then
      if !f.examplePerPrompt.Truthy() then
        Err(Reply(BadRequest, "example_per_prompt is required when providing prompts."))
      else match parse(f.prompts.value)
        case Malformed(reason) => Err(Reply(BadRequest, "Invalid prompts format: " + reason))
        case OtherLiteral => Err(Reply(BadRequest, "Invalid prompts format: Prompts is not a valid list."))
        case ListLiteral(ps) => Ok(Settle(ps, f.examplePerPrompt, f.examplePerPrompt))
        case Raised(_, reason) => Err(Reply(ServerError, reason))
    else Ok(Settle([], f.totalExamples, f.batchSize))
  }

  /** The tail of the intake: `total_examples` is stored only when truthy,
      and a falsy batch size becomes 5. */
  function Settle(ps: seq<string>, total: Value, batch: Value): (g: Generation)
    ensures g.prompts == ps
    ensures g.totalExamples.Some? <==> total.Truthy()
    ensures g.totalExamples.Some? ==> g.totalExamples.value == total
    ensures batch.Truthy() ==> g.batchSize == batch
    ensures !batch.Truthy() ==> g.batchSize == Number(5)
  {
    Generation(ps, if total.Truthy() then Some(total) else None, if batch.Truthy() then batch else Number(5))
  }

  /** Files together with a prompts text are refused before anything else
      is looked at. */
  lemma GenerateBothRefused(f: GenerateForm, parse: string -> Literal)
    requires |f.files| > 0 && Given(f.prompts)
    ensures GenerateTask(f, parse) ==
              Err(Reply(BadRequest, "Both prompts and file uploads are not allowed. Please provide either prompts or a file."))
  {
  }

  /** With files only: accepted exactly when `example_per_prompt` is given
      and every file is a readable ".csv" (any letter case) with a `prompts`
      column; the prompts are the files' columns in upload order, and the
      total and the batch size both become `example_per_prompt`. */
  lemma GenerateFromFiles(f: GenerateForm, parse: string -> Literal)
    requires |f.files| > 0 && !Given(f.prompts)
    ensures var r := GenerateTask(f, parse);
            && (r.Ok? <==>
                  f.examplePerPrompt.Truthy()
                  && forall i :: 0 <= i < |f.files| ==> UploadProblem(f.files[i]).None?)
            && (!f.examplePerPrompt.Truthy() ==>
                  r == Err(Reply(BadRequest, "example_per_prompt is required when uploading files.")))
            && (r.Ok? ==>
                  && r.value.prompts == ReadUploads(f.files).value
                  && r.value.totalExamples == Some(f.examplePerPrompt)
                  && r.value.batchSize == f.examplePerPrompt)
  {
  }

  /** With a prompts text only: accepted exactly when `example_per_prompt`
      is given and the text is a list literal, whose items are the prompts;
      an exception other than ValueError or SyntaxError is a server error. */
  lemma GenerateFromText(f: GenerateForm, parse: string -> Literal)
    requires |f.files| == 0 && Given(f.prompts)
    ensures var r := GenerateTask(f, parse);
            && (r.Ok? <==> f.examplePerPrompt.Truthy() && parse(f.prompts.value).ListLiteral?)
            && (!f.examplePerPrompt.Truthy() ==>
                  r == Err(Reply(BadRequest, "example_per_prompt is required when providing prompts.")))
            && (f.examplePerPrompt.Truthy() && parse(f.prompts.value).Malformed? ==>
                  r == Err(Reply(BadRequest, "Invalid prompts format: " + parse(f.prompts.value).reason)))
            && (f.examplePerPrompt.Truthy() && parse(f.prompts.value).Raised? ==>
                  r == Err(Reply(ServerError, parse(f.prompts.value).reason)))
            && (r.Ok? ==>
                  && r.value.prompts == parse(f.prompts.value).items
                  && r.value.totalExamples == Some(f.examplePerPrompt)
                  && r.value.batchSize == f.examplePerPrompt)
  {
  }

  /** With neither, the request is accepted with no prompts, its own total
      (stored only when truthy) and its own batch size or 5. */
  lemma GenerateFromNothing(f: GenerateForm, parse: string -> Literal)
    requires |f.files| == 0 && !Given(f.prompts)
    ensures var r := GenerateTask(f, parse);
            && r.Ok? && r.value.prompts == []
            && (r.value.totalExamples == if f.totalExamples.Truthy() then Some(f.totalExamples) else None)
            && (r.value.batchSize == if f.batchSize.Truthy() then f.batchSize else Number(5))
  {
  }

  /** The ".csv" test ignores letter case, and a name merely containing
      ".csv" is refused. */
  lemma UploadExtensionExamples(upper: string, inside: string, t: Table)
    requires upper == "DATA.CSV" && inside == "data.csv.txt" && "prompts" in t.columns
    ensures UploadProblem(Upload(upper, Readable(t))).None?
    ensures UploadProblem(Upload(inside, Readable(t))).Some?
  {
    assert Lower(upper)[4..] == ".csv";
    assert Lower(inside)[8..] == ".txt";
  }

  // ---------------------------------------------------------------------
  // IterateWorkflowView.post: the batch count

  /** Python's `a // b`: rounds toward negative infinity. */
  function FloorDiv(a: int, b: int): (q: int)
    requires b != 0
    ensures b > 0 ==> q * b <= a < q * b + b
    ensures b < 0 ==> q * b >= a > q * b + b
  {
    if b > 0 then a / b else (-a) / (-b)
  }

  /** `max(1, (total_examples + batch_size - 1) // batch_size)`; None is the
      ZeroDivisionError a zero batch size raises. */
  function TotalBatches(total: int, batch: int): (r: Option<int>)
    ensures r.None? <==> batch == 0
    ensures r.Some? ==> r.value >= 1
  {
    if batch == 0 then None
    else Some(Max(1, FloorDiv(total + batch - 1, batch)))
  }

  function Max(a: int, b: int): int {
    if a < b then b else a
  }

  /** For a positive batch size the count is the ceiling of
      total / batch, and at least 1: the least k >= 1 with k batches
      covering the total. */
  lemma TotalBatchesIsCeiling(total: int, batch: int)
    requires batch > 0
    ensures var k := TotalBatches(total, batch).value;
            k >= 1 && k * batch >= total && (k == 1 || (k - 1) * batch < total)
  {
    var q := FloorDiv(total + batch - 1, batch);
    assert q * batch <= total + batch - 1 < q * batch + batch;
  }

  /** The batch count as `IterateWorkflowView.post` reaches it with the
      request's `batch_size` value (5 when absent): `int(batch_size)` is
      taken first for the fetcher, then the count is computed with the
      value itself. An integer gives the count, or ZeroDivisionError when it
      is zero; a text that `int()` refuses raises ValueError there, and one
      it reads passes, only for the addition to an integer to raise
      TypeError; null raises TypeError in `int()`. None of these exceptions
      is caught, so each is a server error; the error names its class. */
  function BatchCount(total: int, batch: Value): (r: Result<int, string>)
    ensures r.Ok? <==> batch.Number? && batch.n != 0
    ensures r.Ok? ==> Some(r.value) == TotalBatches(total, batch.n)
    ensures batch == Number(0) ==> r == Err("ZeroDivisionError")
    ensures batch.Text? ==>
              r == Err(if ParseInt(batch.s).Some? then "TypeError" else "ValueError")
    ensures batch.Null? ==> r == Err("TypeError")
  {
    match batch
    case Null => Err("TypeError")
    case Text(t) => if ParseInt(t).None? then Err("ValueError") else Err("TypeError")
    case Number(n) =>
      match TotalBatches(total, n)
      case None => Err("ZeroDivisionError")
      case Some(k) => Ok(k)
  }

  /** A batch size given as a numeric text is refused although `int()`
      reads it, while the same number is counted. */
  lemma BatchCountText(total: int, n: int)
    requires n > 0 && Printable(n)
    ensures BatchCount(total, Text(IntToString(n))) == Err("TypeError")
    ensures BatchCount(total, Number(n)).Ok?
  {
    IntRoundTrip(n);
  }

  /** A positive total in batches of a positive size: no batch too many. */
  lemma TotalBatchesExamples()
    ensures TotalBatches(10, 5) == Some(2)
    ensures TotalBatches(11, 5) == Some(3)
    ensures TotalBatches(0, 5) == Some(1)
    ensures TotalBatches(3, 0) == None
  {
  }

  // ---------------------------------------------------------------------
  // DatasetView.post

  datatype Recorded = Recorded(store: Store, result: Result<Row, Reply>)

  /** The task keys of a mapping, in dict order: `list(task_mapping.keys())`. */
  function Keys(m: Mapping): (ks: seq<string>)
    ensures |ks| == |m| && forall i :: 0 <= i < |m| ==> ks[i] == m[i].0
  {
    seq(|m|, i requires 0 <= i < |m| => m[i].0)
  }

  /** `DatasetView.post` for the cached dataset `did` of task mapping `m`:
      input checked before output, then one record for file "train.csv"
      with the first task key set to the input and the second to the
      output. A mapping with fewer than two keys raises IndexError, which
      the surrounding dispatch answers with 500. The record's id is the
      next `uuid.uuid4()`. */
  function RecordInputOutput(s: Store, did: nat, m: Mapping, input: Option<string>, output: Option<string>, e: Entropy): (r: Recorded)
    ensures r.result.Err? ==> r.store == s
    ensures !Given(input) ==> r.result == Err(Reply(BadRequest, "Input is required."))
    ensures Given(input) && !Given(output) ==> r.result == Err(Reply(BadRequest, "Output is required."))
    ensures r.result.Ok? <==> Given(input) && Given(output) && |m| >= 2
    ensures r.result.Ok? ==>
              && r.store == s.(rows := s.rows + [r.result.value], drawn := s.drawn + 1)
              && r.result.value.datasetId == did && r.result.value.file == "train.csv"
              && r.result.value.fields.Keys == {m[0].0, m[1].0}
              && r.result.value.fields[m[0].0] == input.value
              && r.result.value.fields[m[1].0] == output.value
  {
    if !Given(input) then Recorded(s, Err(Reply(BadRequest, "Input is required.")))
    else if !Given(output) then Recorded(s, Err(Reply(BadRequest, "Output is required.")))
    else
      var keys := Keys(m);
      if |keys| < 2 then
        Recorded(s, Err(Reply(Status(IndexOutOfRange.Kind()), IndexOutOfRange.Message())))
      else
        assert m[0].0 != m[1].0;
        var row := Row(e(s.drawn), did, "train.csv", map[keys[0] := input.value, keys[1] := output.value]);
        Recorded(s.(rows := s.rows + [row], drawn := s.drawn + 1), Ok(row))
  }

  /** A one-key mapping is answered with the internal-error status and
      Python's IndexError text, and nothing is saved. */
  lemma RecordShortMapping(s: Store, did: nat, m: Mapping, input: Option<string>, output: Option<string>, e: Entropy)
    requires Given(input) && Given(output) && |m| < 2
    ensures RecordInputOutput(s, did, m, input, output, e)
            == Recorded(s, Err(Reply(500, "list index out of range")))
  {
  }

  // ---------------------------------------------------------------------
  // DatasetView.get: page parameters

  datatype Paging = Paging(page: int, perPage: int)

  /** The `page` and `perPage` query parameters, defaulting to 1 and 10. */
  function ParsePaging(page: Option<string>, perPage: Option<string>): (r: Result<Paging, Reply>)
    ensures r.Ok? <==> (page.None? || ParseInt(page.value).Some?)
                       && (perPage.None? || ParseInt(perPage.value).Some?)
    ensures r.Ok? ==> r.value.page == (if page.None? then 1 else ParseInt(page.value).value)
    ensures r.Ok? ==> r.value.perPage == (if perPage.None? then 10 else ParseInt(perPage.value).value)
    ensures r.Err? ==> r.error == Reply(BadRequest, "Page and page size must be integers.")
  {
    var n := if page.None? then Some(1) else ParseInt(page.value);
    var k := if perPage.None? then Some(10) else ParseInt(perPage.value);
    if n.Some? && k.Some? then Ok(Paging(n.value, k.value))
    else Err(Reply(BadRequest, "Page and page size must be integers."))
  }

  /** Printed integers come back as the same page and size; absent
      parameters give page 1 of 10. */
  lemma PagingRoundTrip(n: int, k: int)
    requires Printable(n) && Printable(k)
    ensures ParsePaging(Some(IntToString(n)), Some(IntToString(k))) == Ok(Paging(n, k))
    ensures ParsePaging(None, None) == Ok(Paging(1, 10))
    ensures ParsePaging(None, Some(IntToString(k))) == Ok(Paging(1, k))
  {
    IntRoundTrip(n);
    IntRoundTrip(k);
  }

  /** An empty or non-numeric page is refused even when the size is fine. */
  lemma PagingRefusals(empty: string, word: string, long: string, k: Option<string>)
    requires empty == "" && word == "two"
    requires |long| > MaxStrDigits && AllDigits(long)
    ensures ParsePaging(Some(empty), k).Err?
    ensures ParsePaging(Some(word), k).Err?
    ensures ParsePaging(Some(long), k).Err?
  {
    ParseTooManyDigits(long);
    assert Unsigned(Strip(word, Whitespace)) == word by {
      StripUnchanged(word, Whitespace);
    }
    assert !AllDigits(word) by {
      assert !IsDigit(word[0]);
    }
  }
}
