/**
 * The deterministic part of the Sumopod gateway client: the shape validator
 * for the extracted catalog tree, the markdown-fence remover of
 * `_parse_json_response`, and the self-correcting retry around the model
 * call. The model and `json.loads` are oracles: a reply per call index and
 * a parser that yields a value or an error message.
 */
module Sumopod {
  import opened Wrappers
  import opened Text
  import opened JsonValue
  import PdfUtils

  // ---------------------------------------------------------------------
  // The validator
  // ---------------------------------------------------------------------

  const CategoriesKey: string := "categories"
  const CategoryNameEnKey: string := "category_name_en"
  const SubcategoriesKey: string := "subcategories"
  const SubcategoryNameEnKey: string := "subcategory_name_en"

  /** One entry of the validator's error list, before it is rendered as text. */
  datatype ValidationError =
    | RootNotObject
    | MissingCategories
    | CategoriesNotList
    | CategoriesEmpty
    | CategoryNotObject(idx: nat)
    | MissingCategoryNameEn(idx: nat)
    | MissingSubcategories(idx: nat)
    | SubcategoriesNotList(idx: nat)
    | SubcategoryNotObject(idx: nat, sub: nat)
    | MissingSubcategoryNameEn(idx: nat, sub: nat)

  /** The errors that end validation at once, each on its own. */
  predicate IsStop(e: ValidationError) {
    e.RootNotObject? || e.MissingCategories? || e.CategoriesNotList? || e.CategoriesEmpty?
  }

  /** The text the validator appends for an error. */
  function Message(e: ValidationError): string {
    match e
    case RootNotObject => "Root must be a dictionary"
    case MissingCategories => "Missing 'categories' field"
    case CategoriesNotList => "'categories' must be a list"
    case CategoriesEmpty => "'categories' list is empty"
    case CategoryNotObject(i) => "Category " + NatToString(i) + " is not a dictionary"
    case MissingCategoryNameEn(i) => "Category " + NatToString(i) + " missing 'category_name_en'"
    case MissingSubcategories(i) => "Category " + NatToString(i) + " missing 'subcategories'"
    case SubcategoriesNotList(i) => "Category " + NatToString(i) + " 'subcategories' must be a list"
    case SubcategoryNotObject(i, j) =>
      "Category " + NatToString(i) + ", subcategory " + NatToString(j) + " is not a dictionary"
    case MissingSubcategoryNameEn(i, j) =>
      "Category " + NatToString(i) + ", subcategory " + NatToString(j) + " missing 'subcategory_name_en'"
  }

  function Messages(es: seq<ValidationError>): seq<string> {
    seq(|es|, i requires 0 <= i < |es| => Message(es[i]))
  }

  /** The error, if any, for subcategory `sub` of category `idx`. */
  function SubcategoryError(idx: nat, sub: nat, s: Json): (r: seq<ValidationError>)
    ensures |r| <= 1
    ensures forall e :: e in r ==> !IsStop(e) && e.idx == idx
  {
    match s
    case JObj(m) => if SubcategoryNameEnKey in m then [] else [MissingSubcategoryNameEn(idx, sub)]
    case _ => [SubcategoryNotObject(idx, sub)]
  }

  /** The errors of the inner loop over the subcategories of category `idx`. */
  function SubcategoryErrors(idx: nat, subs: seq<Json>): (r: seq<ValidationError>)
    ensures |r| <= |subs|
    ensures forall e :: e in r ==> !IsStop(e) && e.idx == idx
    decreases |subs|
  {
    if subs == [] then []
    else
      var n := |subs| - 1;
      SubcategoryErrors(idx, subs[..n]) + SubcategoryError(idx, n, subs[n])
  }

  /** The errors one category contributes: its name first, then its subcategories. */
  function CategoryErrors(idx: nat, c: Json): (r: seq<ValidationError>)
    ensures forall e :: e in r ==> !IsStop(e) && e.idx == idx
  {
    match c
    case JObj(m) =>
      (if CategoryNameEnKey in m then [] else [MissingCategoryNameEn(idx)])
      + (if SubcategoriesKey !in m then [MissingSubcategories(idx)]
         else if !m[SubcategoriesKey].JArr? then [SubcategoriesNotList(idx)]
         else SubcategoryErrors(idx, m[SubcategoriesKey].items))
    case _ => [CategoryNotObject(idx)]
  }

  /** The errors of the outer loop over the categories, in index order. */
  function CategoryListErrors(cats: seq<Json>): seq<ValidationError>
    decreases |cats|
  {
    if cats == [] then []
    else
      var n := |cats| - 1;
      CategoryListErrors(cats[..n]) + CategoryErrors(n, cats[n])
  }

  /** The error list of `_validate_extracted_data`. */
  function ValidationErrors(data: Json): seq<ValidationError> {
    if !data.JObj? then [RootNotObject]
    else if CategoriesKey !in data.fields then [MissingCategories]
    else if !data.fields[CategoriesKey].JArr? then [CategoriesNotList]
    else if data.fields[CategoriesKey].items == [] then [CategoriesEmpty]
    else CategoryListErrors(data.fields[CategoriesKey].items)
  }

  /** The validator with its nested loops; `valid` is the error list being empty. */
  method ValidateExtractedData(data: Json) returns (valid: bool, errors: seq<ValidationError>)
    ensures errors == ValidationErrors(data)
    ensures valid <==> errors == []
  {
    if !data.JObj? {
      return false, [RootNotObject];
    }
    if CategoriesKey !in data.fields {
      return false, [MissingCategories];
    }
    if !data.fields[CategoriesKey].JArr? {
      return false, [CategoriesNotList];
    }
    var cats := data.fields[CategoriesKey].items;
    if |cats| == 0 {
      return false, [CategoriesEmpty];
    }
    errors := [];
    var idx := 0;
    while idx < |cats|
      invariant 0 <= idx <= |cats|
      invariant errors == CategoryListErrors(cats[..idx])
    {
      assert cats[..idx + 1][..idx] == cats[..idx];
      var categoryErrors := ValidateCategory(idx, cats[idx]);
      errors := errors + categoryErrors;
      idx := idx + 1;
    }
    assert cats[..idx] == cats;
    valid := |errors| == 0;
  }

  /** The body of the outer loop for category `idx`. */
  method ValidateCategory(idx: nat, category: Json) returns (errors: seq<ValidationError>)
    ensures errors == CategoryErrors(idx, category)
  {
    if !category.JObj? {
      return [CategoryNotObject(idx)];
    }
    var m := category.fields;
    var nameErrors: seq<ValidationError> := [];
    if CategoryNameEnKey !in m {
      nameErrors := [MissingCategoryNameEn(idx)];
    }
    var subErrors: seq<ValidationError>;
    if SubcategoriesKey !in m {
      subErrors := [MissingSubcategories(idx)];
    } else if !m[SubcategoriesKey].JArr? {
      subErrors := [SubcategoriesNotList(idx)];
    } else {
      subErrors := ValidateSubcategories(idx, m[SubcategoriesKey].items);
    }
    errors := nameErrors + subErrors;
  }

  /** The inner loop over the subcategories of category `idx`. */
  method ValidateSubcategories(idx: nat, subs: seq<Json>) returns (errors: seq<ValidationError>)
    ensures errors == SubcategoryErrors(idx, subs)
  {
    errors := [];
    var subIdx := 0;
    while subIdx < |subs|
      invariant 0 <= subIdx <= |subs|
      invariant errors == SubcategoryErrors(idx, subs[..subIdx])
    {
      assert subs[..subIdx + 1][..subIdx] == subs[..subIdx];
      var subcategory := subs[subIdx];
      if !subcategory.JObj? {
        errors := errors + [SubcategoryNotObject(idx, subIdx)];
      } else if SubcategoryNameEnKey !in subcategory.fields {
        errors := errors + [MissingSubcategoryNameEn(idx, subIdx)];
      }
      subIdx := subIdx + 1;
    }
    assert subs[..subIdx] == subs;
  }

  /** An independent reading of "valid": every field the validator asks for is there. */
  predicate WellFormedSubcategory(s: Json) {
    s.JObj? && SubcategoryNameEnKey in s.fields
  }

  predicate WellFormedCategory(c: Json) {
    && c.JObj?
    && CategoryNameEnKey in c.fields
    && SubcategoriesKey in c.fields
    && c.fields[SubcategoriesKey].JArr?
    && forall s :: s in c.fields[SubcategoriesKey].items ==> WellFormedSubcategory(s)
  }

  predicate WellFormed(data: Json) {
    && data.JObj?
    && CategoriesKey in data.fields
    && data.fields[CategoriesKey].JArr?
    && data.fields[CategoriesKey].items != []
    && forall c :: c in data.fields[CategoriesKey].items ==> WellFormedCategory(c)
  }

  lemma {:induction false} SubcategoryErrorsEmpty(idx: nat, subs: seq<Json>)
    ensures SubcategoryErrors(idx, subs) == [] <==> forall s :: s in subs ==> WellFormedSubcategory(s)
    decreases |subs|
  {
    if subs != [] {
      var n := |subs| - 1;
      SubcategoryErrorsEmpty(idx, subs[..n]);
      AllSnoc(subs, WellFormedSubcategory);
      assert SubcategoryError(idx, n, subs[n]) == [] <==> WellFormedSubcategory(subs[n]);
      EmptyConcat(SubcategoryErrors(idx, subs[..n]), SubcategoryError(idx, n, subs[n]));
    }
  }

  /** A property of all of `xs` holds of all of its front and of its last element. */
  lemma AllSnoc<T>(xs: seq<T>, p: T -> bool)
    requires xs != []
    ensures (forall x :: x in xs ==> p(x))
      <==> (forall x :: x in xs[..|xs| - 1] ==> p(x)) && p(xs[|xs| - 1])
  {
    assert xs == xs[..|xs| - 1] + [xs[|xs| - 1]];
  }

  lemma EmptyConcat<T>(a: seq<T>, b: seq<T>)
    ensures a + b == [] <==> a == [] && b == []
  {
    assert |a + b| == |a| + |b|;
  }

  lemma CategoryErrorsEmpty(idx: nat, c: Json)
    ensures CategoryErrors(idx, c) == [] <==> WellFormedCategory(c)
  {
    if c.JObj? && SubcategoriesKey in c.fields && c.fields[SubcategoriesKey].JArr? {
      SubcategoryErrorsEmpty(idx, c.fields[SubcategoriesKey].items);
    }
  }

  lemma {:induction false} CategoryListErrorsEmpty(cats: seq<Json>)
    ensures CategoryListErrors(cats) == [] <==> forall c :: c in cats ==> WellFormedCategory(c)
    decreases |cats|
  {
    if cats != [] {
      var n := |cats| - 1;
      CategoryListErrorsEmpty(cats[..n]);
      CategoryErrorsEmpty(n, cats[n]);
      AllSnoc(cats, WellFormedCategory);
      EmptyConcat(CategoryListErrors(cats[..n]), CategoryErrors(n, cats[n]));
    }
  }

  /** The validator accepts exactly the well-formed trees. */
  lemma ValidIffWellFormed(data: Json)
    ensures ValidationErrors(data) == [] <==> WellFormed(data)
  {
    if data.JObj? && CategoriesKey in data.fields && data.fields[CategoriesKey].JArr? {
      CategoryListErrorsEmpty(data.fields[CategoriesKey].items);
    }
  }

  /** A root that is not an object with a non-empty `categories` list gives one stop error and nothing else. */
  lemma StopErrorsAlone(data: Json)
    requires !(data.JObj? && CategoriesKey in data.fields && data.fields[CategoriesKey].JArr?
               && data.fields[CategoriesKey].items != [])
    ensures |ValidationErrors(data)| == 1 && IsStop(ValidationErrors(data)[0])
  {
  }

  /** The category an error names; the stop errors name none. */
  function IndexOf(e: ValidationError): int {
    if IsStop(e) then -1 else e.idx
  }

  /** Past the stop checks every error names a category of the list. */
  lemma {:induction false} CategoryErrorsInRange(cats: seq<Json>)
    ensures forall e :: e in CategoryListErrors(cats) ==> 0 <= IndexOf(e) < |cats|
    decreases |cats|
  {
    if cats != [] {
      var n := |cats| - 1;
      CategoryErrorsInRange(cats[..n]);
    }
  }

  predicate InCategoryOrder(es: seq<ValidationError>) {
    forall i, j :: 0 <= i < j < |es| ==> IndexOf(es[i]) <= IndexOf(es[j])
  }

  /** The errors come in category order. */
  lemma {:induction false} CategoryErrorsInOrder(cats: seq<Json>)
    ensures InCategoryOrder(CategoryListErrors(cats))
    decreases |cats|
  {
    if cats != [] {
      var n := |cats| - 1;
      CategoryErrorsInOrder(cats[..n]);
      CategoryErrorsInRange(cats[..n]);
      var front: seq<ValidationError> := CategoryListErrors(cats[..n]);
      var back: seq<ValidationError> := CategoryErrors(n, cats[n]);
      assert CategoryListErrors(cats) == front + back;
      OrderedConcat(front, back, n);
    }
  }

  lemma OrderedConcat(front: seq<ValidationError>, back: seq<ValidationError>, n: int)
    requires InCategoryOrder(front)
    requires forall e :: e in front ==> IndexOf(e) < n
    requires forall e :: e in back ==> IndexOf(e) == n
    ensures InCategoryOrder(front + back)
  {
    forall i, j | 0 <= i < j < |front + back|
      ensures IndexOf((front + back)[i]) <= IndexOf((front + back)[j])
    {
      if j < |front| {
        assert (front + back)[i] == front[i] && (front + back)[j] == front[j];
      } else {
        assert (front + back)[j] == back[j - |front|];
        assert back[j - |front|] in back;
        if i < |front| {
          assert (front + back)[i] == front[i];
          assert front[i] in front;
        } else {
          assert (front + back)[i] == back[i - |front|];
          assert back[i - |front|] in back;
        }
      }
    }
  }

  /** Fields other than the English names and `subcategories` (codes, Chinese names) are never looked at. */
  lemma OtherCategoryFieldsIgnored(idx: nat, m: map<string, Json>, k: string, v: Json)
    requires k != CategoryNameEnKey && k != SubcategoriesKey
    ensures CategoryErrors(idx, JObj(m[k := v])) == CategoryErrors(idx, JObj(m))
  {
    var m' := m[k := v];
    assert (CategoryNameEnKey in m') == (CategoryNameEnKey in m);
    assert (SubcategoriesKey in m') == (SubcategoriesKey in m);
    if SubcategoriesKey in m {
      assert m'[SubcategoriesKey] == m[SubcategoriesKey];
    }
  }

  lemma OtherSubcategoryFieldsIgnored(idx: nat, sub: nat, m: map<string, Json>, k: string, v: Json)
    requires k != SubcategoryNameEnKey
    ensures SubcategoryError(idx, sub, JObj(m[k := v])) == SubcategoryError(idx, sub, JObj(m))
  {
    assert (SubcategoryNameEnKey in m[k := v]) == (SubcategoryNameEnKey in m);
  }

  // ---------------------------------------------------------------------
  // `_parse_json_response`: removing markdown fences
  // ---------------------------------------------------------------------

  /** The loop state: inside a fenced block, and the lines collected so far. */
  datatype Scan = Scan(inBlock: bool, kept: seq<string>)

  /** One step of the loop over the reply's lines. */
  function ScanStep(s: Scan, line: string): Scan {
    if PdfUtils.StartsWithFence(line) then Scan(!s.inBlock, s.kept)
    else if s.inBlock || s.kept != [] then Scan(s.inBlock, s.kept + [line])
    else s
  }

  /** The loop state after the lines `lines`. */
  function ScanLines(lines: seq<string>): Scan
    decreases |lines|
  {
    if lines == [] then Scan(false, [])
    else ScanStep(ScanLines(lines[..|lines| - 1]), lines[|lines| - 1])
  }

  /** The lines that do not start with a fence. */
  function NonFence(lines: seq<string>): (r: seq<string>)
    ensures forall x :: x in r ==> x in lines && !PdfUtils.StartsWithFence(x)
    decreases |lines|
  {
    if lines == [] then []
    else
      var n := |lines| - 1;
      NonFence(lines[..n]) + (if PdfUtils.StartsWithFence(lines[n]) then [] else [lines[n]])
  }

  function FenceCount(lines: seq<string>): nat
    decreases |lines|
  {
    if lines == [] then 0
    else FenceCount(lines[..|lines| - 1]) + (if PdfUtils.StartsWithFence(lines[|lines| - 1]) then 1 else 0)
  }

  /** The text handed to `json.loads` for a reply that was already stripped. */
  function ParseJsonResponse(text: string): (r: string)
    ensures !PdfUtils.StartsWithFence(text) ==> r == text
  {
    if PdfUtils.StartsWithFence(text) then Strip(Join("\n", ScanLines(Split(text, '\n')).kept)) else text
  }

  /** `_parse_json_response` without the final `json.loads`: the toggling loop over the lines. */
  method ParseJsonResponseText(text: string) returns (r: string)
    ensures r == ParseJsonResponse(text)
  {
    if !PdfUtils.StartsWithFence(text) {
      return text;
    }
    var lines := Split(text, '\n');
    var jsonLines: seq<string> := [];
    var inCodeBlock := false;
    var i := 0;
    while i < |lines|
      invariant 0 <= i <= |lines|
      invariant ScanLines(lines[..i]) == Scan(inCodeBlock, jsonLines)
    {
      var line := lines[i];
      assert lines[..i + 1][..i] == lines[..i];
      if PdfUtils.StartsWithFence(line) {
        inCodeBlock := !inCodeBlock;
      } else if inCodeBlock || jsonLines != [] {
        jsonLines := jsonLines + [line];
      }
      i := i + 1;
    }
    assert lines[..i] == lines;
    r := Strip(Join("\n", jsonLines));
  }

  /** No collected line starts with a fence. */
  lemma {:induction false} KeptHasNoFence(lines: seq<string>)
    ensures forall x :: x in ScanLines(lines).kept ==> !PdfUtils.StartsWithFence(x)
    decreases |lines|
  {
    if lines != [] {
      KeptHasNoFence(lines[..|lines| - 1]);
    }
  }

  /** Being inside a block means an odd number of fence lines so far. */
  lemma {:induction false} InBlockIffOddFences(lines: seq<string>)
    ensures ScanLines(lines).inBlock <==> FenceCount(lines) % 2 == 1
    decreases |lines|
  {
    if lines != [] {
      InBlockIffOddFences(lines[..|lines| - 1]);
    }
  }

  /** Once a line is collected, every later line that is not a fence is collected too, inside a block or not. */
  lemma {:induction false} KeepAfterCollected(xs: seq<string>, ys: seq<string>)
    requires ScanLines(xs).kept != []
    ensures ScanLines(xs + ys).kept == ScanLines(xs).kept + NonFence(ys)
    decreases |ys|
  {
    if ys == [] {
      assert xs + ys == xs;
    } else {
      var n := |ys| - 1;
      KeepAfterCollected(xs, ys[..n]);
      var last := ys[n];
      assert (xs + ys)[..|xs + ys| - 1] == xs + ys[..n] && (xs + ys)[|xs + ys| - 1] == last;
      var before := ScanLines(xs + ys[..n]);
      assert ScanLines(xs + ys) == ScanStep(before, last);
      assert before.kept != [];
      assert NonFence(ys) == NonFence(ys[..n]) + (if PdfUtils.StartsWithFence(last) then [] else [last]);
      if PdfUtils.StartsWithFence(last) {
        assert ScanLines(xs + ys).kept == before.kept;
      } else {
        assert ScanLines(xs + ys).kept == before.kept + [last];
      }
    }
  }

  /** Text after the closing fence survives, because something was collected before it. */
  lemma TrailingTextKept()
    ensures ScanLines(["```json", "{}", "```", "done"]).kept == ["{}", "done"]
  {
    var ls: seq<string> := ["```json", "{}", "```", "done"];
    PdfUtils.FenceByChars(ls[0]);
    PdfUtils.FenceByChars(ls[1]);
    PdfUtils.FenceByChars(ls[2]);
    PdfUtils.FenceByChars(ls[3]);
    assert ls[..1][..0] == [];
    assert ScanLines(ls[..1]) == Scan(true, []);
    assert ls[..2][..1] == ls[..1];
    assert ScanLines(ls[..2]) == Scan(true, ["{}"]);
    assert ls[..3][..2] == ls[..2];
    assert ScanLines(ls[..3]) == Scan(false, ["{}"]);
    assert ls[..3] == ls[..|ls| - 1];
  }

  // ---------------------------------------------------------------------
  // The self-correcting retry
  // ---------------------------------------------------------------------

  /** What a model call returns: it raises, or it yields the message content. */
  datatype Reply = CallError | Content(text: string)

  /**
   * The stubbed model: the reply to the call with index k (counting from 0
   * over the whole extraction), and `json.loads` with its error message.
   */
  datatype Model = Model(replies: nat -> Reply, parse: string -> Result<Json, string>)

  /** A call as the validator and the parser see it. */
  datatype CallOutcome =
    | Raised
    | Unparseable(detail: string)
    | Invalid(errors: seq<ValidationError>)
    | Valid(data: Json)

  /** The user prompt of a call; the prompt texts themselves are not modelled. */
  datatype Prompt = Initial(markdown: string) | Corrective(errors: seq<string>, markdown: string)

  datatype ExtractError =
    | CallRaised                                    // any exception of the client, re-raised
    | DecodeError(detail: string)                   // a json.JSONDecodeError escaping to the caller
    | MaxRetriesInvalid(errors: seq<ValidationError>)
    | MaxRetriesUnparseable(detail: string)

  /** The outcome of an extraction and the prompts of the calls it made, in call order. */
  datatype Run = Run(result: Result<Json, ExtractError>, prompts: seq<Prompt>)

  function Outcome(m: Model, k: nat): CallOutcome {
    match m.replies(k)
    case CallError => Raised
    case Content(t) =>
      match m.parse(ParseJsonResponse(Strip(t)))
      case Failure(d) => Unparseable(d)
      case Success(data) =>
        var es := ValidationErrors(data);
        if es == [] then Valid(data) else Invalid(es)
  }

  /** A call is valid only with a well-formed tree, and invalid only with some error. */
  lemma OutcomeSpec(m: Model, k: nat)
    ensures var o := Outcome(m, k);
      && (o.Invalid? ==> o.errors != [])
      && (o.Valid? ==> WellFormed(o.data))
  {
    var o := Outcome(m, k);
    if o.Valid? {
      ValidIffWellFormed(o.data);
    }
  }

  /** The outcome of every call of the extraction, by call index. */
  function Outcomes(m: Model): (calls: nat -> CallOutcome)
    ensures forall k: nat :: calls(k) == Outcome(m, k)
  {
    (k: nat) => Outcome(m, k)
  }

  /** What the validator promises of every successful call. */
  ghost predicate ValidOutcomes(calls: nat -> CallOutcome) {
    forall k: nat :: calls(k).Valid? ==> WellFormed(calls(k).data)
  }

  lemma ModelOutcomesValid(m: Model)
    ensures ValidOutcomes(Outcomes(m))
  {
    forall k: nat | Outcomes(m)(k).Valid?
      ensures WellFormed(Outcomes(m)(k).data)
    {
      assert Outcomes(m)(k) == Outcome(m, k);
      OutcomeSpec(m, k);
    }
  }

  function ParseErrorLine(detail: string): string {
    "JSON parsing error: " + detail
  }

  /** The error lines a failed call hands to the next corrective prompt. */
  function Feedback(o: CallOutcome): seq<string> {
    match o
    case Unparseable(d) => [ParseErrorLine(d)]
    case Invalid(es) => Messages(es)
    case _ => []
  }

  function Then(before: seq<Prompt>, r: Run): Run {
    Run(r.result, before + r.prompts)
  }

  /** `_retry_with_correction(markdown, errors, attempt)`, making call `k` first. */
  function Retry(calls: nat -> CallOutcome, maxRetries: int, markdown: string, errors: seq<string>, attempt: int, k: nat): Run
    decreases maxRetries - attempt
  {
    var p := Corrective(errors, markdown);
    match calls(k)
    case Raised => Run(Failure(CallRaised), [p])
    case Unparseable(d) => Run(Failure(DecodeError(d)), [p])
    case Valid(data) => Run(Success(data), [p])
    case Invalid(es) =>
      if attempt < maxRetries then Then([p], Retry(calls, maxRetries, markdown, Messages(es), attempt + 1, k + 1))
      else Run(Failure(MaxRetriesInvalid(es)), [p])
  }

  /**
   * `extract_catalog_data(markdown, attempt)`. A decode error that escapes the
   * retry started for a validation failure is caught by the handler of the
   * same `try`, which starts a second chain with the same attempt number.
   */
  function Extract(calls: nat -> CallOutcome, maxRetries: int, markdown: string, attempt: int): Run {
    var p := Initial(markdown);
    match calls(0)
    case Raised => Run(Failure(CallRaised), [p])
    case Valid(data) => Run(Success(data), [p])
    case Unparseable(d) =>
      if attempt < maxRetries then Then([p], Retry(calls, maxRetries, markdown, [ParseErrorLine(d)], attempt + 1, 1))
      else Run(Failure(MaxRetriesUnparseable(d)), [p])
    case Invalid(es) =>
      if attempt < maxRetries then
        var first := Retry(calls, maxRetries, markdown, Messages(es), attempt + 1, 1);
        if first.result.Failure? && first.result.error.DecodeError? then
          var second := Retry(calls, maxRetries, markdown, [ParseErrorLine(first.result.error.detail)], attempt + 1, 1 + |first.prompts|);
          Then([p] + first.prompts, second)
        else Then([p], first)
      else Run(Failure(MaxRetriesInvalid(es)), [p])
  }

  /** One model call: the reply, then the fence remover, `json.loads` and the validator. */
  method CallModel(m: Model, k: nat) returns (o: CallOutcome)
    ensures o == Outcome(m, k)
  {
    var reply := m.replies(k);
    if reply.CallError? {
      return Raised;
    }
    var text := ParseJsonResponseText(Strip(reply.text));
    var parsed := m.parse(text);
    if parsed.Failure? {
      return Unparseable(parsed.error);
    }
    var valid, errors := ValidateExtractedData(parsed.value);
    if valid {
      o := Valid(parsed.value);
    } else {
      o := Invalid(errors);
    }
  }

  /** `_retry_with_correction`: one corrective call, then itself again while attempts remain. */
  method RetryWithCorrection(m: Model, maxRetries: int, markdown: string, errors: seq<string>, attempt: int, k: nat)
    returns (result: Result<Json, ExtractError>, prompts: seq<Prompt>)
    ensures Run(result, prompts) == Retry(Outcomes(m), maxRetries, markdown, errors, attempt, k)
    decreases maxRetries - attempt
  {
    var p := Corrective(errors, markdown);
    var o := CallModel(m, k);
    assert o == Outcomes(m)(k);
    match o {
      case Raised =>
        return Failure(CallRaised), [p];
      case Unparseable(d) =>
        return Failure(DecodeError(d)), [p];
      case Valid(data) =>
        return Success(data), [p];
      case Invalid(es) =>
        if attempt >= maxRetries {
          return Failure(MaxRetriesInvalid(es)), [p];
        }
        var rest;
        result, rest := RetryWithCorrection(m, maxRetries, markdown, Messages(es), attempt + 1, k + 1);
        prompts := [p] + rest;
    }
  }

  /** `extract_catalog_data`, with its prompts in call order. */
  method ExtractCatalogData(m: Model, maxRetries: int, markdown: string, attempt: int)
    returns (result: Result<Json, ExtractError>, prompts: seq<Prompt>)
    ensures Run(result, prompts) == Extract(Outcomes(m), maxRetries, markdown, attempt)
  {
    ghost var calls := Outcomes(m);
    var p := Initial(markdown);
    var o := CallModel(m, 0);
    assert o == calls(0);
    match o {
      case Raised =>
        return Failure(CallRaised), [p];
      case Valid(data) =>
        return Success(data), [p];
      case Unparseable(d) =>
        if attempt >= maxRetries {
          return Failure(MaxRetriesUnparseable(d)), [p];
        }
        var rest;
        result, rest := RetryWithCorrection(m, maxRetries, markdown, [ParseErrorLine(d)], attempt + 1, 1);
        prompts := [p] + rest;
      case Invalid(es) =>
        if attempt >= maxRetries {
          return Failure(MaxRetriesInvalid(es)), [p];
        }
        var first;
        result, first := RetryWithCorrection(m, maxRetries, markdown, Messages(es), attempt + 1, 1);
        prompts := [p] + first;
        if result.Failure? && result.error.DecodeError? {
          var second;
          result, second := RetryWithCorrection(m, maxRetries, markdown, [ParseErrorLine(result.error.detail)],
                                                attempt + 1, 1 + |first|);
          prompts := [p] + first + second;
        }
    }
  }

  // ---------------------------------------------------------------------
  // Properties of the retry, for any sequence of call outcomes
  // ---------------------------------------------------------------------

  /** A chain only returns what some call of it returned as valid. */
  lemma {:induction false} RetrySuccessValid(calls: nat -> CallOutcome, maxRetries: int, markdown: string, errors: seq<string>, attempt: int, k: nat)
    requires ValidOutcomes(calls)
    ensures var r := Retry(calls, maxRetries, markdown, errors, attempt, k).result;
      r.Success? ==> WellFormed(r.value)
    decreases maxRetries - attempt
  {
    var o := calls(k);
    if o.Invalid? && attempt < maxRetries {
      RetrySuccessValid(calls, maxRetries, markdown, Messages(o.errors), attempt + 1, k + 1);
    }
  }

  /** Whatever the extraction returns has passed the validator. */
  lemma ExtractSuccessValid(m: Model, maxRetries: int, markdown: string, attempt: int)
    ensures var r := Extract(Outcomes(m), maxRetries, markdown, attempt).result;
      r.Success? ==> ValidationErrors(r.value) == []
  {
    var calls := Outcomes(m);
    ModelOutcomesValid(m);
    var o := calls(0);
    if o.Unparseable? && attempt < maxRetries {
      RetrySuccessValid(calls, maxRetries, markdown, [ParseErrorLine(o.detail)], attempt + 1, 1);
    } else if o.Invalid? && attempt < maxRetries {
      var first := Retry(calls, maxRetries, markdown, Messages(o.errors), attempt + 1, 1);
      RetrySuccessValid(calls, maxRetries, markdown, Messages(o.errors), attempt + 1, 1);
      if first.result.Failure? && first.result.error.DecodeError? {
        RetrySuccessValid(calls, maxRetries, markdown, [ParseErrorLine(first.result.error.detail)], attempt + 1, 1 + |first.prompts|);
      }
    }
    var r := Extract(calls, maxRetries, markdown, attempt).result;
    if r.Success? {
      ValidIffWellFormed(r.value);
    }
  }

  /** A chain whose every reply parses but fails validation makes one call per remaining attempt. */
  lemma {:induction false} RetryAllInvalid(calls: nat -> CallOutcome, maxRetries: int, markdown: string, errors: seq<string>, attempt: int, k: nat)
    requires forall j: nat :: calls(j).Invalid?
    ensures var r := Retry(calls, maxRetries, markdown, errors, attempt, k);
      && |r.prompts| == (if attempt < maxRetries then maxRetries - attempt + 1 else 1)
      && r.result.Failure? && r.result.error.MaxRetriesInvalid?
    decreases maxRetries - attempt
  {
    var o := calls(k);
    if attempt < maxRetries {
      RetryAllInvalid(calls, maxRetries, markdown, Messages(o.errors), attempt + 1, k + 1);
    }
  }

  /** Every reply parses and fails validation: exactly max(1, max_retries) calls, then the max-retries error. */
  lemma AllInvalidCalls(calls: nat -> CallOutcome, maxRetries: int, markdown: string)
    requires forall j: nat :: calls(j).Invalid?
    ensures var r := Extract(calls, maxRetries, markdown, 1);
      && |r.prompts| == (if maxRetries < 1 then 1 else maxRetries)
      && r.result.Failure? && r.result.error.MaxRetriesInvalid?
  {
    if 1 < maxRetries {
      RetryAllInvalid(calls, maxRetries, markdown, Messages(calls(0).errors), 2, 1);
    }
  }

  /**
   * Every reply is unparseable: with at least two attempts the second call's
   * decode error escapes to the caller after exactly two calls.
   */
  lemma AllUnparseableCalls(calls: nat -> CallOutcome, maxRetries: int, markdown: string)
    requires forall j: nat :: calls(j).Unparseable?
    ensures var r := Extract(calls, maxRetries, markdown, 1);
      && |r.prompts| == (if maxRetries < 2 then 1 else 2)
      && r.result == if maxRetries < 2 then Failure(MaxRetriesUnparseable(calls(0).detail))
                     else Failure(DecodeError(calls(1).detail))
  {
    assert calls(0).Unparseable? && calls(1).Unparseable?;
  }

  /** A validation failure followed by unparseable replies makes three calls with max_retries = 2. */
  lemma MixedRepliesExceedMaxRetries(calls: nat -> CallOutcome, markdown: string)
    requires calls(0).Invalid? && calls(1).Unparseable? && calls(2).Unparseable?
    ensures var r := Extract(calls, 2, markdown, 1);
      |r.prompts| == 3 && r.result == Failure(DecodeError(calls(2).detail))
  {
    var first := Retry(calls, 2, markdown, Messages(calls(0).errors), 2, 1);
    assert first == Run(Failure(DecodeError(calls(1).detail)), [Corrective(Messages(calls(0).errors), markdown)]);
  }

  /** A chain from `attempt` makes at most one call per remaining attempt. */
  lemma {:induction false} RetryCallBound(calls: nat -> CallOutcome, maxRetries: int, markdown: string, errors: seq<string>, attempt: int, k: nat)
    ensures 1 <= |Retry(calls, maxRetries, markdown, errors, attempt, k).prompts| <= (if attempt < maxRetries then maxRetries - attempt + 1 else 1)
    decreases maxRetries - attempt
  {
    var o := calls(k);
    if o.Invalid? && attempt < maxRetries {
      RetryCallBound(calls, maxRetries, markdown, Messages(o.errors), attempt + 1, k + 1);
    }
  }

  /** The whole extraction makes at most 2 * max_retries - 1 calls: the first, then at most two chains. */
  lemma ExtractCallBound(calls: nat -> CallOutcome, maxRetries: int, markdown: string)
    requires maxRetries >= 1
    ensures |Extract(calls, maxRetries, markdown, 1).prompts| <= 2 * maxRetries - 1
  {
    var o := calls(0);
    if 1 < maxRetries {
      if o.Unparseable? {
        RetryCallBound(calls, maxRetries, markdown, [ParseErrorLine(o.detail)], 2, 1);
      } else if o.Invalid? {
        var first := Retry(calls, maxRetries, markdown, Messages(o.errors), 2, 1);
        RetryCallBound(calls, maxRetries, markdown, Messages(o.errors), 2, 1);
        if first.result.Failure? && first.result.error.DecodeError? {
          RetryCallBound(calls, maxRetries, markdown, [ParseErrorLine(first.result.error.detail)], 2, 1 + |first.prompts|);
        }
      }
    }
  }

  /** The prompts of a chain: call `k + i` carries the errors of call `k + i - 1`. */
  lemma {:induction false} RetryPromptAt(calls: nat -> CallOutcome, maxRetries: int, markdown: string, errors: seq<string>, attempt: int, k: nat, i: nat)
    requires i < |Retry(calls, maxRetries, markdown, errors, attempt, k).prompts|
    ensures Retry(calls, maxRetries, markdown, errors, attempt, k).prompts[i]
      == if i == 0 then Corrective(errors, markdown) else Corrective(Feedback(calls(k + i - 1)), markdown)
    decreases i
  {
    if i > 0 {
      var o := calls(k);
      assert o.Invalid? && attempt < maxRetries;
      var rest := Retry(calls, maxRetries, markdown, Messages(o.errors), attempt + 1, k + 1);
      assert Retry(calls, maxRetries, markdown, errors, attempt, k) == Then([Corrective(errors, markdown)], rest);
      assert Retry(calls, maxRetries, markdown, errors, attempt, k).prompts[i] == rest.prompts[i - 1];
      RetryPromptAt(calls, maxRetries, markdown, Messages(o.errors), attempt + 1, k + 1, i - 1);
      if i == 1 {
        assert Feedback(o) == Messages(o.errors);
      } else {
        assert k + 1 + (i - 1) - 1 == k + i - 1;
      }
    }
  }

  /** A chain that ends in a decode error ends with the call whose reply did not parse. */
  lemma {:induction false} RetryLastOutcome(calls: nat -> CallOutcome, maxRetries: int, markdown: string, errors: seq<string>, attempt: int, k: nat)
    ensures var r := Retry(calls, maxRetries, markdown, errors, attempt, k);
      && |r.prompts| >= 1
      && (r.result.Failure? && r.result.error.DecodeError? ==>
           Feedback(calls(k + |r.prompts| - 1)) == [ParseErrorLine(r.result.error.detail)])
    decreases maxRetries - attempt
  {
    var o := calls(k);
    if o.Invalid? && attempt < maxRetries {
      RetryLastOutcome(calls, maxRetries, markdown, Messages(o.errors), attempt + 1, k + 1);
    }
  }

  /** Whether the first call failed with attempts left, so that a corrective chain starts. */
  predicate ChainStarts(calls: nat -> CallOutcome, maxRetries: int, attempt: int) {
    attempt < maxRetries && (calls(0).Unparseable? || calls(0).Invalid?)
  }

  /** The first corrective chain of an extraction. */
  function FirstChain(calls: nat -> CallOutcome, maxRetries: int, markdown: string, attempt: int): Run {
    Retry(calls, maxRetries, markdown, Feedback(calls(0)), attempt + 1, 1)
  }

  /** Whether a second chain follows: the first started after a validation failure and ended in a decode error. */
  predicate SecondChainStarts(calls: nat -> CallOutcome, maxRetries: int, markdown: string, attempt: int) {
    var first := FirstChain(calls, maxRetries, markdown, attempt);
    ChainStarts(calls, maxRetries, attempt) && calls(0).Invalid?
    && first.result.Failure? && first.result.error.DecodeError?
  }

  /** The prompts `ps` are the initial one, then those of each chain the extraction starts. */
  ghost predicate PromptsShape(ps: seq<Prompt>, calls: nat -> CallOutcome, maxRetries: int, markdown: string, attempt: int) {
    var first := FirstChain(calls, maxRetries, markdown, attempt);
    && (!ChainStarts(calls, maxRetries, attempt) ==> ps == [Initial(markdown)])
    && (ChainStarts(calls, maxRetries, attempt) && !SecondChainStarts(calls, maxRetries, markdown, attempt) ==>
          ps == [Initial(markdown)] + first.prompts)
    && (SecondChainStarts(calls, maxRetries, markdown, attempt) ==>
          ps == [Initial(markdown)] + first.prompts
                + Retry(calls, maxRetries, markdown, [ParseErrorLine(first.result.error.detail)], attempt + 1, 1 + |first.prompts|).prompts)
  }

  lemma ExtractPromptsSplit(calls: nat -> CallOutcome, maxRetries: int, markdown: string, attempt: int)
    ensures PromptsShape(Extract(calls, maxRetries, markdown, attempt).prompts, calls, maxRetries, markdown, attempt)
  {
    var o := calls(0);
    if o.Unparseable? {
      assert Feedback(o) == [ParseErrorLine(o.detail)];
    } else if o.Invalid? {
      assert Feedback(o) == Messages(o.errors);
    }
  }

  /** Prompt `i` of an extraction: the initial prompt, then the errors of call `i - 1`. */
  lemma ExtractPromptAt(calls: nat -> CallOutcome, maxRetries: int, markdown: string, attempt: int, i: nat)
    requires i < |Extract(calls, maxRetries, markdown, attempt).prompts|
    ensures Extract(calls, maxRetries, markdown, attempt).prompts[i]
      == if i == 0 then Initial(markdown) else Corrective(Feedback(calls(i - 1)), markdown)
  {
    ExtractPromptsSplit(calls, maxRetries, markdown, attempt);
    ShapePromptAt(Extract(calls, maxRetries, markdown, attempt).prompts, calls, maxRetries, markdown, attempt, i);
  }

  /** Prompt `i` of any prompt list of that shape. */
  lemma ShapePromptAt(ps: seq<Prompt>, calls: nat -> CallOutcome, maxRetries: int, markdown: string, attempt: int, i: nat)
    requires PromptsShape(ps, calls, maxRetries, markdown, attempt)
    requires i < |ps|
    ensures ps[i] == if i == 0 then Initial(markdown) else Corrective(Feedback(calls(i - 1)), markdown)
  {
    var first := FirstChain(calls, maxRetries, markdown, attempt);
    if !ChainStarts(calls, maxRetries, attempt) {
      assert ps == [Initial(markdown)];
    } else if !SecondChainStarts(calls, maxRetries, markdown, attempt) {
      assert ps == [Initial(markdown)] + first.prompts + [];
      if i > 0 {
        ChainPromptAt(ps, first.prompts, [], calls, maxRetries, markdown, attempt, i);
      }
    } else {
      var n := |first.prompts|;
      var errs2 := [ParseErrorLine(first.result.error.detail)];
      var second := Retry(calls, maxRetries, markdown, errs2, attempt + 1, 1 + n);
      assert ps == [Initial(markdown)] + first.prompts + second.prompts;
      if 0 < i <= n {
        ChainPromptAt(ps, first.prompts, second.prompts, calls, maxRetries, markdown, attempt, i);
      } else if i > n {
        SecondChainPromptAt(ps, first, second.prompts, calls, maxRetries, markdown, attempt, i);
      }
    }
  }

  /** A prompt of an extraction that falls in its second chain. */
  lemma SecondChainPromptAt(ps: seq<Prompt>, first: Run, secondPrompts: seq<Prompt>, calls: nat -> CallOutcome,
                            maxRetries: int, markdown: string, attempt: int, i: nat)
    requires first == FirstChain(calls, maxRetries, markdown, attempt)
    requires first.result.Failure? && first.result.error.DecodeError?
    requires secondPrompts == Retry(calls, maxRetries, markdown, [ParseErrorLine(first.result.error.detail)],
                                    attempt + 1, 1 + |first.prompts|).prompts
    requires ps == [Initial(markdown)] + first.prompts + secondPrompts
    requires |first.prompts| < i < |ps|
    ensures ps[i] == Corrective(Feedback(calls(i - 1)), markdown)
  {
    var n := |first.prompts|;
    var errs2 := [ParseErrorLine(first.result.error.detail)];
    assert ps[i] == secondPrompts[i - 1 - n];
    RetryPromptAt(calls, maxRetries, markdown, errs2, attempt + 1, 1 + n, i - 1 - n);
    RetryLastOutcome(calls, maxRetries, markdown, Feedback(calls(0)), attempt + 1, 1);
    ChainPromptIndex(secondPrompts[i - 1 - n], errs2, calls, markdown, 1 + n, i - 1 - n);
  }

  /** A prompt of an extraction that falls in its first chain. */
  lemma ChainPromptAt(ps: seq<Prompt>, firstPrompts: seq<Prompt>, tail: seq<Prompt>, calls: nat -> CallOutcome,
                      maxRetries: int, markdown: string, attempt: int, i: nat)
    requires firstPrompts == FirstChain(calls, maxRetries, markdown, attempt).prompts
    requires ps == [Initial(markdown)] + firstPrompts + tail
    requires 0 < i <= |firstPrompts|
    ensures ps[i] == Corrective(Feedback(calls(i - 1)), markdown)
  {
    assert ps[i] == firstPrompts[i - 1];
    RetryPromptAt(calls, maxRetries, markdown, Feedback(calls(0)), attempt + 1, 1, i - 1);
    ChainPromptIndex(firstPrompts[i - 1], Feedback(calls(0)), calls, markdown, 1, i - 1);
  }

  /** Prompt `j` of the chain that makes call `k` first, `k + j` counted from the start. */
  lemma ChainPromptIndex(q: Prompt, errors: seq<string>, calls: nat -> CallOutcome, markdown: string, k: nat, j: nat)
    requires k >= 1
    requires q == if j == 0 then Corrective(errors, markdown) else Corrective(Feedback(calls(k + j - 1)), markdown)
    requires j == 0 ==> errors == Feedback(calls(k - 1))
    ensures q == Corrective(Feedback(calls(k + j - 1)), markdown)
  {
  }

  /**
   * Every corrective prompt of an extraction lists the errors of the call
   * just before it: its validation errors, or the one JSON parsing error.
   */
  lemma ExtractFeedback(calls: nat -> CallOutcome, maxRetries: int, markdown: string, attempt: int)
    ensures var ps := Extract(calls, maxRetries, markdown, attempt).prompts;
      && ps != [] && ps[0] == Initial(markdown)
      && forall i :: 0 < i < |ps| ==> ps[i] == Corrective(Feedback(calls(i - 1)), markdown)
  {
    var ps := Extract(calls, maxRetries, markdown, attempt).prompts;
    ExtractPromptAt(calls, maxRetries, markdown, attempt, 0);
    forall i | 0 < i < |ps|
      ensures ps[i] == Corrective(Feedback(calls(i - 1)), markdown)
    {
      ExtractPromptAt(calls, maxRetries, markdown, attempt, i);
    }
  }

  // ---------------------------------------------------------------------
  // The corrective prompt's error list
  // ---------------------------------------------------------------------

  function Bullets(errors: seq<string>): (r: seq<string>)
    ensures |r| == |errors|
    ensures forall i :: 0 <= i < |errors| ==> r[i] == "- " + errors[i]
  {
    seq(|errors|, i requires 0 <= i < |errors| => "- " + errors[i])
  }

  /** The `error_message` block of the corrective prompt. */
  function ErrorMessage(errors: seq<string>): string {
    Join("\n", Bullets(errors))
  }

  /** Read back line by line, the error block holds one "- " line per error, in order. */
  lemma ErrorMessageLines(errors: seq<string>)
    requires errors != []
    requires forall e :: e in errors ==> '\n' !in e
    ensures Split(ErrorMessage(errors), '\n') == Bullets(errors)
  {
    var bs := Bullets(errors);
    forall i | 0 <= i < |bs|
      ensures '\n' !in bs[i]
    {
      assert errors[i] in errors;
      assert bs[i] == "- " + errors[i];
    }
    SplitJoin(bs, '\n');
  }
}
