/**
 * The idempotency bookkeeping of the PDF pipeline: the processed-files
 * tracker and how `process_pdf` consults and updates it.
 *
 * A file is identified by `str(filepath)` and its content by a hash; both
 * are parameters, as are the clock and what each pipeline stage returns.
 */
module PdfExtractor {
  import opened Wrappers
  import opened Text
  import opened JsonValue

  // ---------------------------------------------------------------------
  // The tracker as values
  // ---------------------------------------------------------------------

  /** What `_load_log` finds on disk: no file, a file that cannot be read or decoded, or the decoded JSON value. */
  datatype LogFile = Missing | Unreadable | Loaded(content: Json)

  /** Python's `len()` is defined for the value: a list, a string or a dict. */
  predicate HasLen(j: Json) {
    j.JArr? || j.JStr? || j.JObj?
  }

  const EmptyLog: Json := JObj(map[])

  /**
   * `_load_log`. Whatever `json.load` returns is assigned as it is; the
   * `len()` of the log line after it raises for null, a number or a
   * boolean, and the `except` then resets it to `{}`, as it does for a
   * file that cannot be read or decoded. A list or a string stays.
   */
  function LoadLog(log: LogFile): (r: Json)
    ensures HasLen(r)
    ensures log.Loaded? && HasLen(log.content) ==> r == log.content
    ensures !(log.Loaded? && HasLen(log.content)) ==> r == EmptyLog
  {
    match log
    case Loaded(j) => if HasLen(j) then j else EmptyLog
    case _ => EmptyLog
  }

  /** The record `mark_processed` stores; `details or {}` is an empty dict when none is given. */
  function Record(fileHash: string, timestamp: string, success: bool, details: map<string, Json>): Json {
    JObj(map["hash" := JStr(fileHash), "timestamp" := JStr(timestamp), "success" := JBool(success), "details" := JObj(details)])
  }

  /**
   * `filename in processed_files` followed by `processed_files[filename]`:
   * on a list the test compares elements, on a string it looks for a
   * substring, and in both cases the subscript then raises (`None`).
   */
  function Recorded(files: Json, filename: string): (r: Option<Option<Json>>)
    ensures files.JObj? ==> r == Some(if filename in files.fields then Some(files.fields[filename]) else None)
    ensures files.JArr? ==> (r.Some? <==> JStr(filename) !in files.items)
    ensures files.JStr? ==> (r.Some? <==> !Contains(files.s, filename))
    ensures r.Some? && !files.JObj? ==> r.value.None?
  {
    match files
    case JObj(m) => Some(if filename in m then Some(m[filename]) else None)
    case JArr(items) => if JStr(filename) in items then None else Some(None)
    case JStr(s) => if Contains(s, filename) then None else Some(None)
    case _ => None
  }

  /**
   * `is_processed`: whether the path is recorded with the current hash.
   * `fileHash` is `None` when the file cannot be read, which raises before
   * the log is consulted; `None` is also the exception of a subscript
   * that is not allowed and of `.get` on a record that is not a dict.
   */
  function Lookup(files: Json, filename: string, fileHash: Option<string>): (r: Option<bool>)
    ensures fileHash.None? ==> r.None?
    ensures files.JObj? && fileHash.Some? && filename !in files.fields ==> r == Some(false)
    ensures r == Some(true) <==> fileHash.Some? && files.JObj? && filename in files.fields && files.fields[filename].JObj?
                                 && Get(files.fields[filename].fields, "hash", JNull) == JStr(fileHash.value)
  {
    if fileHash.None? then None
    else
      match Recorded(files, filename)
      case None => None
      case Some(None) => Some(false)
      case Some(Some(record)) =>
        if !record.JObj? then None
        else Some(Get(record.fields, "hash", JNull) == JStr(fileHash.value))
  }

  /** Python's type name of a decoded JSON value. */
  function TypeName(j: Json): string {
    match j
    case JNull => "NoneType"
    case JBool(_) => "bool"
    case JNum(_) => "int"
    case JStr(_) => "str"
    case JArr(_) => "list"
    case JObj(_) => "dict"
  }

  /** The message of the AttributeError raised by `record.get`. */
  function NoGetMessage(record: Json): string {
    "'" + TypeName(record) + "' object has no attribute 'get'"
  }

  /** The dict log with one path's record overwritten. */
  function Stored(files: map<string, Json>, filename: string, fileHash: string, timestamp: string,
                  success: bool, details: map<string, Json>): Json {
    JObj(files[filename := Record(fileHash, timestamp, success, details)])
  }

  /**
   * `mark_processed` on the log: the record, hash included, is built
   * before it is stored, so an unreadable file raises first; storing under
   * a string key raises for anything but a dict. Otherwise that path's
   * entry is overwritten.
   */
  function Mark(files: Json, filename: string, fileHash: Option<string>, timestamp: string,
                success: bool, details: map<string, Json>): (r: Option<Json>)
    ensures r.Some? <==> fileHash.Some? && files.JObj?
    ensures r.Some? ==> r.value.JObj? && r.value.fields.Keys == files.fields.Keys + {filename}
    ensures r.Some? ==> r.value.fields[filename] == Record(fileHash.value, timestamp, success, details)
    ensures r.Some? ==> forall other :: other in files.fields && other != filename ==> r.value.fields[other] == files.fields[other]
  {
    if fileHash.None? || !files.JObj? then None
    else Some(Stored(files.fields, filename, fileHash.value, timestamp, success, details))
  }

  /** A marked file with unchanged content is reported processed, whether it was marked a success or a failure. */
  lemma MarkedIsProcessed(files: Json, filename: string, fileHash: Option<string>, timestamp: string,
                          success: bool, details: map<string, Json>)
    requires Mark(files, filename, fileHash, timestamp, success, details).Some?
    ensures Lookup(Mark(files, filename, fileHash, timestamp, success, details).value, filename, fileHash) == Some(true)
  {
  }

  /** A recorded path whose content changed is not processed. */
  lemma ChangedIsNotProcessed(files: Json, filename: string, oldHash: string, newHash: string,
                              timestamp: string, success: bool, details: map<string, Json>)
    requires files.JObj? && oldHash != newHash
    ensures Lookup(Mark(files, filename, Some(oldHash), timestamp, success, details).value, filename, Some(newHash)) == Some(false)
  {
  }

  /** Marking one path does not change what any other path looks up to. */
  lemma MarkLeavesOthers(files: Json, filename: string, fileHash: Option<string>, timestamp: string,
                         success: bool, details: map<string, Json>, other: string, otherHash: Option<string>)
    requires other != filename && Mark(files, filename, fileHash, timestamp, success, details).Some?
    ensures Lookup(Mark(files, filename, fileHash, timestamp, success, details).value, other, otherHash)
         == Lookup(files, other, otherHash)
  {
  }

  // ---------------------------------------------------------------------
  // The tracker as an object
  // ---------------------------------------------------------------------

  class ProcessedFilesTracker {
    var processedFiles: Json

    /** `__init__` with `_load_log`. */
    constructor (log: LogFile)
      ensures processedFiles == LoadLog(log)
    {
      processedFiles := EmptyLog;
      if log.Loaded? {
        var content := log.content;
        if content.JArr? || content.JStr? || content.JObj? {
          processedFiles := content;
        }
      }
    }

    /** `is_processed`; `None` when it raises. */
    method IsProcessed(filename: string, fileHash: Option<string>) returns (r: Option<bool>)
      ensures r == Lookup(processedFiles, filename, fileHash)
    {
      if fileHash.None? {
        return None;
      }
      var record: Json;
      match processedFiles {
        case JObj(m) =>
          if filename !in m {
            return Some(false);
          }
          record := m[filename];
        case JArr(items) =>
          return if JStr(filename) in items then None else Some(false);
        case JStr(s) =>
          return if Contains(s, filename) then None else Some(false);
        case _ =>
          return None;
      }
      if !record.JObj? {
        return None;
      }
      r := Some(Get(record.fields, "hash", JNull) == JStr(fileHash.value));
    }

    /** `mark_processed`; `ok` is false when it raises, and then nothing changes. Saving the log to disk is not modelled. */
    method MarkProcessed(filename: string, fileHash: Option<string>, timestamp: string, success: bool,
                         details: map<string, Json>) returns (ok: bool)
      modifies this
      ensures ok == Mark(old(processedFiles), filename, fileHash, timestamp, success, details).Some?
      ensures ok ==> processedFiles == Mark(old(processedFiles), filename, fileHash, timestamp, success, details).value
      ensures !ok ==> processedFiles == old(processedFiles)
    {
      if fileHash.None? || !processedFiles.JObj? {
        return false;
      }
      var record := Record(fileHash.value, timestamp, success, details);
      processedFiles := JObj(processedFiles.fields[filename := record]);
      ok := true;
    }
  }

  // ---------------------------------------------------------------------
  // process_pdf
  // ---------------------------------------------------------------------

  datatype Stage = Skipped | PdfConversion | LlmExtraction | ApiSubmission | Completed

  function StageName(s: Option<Stage>): Json {
    match s
    case None => JNull
    case Some(Skipped) => JStr("skipped")
    case Some(PdfConversion) => JStr("pdf_conversion")
    case Some(LlmExtraction) => JStr("llm_extraction")
    case Some(ApiSubmission) => JStr("api_submission")
    case Some(Completed) => JStr("completed")
  }

  /**
   * What the stages return: the markdown of the PDF, the extracted data and
   * the API's answer, where `Failure(m)` is an exception whose `str()` is `m`.
   */
  datatype Stages = Stages(conversion: Result<string, string>,
                           extraction: Result<map<string, Json>, string>,
                           submission: (bool, Option<Json>))

  /** The result dict; `apiResponse` is the `api_response` key only a completed run has. */
  datatype ProcessResult = ProcessResult(filename: string, success: bool, stage: Option<Stage>,
                                         error: Option<string>, data: Option<Json>, apiResponse: Option<Option<Json>>)

  /**
   * The result and the tracker's new log; `result` is `None` when an
   * exception escapes `process_pdf`, which happens when its `except`
   * branch's own `mark_processed` raises.
   */
  datatype Processed = Processed(result: Option<ProcessResult>, files: Json)

  const AlreadyProcessed := "Already processed (idempotency check)"
  const SubmissionFailed := "API submission failed"

  function ApiDetails(response: Option<Json>): map<string, Json> {
    map["api_response" := if response.Some? then response.value else JNull]
  }

  function ErrorDetails(message: string, stage: Option<Stage>): map<string, Json> {
    map["error" := JStr(message), "stage" := StageName(stage)]
  }

  /** The `except` branch on a dict log and a readable file: the failure is recorded with the stage it happened at. */
  function Raised(files: map<string, Json>, filename: string, fileHash: string, now: string,
                  r: ProcessResult, message: string): Processed {
    Processed(Some(r.(error := Some(message))), Stored(files, filename, fileHash, now, false, ErrorDetails(message, r.stage)))
  }

  /**
   * `process_pdf` on the tracker's log. `fileHash` is `None` when the file
   * cannot be read: `is_processed` then raises, and so does the
   * `mark_processed` of the `except` branch. On a log that is a list or a
   * string every path ends in a `mark_processed` that raises in the same way.
   */
  function Process(files: Json, filename: string, fileHash: Option<string>, now: string, stages: Stages): (p: Processed)
    ensures p.result.None? <==> fileHash.None? || !files.JObj?
    ensures p.result.None? ==> p.files == files
    ensures p.result.Some? ==> p.result.value.filename == filename
    ensures Lookup(files, filename, fileHash) == Some(true) ==>
      p.files == files && p.result == Some(ProcessResult(filename, true, Some(Skipped), Some(AlreadyProcessed), None, None))
    ensures p.result.Some? && Lookup(files, filename, fileHash) != Some(true) ==>
      p.result.value.stage != Some(Skipped) && p.files.JObj? && Lookup(p.files, filename, fileHash) == Some(true)
      && forall other :: other in files.fields && other != filename ==> other in p.files.fields && p.files.fields[other] == files.fields[other]
    ensures p.result.Some? ==> (p.result.value.success <==> p.result.value.stage == Some(Skipped) || p.result.value.stage == Some(Completed))
  {
    if fileHash.None? || !files.JObj? then Processed(None, files)
    else
      var m, h := files.fields, fileHash.value;
      var r0 := ProcessResult(filename, false, None, None, None, None);
      match Lookup(files, filename, fileHash)
      case None => Raised(m, filename, h, now, r0, NoGetMessage(m[filename]))
      case Some(true) => Processed(Some(r0.(stage := Some(Skipped), success := true, error := Some(AlreadyProcessed))), files)
      case Some(false) =>
        var r1 := r0.(stage := Some(PdfConversion));
        match stages.conversion
        case Failure(e) => Raised(m, filename, h, now, r1, e)
        case Success(_) =>
          var r2 := r1.(stage := Some(LlmExtraction));
          match stages.extraction
          case Failure(e) => Raised(m, filename, h, now, r2, e)
          case Success(data) =>
            var r3 := r2.(data := Some(JObj(data)), stage := Some(ApiSubmission));
            var (ok, response) := stages.submission;
            if ok then
              Processed(Some(r3.(success := true, stage := Some(Completed), apiResponse := Some(response))),
                        Stored(m, filename, h, now, true, ApiDetails(response)))
            else
              Processed(Some(r3.(error := Some(SubmissionFailed))), Stored(m, filename, h, now, false, map[]))
  }

  /**
   * Every run that returns leaves the file recorded, so a second run on
   * unchanged content is skipped; a run that raises leaves the log as it
   * was, and the next run raises too.
   */
  lemma SecondRunSkipped(files: Json, filename: string, fileHash: Option<string>, now: string, later: string,
                         first: Stages, second: Stages)
    ensures var p1 := Process(files, filename, fileHash, now, first);
      var p2 := Process(p1.files, filename, fileHash, later, second);
      && (p1.result.Some? ==> p2.result.Some? && p2.result.value.stage == Some(Skipped) && p2.result.value.success)
      && (p1.result.None? ==> p2.result.None?)
  {
    var p1 := Process(files, filename, fileHash, now, first);
    if p1.result.Some? {
      assert Lookup(p1.files, filename, fileHash) == Some(true);
    }
  }

  /** A failed submission is recorded as a failure and yet the unchanged file is skipped next time. */
  lemma FailedSubmissionNotRetried(files: Json, filename: string, fileHash: string, now: string,
                                   stages: Stages, later: string, again: Stages)
    requires files.JObj? && Lookup(files, filename, Some(fileHash)) == Some(false)
    requires stages.conversion.Success? && stages.extraction.Success? && !stages.submission.0
    ensures var p := Process(files, filename, Some(fileHash), now, stages);
      && p.result.Some? && !p.result.value.success && p.result.value.error == Some(SubmissionFailed)
      && p.files.JObj? && p.files.fields[filename] == Record(fileHash, now, false, map[])
      && Process(p.files, filename, Some(fileHash), later, again).result.value.stage == Some(Skipped)
  {
  }

  /**
   * A log that loads as a list or a string never reports a file processed,
   * can never be marked, and makes every `process_pdf` raise.
   */
  lemma NonDictLogNeverRecords(log: LogFile, filename: string, fileHash: Option<string>, now: string,
                               success: bool, details: map<string, Json>, stages: Stages)
    requires log.Loaded? && (log.content.JArr? || log.content.JStr?)
    ensures Lookup(LoadLog(log), filename, fileHash) != Some(true)
    ensures Mark(LoadLog(log), filename, fileHash, now, success, details).None?
    ensures Process(LoadLog(log), filename, fileHash, now, stages) == Processed(None, log.content)
  {
  }

  class PdfDataExtractor {
    const tracker: ProcessedFilesTracker

    constructor (log: LogFile)
      ensures fresh(tracker) && tracker.processedFiles == LoadLog(log)
    {
      tracker := new ProcessedFilesTracker(log);
    }

    /**
     * The `except` branch: `mark_processed` with the error and the stage;
     * when that raises as well the exception leaves `process_pdf` (`None`).
     */
    method Fail(filename: string, fileHash: Option<string>, now: string, r: ProcessResult, message: string)
      returns (result: Option<ProcessResult>)
      modifies tracker
      ensures fileHash.Some? && old(tracker.processedFiles).JObj? ==>
        result == Some(r.(error := Some(message)))
        && tracker.processedFiles == Stored(old(tracker.processedFiles).fields, filename, fileHash.value, now, false, ErrorDetails(message, r.stage))
      ensures !(fileHash.Some? && old(tracker.processedFiles).JObj?) ==> result.None? && tracker.processedFiles == old(tracker.processedFiles)
    {
      var ok := tracker.MarkProcessed(filename, fileHash, now, false, ErrorDetails(message, r.stage));
      result := if ok then Some(r.(error := Some(message))) else None;
    }

    /** `process_pdf`, consulting and updating the tracker. */
    method ProcessPdf(filename: string, fileHash: Option<string>, now: string, stages: Stages)
      returns (result: Option<ProcessResult>)
      modifies tracker
      ensures Processed(result, tracker.processedFiles) == Process(old(tracker.processedFiles), filename, fileHash, now, stages)
    {
      var r := ProcessResult(filename, false, None, None, None, None);
      var processed := tracker.IsProcessed(filename, fileHash);
      if processed.None? {
        if fileHash.Some? && tracker.processedFiles.JObj? {
          // a record without `.get`: the one cause `mark_processed` does not share
          result := Fail(filename, fileHash, now, r, NoGetMessage(tracker.processedFiles.fields[filename]));
        } else {
          result := Fail(filename, fileHash, now, r, "");
        }
        return;
      }
      if processed.value {
        return Some(r.(stage := Some(Skipped), success := true, error := Some(AlreadyProcessed)));
      }
      r := r.(stage := Some(PdfConversion));
      if stages.conversion.Failure? {
        result := Fail(filename, fileHash, now, r, stages.conversion.error);
        return;
      }
      r := r.(stage := Some(LlmExtraction));
      if stages.extraction.Failure? {
        result := Fail(filename, fileHash, now, r, stages.extraction.error);
        return;
      }
      r := r.(data := Some(JObj(stages.extraction.value)), stage := Some(ApiSubmission));
      var (ok, response) := stages.submission;
      var marked: bool;
      if ok {
        r := r.(success := true, stage := Some(Completed), apiResponse := Some(response));
        marked := tracker.MarkProcessed(filename, fileHash, now, true, ApiDetails(response));
      } else {
        r := r.(error := Some(SubmissionFailed));
        marked := tracker.MarkProcessed(filename, fileHash, now, false, map[]);
      }
      // a `mark_processed` that raises here raises again in the `except` branch
      result := if marked then Some(r) else None;
    }
  }
}
