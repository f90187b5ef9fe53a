# Motorsights EPC partbook automation — a verified model of its core

The system reads vehicle partbook PDFs and builds an Electronic Product
Catalog (EPC) from them. It does this in four stages:

- extracts categories and type categories (subtypes);
- validates what a language model produced, and re-prompts it when the output is malformed;
- submits the result in batches to the Motorsights EPC API, authenticating through Motorsights SSO;
- records which files were already processed.

This project models the deterministic logic around the PDF, model and HTTP
calls. Each of those calls is an oracle: a parameter that gives the reply of
each call.

One module models each source file. The shared modules are:

- `Wrappers`: Option and Result.
- `Text`: Python string methods. The whitespace set is that of `str.isspace`, the decimal digits are Unicode category Nd, `'\n'` is the only line break, and case mapping is ASCII.
- `JsonValue`: a JSON-like tree with Python truthiness.
- `Dedup`: the first-seen-order collector both extractors build with a `seen` dict.
- `Catalog`: the category and type-category records.

The modules that model the source files:

- `AxleDrive` (axle_drive_extractor.py):
  - the two title regular expressions, modelled position by position and proved to match what the engine matches, with `\d` as the Unicode decimal digits (category Nd, Unicode 15.0) and `\s` as the `str.isspace` set;
  - the ZIP sniff;
  - the vision and translation fall-backs;
  - the file-name-to-category lookup;
  - the extraction pipeline as a function, plus the source's two loops as methods proved equal to it.
- `EngineTransmission` (engine_transmission_extractor.py):
  - the bilingual engine-label splitter;
  - the engine page loop;
  - the table-of-contents text builder;
  - the `setdefault` post-processing;
  - the engine/transmission dispatcher.
- `PdfUtils` (pdf_utils.py): the two-byte `PK` check, the manifest check, and the fence remover of `parse_llm_json`. The axle extractor (lines 189-197 and 232-239) and `_parse_json_from_llm` carry inline copies of the same fence remover, so it is modelled once, here.
- `Sumopod` (sumopod_client.py):
  - the shape validator with its ordered error list;
  - the toggling fence parser of `_parse_json_response`;
  - the self-correcting retry, as recursive functions and a recursive method. The prompts of all model calls are recorded in call order.
- `MotorsightsEpc` (motorsights_epc_client.py):
  - the client class with its constructor check, the URL join, the 401 retry (which invalidates the auth client's cached token) and the `create_category` outcome mapping;
  - the `results` dict as a class whose lists the handler appends to;
  - both batch loops.
- `MotorsightsAuth` (motorsights_auth_client.py): the token cache as a class with `token` and `expiry` fields. The clock is an integer parameter counting seconds from `datetime.min`, so an expiry outside datetime's range (years 1 to 9999) is the `OverflowError` the addition raises.
- `PdfExtractor` (pdf_extractor.py): `ProcessedFilesTracker` as a class over the decoded log, and `process_pdf` together with the tracker. The file hash and the timestamp are parameters; a missing hash stands for a file that cannot be read.
- `EpcWebUi` (epc_web_ui.py): `allowed_file` and `_get_master_category_info`.

Where the code and its documentation disagree, the model follows the code:

- `_normalise_title` is not idempotent. A title with two continuation markers loses one per call (`AxleDrive.NormaliseNotIdempotent`).
- The docstring of `extract_engine_categories` shows English names that keep their comma. The code turns every comma into a word break (`EngineTransmission.EnglishHasNoComma`).
- The retry can make more model calls than `max_retries`. A JSON decode error that a nested retry raises is caught by the outer `except json.JSONDecodeError` of the same `try`, which starts a second chain (`Sumopod.MixedRepliesExceedMaxRetries`, `Sumopod.ExtractCallBound`).
- `is_processed` ignores the recorded success flag. A file whose submission failed is therefore skipped on the next run (`PdfExtractor.FailedSubmissionNotRetried`).

## Model

| member | source | states |
|---|---|---|
| AxleDrive.TablePrefixLength | axle_drive_extractor.py:62 | the text `_TABLE_PREFIX_RE` removes is a non-empty prefix of the title |
| AxleDrive.TablePrefixLongest | axle_drive_extractor.py:62 | the removed prefix matches `表1?\s*\d+\s*` (`\d` any Unicode decimal digit), and no longer prefix matches, so the backtracking choice between the two branches is the longest match; nothing is removed when no prefix matches |
| AxleDrive.SpacedNumberEndLongest | axle_drive_extractor.py:62 | the greedy scan for `\s*\d+\s*` finds a match, and every match at that position ends no later |
| AxleDrive.OneTakenReachesFarther | axle_drive_extractor.py:62 | after a leading '1', the branch that takes the optional '1' reaches no less far than the branch without it |
| AxleDrive.MarkerStopsAtText | axle_drive_extractor.py:62 | a table marker ends exactly at the first character that is neither whitespace nor a decimal digit of any script |
| AxleDrive.NumberedPrefixRemoved | axle_drive_extractor.py:62 | `表<d> ` in front of text that starts with neither whitespace nor a decimal digit is removed whole, for every numeral d in any decimal script |
| AxleDrive.StripContinuation | axle_drive_extractor.py:65 | the result is a prefix of the title; it is shorter only when a continuation marker with trailing whitespace ends the title there; it is unchanged only when no such marker exists |
| AxleDrive.ContinuationRemoved | axle_drive_extractor.py:65 | `(续)` or `（续）` at the end of a stripped title, in any bracket combination, is removed |
| AxleDrive.NormaliseTitle | axle_drive_extractor.py:68-73 | a normalised title never has leading or trailing whitespace |
| AxleDrive.NormaliseMarkedTitle | axle_drive_extractor.py:68-73 | `表<d> <title>(续)` normalises to the title, for any numeral d in any decimal script and either bracket style |
| AxleDrive.NormaliseMarkedNumber | axle_drive_extractor.py:68-73 | the same for a number written by `str(n)` |
| AxleDrive.FullwidthNumberRemoved | axle_drive_extractor.py:62 | `表１２ ABC（续）`, with fullwidth digits, normalises to `ABC` |
| AxleDrive.NoGlyphKeepsPrefix | axle_drive_extractor.py:68-73 | without the `表` glyph no prefix is removed, so a leading number is kept |
| AxleDrive.BlankTitle | axle_drive_extractor.py:68-73 | a whitespace-only title normalises to "" |
| AxleDrive.NormaliseRemovesOneMarker | axle_drive_extractor.py:71-72 | only one trailing continuation marker is removed per call |
| AxleDrive.NormaliseNotIdempotent | axle_drive_extractor.py:71-72 | with two markers the first call leaves one and a second call removes it, so normalisation is not idempotent |
| AxleDrive.NormaliseUnmarked | axle_drive_extractor.py:68-73 | a stripped title with neither marker comes back unchanged |
| AxleDrive.NormaliseNoMarkers | axle_drive_extractor.py:68-73 | "no markers here" is returned as it is |
| AxleDrive.NormaliseKeepsNumber | axle_drive_extractor.py:68-73 | "3 ABC" keeps its number |
| AxleDrive.IsZipPdf | axle_drive_extractor.py:80-87 | comparing the first two of four bytes read with "PK" agrees with the shared two-byte check, an unreadable file included |
| AxleDrive.TitleFromReply | axle_drive_extractor.py:186-201 | a failed vision call, or a reply that is not a JSON object, gives None; otherwise the result is the reply's "raw_title", None when absent |
| AxleDrive.IdentityTranslations | axle_drive_extractor.py:243 | the fallback list has one `{"cn": t, "en": t}` entry per title, in the same order |
| AxleDrive.TranslateTitles | axle_drive_extractor.py:204-243 | the model is called exactly when there are titles; no titles gives []; a failed call or a reply that is not an object gives the identity list; otherwise the reply's "translations", [] when absent |
| AxleDrive.EntryPairOfEntry | axle_drive_extractor.py:352 | a translation entry reads back as its (cn, en) pair |
| AxleDrive.IdentityTable | axle_drive_extractor.py:241-243 | the `cn_to_en` dict built from the fallback list maps exactly the titles, each to itself |
| AxleDrive.DataType | axle_drive_extractor.py:355-362 | one type category per title, in order, named in English by the table or else by the Chinese title, with description "" |
| AxleDrive.PathStem | axle_drive_extractor.py:263 | the stem of a path holds no '/' |
| AxleDrive.FilenameKey | axle_drive_extractor.py:263 | the lookup key holds neither '-' nor ' ' |
| AxleDrive.FirstTableMatch | axle_drive_extractor.py:264-266 | the result is the first table entry, in insertion order, whose key occurs in the name; None when no key occurs |
| AxleDrive.InferCategoryFromFilename | axle_drive_extractor.py:258-271 | the answer is Steering Axle exactly when a steering-axle key occurs and no drive-axle key does; otherwise it is Drive Axle, the default included |
| AxleDrive.ResolveCategoryNames | axle_drive_extractor.py:301-304 | a caller-supplied name wins, and only a missing half is taken from the file name |
| AxleDrive.PageList | axle_drive_extractor.py:315 | a manifest that is not an object fails; a missing "pages" gives no pages; a "pages" list gives its items |
| AxleDrive.TablePages | axle_drive_extractor.py:319 | the filter succeeds exactly when every page is an object, fails with a malformed page otherwise, and keeps exactly the pages whose `has_visual_content` is present and falsy |
| AxleDrive.TableIndices | axle_drive_extractor.py:319 | the positions of the table pages, strictly increasing, and every table page's position among them |
| AxleDrive.TablePagesInOrder | axle_drive_extractor.py:319 | the k-th page kept is the page at the k-th table position: an in-order filter that keeps order and repetitions |
| AxleDrive.PageTitle | axle_drive_extractor.py:324-339 | an image entry that is not a dict or a truthy non-string path is a malformed page; a falsy path, a failed vision call or a falsy title gives ""; a missing image is unreadable; a truthy non-string title fails; a non-empty string title gives its normalised form, which is stripped |
| AxleDrive.PageResults | axle_drive_extractor.py:324-339 | one outcome per table page, in page order |
| AxleDrive.AxleExtraction | axle_drive_extractor.py:296-373 | a non-ZIP input fails before any other work; a success is exactly one category, carrying the resolved names and description "" |
| AxleDrive.CollectUniqueTitles | axle_drive_extractor.py:323-347 | the page loop gives the distinct non-empty titles in first-seen order, or the error of the first page that raises |
| AxleDrive.BuildDataType | axle_drive_extractor.py:355-362 | the appending loop builds exactly the specified data type list |
| AxleDrive.ExtractAxleDriveCategories | axle_drive_extractor.py:296-379 | the extractor, run loop by loop, returns exactly what the extraction function specifies |
| AxleDrive.ExtractionDataType | axle_drive_extractor.py:347-362 | a successful extraction's subtypes are the data type of the distinct page titles under the translation table |
| AxleDrive.SubtypesOfTitles | axle_drive_extractor.py:341-362 | each subtype has a non-empty title that occurs on some page, with description ""; every non-empty page title has a subtype; no title appears twice; subtypes follow first appearance |
| AxleDrive.AxleSubtypes | axle_drive_extractor.py:323-373 | a successful extraction's subtypes are the distinct non-empty page titles, once each and in first-seen order |
| AxleDrive.TranslationFailureKeepsChinese | axle_drive_extractor.py:351-357 | when the translation call fails, every subtype's English name is its Chinese title |
| AxleDrive.DuplicateTitlesCollapse | axle_drive_extractor.py:341-362 | when every titled page has the same title, the category has exactly that one subtype |
| Dedup.UniqueNonEmptyMembers | axle_drive_extractor.py:341-347 | the collector keeps exactly the distinct non-empty values, each once |
| Dedup.UniqueNonEmptyOrder | engine_transmission_extractor.py:165-167 | the collector's output follows the first occurrence of each value in the input |
| Dedup.UniqueNonEmptySingle | axle_drive_extractor.py:341-347 | with a single non-empty value, the result is that value when it occurs and [] otherwise |
| Dedup.FirstSeenOrderExample | engine_transmission_extractor.py:151-167 | ["", "A", "B", "A", "", "C", "B"] gives ["A", "B", "C"] |
| EngineTransmission.FindTransition | engine_transmission_extractor.py:110 | the leftmost position at which a U+4E00..U+9FFF character is followed by a 0x21..0x7E character; None when there is none |
| EngineTransmission.CapitalizeAll | engine_transmission_extractor.py:126 | each word is capitalised and the order is kept |
| EngineTransmission.EnglishHasNoComma | engine_transmission_extractor.py:125-126 | the normalised English name contains no comma |
| EngineTransmission.EnglishWords | engine_transmission_extractor.py:125-126 | split at its spaces, the English name is the capitalised words of the raw half, with commas read as spaces |
| EngineTransmission.SplitEngineLabelSpec | engine_transmission_extractor.py:105-132 | a label splits exactly when it is not blank, and the description is always "" |
| EngineTransmission.SplitWithoutTransition | engine_transmission_extractor.py:111-117 | without a transition the whole stripped label is the English name, uncapitalised, and the Chinese name is "" |
| EngineTransmission.SplitAtTransition | engine_transmission_extractor.py:110-126 | at a transition the Chinese name is the stripped label up to and including the CJK character of the leftmost transition; the English name has no comma |
| EngineTransmission.StripAll | engine_transmission_extractor.py:160 | each line is stripped, in order |
| EngineTransmission.NonEmpty | engine_transmission_extractor.py:160 | the filter keeps only non-empty lines of the input |
| EngineTransmission.NonEmptyLast | engine_transmission_extractor.py:160-163 | the filter is non-empty exactly when some line is, and its last element is a line after which every line is empty |
| EngineTransmission.PageLabelIsLastLine | engine_transmission_extractor.py:155-163 | a page's label is "" exactly when every line of the stripped crop is blank; otherwise it is stripped and is the last non-blank stripped line |
| EngineTransmission.PageLabels | engine_transmission_extractor.py:154-163 | one label per page, in page order |
| EngineTransmission.SplitAll | engine_transmission_extractor.py:177-181 | one split per label, in order |
| EngineTransmission.EngineOneCategoryPerLabel | engine_transmission_extractor.py:150-183 | the engine result has exactly one category per distinct non-blank page label, in first-seen order, each the split of its label |
| EngineTransmission.ExtractEngineCategories | engine_transmission_extractor.py:150-183 | the two loops over `seen`/`raw_labels` and the split compute exactly the specified category list |
| EngineTransmission.SplitLabels | engine_transmission_extractor.py:177-181 | the appending loop keeps the split of each label, in order |
| EngineTransmission.PageBlock | engine_transmission_extractor.py:236 | every block starts with its "--- Page " header |
| EngineTransmission.PageBlockShape | engine_transmission_extractor.py:236 | a block is "--- Page ", the 1-based page number, " ---" and a newline, followed by the page text |
| EngineTransmission.Blocks | engine_transmission_extractor.py:232-236 | at most one block per page, each starting with its header |
| EngineTransmission.NonBlankPages | engine_transmission_extractor.py:233-236 | the indices of the non-blank pages, strictly increasing, and every non-blank page's index among them |
| EngineTransmission.BlocksArePages | engine_transmission_extractor.py:232-239 | the k-th block is the block of the k-th non-blank page: one block per non-blank page, in page order, none for a blank page |
| EngineTransmission.BlocksEmpty | engine_transmission_extractor.py:232-236 | there is no block exactly when every page read is blank |
| EngineTransmission.PagesToRead | engine_transmission_extractor.py:229-230 | min(max_toc_pages, page count), and no pages for a negative count |
| EngineTransmission.TocBlankIff | engine_transmission_extractor.py:228-239 | the table-of-contents text is blank exactly when every page read is blank |
| EngineTransmission.BlocksSnoc | engine_transmission_extractor.py:233-236 | one more page adds its block exactly when its text is not blank |
| EngineTransmission.ExtractTocPagesText | engine_transmission_extractor.py:228-239 | the loop over the first pages builds exactly the specified text |
| EngineTransmission.WithDescription | engine_transmission_extractor.py:303 | `setdefault` adds the description key with "" only when it is missing and changes no other field |
| EngineTransmission.WithDescriptions | engine_transmission_extractor.py:302-303 | the loop succeeds exactly when every category is an object, and gives each category with its default description |
| EngineTransmission.PostProcess | engine_transmission_extractor.py:302-303 | a success keeps every key and every other field, and the listed categories receive the default; a failure is the malformed-categories error |
| EngineTransmission.TransmissionExtraction | engine_transmission_extractor.py:266-310 | a blank table of contents fails before any model call; a failed call fails; a success is the post-processing of the parsed reply |
| EngineTransmission.SetDefaultDescriptions | engine_transmission_extractor.py:302-303 | the in-place loop computes exactly the specified defaults |
| EngineTransmission.NoObjectNoDescriptions | engine_transmission_extractor.py:302-303 | a single category that is not an object makes the loop raise |
| EngineTransmission.PostProcessReply | engine_transmission_extractor.py:299-310 | the in-place post-processing equals the specified one |
| EngineTransmission.ExtractTransmissionCategories | engine_transmission_extractor.py:266-310 | the transmission extractor, run step by step, equals the specification |
| EngineTransmission.CategoriesJson | engine_transmission_extractor.py:183 | `{"categories": [...]}` holds one entry per category |
| EngineTransmission.EngineOrTransmission | engine_transmission_extractor.py:336-354 | after lowering and stripping, "engine" never needs a client; "transmission" fails exactly when no client is given; every other type fails |
| EngineTransmission.ExtractEngineOrTransmission | engine_transmission_extractor.py:336-354 | the dispatcher, calling both extractors, equals the specification |
| PdfUtils.ReadPrefix | pdf_utils.py:19 | `f.read(n)` gives the first min(n, size) bytes of the file |
| PdfUtils.IsZipPdf | pdf_utils.py:15-22 | true exactly when the file is readable, has at least two bytes, and starts 0x50 0x4B; an unreadable file gives false |
| PdfUtils.LittleEndian32 | pdf_utils.py:19 | a 32-bit signature as it is laid out on disk is four bytes |
| PdfUtils.ZipArchiveDetected | pdf_utils.py:15-19 | every file that starts with the ZIP local file header signature 0x04034b50 (section 4.3.7 of PKWARE's APPNOTE.TXT) is detected |
| PdfUtils.PdfHeaderNotZip | pdf_utils.py:15-19 | a file that starts with "%PDF" is not taken for ZIP |
| PdfUtils.ExtractZipPdf | pdf_utils.py:25-34 | an unopenable archive fails; a missing manifest.json fails with the not-found error exactly when the archive opens; a success is the decoded manifest |
| PdfUtils.KeepNonFenceDropsFences | pdf_utils.py:62-63 | no line whose stripped form starts with a fence survives the filter |
| PdfUtils.KeepNonFenceAppend | pdf_utils.py:62-63 | the filter works line by line, keeping the order |
| PdfUtils.ParseLlmJson | pdf_utils.py:58-65 | what `json.loads` receives is the fence-stripped text, which is stripped and never starts with a fence; a stripped reply that does not start with a fence is parsed as it is |
| PdfUtils.UnfencedPassThrough | pdf_utils.py:60-61 | a reply that does not start with a fence is passed on stripped and otherwise unchanged |
| PdfUtils.FenceLineByTrimLeft | pdf_utils.py:63 | a line is a fence line exactly when its left-trimmed form starts with a fence |
| PdfUtils.JoinedNonFenceLines | pdf_utils.py:62-64 | joining lines none of which is a fence line never gives text that starts with a fence |
| PdfUtils.StripLlmFencesShape | pdf_utils.py:60-64 | fence stripping gives stripped text that never starts with a fence |
| PdfUtils.StripLlmFencesIdempotent | pdf_utils.py:60-64 | a second pass of fence stripping changes nothing |
| PdfUtils.OpeningFenceLine | pdf_utils.py:61-63 | an opening fence with any language tag is a fence line |
| PdfUtils.FencedLines | pdf_utils.py:61-62 | the lines of a fenced reply read back from its joined text |
| PdfUtils.DropOuterFences | pdf_utils.py:62-63 | the filter drops the opening and the closing fence around a body |
| PdfUtils.FencedRoundTrip | pdf_utils.py:60-64 | an opening fence with a tag, a body of non-fence lines and a closing fence give the stripped body |
| Sumopod.SubcategoryError | sumopod_client.py:270-276 | a subcategory gives at most one error, tagged with its category |
| Sumopod.SubcategoryErrors | sumopod_client.py:269-276 | at most one error per subcategory, none of them a stop error |
| Sumopod.CategoryErrors | sumopod_client.py:254-276 | the errors of one category all carry its index and none is a stop error |
| Sumopod.ValidateExtractedData | sumopod_client.py:227-281 | the nested loops build exactly the specified error list, and `valid` holds exactly when it is empty |
| Sumopod.ValidateCategory | sumopod_client.py:255-276 | one category's body of the outer loop gives its specified errors |
| Sumopod.ValidateSubcategories | sumopod_client.py:269-276 | the inner loop gives the specified subcategory errors |
| Sumopod.SubcategoryErrorsEmpty | sumopod_client.py:269-276 | no subcategory error exactly when every subcategory is an object with `subcategory_name_en` |
| Sumopod.CategoryErrorsEmpty | sumopod_client.py:255-276 | a category has no error exactly when it is well formed |
| Sumopod.CategoryListErrorsEmpty | sumopod_client.py:254-276 | the category loop reports nothing exactly when every category is well formed |
| Sumopod.ValidIffWellFormed | sumopod_client.py:227-281 | the validator accepts exactly the well-formed trees |
| Sumopod.StopErrorsAlone | sumopod_client.py:237-251 | a non-dict root, a missing or non-list `categories`, or an empty list each give exactly one error and stop |
| Sumopod.CategoryErrorsInRange | sumopod_client.py:254-276 | past the stop checks, every error names a category of the list |
| Sumopod.CategoryErrorsInOrder | sumopod_client.py:254-276 | errors come in category index order |
| Sumopod.OtherCategoryFieldsIgnored | sumopod_client.py:260-266 | fields other than `category_name_en` and `subcategories` never change a category's errors |
| Sumopod.OtherSubcategoryFieldsIgnored | sumopod_client.py:275-276 | fields other than `subcategory_name_en` (the code, the Chinese name) never change a subcategory's error |
| Sumopod.NonFence | sumopod_client.py:220-221 | keeps only lines of the input that do not start with a fence |
| Sumopod.ParseJsonResponse | sumopod_client.py:208-225 | text that does not start with a fence is handed to `json.loads` unchanged |
| Sumopod.ParseJsonResponseText | sumopod_client.py:211-223 | the toggling loop computes exactly the specified text |
| Sumopod.KeptHasNoFence | sumopod_client.py:216-219 | no collected line starts with a fence |
| Sumopod.InBlockIffOddFences | sumopod_client.py:216-218 | the loop is inside a block exactly when it has seen an odd number of fence lines |
| Sumopod.KeepAfterCollected | sumopod_client.py:220-221 | once something was collected, every later non-fence line is kept, inside a block or not |
| Sumopod.TrailingTextKept | sumopod_client.py:211-223 | text after the closing fence survives, because something was collected before it |
| Sumopod.OutcomeSpec | sumopod_client.py:169-180 | a call counts as valid only with a well-formed tree, and as invalid only with at least one error |
| Sumopod.ModelOutcomesValid | sumopod_client.py:176-180 | every valid outcome of the stubbed model carries a well-formed tree |
| Sumopod.CallModel | sumopod_client.py:158-176 | one call: the reply, fence removal, `json.loads` and the validator give the specified outcome |
| Sumopod.RetryWithCorrection | sumopod_client.py:283-333 | the recursive retry returns, and prompts, exactly as the retry specification over the call outcomes |
| Sumopod.ExtractCatalogData | sumopod_client.py:140-206 | the extraction returns, and prompts, exactly as the extraction specification over the call outcomes |
| Sumopod.RetrySuccessValid | sumopod_client.py:316-320 | a retry chain returns only data that some call of it validated |
| Sumopod.ExtractSuccessValid | sumopod_client.py:176-180 | whatever the extraction returns has passed the validator |
| Sumopod.RetryAllInvalid | sumopod_client.py:316-329 | when every reply parses and fails validation, a chain makes one call per remaining attempt and ends with the max-retries error |
| Sumopod.AllInvalidCalls | sumopod_client.py:176-191 | when every reply parses and fails validation, exactly max(1, max_retries) calls are made, then the max-retries error |
| Sumopod.AllUnparseableCalls | sumopod_client.py:193-202 | when no reply parses: with max_retries < 2, one call and the max-retries error; otherwise the decode error of the second call escapes after exactly two calls |
| Sumopod.MixedRepliesExceedMaxRetries | sumopod_client.py:183-202 | one invalid reply then unparseable ones make three calls with max_retries = 2 |
| Sumopod.RetryCallBound | sumopod_client.py:322-329 | a chain makes at least one call and at most one per remaining attempt |
| Sumopod.ExtractCallBound | sumopod_client.py:183-202 | an extraction makes at most 2 * max_retries - 1 calls: the first, then at most two chains |
| Sumopod.RetryPromptAt | sumopod_client.py:287-299 | a chain's first prompt carries the errors it was given; each later prompt carries the errors of the call before it |
| Sumopod.RetryLastOutcome | sumopod_client.py:312-333 | a chain that ends in a decode error ends with the call whose reply did not parse |
| Sumopod.ExtractPromptAt | sumopod_client.py:155-198 | prompt i of an extraction is the initial prompt for i = 0, and otherwise the corrective prompt for the errors of call i - 1 |
| Sumopod.ExtractFeedback | sumopod_client.py:183-202 | every corrective prompt of an extraction lists the errors of the call just before it |
| Sumopod.Bullets | sumopod_client.py:287 | one "- " line per error, in order |
| Sumopod.ErrorMessageLines | sumopod_client.py:287-289 | read back line by line, the error block is one "- " line per error, in order |
| MotorsightsEpc.OneSlashAtJoin | motorsights_epc_client.py:94 | the URL is the stripped base, one '/', and the endpoint without leading slashes, so exactly one slash is at the join |
| MotorsightsEpc.RetryOnce | motorsights_epc_client.py:62-71 | on a 401 with an auth client the second call's result is returned; otherwise the first, whatever a second call would give; a final 401 means there is no auth client or the retry got a 401 as well |
| MotorsightsEpc.ApiRequest | motorsights_epc_client.py:96-110 | a request that fails returns no body |
| MotorsightsEpc.ApiRetryIsFreshRequest | motorsights_epc_client.py:62-110 | after a 401 the request is answered as a fresh request without an auth client that gets the second reply; a second 401 returns (False, None) |
| MotorsightsEpc.ApiNoRetryIgnoresSecond | motorsights_epc_client.py:62-110 | without a retry the second reply has no effect on the outcome |
| MotorsightsEpc.TypeCategoryOutcome | motorsights_epc_client.py:132-142 | a failure passes through; an HTTP success whose non-empty body has a falsy `success` becomes a failure; a success is the unchanged outcome with an object body |
| MotorsightsEpc.CategoryCall | motorsights_epc_client.py:165-185 | a skip is a success whose body carries the request as "data"; every returned body is an object |
| MotorsightsEpc.CreateCategory | motorsights_epc_client.py:154-193 | a skip is always a success, and a success always has an object response |
| MotorsightsEpc.CreateCategoryOutcomes | motorsights_epc_client.py:163-193 | a 409 with a dict body gives (True, {skipped: True, message: the body's "message" or "Conflict", data}, True), and one with another body raises; a connection failure or another HTTP error gives (False, None, False); a 2xx whose `success` is falsy gives (False, body, False) |
| MotorsightsEpc.CreateRetryIsFreshRequest | motorsights_epc_client.py:62-193 | `create_category` after a 401 is the call a client without an auth client makes with the second reply |
| MotorsightsEpc.Handle | motorsights_epc_client.py:217-244 | a skip appends {name_en, message} to skipped; a success appends the response's data to created and extends type_categories_created by its `data_type`; any other outcome appends {name_en, error} to errors, with "Unknown error" when there is no response; nothing else changes |
| MotorsightsEpc.ErrorEntries | motorsights_epc_client.py:236-244 | a missing or empty response records "Unknown error"; a non-empty dict records its "error" value, or None |
| MotorsightsEpc.BatchResults.constructor | motorsights_epc_client.py:209-215 | the results start with four empty lists |
| MotorsightsEpc.BatchResults.HandleCategoryResponse | motorsights_epc_client.py:217-244 | the in-place handler leaves the lists as specified, and raises exactly when the specification does |
| MotorsightsEpc.TypeCategoryRequest | motorsights_epc_client.py:263-268 | every nested type category carries exactly the three name and description keys |
| MotorsightsEpc.TypeCategoryRequestsSpec | motorsights_epc_client.py:263-270 | the comprehension succeeds exactly when every type category is a dict, and gives their requests in order |
| MotorsightsEpc.BuildRequestShape | motorsights_epc_client.py:272-282 | every request has the same six keys, the master category id and name, and the category's names defaulting to "" |
| MotorsightsEpc.FlatRequestDefaults | motorsights_epc_client.py:310-317 | a flat request always has an empty `data_type`, and its description defaults to "" |
| MotorsightsEpc.NestedRequestDefaults | motorsights_epc_client.py:263-282 | a nested request without a description gets "Category for <name_en>", and its type categories have the three keys |
| MotorsightsEpc.Step | motorsights_epc_client.py:262-288 | one iteration sends the built request, appended to the requests so far, and buckets one outcome |
| MotorsightsEpc.StepsNoneSticks | motorsights_epc_client.py:262-288 | once one iteration raises, the whole loop has raised |
| MotorsightsEpc.RunBatchSpec | motorsights_epc_client.py:257-291 | an empty master category id fails before any request; a finished batch reports success exactly when its error list is empty |
| MotorsightsEpc.StepsSendInOrder | motorsights_epc_client.py:262-288 | one request per category, in catalog order, each as built from its category |
| MotorsightsEpc.StepsBucketEach | motorsights_epc_client.py:262-288 | every category lands in exactly one of created, skipped and errors |
| MotorsightsEpc.BatchCallsAndBuckets | motorsights_epc_client.py:257-291 | a batch that returns made one `create_category` call per category, in order, and bucketed each |
| MotorsightsEpc.EpcClient.constructor | motorsights_epc_client.py:26-31 | the base URL loses its trailing slashes; the token and the auth client object are kept |
| MotorsightsEpc.EpcClient.Create | motorsights_epc_client.py:26-29 | construction succeeds exactly when a non-empty bearer token or an auth client is given |
| MotorsightsEpc.EpcClient.WithRetry | motorsights_epc_client.py:62-71 | a retry happens exactly on a 401 with an auth client, and returns the second result; a retry first invalidates the auth client's token and expiry; without one the auth client is unchanged |
| MotorsightsEpc.EpcClient.ApiRequestTo | motorsights_epc_client.py:77-110 | the request goes to the joined URL and returns the specified outcome |
| MotorsightsEpc.EpcClient.CreateTypeCategory | motorsights_epc_client.py:132-142 | `create_type_category` is its outcome mapping over `_api_request` |
| MotorsightsEpc.EpcClient.CreateCategoryCall | motorsights_epc_client.py:154-193 | `create_category` gives the specified outcome |
| MotorsightsEpc.EpcClient.CategoryStep | motorsights_epc_client.py:262-288 | one run of the loop body updates the results in place, and raises, exactly as the step specification |
| MotorsightsEpc.EpcClient.RunSteps | motorsights_epc_client.py:262-288 | the loop over the categories gives the loop specification, one category at a time |
| MotorsightsEpc.EpcClient.RunBatch | motorsights_epc_client.py:257-291 | the loop both batch functions share equals the batch specification |
| MotorsightsEpc.EpcClient.BatchCreateTypeCategoriesAndCategories | motorsights_epc_client.py:246-291 | the nested batch is the shared loop with nested requests |
| MotorsightsEpc.EpcClient.BatchCreateFlatCategories | motorsights_epc_client.py:293-326 | the flat batch is the shared loop with flat requests |
| MotorsightsAuth.FirstTruthy | motorsights_auth_client.py:82-87 | Python's `or` chain picks one of its operands, and a truthy one exactly when some operand is truthy |
| MotorsightsAuth.TokenFrom | motorsights_auth_client.py:82-89 | a token found is never empty |
| MotorsightsAuth.Fetch | motorsights_auth_client.py:58-105 | a fetch succeeds exactly when a token is found and `now` plus the lifetime is a valid datetime, and then stores the token and that expiry; any failure before the token is stored leaves the cache unchanged; a non-numeric lifetime or one past datetime's range stores the token and keeps the old expiry |
| MotorsightsAuth.AuthClient.constructor | motorsights_auth_client.py:25-35 | the gateway URL loses its trailing slashes; the cache starts empty |
| MotorsightsAuth.AuthClient.Create | motorsights_auth_client.py:25-28 | construction succeeds exactly when email and password are both non-empty; otherwise it fails with the credentials error |
| MotorsightsAuth.AuthClient.GetBearerToken | motorsights_auth_client.py:37-56 | a valid cached token is returned with the cache unchanged; otherwise the cache and the result are those of a fetch |
| MotorsightsAuth.AuthClient.FetchNewToken | motorsights_auth_client.py:58-105 | the fields are updated exactly as the specified fetch does |
| MotorsightsAuth.AuthClient.InvalidateToken | motorsights_auth_client.py:107-112 | token and expiry are cleared, so no later call uses the cache |
| MotorsightsAuth.GetBearerTokenOnce | motorsights_auth_client.py:115-123 | a missing credential fails; otherwise a new client always fetches |
| MotorsightsAuth.WhenFetched | motorsights_auth_client.py:48-56 | force-refresh, a missing token or expiry, or a reached expiry always fetch |
| MotorsightsAuth.FetchedTokenCached | motorsights_auth_client.py:91-96 | a token fetched at `now` with a lifetime of s seconds has `now + s` within datetime's range and is served from the cache exactly at times before `now + s` |
| MotorsightsAuth.ExpiryOverflowKeepsOldExpiry | motorsights_auth_client.py:95-96 | an expiry past datetime's range raises after the token is stored, so the new token is served only under the old expiry |
| MotorsightsAuth.TenThousandYearsOverflow | motorsights_auth_client.py:91-96 | an `expires_in` of ten thousand years overflows at any valid clock reading |
| MotorsightsAuth.DefaultLifetime | motorsights_auth_client.py:91-96 | a login reply without `expires_in` gives a token that expires 82800 seconds after `now` |
| MotorsightsAuth.FirstTruthyIsFirst | motorsights_auth_client.py:82-87 | the first truthy candidate wins |
| MotorsightsAuth.TokenSourceOrder | motorsights_auth_client.py:82-87 | the token is the first non-empty of oauth.sso_token, sso_token, token and access_token |
| MotorsightsAuth.NoTokenKeepsCache | motorsights_auth_client.py:88-89 | with no truthy candidate the fetch fails and the cache is untouched |
| MotorsightsAuth.ExpiresInRule | motorsights_auth_client.py:91-94 | the lifetime is a truthy nested value, else the top-level value, else 82800 seconds |
| PdfExtractor.LoadLog | pdf_extractor.py:58-67 | a missing, unreadable or corrupt log, or one that decodes to null, a number or a boolean, loads as `{}`; a dict, a list or a string loads as it is |
| PdfExtractor.Lookup | pdf_extractor.py:84-96 | a path counts as processed exactly when the file is readable, the log is a dict and the path's record is a dict whose "hash" is the current hash; an unreadable file raises; an unrecorded path in a dict log is not processed |
| PdfExtractor.Recorded | pdf_extractor.py:89-90 | on a dict the record of the path, if present; on a list or a string a path that the `in` test finds makes the subscript raise, and one it does not find is not recorded |
| PdfExtractor.Mark | pdf_extractor.py:98-106 | marking succeeds exactly when the file is readable and the log is a dict, and then sets that path's record and keeps every other entry |
| PdfExtractor.MarkedIsProcessed | pdf_extractor.py:89-106 | once marked, a success or a failure, an unchanged file is processed |
| PdfExtractor.ChangedIsNotProcessed | pdf_extractor.py:93-96 | a recorded path whose content changed is not processed |
| PdfExtractor.MarkLeavesOthers | pdf_extractor.py:98-106 | marking one path does not change the answer for any other path |
| PdfExtractor.NonDictLogNeverRecords | pdf_extractor.py:58-107 | a log that loads as a list or a string never reports a file processed, cannot be marked, and makes every `process_pdf` raise with the log unchanged |
| PdfExtractor.ProcessedFilesTracker.constructor | pdf_extractor.py:53-67 | the tracker starts with the loaded log |
| PdfExtractor.ProcessedFilesTracker.IsProcessed | pdf_extractor.py:84-96 | the method answers, or raises, as the lookup does |
| PdfExtractor.ProcessedFilesTracker.MarkProcessed | pdf_extractor.py:98-107 | the log becomes the marked log, or stays as it was when marking raises |
| PdfExtractor.Process | pdf_extractor.py:432-506 | the call raises, with the log unchanged, exactly when the file is unreadable or the log is not a dict; a processed file is skipped with success and the log unchanged; every other run records the file and leaves the other entries; success means skipped or completed |
| PdfExtractor.SecondRunSkipped | pdf_extractor.py:453-504 | after a first run that returns, a second run on unchanged content is skipped with success; after one that raises, the second raises too |
| PdfExtractor.FailedSubmissionNotRetried | pdf_extractor.py:492-495 | a failed submission is recorded as a failure, and the unchanged file is still skipped next time |
| PdfExtractor.PdfDataExtractor.constructor | pdf_extractor.py:413-416 | the extractor owns a new tracker over the loaded log |
| PdfExtractor.PdfDataExtractor.Fail | pdf_extractor.py:496-504 | the `except` branch records the error and the stage when it can mark the file, and otherwise raises out with the log unchanged |
| PdfExtractor.PdfDataExtractor.ProcessPdf | pdf_extractor.py:432-506 | processing stage by stage leaves the result, or the raise, and the tracker as specified |
| EpcWebUi.LastDot | epc_web_ui.py:77 | finds the last '.', and finds none exactly when there is no '.' |
| EpcWebUi.AllowedFileIff | epc_web_ui.py:76-77 | a name is allowed exactly when the text after its last '.', lowered, is "pdf" |
| EpcWebUi.NoDotRejected | epc_web_ui.py:77 | a name without '.' is never allowed |
| EpcWebUi.UpperCaseAllowed | epc_web_ui.py:77 | "A.PDF" is allowed |
| EpcWebUi.DoubleExtensionRejected | epc_web_ui.py:77 | "a.pdf.exe" is rejected |
| EpcWebUi.TrailingDotRejected | epc_web_ui.py:77 | "file." is rejected |
| EpcWebUi.FirstMatch | epc_web_ui.py:82-84 | the first entry whose non-empty id equals the argument, and none exactly when no entry matches |
| EpcWebUi.MasterCategoryInfoIsFirstMatch | epc_web_ui.py:80-85 | the result is the first matching entry, or `{name_en: "", partbook_type: "cabin_chassis"}` when none matches |
| EpcWebUi.EmptyIdGetsDefault | epc_web_ui.py:83-85 | an entry whose id is unset never matches, not even an empty argument |
| EpcWebUi.EachIdFindsItsEntry | epc_web_ui.py:37-62 | with every id set and distinct, each id finds its own entry |

## Left out

- The calls to the outside are oracles, given as parameters:
  - PyMuPDF text extraction, rendering and cropping, including the float crop ratios and the DPI matrix;
  - `pymupdf4llm.to_markdown`;
  - the OpenAI client calls and the prompt texts;
  - `json.loads`;
  - base64;
  - `zipfile.extractall`, modelled as a map from member names to contents;
  - HTTP requests and `raise_for_status`;
  - SHA-256 file hashing;
  - `datetime.now()`.
- The urllib3 retry and backoff of the EPC session, the auth client's lock, logging and `time.sleep` have no effect on the modelled values.
- The temporary directory and its removal in the axle extractor are filesystem work and are not modelled.
- `_save_log` writes to disk; the model keeps only the in-memory log.
- The Flask routes and the job store of the web UI are not part of this model. Neither are `web_ui.py`, `epc_automation.py`, `maia_router_client.py`, the `LLMExtractor` and `APISubmitter` of `pdf_extractor.py`, or the scripts. Those that repeat a modelled rule repeat it unchanged.
- The read-only EPC endpoints (`get_*`, `create_master_category`, `create_product`) only forward to `_api_request`, which is modelled once as `MotorsightsEpc.EpcClient.ApiRequestTo`.
- `process_directory` is a loop of `process_pdf` calls plus a summary log, and is not modelled.
- Python's full Unicode semantics of `strip`, `splitlines`, `lower` and `capitalize` are not modelled. Whitespace is the `str.isspace` set, the only line break is `'\n'`, and case mapping is ASCII.
- JSON numbers are integers. A float `expires_in` is not modelled.
- PdfExtractor.Process: `get_file_hash` is read once per call, for `is_processed` and both `mark_processed` calls alike. A file whose content or readability changes during one call is not modelled.
- PyMuPDF's own failures to open or read a PDF on the engine, transmission and table-of-contents paths are not modelled. The page texts are given, so `fitz.open` and `get_text` always succeed in the model. The source lets those exceptions propagate to the caller.
- MotorsightsEpc.EpcClient.ApiRequestTo: the bearer token that `_get_headers` fetches on each attempt is not threaded through the auth client. Its failure is the `TokenFailed` reply among the given replies. The retry's `invalidate_token` is modelled, in `MotorsightsEpc.EpcClient.WithRetry`.
- AxleDrive.CnToEn: a translation entry whose "cn" or "en" is not a string counts as malformed. The source would accept any hashable value as a key.
- MotorsightsAuth.Fetch: the clock is whole seconds, so the microseconds of `datetime.now()` are dropped and the range test is to the second; a float `expires_in` is not modelled, as JSON numbers are integers here.
- MotorsightsAuth.TokenFrom: a truthy token that is not a string fails with the cache unchanged. The source would store it before the logging slice, which raises or passes depending on its type.
- MotorsightsEpc.Handle: a `data_type` that is not a list counts as a raise. The source's `extend` would accept any iterable, such as a string or a dict.
- MotorsightsEpc.BuildRequest: the default "Category for …" description writes a list or dict `category_name_en` as "". Python would print its `str()`.
- Sumopod.ExtractCatalogData: the `ValueError` texts ("Max retries reached …") are modelled as error values, not as strings.
- EPC client: a body that `resp.json()` cannot decode is modelled as a request failure. The source treats it the same way, because that decode error is a `RequestException`.
