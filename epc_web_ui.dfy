/**
 * The two pure helpers of the upload web UI: the file-extension filter and
 * the lookup of a master category's metadata by its id.
 */
module EpcWebUi {
  import opened Wrappers
  import opened Text

  // ---------------------------------------------------------------------
  // allowed_file
  // ---------------------------------------------------------------------

  const AllowedExtensions: set<string> := {"pdf"}

  /** The index of the last '.', as `rsplit(".", 1)` finds it. */
  function LastDot(s: string): (r: Option<nat>)
    ensures r.Some? ==> r.value < |s| && s[r.value] == '.' && '.' !in s[r.value + 1..]
    ensures r.None? <==> '.' !in s
    decreases |s|
  {
    if s == [] then None
    else if s[|s| - 1] == '.' then Some(|s| - 1)
    else
      var r := LastDot(s[..|s| - 1]);
      assert s == s[..|s| - 1] + [s[|s| - 1]];
      if r.Some? then
        assert s[r.value + 1..] == s[..|s| - 1][r.value + 1..] + [s[|s| - 1]];
        r
      else r
  }

  /** `"." in filename and filename.rsplit(".", 1)[1].lower() in ALLOWED_EXTENSIONS` */
  predicate AllowedFile(filename: string) {
    match LastDot(filename)
    case None => false
    case Some(i) => AllowedExtension(filename[i + 1..])
  }

  /** `ext.lower() in ALLOWED_EXTENSIONS` */
  predicate AllowedExtension(ext: string) {
    Lower(ext) in AllowedExtensions
  }

  /** `i` is the position of the last '.' in `s`. */
  predicate IsLastDot(s: string, i: int) {
    0 <= i < |s| && s[i] == '.' && '.' !in s[i + 1..]
  }

  lemma LastDotUnique(s: string, i: int)
    requires IsLastDot(s, i)
    ensures LastDot(s) == Some(i)
  {
    assert s[i] in s;
  }

  lemma AllowedFileFromLastDot(filename: string, i: int)
    requires IsLastDot(filename, i) && AllowedExtension(filename[i + 1..])
    ensures AllowedFile(filename)
  {
    LastDotUnique(filename, i);
  }

  /** Only the text after the last '.' counts, compared case-insensitively with "pdf". */
  lemma AllowedFileIff(filename: string)
    ensures AllowedFile(filename) <==>
      exists i :: IsLastDot(filename, i) && AllowedExtension(filename[i + 1..])
  {
    if AllowedFile(filename) {
      var j := LastDot(filename).value;
      assert IsLastDot(filename, j) && AllowedExtension(filename[j + 1..]);
    }
    forall i | IsLastDot(filename, i) && AllowedExtension(filename[i + 1..])
      ensures AllowedFile(filename)
    {
      AllowedFileFromLastDot(filename, i);
    }
  }

  /** A name without '.' is never allowed. */
  lemma NoDotRejected(filename: string)
    requires '.' !in filename
    ensures !AllowedFile(filename)
  {
  }

  /** Upper case passes: "A.PDF". */
  lemma UpperCaseAllowed()
    ensures AllowedFile("A.PDF")
  {
    assert LastDot("A.PDF") == Some(1) by {
      assert "A.PDF"[..4] == "A.PD";
      assert "A.PD"[..3] == "A.P";
      assert "A.P"[..2] == "A.";
    }
    assert "A.PDF"[2..] == "PDF";
    assert Lower("PDF") == "pdf";
  }

  /** A double extension fails: "a.pdf.exe". */
  lemma DoubleExtensionRejected()
    ensures !AllowedFile("a.pdf.exe")
  {
    assert LastDot("a.pdf.exe") == Some(5) by {
      assert "a.pdf.exe"[..8] == "a.pdf.ex";
      assert "a.pdf.ex"[..7] == "a.pdf.e";
      assert "a.pdf.e"[..6] == "a.pdf.";
    }
    assert "a.pdf.exe"[6..] == "exe";
    assert Lower("exe")[0] == 'e';
  }

  /** A trailing dot fails: "file.". */
  lemma TrailingDotRejected()
    ensures !AllowedFile("file.")
  {
    assert LastDot("file.") == Some(4);
    assert "file."[5..] == "";
  }

  // ---------------------------------------------------------------------
  // _get_master_category_info
  // ---------------------------------------------------------------------

  /** One entry of the master-category table; its id comes from the environment. */
  datatype MasterCategory = MasterCategory(id: string, nameEn: string, nameCn: string, partbookType: string)

  /** The table in its declaration order, given the four ids read from the environment ("" when unset). */
  function MasterCategories(transmissionId: string, cabinChassisId: string, engineId: string, axleId: string): seq<MasterCategory> {
    [MasterCategory(transmissionId, "Transmission", "变速器", "transmission"),
     MasterCategory(cabinChassisId, "Cabin & Chassis", "驾驶室和底盘", "cabin_chassis"),
     MasterCategory(engineId, "Engine", "发动机", "engine"),
     MasterCategory(axleId, "Axle", "车轴", "axle_drive")]
  }

  /** The dict a table entry is. */
  function AsDict(c: MasterCategory): map<string, string> {
    map["id" := c.id, "name_en" := c.nameEn, "name_cn" := c.nameCn, "partbook_type" := c.partbookType]
  }

  /** What is returned when no entry matches. */
  const DefaultInfo: map<string, string> := map["name_en" := "", "partbook_type" := "cabin_chassis"]

  predicate Matches(c: MasterCategory, masterCategoryId: string) {
    c.id != [] && c.id == masterCategoryId
  }

  /** The index of the first matching entry. */
  function FirstMatch(table: seq<MasterCategory>, masterCategoryId: string): (r: Option<nat>)
    ensures r.Some? ==> (r.value < |table| && Matches(table[r.value], masterCategoryId)
      && forall j :: 0 <= j < r.value ==> !Matches(table[j], masterCategoryId))
    ensures r.None? <==> forall j :: 0 <= j < |table| ==> !Matches(table[j], masterCategoryId)
    decreases |table|
  {
    if table == [] then None
    else if Matches(table[0], masterCategoryId) then Some(0)
    else
      var r := FirstMatch(table[1..], masterCategoryId);
      assert forall j :: 1 <= j < |table| ==> table[j] == table[1..][j - 1];
      if r.Some? then Some(r.value + 1) else None
  }

  function GetMasterCategoryInfo(table: seq<MasterCategory>, masterCategoryId: string): map<string, string> {
    match FirstMatch(table, masterCategoryId)
    case Some(i) => AsDict(table[i])
    case None => DefaultInfo
  }

  /** The first entry with a non-empty id equal to the argument, else the default. */
  lemma MasterCategoryInfoIsFirstMatch(table: seq<MasterCategory>, masterCategoryId: string)
    ensures forall i :: (0 <= i < |table| && Matches(table[i], masterCategoryId)
                         && forall j :: 0 <= j < i ==> !Matches(table[j], masterCategoryId)) ==>
      GetMasterCategoryInfo(table, masterCategoryId) == AsDict(table[i])
    ensures (forall j :: 0 <= j < |table| ==> !Matches(table[j], masterCategoryId)) ==>
      GetMasterCategoryInfo(table, masterCategoryId) == DefaultInfo
  {
    var r := FirstMatch(table, masterCategoryId);
    forall i | 0 <= i < |table| && Matches(table[i], masterCategoryId)
           && (forall j :: 0 <= j < i ==> !Matches(table[j], masterCategoryId))
      ensures GetMasterCategoryInfo(table, masterCategoryId) == AsDict(table[i])
    {
      assert r.Some?;
      assert !(r.value < i) && !(i < r.value);
    }
  }

  /** An entry whose id is unset never matches, not even an empty argument. */
  lemma EmptyIdGetsDefault(transmissionId: string, cabinChassisId: string, engineId: string, axleId: string)
    ensures GetMasterCategoryInfo(MasterCategories(transmissionId, cabinChassisId, engineId, axleId), "") == DefaultInfo
  {
  }

  /** With every id set and distinct, each id finds its own entry. */
  lemma EachIdFindsItsEntry(transmissionId: string, cabinChassisId: string, engineId: string, axleId: string)
    requires transmissionId != [] && cabinChassisId != [] && engineId != [] && axleId != []
    requires transmissionId != cabinChassisId && transmissionId != engineId && transmissionId != axleId
    requires cabinChassisId != engineId && cabinChassisId != axleId && engineId != axleId
    ensures var t := MasterCategories(transmissionId, cabinChassisId, engineId, axleId);
      && GetMasterCategoryInfo(t, transmissionId) == AsDict(t[0])
      && GetMasterCategoryInfo(t, cabinChassisId) == AsDict(t[1])
      && GetMasterCategoryInfo(t, engineId) == AsDict(t[2])
      && GetMasterCategoryInfo(t, axleId) == AsDict(t[3])
  {
    var t := MasterCategories(transmissionId, cabinChassisId, engineId, axleId);
    var ids := [transmissionId, cabinChassisId, engineId, axleId];
    forall k | 0 <= k < 4
      ensures GetMasterCategoryInfo(t, ids[k]) == AsDict(t[k])
    {
      assert forall j :: 0 <= j < 4 ==> t[j].id == ids[j];
      assert forall j :: 0 <= j < k ==> !Matches(t[j], ids[k]);
      MasterCategoryInfoIsFirstMatch(t, ids[k]);
    }
    assert ids[0] == transmissionId && ids[1] == cabinChassisId && ids[2] == engineId && ids[3] == axleId;
  }
}
