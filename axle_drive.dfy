/**
 * The drive-axle extractor (axle_drive_extractor.py): a ZIP-format partbook
 * whose manifest lists page images; table pages are sent to a vision model
 * for their title, titles are normalised and deduplicated in page order,
 * translated in one batch and assembled into a single category.
 */
module AxleDrive {
  import opened Wrappers
  import opened Text
  import opened JsonValue
  import opened Dedup
  import opened Catalog
  import PdfUtils

  // ---------------------------------------------------------------------
  // Title normalisation: the two regular expressions and their substitutions
  // ---------------------------------------------------------------------

  const TableGlyph: char := '\U{8868}'        // 表
  const ContinuedGlyph: char := '\U{7eed}'    // 续

  predicate IsOpenParen(c: char) {
    c == '\U{ff08}' || c == '('
  }

  predicate IsCloseParen(c: char) {
    c == '\U{ff09}' || c == ')'
  }

  /** Every character of t[i..j] is whitespace. */
  predicate AllSpace(t: string, i: int, j: int)
    requires 0 <= i <= j <= |t|
  {
    forall x :: i <= x < j ==> IsSpace(t[x])
  }

  /** Every character of t[i..j] is a decimal digit. */
  predicate AllDigit(t: string, i: int, j: int)
    requires 0 <= i <= j <= |t|
  {
    forall x :: i <= x < j ==> IsDecimal(t[x])
  }

  /** t[i..k] matches `\s*\d+\s*`. */
  predicate SpacedNumberSpan(t: string, i: int, k: int) {
    0 <= i <= k <= |t| &&
    exists a, b :: i <= a < b <= k && AllSpace(t, i, a) && AllDigit(t, a, b) && AllSpace(t, b, k)
  }

  /**
   * The prefix t[..k] matches the table marker `表1?\s*\d+\s*`: the
   * glyph, an optional '1', then a spaced number.
   */
  predicate MarkerMatches(t: string, k: int) {
    1 <= k <= |t| && t[0] == TableGlyph &&
    (SpacedNumberSpan(t, 1, k) || (|t| >= 2 && t[1] == '1' && SpacedNumberSpan(t, 2, k)))
  }

  /** Where the greedy `\s*` starting at i stops. */
  function SpaceEnd(t: string, i: nat): (e: nat)
    requires i <= |t|
    ensures i <= e <= |t| && AllSpace(t, i, e)
    ensures e == |t| || !IsSpace(t[e])
    decreases |t| - i
  {
    if i < |t| && IsSpace(t[i]) then SpaceEnd(t, i + 1) else i
  }

  /** Where the greedy `\d*` starting at i stops. */
  function DigitEnd(t: string, i: nat): (e: nat)
    requires i <= |t|
    ensures i <= e <= |t| && AllDigit(t, i, e)
    ensures e == |t| || !IsDecimal(t[e])
    decreases |t| - i
  {
    if i < |t| && IsDecimal(t[i]) then DigitEnd(t, i + 1) else i
  }

  /** Where the greedy `\s*\d+\s*` starting at i stops, if it matches there. */
  function SpacedNumberEnd(t: string, i: nat): (r: Option<nat>)
    requires i <= |t|
    ensures r.Some? ==> i < r.value <= |t|
  {
    var a := SpaceEnd(t, i);
    var b := DigitEnd(t, a);
    if b == a then None else Some(SpaceEnd(t, b))
  }

  /**
   * The end of the text `_TABLE_PREFIX_RE.sub` removes: the engine first
   * tries the branch with the optional '1' taken and backtracks to the
   * branch without it.
   */
  function TablePrefixLength(t: string): (r: Option<nat>)
    ensures r.Some? ==> 1 <= r.value <= |t|
  {
    if t == [] || t[0] != TableGlyph then None
    else if |t| >= 2 && t[1] == '1' && SpacedNumberEnd(t, 2).Some? then SpacedNumberEnd(t, 2)
    else SpacedNumberEnd(t, 1)
  }

  /** `_TABLE_PREFIX_RE.sub("", t)` */
  function StripTablePrefix(t: string): string {
    match TablePrefixLength(t)
    case None => t
    case Some(k) => t[k..]
  }

  /** `[（(]续[）)]` starts at index i of t and only whitespace follows it. */
  predicate ContinuationAt(t: string, i: int) {
    0 <= i && i + 3 <= |t| && IsOpenParen(t[i]) && t[i + 1] == ContinuedGlyph && IsCloseParen(t[i + 2]) &&
    forall j :: i + 3 <= j < |t| ==> IsSpace(t[j])
  }

  /**
   * `_CONTINUATION_RE.sub("", t)`: the marker followed by trailing
   * whitespace up to the end is removed, once.
   */
  function StripContinuation(t: string): (r: string)
    ensures |r| <= |t| && r == t[..|r|]
    ensures r != t ==> ContinuationAt(t, |r|)
    ensures r == t ==> forall i :: 0 <= i <= |t| ==> !ContinuationAt(t, i)
  {
    var e := |TrimRight(t)|;
    if e >= 3 && IsOpenParen(t[e - 3]) && t[e - 2] == ContinuedGlyph && IsCloseParen(t[e - 1]) then
      t[..e - 3]
    else
      assert forall i :: 0 <= i <= |t| && ContinuationAt(t, i) ==> i + 3 == e by {
        forall i | 0 <= i <= |t| && ContinuationAt(t, i)
          ensures i + 3 == e
        {
          assert !IsSpace(t[i + 2]);
        }
      }
      t
  }

  /** `_normalise_title` */
  function NormaliseTitle(raw: string): (r: string)
    ensures IsStripped(r)
  {
    Strip(StripContinuation(StripTablePrefix(Strip(raw))))
  }

  /** Any match of `\s*\d+\s*` at i splits where the greedy scans stop, so it ends no later than the greedy match. */
  lemma SpanWithinGreedy(t: string, i: nat, a: nat, b: nat, k: nat)
    requires i <= a < b <= k <= |t|
    requires AllSpace(t, i, a) && AllDigit(t, a, b) && AllSpace(t, b, k)
    ensures SpaceEnd(t, i) == a && b <= DigitEnd(t, a)
    ensures SpacedNumberEnd(t, i).Some? && k <= SpacedNumberEnd(t, i).value
  {
    DecimalIsNotSpace(t[a]);
    SpaceEndStops(t, i, a);
    var d := DigitEnd(t, a);
    DigitEndBeyond(t, a, b);
    if b < d {
      DecimalIsNotSpace(t[b]);
    } else {
      SpaceEndBeyond(t, b, k);
    }
  }

  lemma SpaceEndStops(t: string, i: nat, e: nat)
    requires i <= e <= |t| && AllSpace(t, i, e) && (e == |t| || !IsSpace(t[e]))
    ensures SpaceEnd(t, i) == e
    decreases e - i
  {
    if i < e {
      SpaceEndStops(t, i + 1, e);
    }
  }

  lemma SpaceEndBeyond(t: string, i: nat, k: nat)
    requires i <= k <= |t| && AllSpace(t, i, k)
    ensures k <= SpaceEnd(t, i)
    decreases k - i
  {
    if i < k {
      SpaceEndBeyond(t, i + 1, k);
    }
  }

  lemma DigitEndBeyond(t: string, i: nat, k: nat)
    requires i <= k <= |t| && AllDigit(t, i, k)
    ensures k <= DigitEnd(t, i)
    decreases k - i
  {
    if i < k {
      DigitEndBeyond(t, i + 1, k);
    }
  }

  /** The greedy match is a match, and every match at i ends no later. */
  lemma SpacedNumberEndLongest(t: string, i: nat)
    requires i <= |t|
    ensures SpacedNumberEnd(t, i).Some? ==> SpacedNumberSpan(t, i, SpacedNumberEnd(t, i).value)
    ensures forall k :: SpacedNumberSpan(t, i, k) ==> SpacedNumberEnd(t, i).Some? && k <= SpacedNumberEnd(t, i).value
  {
    var a := SpaceEnd(t, i);
    var b := DigitEnd(t, a);
    if b != a {
      assert AllSpace(t, b, SpaceEnd(t, b));
    }
    forall k | SpacedNumberSpan(t, i, k)
      ensures SpacedNumberEnd(t, i).Some? && k <= SpacedNumberEnd(t, i).value
    {
      var a', b' :| i <= a' < b' <= k && AllSpace(t, i, a') && AllDigit(t, a', b') && AllSpace(t, b', k);
      SpanWithinGreedy(t, i, a', b', k);
    }
  }

  /** After a '1' at index 1, the branch without the optional '1' matches no further than the branch with it. */
  lemma OneTakenReachesFarther(t: string)
    requires |t| >= 2 && t[1] == '1' && SpacedNumberEnd(t, 2).Some?
    ensures SpacedNumberEnd(t, 1).Some? && SpacedNumberEnd(t, 1).value <= SpacedNumberEnd(t, 2).value
  {
    var e := DigitEnd(t, 2);
    assert SpaceEnd(t, 1) == 1;
    assert DigitEnd(t, 1) == e by {
      assert AllDigit(t, 1, e);
      SpanDigitEndUnique(t, 1, e);
    }
    if e > 2 {
      assert IsDecimal(t[2]);
      assert SpaceEnd(t, 2) == 2;
    }
  }

  lemma SpanDigitEndUnique(t: string, i: nat, e: nat)
    requires i <= e <= |t| && AllDigit(t, i, e) && (e == |t| || !IsDecimal(t[e]))
    ensures DigitEnd(t, i) == e
  {
  }

  /** `_TABLE_PREFIX_RE` removes the longest prefix that matches the marker, and nothing when none does. */
  lemma TablePrefixLongest(t: string)
    ensures TablePrefixLength(t).Some? ==> MarkerMatches(t, TablePrefixLength(t).value)
    ensures forall k :: MarkerMatches(t, k) ==> TablePrefixLength(t).Some? && k <= TablePrefixLength(t).value
  {
    if t != [] && t[0] == TableGlyph {
      SpacedNumberEndLongest(t, 1);
      if |t| >= 2 {
        SpacedNumberEndLongest(t, 2);
        if t[1] == '1' && SpacedNumberEnd(t, 2).Some? {
          OneTakenReachesFarther(t);
        }
      }
    }
  }

  /** A title whose stripped form does not start with the glyph keeps its leading text, number included. */
  lemma NoGlyphKeepsPrefix(raw: string)
    requires Strip(raw) == [] || Strip(raw)[0] != TableGlyph
    ensures NormaliseTitle(raw) == Strip(StripContinuation(Strip(raw)))
  {
  }

  /** A whitespace-only title normalises to the empty string. */
  lemma BlankTitle(raw: string)
    requires forall i :: 0 <= i < |raw| ==> IsSpace(raw[i])
    ensures NormaliseTitle(raw) == ""
  {
    assert Strip(raw) == [];
    assert TablePrefixLength([]) == None;
  }

  /** Inside a match of `\s*\d+\s*` there are only whitespace and digits. */
  lemma SpanCharacters(t: string, i: int, k: int, j: int)
    requires SpacedNumberSpan(t, i, k) && i <= j < k
    ensures IsSpace(t[j]) || IsDecimal(t[j])
  {
    var a, b :| i <= a < b <= k && AllSpace(t, i, a) && AllDigit(t, a, b) && AllSpace(t, b, k);
  }

  /**
   * A table marker ends where the first character that is neither
   * whitespace nor a digit stands.
   */
  lemma MarkerStopsAtText(t: string, k: nat)
    requires MarkerMatches(t, k) && k < |t| && !IsSpace(t[k]) && !IsDecimal(t[k])
    ensures TablePrefixLength(t) == Some(k)
  {
    TablePrefixLongest(t);
    var m := TablePrefixLength(t).value;
    assert MarkerMatches(t, m) && k <= m;
    if SpacedNumberSpan(t, 1, m) {
      SpanStopsAt(t, 1, m, k);
    } else if k >= 2 {
      SpanStopsAt(t, 2, m, k);
    }
  }

  /** A spaced number starting at or before a character that is neither whitespace nor a digit ends no later than it. */
  lemma SpanStopsAt(t: string, i: int, m: int, k: int)
    requires SpacedNumberSpan(t, i, m) && i <= k < |t| && !IsSpace(t[k]) && !IsDecimal(t[k])
    ensures m <= k
  {
    if m > k {
      SpanCharacters(t, i, m, k);
    }
  }

  /** The continuation marker `(续)` or `（续）`, in any bracket combination. */
  function ContinuationMarker(open: char, close: char): string
    requires IsOpenParen(open) && IsCloseParen(close)
  {
    [open, ContinuedGlyph, close]
  }

  /** One trailing continuation marker is removed from a stripped title. */
  lemma ContinuationRemoved(x: string, open: char, close: char)
    requires IsOpenParen(open) && IsCloseParen(close)
    requires IsStripped(x)
    ensures StripContinuation(x + ContinuationMarker(open, close)) == x
  {
    var t := x + ContinuationMarker(open, close);
    assert t[|t| - 1] == close;
    assert TrimRight(t) == t;
    assert t[..|t| - 3] == x;
  }

  /** A non-empty run of decimal digits, in any of the scripts `\d` accepts. */
  predicate IsNumeral(d: string) {
    d != [] && forall j :: 0 <= j < |d| ==> IsDecimal(d[j])
  }

  /** `str(n)` is a numeral. */
  lemma NatToStringIsNumeral(n: nat)
    ensures IsNumeral(NatToString(n))
  {
    var d := NatToString(n);
    forall j | 0 <= j < |d|
      ensures IsDecimal(d[j])
    {
      DigitIsDecimal(d[j]);
    }
  }

  /**
   * `表<d> <title>(续)` normalises to the title, for any table numeral d
   * (ASCII, fullwidth or any other decimal digits) and either bracket
   * style: the marker is removed up to the title's first character, and one
   * continuation marker at the end.
   */
  lemma NormaliseMarkedTitle(d: string, x: string, open: char, close: char)
    requires IsNumeral(d)
    requires IsOpenParen(open) && IsCloseParen(close)
    requires IsStripped(x) && x != [] && !IsDecimal(x[0])
    ensures NormaliseTitle([TableGlyph] + d + " " + x + ContinuationMarker(open, close)) == x
  {
    var m := ContinuationMarker(open, close);
    var p := [TableGlyph] + d + " ";
    var t := p + x + m;
    assert t == p + (x + m);
    assert t[0] == TableGlyph && t[|t| - 1] == close;
    StripOfStripped(t);
    NumberedPrefixRemoved(d, x + m);
    ContinuationRemoved(x, open, close);
    StripOfStripped(x);
  }

  /** `表<d> ` in front of text that starts with neither whitespace nor a decimal digit is removed whole. */
  lemma NumberedPrefixRemoved(d: string, y: string)
    requires IsNumeral(d)
    requires y != [] && !IsSpace(y[0]) && !IsDecimal(y[0])
    ensures StripTablePrefix([TableGlyph] + d + " " + y) == y
  {
    var t := [TableGlyph] + d + " " + y;
    var k := 1 + |d| + 1;
    assert t[0] == TableGlyph;
    assert AllDigit(t, 1, 1 + |d|) by {
      forall j | 1 <= j < 1 + |d|
        ensures IsDecimal(t[j])
      {
        assert t[j] == d[j - 1];
      }
    }
    assert AllSpace(t, 1 + |d|, k) by {
      assert t[1 + |d|] == ' ';
    }
    assert AllSpace(t, 1, 1);
    assert SpacedNumberSpan(t, 1, k);
    assert t[k] == y[0];
    MarkerStopsAtText(t, k);
    assert t[k..] == y;
  }

  /** Any `表<n> <title>(续)` with the number written by `str(n)`. */
  lemma NormaliseMarkedNumber(n: nat, x: string, open: char, close: char)
    requires IsOpenParen(open) && IsCloseParen(close)
    requires IsStripped(x) && x != [] && !IsDecimal(x[0])
    ensures NormaliseTitle([TableGlyph] + NatToString(n) + " " + x + ContinuationMarker(open, close)) == x
  {
    NatToStringIsNumeral(n);
    NormaliseMarkedTitle(NatToString(n), x, open, close);
  }

  /** A title with two continuation markers loses only one. */
  lemma NormaliseRemovesOneMarker(x: string, open: char, close: char)
    requires IsOpenParen(open) && IsCloseParen(close)
    requires IsStripped(x) && x != [] && x[0] != TableGlyph
    ensures NormaliseTitle(x + ContinuationMarker(open, close)) == x
  {
    var t := x + ContinuationMarker(open, close);
    assert t[0] == x[0] && t[|t| - 1] == close;
    StripOfStripped(t);
    ContinuationRemoved(x, open, close);
    StripOfStripped(x);
  }

  /**
   * Normalisation is not idempotent: with two continuation markers the
   * first pass leaves one, and the second pass removes it.
   */
  lemma NormaliseNotIdempotent(x: string, open: char, close: char)
    requires IsOpenParen(open) && IsCloseParen(close)
    requires IsStripped(x) && x != [] && x[0] != TableGlyph
    ensures var m := ContinuationMarker(open, close);
      NormaliseTitle(x + m + m) == x + m && NormaliseTitle(NormaliseTitle(x + m + m)) == x
  {
    var m := ContinuationMarker(open, close);
    var xm := x + m;
    assert xm[0] == x[0] && xm[|xm| - 1] == close;
    NormaliseRemovesOneMarker(xm, open, close);
    NormaliseRemovesOneMarker(x, open, close);
  }

  /** A stripped title with neither marker comes back unchanged. */
  lemma NormaliseUnmarked(t: string)
    requires IsStripped(t) && t != [] && t[0] != TableGlyph
    requires !ContinuationAt(t, |t| - 3)
    ensures NormaliseTitle(t) == t
  {
    StripOfStripped(t);
  }

  lemma NormaliseNoMarkers()
    ensures NormaliseTitle("no markers here") == "no markers here"
  {
    NormaliseUnmarked("no markers here");
  }

  /** A table number in fullwidth digits, `表１２ ABC（续）`, is removed as well: `\d` is not limited to ASCII. */
  lemma FullwidthNumberRemoved()
    ensures NormaliseTitle([TableGlyph] + "\U{ff11}\U{ff12}" + " " + "ABC" + ContinuationMarker('\U{ff08}', '\U{ff09}')) == "ABC"
  {
    var d := "\U{ff11}\U{ff12}";
    assert IsNumeral(d) by {
      assert IsDecimal(d[0]) && IsDecimal(d[1]);
    }
    assert !IsDecimal('A');
    NormaliseMarkedTitle(d, "ABC", '\U{ff08}', '\U{ff09}');
  }

  /** Without the glyph a leading number is kept. */
  lemma NormaliseKeepsNumber()
    ensures NormaliseTitle("3 ABC") == "3 ABC"
  {
    NormaliseUnmarked("3 ABC");
  }

  // ---------------------------------------------------------------------
  // ZIP sniffing
  // ---------------------------------------------------------------------

  /**
   * `_is_zip_pdf`: reads four bytes and compares the first two with b"PK";
   * any exception (file given as None) answers false. It agrees with the
   * shared two-byte check.
   */
  function IsZipPdf(file: Option<seq<bv8>>): (r: bool)
    ensures r == PdfUtils.IsZipPdf(file)
  {
    match file
    case None => false
    case Some(bytes) => PdfUtils.ReadPrefix(PdfUtils.ReadPrefix(bytes, 4), 2) == PdfUtils.ZipMagic
  }

  // ---------------------------------------------------------------------
  // Vision and translation replies
  // ---------------------------------------------------------------------

  /** The reply, fence-stripped and parsed, when it is a JSON object. */
  function ReplyObject(reply: Option<string>, parse: string -> Option<Json>): Option<map<string, Json>> {
    if reply.None? then None
    else match parse(PdfUtils.StripLlmFences(reply.value))
      case Some(JObj(m)) => Some(m)
      case _ => None
  }

  /**
   * `_extract_title_from_image`: `reply` is the vision model's reply text
   * (None when the call raises). A failed call, a reply that is not JSON
   * or not an object, and a missing "raw_title" all give None (JNull).
   */
  function TitleFromReply(reply: Option<string>, parse: string -> Option<Json>): (r: Json)
    ensures ReplyObject(reply, parse).None? ==> r == JNull
    ensures ReplyObject(reply, parse).Some? ==>
      r == Get(ReplyObject(reply, parse).value, "raw_title", JNull)
  {
    match ReplyObject(reply, parse)
    case None => JNull
    case Some(m) => Get(m, "raw_title", JNull)
  }

  /** One `{"cn": cn, "en": en}` entry. */
  function TranslationEntry(cn: string, en: string): Json {
    JObj(map["cn" := JStr(cn), "en" := JStr(en)])
  }

  /** `[{"cn": t, "en": t} for t in titles]`, the fallback of `_translate_titles`. */
  function IdentityTranslations(titles: seq<string>): (r: Json)
    ensures r.JArr? && |r.items| == |titles|
    ensures forall i :: 0 <= i < |titles| ==> r.items[i] == TranslationEntry(titles[i], titles[i])
  {
    JArr(seq(|titles|, i requires 0 <= i < |titles| => TranslationEntry(titles[i], titles[i])))
  }

  /** What `_translate_titles` returns, and whether it called the model. */
  datatype Translated = Translated(translations: Json, modelCalled: bool)

  /**
   * `_translate_titles`: `reply` is the model's reply to the one batch
   * call. No titles: no call and an empty list. A failed call or a reply
   * that is not a JSON object: the identity list. Otherwise its
   * "translations" member, `[]` when absent.
   */
  function TranslateTitles(titles: seq<string>, reply: Option<string>, parse: string -> Option<Json>): (r: Translated)
    ensures r.modelCalled <==> titles != []
    ensures titles == [] ==> r.translations == JArr([])
    ensures titles != [] && ReplyObject(reply, parse).None? ==> r.translations == IdentityTranslations(titles)
    ensures titles != [] && ReplyObject(reply, parse).Some? ==>
      r.translations == Get(ReplyObject(reply, parse).value, "translations", JArr([]))
  {
    if titles == [] then Translated(JArr([]), false)
    else match ReplyObject(reply, parse)
      case None => Translated(IdentityTranslations(titles), true)
      case Some(m) => Translated(Get(m, "translations", JArr([])), true)
  }

  /** The (cn, en) pair of a well-formed translation entry. */
  function EntryPair(j: Json): Option<(string, string)> {
    match j
    case JObj(f) =>
      if "cn" in f && "en" in f && f["cn"].JStr? && f["en"].JStr? then Some((f["cn"].s, f["en"].s)) else None
    case _ => None
  }

  /** `{t["cn"]: t["en"] for t in items}`: a later entry for the same title wins; a malformed entry raises (None). */
  function CnToEnItems(items: seq<Json>): Option<map<string, string>>
    decreases |items|
  {
    if items == [] then Some(map[])
    else match CnToEnItems(items[..|items| - 1])
      case None => None
      case Some(m) =>
        match EntryPair(items[|items| - 1])
        case None => None
        case Some(pair) => Some(m[pair.0 := pair.1])
  }

  /**
   * The translation table. Iterating an empty string or an empty object
   * yields nothing; a non-empty one yields strings, which cannot be
   * indexed by "cn"; any other non-list is not iterable. Those raise (None).
   */
  function CnToEn(translations: Json): Option<map<string, string>> {
    match translations
    case JArr(items) => CnToEnItems(items)
    case JStr(s) => if s == "" then Some(map[]) else None
    case JObj(f) => if f == map[] then Some(map[]) else None
    case _ => None
  }

  /** A well-formed entry reads back as its pair. */
  lemma EntryPairOfEntry(cn: string, en: string)
    ensures EntryPair(TranslationEntry(cn, en)) == Some((cn, en))
  {
    var f := map["cn" := JStr(cn), "en" := JStr(en)];
    assert "cn" in f && "en" in f && f["cn"] == JStr(cn) && f["en"] == JStr(en);
  }

  /** The identity fallback maps exactly the titles, each to itself. */
  lemma {:induction false} IdentityTable(titles: seq<string>)
    ensures CnToEnItems(IdentityTranslations(titles).items).Some?
    ensures var m := CnToEnItems(IdentityTranslations(titles).items).value;
      && m.Keys == (set t | t in titles)
      && forall t :: t in m ==> m[t] == t
    decreases |titles|
  {
    var items := IdentityTranslations(titles).items;
    if titles != [] {
      var n := |titles| - 1;
      var init := titles[..n];
      var last := titles[n];
      assert IdentityTranslations(init).items == items[..n];
      IdentityTable(init);
      var m0 := CnToEnItems(items[..n]).value;
      EntryPairOfEntry(last, last);
      assert items[n] == TranslationEntry(last, last);
      assert CnToEnItems(items) == Some(m0[last := last]);
      assert titles == init + [last];
      assert (set t | t in titles) == (set t | t in init) + {last};
    }
  }

  /** `cn_to_en.get(cn, cn)`: the English name falls back to the Chinese one. */
  function EnglishFor(table: map<string, string>, cn: string): string {
    if cn in table then table[cn] else cn
  }

  /** The data_type list: one type category per title, in order. */
  function DataType(titles: seq<string>, table: map<string, string>): (r: seq<TypeCategory>)
    ensures |r| == |titles|
    ensures forall i :: 0 <= i < |titles| ==>
      r[i].nameCn == titles[i] && r[i].nameEn == EnglishFor(table, titles[i]) && r[i].description == ""
  {
    seq(|titles|, i requires 0 <= i < |titles| => TypeCategory(EnglishFor(table, titles[i]), titles[i], ""))
  }

  // ---------------------------------------------------------------------
  // Category names from the file name
  // ---------------------------------------------------------------------

  datatype CategoryNames = CategoryNames(en: string, cn: string)

  const DriveAxle: CategoryNames := CategoryNames("Drive Axle", "\U{9a71}\U{52a8}\U{6865}")       // 驱动桥
  const SteeringAxle: CategoryNames := CategoryNames("Steering Axle", "\U{8f6c}\U{5411}\U{6865}") // 转向桥

  /** `_FILENAME_TO_CATEGORY`, in its insertion order. */
  const FilenameTable: seq<(string, CategoryNames)> := [
    ("driveaxle", DriveAxle),
    ("drive_axle", DriveAxle),
    ("steeringaxle", SteeringAxle),
    ("steering_axle", SteeringAxle)
  ]

  /** The last component of a '/'-separated path that is neither empty nor "." (pathlib's `name`). */
  function LastComponent(parts: seq<string>): string
    decreases |parts|
  {
    if parts == [] then ""
    else
      var last := parts[|parts| - 1];
      if last == "" || last == "." then LastComponent(parts[..|parts| - 1]) else last
  }

  /** pathlib's `stem`: the name up to its last '.', unless that dot is first or last. */
  function PathStem(path: string): (stem: string)
    ensures '/' !in stem
  {
    var name := LastComponent(Split(path, '/'));
    assert '/' !in name by { LastComponentHasNoSlash(Split(path, '/')); }
    var i := LastIndexOf(name, '.');
    if 0 < i < |name| - 1 then name[..i] else name
  }

  lemma {:induction false} LastComponentHasNoSlash(parts: seq<string>)
    requires forall i :: 0 <= i < |parts| ==> '/' !in parts[i]
    ensures '/' !in LastComponent(parts)
    decreases |parts|
  {
    if parts != [] {
      LastComponentHasNoSlash(parts[..|parts| - 1]);
    }
  }

  /** str.rfind(c): the last index of c, or -1. */
  function LastIndexOf(s: string, c: char): (i: int)
    ensures -1 <= i < |s|
    ensures i >= 0 ==> s[i] == c
    ensures forall j :: i < j < |s| ==> s[j] != c
    decreases |s|
  {
    if s == [] then -1
    else if s[|s| - 1] == c then |s| - 1
    else LastIndexOf(s[..|s| - 1], c)
  }

  /** The lowered stem with '-' and ' ' removed, which the table keys are looked up in. */
  function FilenameKey(path: string): (k: string)
    ensures '-' !in k && ' ' !in k
  {
    RemoveChar(RemoveChar(Lower(PathStem(path)), '-'), ' ')
  }

  /** The index of the first table entry, from `from` on, whose key occurs in k. */
  function FirstTableMatch(k: string, from: nat): (r: Option<nat>)
    requires from <= |FilenameTable|
    ensures r.Some? ==> from <= r.value < |FilenameTable| && Contains(k, FilenameTable[r.value].0)
    ensures r.Some? ==> forall j :: from <= j < r.value ==> !Contains(k, FilenameTable[j].0)
    ensures r.None? ==> forall j :: from <= j < |FilenameTable| ==> !Contains(k, FilenameTable[j].0)
    decreases |FilenameTable| - from
  {
    if from == |FilenameTable| then None
    else if Contains(k, FilenameTable[from].0) then Some(from)
    else FirstTableMatch(k, from + 1)
  }

  /**
   * `_infer_category_from_filename`: the pair of the first key in table
   * order that occurs in the key string, else Drive Axle. So a name
   * carrying both a drive-axle and a steering-axle key is a drive axle.
   */
  function InferCategoryFromFilename(path: string): (r: CategoryNames)
    ensures var k := FilenameKey(path);
      r == SteeringAxle <==>
        !Contains(k, "driveaxle") && !Contains(k, "drive_axle") &&
        (Contains(k, "steeringaxle") || Contains(k, "steering_axle"))
    ensures r == SteeringAxle || r == DriveAxle
  {
    assert DriveAxle != SteeringAxle by {
      assert DriveAxle.en[0] != SteeringAxle.en[0];
    }
    assert FilenameTable[0].0 == "driveaxle" && FilenameTable[1].0 == "drive_axle";
    assert FilenameTable[2].0 == "steeringaxle" && FilenameTable[3].0 == "steering_axle";
    match FirstTableMatch(FilenameKey(path), 0)
    case None => DriveAxle
    case Some(i) => FilenameTable[i].1
  }

  /** Caller-supplied names ("" standing for None) win; only the missing halves come from the file name. */
  function ResolveCategoryNames(nameEn: string, nameCn: string, path: string): (r: CategoryNames)
    ensures r.en == if nameEn != "" then nameEn else InferCategoryFromFilename(path).en
    ensures r.cn == if nameCn != "" then nameCn else InferCategoryFromFilename(path).cn
  {
    if nameEn == "" || nameCn == "" then
      var inferred := InferCategoryFromFilename(path);
      CategoryNames(if nameEn != "" then nameEn else inferred.en, if nameCn != "" then nameCn else inferred.cn)
    else
      CategoryNames(nameEn, nameCn)
  }

  // ---------------------------------------------------------------------
  // The extraction pipeline
  // ---------------------------------------------------------------------

  /** What the vision step does for one page image. */
  datatype VisionOutcome =
    | ImageMissing          // the image cannot be opened; `_image_to_base64` raises outside the try
    | CallFailed            // the model call raises, caught: no title
    | Replied(text: string) // the model's reply text

  datatype AxleError =
    | NotZipArchive                  // the ValueError raised before anything else
    | ArchiveError(cause: PdfUtils.ZipError)
    | MalformedManifest              // the manifest is not an object, or "pages" is not iterable
    | MalformedPage                  // a page or its "image" has no `get`, or the path is not a string
    | UnreadableImage
    | NonStringTitle                 // a truthy "raw_title" that is not a string has no `strip`
    | MalformedTranslations          // `{t["cn"]: t["en"] ...}` raises

  /**
   * Everything the extraction reads from outside: the file's first bytes
   * (None when it cannot be opened), the archive's members, the JSON
   * decoders, the vision model (keyed by the table page's position and its
   * image path) and the translation model's reply (None when the call raises).
   */
  datatype AxleInput = AxleInput(
    path: string,
    head: Option<seq<bv8>>,
    archive: Option<map<string, seq<bv8>>>,
    decode: seq<bv8> -> Option<Json>,
    vision: (nat, string) -> VisionOutcome,
    translationReply: Option<string>,
    parse: string -> Option<Json>)

  /** `manifest.get("pages", [])`, iterated. */
  function PageList(manifest: Json): (r: Result<seq<Json>, AxleError>)
    ensures !manifest.JObj? ==> r == Failure(MalformedManifest)
    ensures manifest.JObj? && "pages" !in manifest.fields ==> r == Success([])
    ensures manifest.JObj? && "pages" in manifest.fields && manifest.fields["pages"].JArr? ==>
      r == Success(manifest.fields["pages"].items)
  {
    match manifest
    case JObj(m) =>
      (match Get(m, "pages", JArr([]))
       case JArr(items) => Success(items)
       case JStr(s) => if s == "" then Success([]) else Failure(MalformedPage)
       case JObj(f) => if f == map[] then Success([]) else Failure(MalformedPage)
       case _ => Failure(MalformedManifest))
    case _ => Failure(MalformedManifest)
  }

  /** `not p.get("has_visual_content", True)`. */
  predicate IsTablePage(p: map<string, Json>) {
    !Truthy(Get(p, "has_visual_content", JBool(true)))
  }

  /**
   * The list comprehension of table pages: it fails when any page is not
   * an object, and keeps, in order, exactly the table pages.
   */
  function TablePages(pages: seq<Json>): (r: Result<seq<map<string, Json>>, AxleError>)
    ensures r.Success? <==> forall i :: 0 <= i < |pages| ==> pages[i].JObj?
    ensures r.Failure? ==> r.error == MalformedPage
    ensures r.Success? ==> forall p :: p in r.value <==> JObj(p) in pages && IsTablePage(p)
    decreases |pages|
  {
    if pages == [] then Success([])
    else
      var last := pages[|pages| - 1];
      match TablePages(pages[..|pages| - 1])
      case Failure(e) => Failure(e)
      case Success(kept) =>
        if !last.JObj? then Failure(MalformedPage)
        else if IsTablePage(last.fields) then Success(kept + [last.fields])
        else Success(kept)
  }

  /** `page_info.get("image", {})` */
  function ImageInfo(p: map<string, Json>): Json {
    Get(p, "image", JObj(map[]))
  }

  /** `.get("path")` on the image entry, when that entry is a dict. */
  function ImagePath(p: map<string, Json>): Json {
    if ImageInfo(p).JObj? then Get(ImageInfo(p).fields, "path", JNull) else JNull
  }

  /** The positions of the table pages among the pages, in increasing order. */
  function TableIndices(pages: seq<Json>): (idx: seq<nat>)
    ensures forall k :: 0 <= k < |idx| ==> idx[k] < |pages| && pages[idx[k]].JObj? && IsTablePage(pages[idx[k]].fields)
    ensures forall k, l :: 0 <= k < l < |idx| ==> idx[k] < idx[l]
    ensures forall i :: 0 <= i < |pages| && pages[i].JObj? && IsTablePage(pages[i].fields) ==> i in idx
    decreases |pages|
  {
    if pages == [] then []
    else
      var n := |pages| - 1;
      TableIndices(pages[..n]) + (if pages[n].JObj? && IsTablePage(pages[n].fields) then [n] else [])
  }

  /**
   * The comprehension is an in-order filter: the k-th table page kept is
   * the page at the k-th table position, so order and repetitions are kept.
   */
  lemma {:induction false} TablePagesInOrder(pages: seq<Json>)
    requires TablePages(pages).Success?
    ensures var idx := TableIndices(pages);
      |TablePages(pages).value| == |idx|
      && forall k :: 0 <= k < |idx| ==> TablePages(pages).value[k] == pages[idx[k]].fields
    decreases |pages|
  {
    if pages != [] {
      var n := |pages| - 1;
      var pre := pages[..n];
      TablePagesSnoc(pages);
      TablePagesInOrder(pre);
      var idx := TableIndices(pre);
      var all := TableIndices(pages);
      var kept := TablePages(pages).value;
      forall k | 0 <= k < |all|
        ensures kept[k] == pages[all[k]].fields
      {
        if k < |idx| {
          assert kept[k] == TablePages(pre).value[k] && all[k] == idx[k];
          assert pre[idx[k]] == pages[idx[k]];
        }
      }
    }
  }

  lemma TablePagesSnoc(pages: seq<Json>)
    requires pages != [] && TablePages(pages).Success?
    ensures var n := |pages| - 1;
      var keep := pages[n].JObj? && IsTablePage(pages[n].fields);
      && TablePages(pages[..n]).Success?
      && TablePages(pages).value == TablePages(pages[..n]).value + (if keep then [pages[n].fields] else [])
      && TableIndices(pages) == TableIndices(pages[..n]) + (if keep then [n] else [])
  {
  }

  /**
   * The title one table page contributes ("" when the page is skipped):
   * no image path, a failed vision call, a missing or falsy "raw_title",
   * or a title that normalises to "".
   */
  function PageTitle(k: nat, p: map<string, Json>, vision: (nat, string) -> VisionOutcome,
                     parse: string -> Option<Json>): (r: Result<string, AxleError>)
    ensures r.Success? ==> IsStripped(r.value)
    ensures r.Failure? ==> r.error in {MalformedPage, UnreadableImage, NonStringTitle}
    ensures !ImageInfo(p).JObj? ==> r == Failure(MalformedPage)
    ensures ImageInfo(p).JObj? && !Truthy(ImagePath(p)) ==> r == Success("")
    ensures Truthy(ImagePath(p)) && !ImagePath(p).JStr? ==> r == Failure(MalformedPage)
    ensures ImagePath(p).JStr? && ImagePath(p).s != [] ==>
      match vision(k, ImagePath(p).s)
      case ImageMissing => r == Failure(UnreadableImage)
      case CallFailed => r == Success("")
      case Replied(text) =>
        var raw := TitleFromReply(Some(text), parse);
        && (!Truthy(raw) ==> r == Success(""))
        && (Truthy(raw) && !raw.JStr? ==> r == Failure(NonStringTitle))
        && (raw.JStr? && raw.s != [] ==> r == Success(NormaliseTitle(raw.s)))
  {
    var image := ImageInfo(p);
    if !image.JObj? then Failure(MalformedPage)
    else
      var imagePath := ImagePath(p);
      if !Truthy(imagePath) then Success("")
      else if !imagePath.JStr? then Failure(MalformedPage)
      else
        match vision(k, imagePath.s)
        case ImageMissing => Failure(UnreadableImage)
        case CallFailed => Success("")
        case Replied(text) =>
          var raw := TitleFromReply(Some(text), parse);
          if !Truthy(raw) then Success("")
          else if !raw.JStr? then Failure(NonStringTitle)
          else Success(NormaliseTitle(raw.s))
  }

  /** What each table page contributes, in order. */
  function PageResults(pages: seq<map<string, Json>>, vision: (nat, string) -> VisionOutcome,
                       parse: string -> Option<Json>): (rs: seq<Result<string, AxleError>>)
    ensures |rs| == |pages|
    ensures forall i :: 0 <= i < |pages| ==> rs[i] == PageTitle(i, pages[i], vision, parse)
  {
    seq(|pages|, i requires 0 <= i < |pages| => PageTitle(i, pages[i], vision, parse))
  }

  /** The titles of all pages when none raises; otherwise the first page's error. */
  function Collect<T, E>(rs: seq<Result<T, E>>): (r: Result<seq<T>, E>)
    ensures r.Success? ==> |r.value| == |rs| && forall i :: 0 <= i < |rs| ==> rs[i] == Success(r.value[i])
    ensures r.Failure? ==>
      exists i :: 0 <= i < |rs| && rs[i] == Failure(r.error) && forall j :: 0 <= j < i ==> rs[j].Success?
    decreases |rs|
  {
    if rs == [] then Success([])
    else
      var n := |rs| - 1;
      match Collect(rs[..n])
      case Failure(e) => Failure(e)
      case Success(init) =>
        match rs[n]
        case Failure(e) => Failure(e)
        case Success(t) => Success(init + [t])
  }

  /** Once an element fails, every longer prefix fails with its error. */
  lemma {:induction false} CollectFailFrom<T, E>(rs: seq<Result<T, E>>, i: nat, n: nat)
    requires i < n <= |rs|
    requires Collect(rs[..i]).Success? && rs[i].Failure?
    ensures Collect(rs[..n]) == Failure(rs[i].error)
    decreases n
  {
    assert rs[..n][..n - 1] == rs[..n - 1];
    if n > i + 1 {
      CollectFailFrom(rs, i, n - 1);
    }
  }

  /** One more element that succeeds extends the collected prefix by its value. */
  lemma CollectStep<T, E>(rs: seq<Result<T, E>>, i: nat)
    requires i < |rs|
    requires Collect(rs[..i]).Success? && rs[i].Success?
    ensures Collect(rs[..i + 1]) == Success(Collect(rs[..i]).value + [rs[i].value])
  {
    assert rs[..i + 1][..i] == rs[..i];
  }

  /** The titles of all table pages, in order; the first page that raises ends the extraction with its error. */
  function PageTitles(pages: seq<map<string, Json>>, vision: (nat, string) -> VisionOutcome,
                      parse: string -> Option<Json>): Result<seq<string>, AxleError>
  {
    Collect(PageResults(pages, vision, parse))
  }

  /** The page titles of a ZIP archive's manifest, in table-page order. */
  function AxleTitles(input: AxleInput): Result<seq<string>, AxleError> {
    match PdfUtils.ExtractZipPdf(input.archive, input.decode)
    case Failure(e) => Failure(ArchiveError(e))
    case Success(manifest) =>
      match PageList(manifest)
      case Failure(e) => Failure(e)
      case Success(pages) =>
        match TablePages(pages)
        case Failure(e) => Failure(e)
        case Success(table) => PageTitles(table, input.vision, input.parse)
  }

  /** `extract_axle_drive_categories`, as a function of what it reads. */
  function AxleExtraction(input: AxleInput, nameEn: string, nameCn: string): (r: Result<seq<Category>, AxleError>)
    ensures !IsZipPdf(input.head) ==> r == Failure(NotZipArchive)
    ensures r.Success? ==> |r.value| == 1
    ensures r.Success? ==>
      && r.value[0].nameEn == ResolveCategoryNames(nameEn, nameCn, input.path).en
      && r.value[0].nameCn == ResolveCategoryNames(nameEn, nameCn, input.path).cn
      && r.value[0].description == ""
  {
    if !IsZipPdf(input.head) then Failure(NotZipArchive)
    else
      var names := ResolveCategoryNames(nameEn, nameCn, input.path);
      match AxleTitles(input)
      case Failure(e) => Failure(e)
      case Success(titles) =>
        var unique := UniqueNonEmpty(titles);
        match CnToEn(TranslateTitles(unique, input.translationReply, input.parse).translations)
        case None => Failure(MalformedTranslations)
        case Some(cnToEn) => Success([Category(names.en, names.cn, "", DataType(unique, cnToEn))])
  }

  /**
   * The loop over the table pages: each new non-empty title is recorded in
   * the `seen` dict, whose key order is `order`; the first page that raises
   * ends it.
   */
  method CollectUniqueTitles(table: seq<map<string, Json>>, vision: (nat, string) -> VisionOutcome,
                             parse: string -> Option<Json>) returns (r: Result<seq<string>, AxleError>)
    ensures PageTitles(table, vision, parse).Success? ==>
      r == Success(UniqueNonEmpty(PageTitles(table, vision, parse).value))
    ensures PageTitles(table, vision, parse).Failure? ==>
      r == Failure(PageTitles(table, vision, parse).error)
  {
    ghost var rs := PageResults(table, vision, parse);
    var seen: map<string, bool> := map[];
    var order: seq<string> := [];
    var i := 0;
    while i < |table|
      invariant 0 <= i <= |table|
      invariant Collect(rs[..i]).Success?
      invariant order == UniqueNonEmpty(Collect(rs[..i]).value)
      invariant seen.Keys == set x | x in order
    {
      var title: string;
      var res := PageTitle(i, table[i], vision, parse);
      assert res == rs[i];
      match res {
        case Failure(e) =>
          CollectFailFrom(rs, i, |rs|);
          assert rs[..|rs|] == rs;
          return Failure(e);
        case Success(t) => title := t;
      }
      ghost var before := Collect(rs[..i]).value;
      CollectStep(rs, i);
      UniqueNonEmptySnoc(before, title);
      if title != "" && title !in seen {
        seen := seen[title := true];
        order := order + [title];
      }
      i := i + 1;
    }
    assert rs[..i] == rs;
    r := Success(order);
  }

  /** The loop building data_type, one entry per unique title. */
  method BuildDataType(order: seq<string>, cnToEn: map<string, string>) returns (dataType: seq<TypeCategory>)
    ensures dataType == DataType(order, cnToEn)
  {
    dataType := [];
    var j := 0;
    while j < |order|
      invariant 0 <= j <= |order|
      invariant dataType == DataType(order[..j], cnToEn)
    {
      dataType := dataType + [TypeCategory(EnglishFor(cnToEn, order[j]), order[j], "")];
      j := j + 1;
    }
    assert order[..j] == order;
  }

  /** `extract_axle_drive_categories` as the source runs it; it computes exactly `AxleExtraction`. */
  method ExtractAxleDriveCategories(input: AxleInput, nameEn: string, nameCn: string)
    returns (r: Result<seq<Category>, AxleError>)
    ensures r == AxleExtraction(input, nameEn, nameCn)
  {
    if !IsZipPdf(input.head) {
      return Failure(NotZipArchive);
    }
    var names := ResolveCategoryNames(nameEn, nameCn, input.path);
    var manifest: Json;
    match PdfUtils.ExtractZipPdf(input.archive, input.decode) {
      case Failure(e) => return Failure(ArchiveError(e));
      case Success(m) => manifest := m;
    }
    var pages: seq<Json>;
    match PageList(manifest) {
      case Failure(e) => return Failure(e);
      case Success(ps) => pages := ps;
    }
    var table: seq<map<string, Json>>;
    match TablePages(pages) {
      case Failure(e) => return Failure(e);
      case Success(t) => table := t;
    }
    var order: seq<string>;
    var titles := CollectUniqueTitles(table, input.vision, input.parse);
    match titles {
      case Failure(e) => return Failure(e);
      case Success(u) => order := u;
    }
    var cnToEn: map<string, string>;
    match CnToEn(TranslateTitles(order, input.translationReply, input.parse).translations) {
      case None => return Failure(MalformedTranslations);
      case Some(m) => cnToEn := m;
    }
    var dataType := BuildDataType(order, cnToEn);
    r := Success([Category(names.en, names.cn, "", dataType)]);
  }

  /** The translation table an extraction names its subtypes with. */
  function ExtractionTable(input: AxleInput): Option<map<string, string>>
    requires AxleTitles(input).Success?
  {
    CnToEn(TranslateTitles(UniqueNonEmpty(AxleTitles(input).value), input.translationReply, input.parse).translations)
  }

  /** A successful extraction's subtypes are the distinct page titles under its translation table. */
  lemma ExtractionDataType(input: AxleInput, nameEn: string, nameCn: string)
    requires AxleExtraction(input, nameEn, nameCn).Success?
    ensures AxleTitles(input).Success? && ExtractionTable(input).Some?
    ensures AxleExtraction(input, nameEn, nameCn).value[0].dataType
      == DataType(UniqueNonEmpty(AxleTitles(input).value), ExtractionTable(input).value)
  {
  }

  /**
   * The subtypes are the distinct non-empty page titles in order of first
   * appearance, each named in English by the translation table or, failing
   * that, by its Chinese title.
   */
  lemma AxleSubtypes(input: AxleInput, nameEn: string, nameCn: string)
    requires AxleExtraction(input, nameEn, nameCn).Success?
    ensures AxleTitles(input).Success?
    ensures var dt := AxleExtraction(input, nameEn, nameCn).value[0].dataType;
      var titles := AxleTitles(input).value;
      && (forall i :: 0 <= i < |dt| ==> dt[i].nameCn in titles && dt[i].nameCn != "" && dt[i].description == "")
      && (forall t :: t in titles && t != "" ==> exists i :: 0 <= i < |dt| && dt[i].nameCn == t)
      && (forall i, j :: 0 <= i < j < |dt| ==> dt[i].nameCn != dt[j].nameCn)
      && (forall i, j :: 0 <= i < j < |dt| ==> FirstIndex(titles, dt[i].nameCn) < FirstIndex(titles, dt[j].nameCn))
  {
    ExtractionDataType(input, nameEn, nameCn);
    SubtypesOfTitles(AxleTitles(input).value, ExtractionTable(input).value);
  }

  /** The data type built from the distinct titles of `titles`, under any table. */
  lemma SubtypesOfTitles(titles: seq<string>, table: map<string, string>)
    ensures var dt := DataType(UniqueNonEmpty(titles), table);
      && (forall i :: 0 <= i < |dt| ==> dt[i].nameCn in titles && dt[i].nameCn != "" && dt[i].description == "")
      && (forall t :: t in titles && t != "" ==> exists i :: 0 <= i < |dt| && dt[i].nameCn == t)
      && (forall i, j :: 0 <= i < j < |dt| ==> dt[i].nameCn != dt[j].nameCn)
      && (forall i, j :: 0 <= i < j < |dt| ==> FirstIndex(titles, dt[i].nameCn) < FirstIndex(titles, dt[j].nameCn))
  {
    SubtypesCoverTitles(titles, table);
    UniqueNonEmptyMembers(titles);
    UniqueNonEmptyOrder(titles);
    var u := UniqueNonEmpty(titles);
    var dt := DataType(u, table);
    assert forall i :: 0 <= i < |dt| ==> dt[i].nameCn == u[i];
  }

  lemma SubtypesCoverTitles(titles: seq<string>, table: map<string, string>)
    ensures var dt := DataType(UniqueNonEmpty(titles), table);
      && (forall i :: 0 <= i < |dt| ==> dt[i].nameCn in titles && dt[i].nameCn != "" && dt[i].description == "")
      && (forall t :: t in titles && t != "" ==> exists i :: 0 <= i < |dt| && dt[i].nameCn == t)
  {
    UniqueNonEmptyMembers(titles);
    var u := UniqueNonEmpty(titles);
    var dt := DataType(u, table);
    forall i | 0 <= i < |dt|
      ensures dt[i].nameCn in titles && dt[i].nameCn != "" && dt[i].description == ""
    {
      assert dt[i].nameCn == u[i] && u[i] in u;
    }
    forall t | t in titles && t != "" ensures exists i :: 0 <= i < |dt| && dt[i].nameCn == t {
      assert t in u;
      var i :| 0 <= i < |u| && u[i] == t;
      assert dt[i].nameCn == t;
    }
  }

  /** When the translation call fails or its reply is not a JSON object, every subtype keeps its Chinese title as its English name. */
  lemma TranslationFailureKeepsChinese(input: AxleInput, nameEn: string, nameCn: string)
    requires AxleExtraction(input, nameEn, nameCn).Success?
    requires ReplyObject(input.translationReply, input.parse).None?
    ensures var dt := AxleExtraction(input, nameEn, nameCn).value[0].dataType;
      forall i :: 0 <= i < |dt| ==> dt[i].nameEn == dt[i].nameCn
  {
    var u := UniqueNonEmpty(AxleTitles(input).value);
    if u != [] {
      IdentityTable(u);
    }
  }

  /**
   * The archive round trip: when every table page that yields a title
   * yields the same one, the single category has exactly that one subtype.
   */
  lemma DuplicateTitlesCollapse(input: AxleInput, nameEn: string, nameCn: string, x: string)
    requires AxleExtraction(input, nameEn, nameCn).Success?
    requires x != "" && x in AxleTitles(input).value
    requires forall t :: t in AxleTitles(input).value ==> t == "" || t == x
    ensures |AxleExtraction(input, nameEn, nameCn).value[0].dataType| == 1
    ensures AxleExtraction(input, nameEn, nameCn).value[0].dataType[0].nameCn == x
  {
    UniqueNonEmptySingle(AxleTitles(input).value, x);
  }
}
