/**
 * The engine and transmission partbook extractors. Both produce a flat
 * list of categories (no type categories).
 *
 * Engine: every page's top-right header holds one bilingual label such as
 * "燃油泵PUMP,FUEL"; the distinct labels, in first-seen order, are split
 * into their Chinese and English halves. The text of each page's header
 * crop is given as `cropTexts`.
 *
 * Transmission: the text of the first pages (the table of contents) is
 * sent to the model once; its JSON reply is the result, with
 * "category_description" defaulted to "" on every category. The text of
 * each page is given as `pageTexts`, the model's reply as an oracle.
 */
module EngineTransmission {
  import opened Wrappers
  import opened Text
  import opened JsonValue
  import opened Dedup
  import PdfUtils

  datatype FlatCategory = FlatCategory(nameEn: string, nameCn: string, description: string)

  // ---------------------------------------------------------------------
  // Splitting a bilingual label
  // ---------------------------------------------------------------------

  /** The CJK Unified Ideographs block, U+4E00..U+9FFF. */
  predicate IsCjk(c: char) {
    '\U{4e00}' <= c <= '\U{9fff}'
  }

  /** A printable ASCII character other than space, 0x21..0x7E. */
  predicate IsAsciiGraphic(c: char) {
    '!' <= c <= '~'
  }

  /** The pattern `([一-鿿])([\x21-\x7E])` matches at index i. */
  predicate TransitionAt(s: string, i: int) {
    0 <= i && i + 1 < |s| && IsCjk(s[i]) && IsAsciiGraphic(s[i + 1])
  }

  /** re.search for the transition: the leftmost match at or after `from`. */
  function FindTransition(s: string, from: nat): (r: Option<nat>)
    ensures r.Some? ==> from <= r.value && TransitionAt(s, r.value)
    ensures r.Some? ==> forall j :: from <= j < r.value ==> !TransitionAt(s, j)
    ensures r.None? ==> forall j :: from <= j ==> !TransitionAt(s, j)
    decreases |s| - from
  {
    if from + 1 >= |s| then None
    else if TransitionAt(s, from) then Some(from)
    else FindTransition(s, from + 1)
  }

  /** `[p.capitalize() for p in parts]` */
  function CapitalizeAll(parts: seq<string>): (r: seq<string>)
    ensures |r| == |parts|
    ensures forall i :: 0 <= i < |parts| ==> r[i] == Capitalize(parts[i])
  {
    seq(|parts|, i requires 0 <= i < |parts| => Capitalize(parts[i]))
  }

  /**
   * The English half's normalisation: commas become spaces, the text is
   * split into words, each word is capitalised and the words are joined by
   * single spaces. No comma survives.
   */
  function NormaliseEnglish(enRaw: string): string {
    Join(" ", CapitalizeAll(Words(ReplaceChar(enRaw, ',', ' '))))
  }

  /** No comma survives the normalisation. */
  lemma EnglishHasNoComma(enRaw: string)
    ensures ',' !in NormaliseEnglish(enRaw)
  {
    var words := Words(ReplaceChar(enRaw, ',', ' '));
    var capitalised := CapitalizeAll(words);
    assert ',' !in ReplaceChar(enRaw, ',', ' ');
    WordsWithout(ReplaceChar(enRaw, ',', ' '), ',');
    forall i | 0 <= i < |words| ensures ',' !in capitalised[i] {
      assert words[i] in words;
      CapitalizeWithout(words[i], ',');
    }
    JoinWithout(" ", capitalised, ',');
  }

  /** Splitting the normalised English half at its spaces gives back the capitalised words. */
  lemma EnglishWords(enRaw: string)
    requires Words(ReplaceChar(enRaw, ',', ' ')) != []
    ensures Split(NormaliseEnglish(enRaw), ' ') == CapitalizeAll(Words(ReplaceChar(enRaw, ',', ' ')))
  {
    var words := Words(ReplaceChar(enRaw, ',', ' '));
    var capitalised := CapitalizeAll(words);
    WordsAreWords(ReplaceChar(enRaw, ',', ' '));
    forall i | 0 <= i < |words| ensures ' ' !in capitalised[i] {
      assert IsWord(words[i]);
      CapitalizeWithout(words[i], ' ');
    }
    SplitJoin(capitalised, ' ');
  }

  /**
   * `_split_bilingual_engine_label`: None exactly for a blank label; the
   * description is always "".
   */
  function SplitEngineLabel(raw: string): Option<FlatCategory> {
    var s := Strip(raw);
    if s == [] then None
    else
      match FindTransition(s, 0)
      case None => Some(FlatCategory(s, "", ""))
      case Some(i) => Some(SplitAt(s, i + 1))
  }

  /** The two halves of a label split after its k-th character. */
  function SplitAt(s: string, k: nat): FlatCategory
    requires k <= |s|
  {
    FlatCategory(NormaliseEnglish(Strip(s[k..])), Strip(s[..k]), "")
  }

  /** A label splits exactly when it is not blank, and never gets a description. */
  lemma SplitEngineLabelSpec(raw: string)
    ensures SplitEngineLabel(raw).None? <==> Strip(raw) == []
    ensures SplitEngineLabel(raw).Some? ==> SplitEngineLabel(raw).value.description == ""
  {
  }

  /** Without a CJK-to-ASCII transition the whole stripped label is the English name, unchanged, and the Chinese name is "". */
  lemma SplitWithoutTransition(raw: string)
    requires Strip(raw) != [] && FindTransition(Strip(raw), 0).None?
    ensures SplitEngineLabel(raw) == Some(FlatCategory(Strip(raw), "", ""))
  {
  }

  /**
   * At a transition the Chinese name is the stripped label up to and
   * including the CJK character of the leftmost transition (so the rest of
   * the stripped label is what the English name is normalised from), and
   * the English name has no comma.
   */
  lemma SplitAtTransition(raw: string)
    requires Strip(raw) != [] && FindTransition(Strip(raw), 0).Some?
    ensures var s, k := Strip(raw), FindTransition(Strip(raw), 0).value + 1;
      && SplitEngineLabel(raw).Some?
      && SplitEngineLabel(raw).value.nameCn == s[..k]
      && IsCjk(s[k - 1])
      && ',' !in SplitEngineLabel(raw).value.nameEn
  {
    var s := Strip(raw);
    var i := FindTransition(s, 0).value;
    SplitAtIndex(raw, s, i);
    CjkPrefixStripped(s, i + 1);
    EnglishHasNoComma(Strip(s[i + 1..]));
  }

  lemma SplitAtIndex(raw: string, s: string, i: nat)
    requires s == Strip(raw) && s != [] && FindTransition(s, 0) == Some(i)
    ensures i + 1 < |s| && IsCjk(s[i])
    ensures SplitEngineLabel(raw) == Some(SplitAt(s, i + 1))
  {
  }

  /** A prefix of a stripped string that ends in a CJK character is itself stripped. */
  lemma CjkPrefixStripped(s: string, k: nat)
    requires IsStripped(s) && 0 < k <= |s| && IsCjk(s[k - 1])
    ensures Strip(s[..k]) == s[..k]
  {
    assert !IsSpace(s[k - 1]);
    StripOfStripped(s[..k]);
  }

  // ---------------------------------------------------------------------
  // The engine extractor
  // ---------------------------------------------------------------------

  /** `[ln.strip() for ln in lines]` */
  function StripAll(lines: seq<string>): (r: seq<string>)
    ensures |r| == |lines|
    ensures forall i :: 0 <= i < |lines| ==> r[i] == Strip(lines[i])
  {
    seq(|lines|, i requires 0 <= i < |lines| => Strip(lines[i]))
  }

  /** The non-empty strings, in order (the `if ln.strip()` filter). */
  function NonEmpty(xs: seq<string>): (r: seq<string>)
    ensures forall x :: x in r ==> x in xs && x != []
    decreases |xs|
  {
    if xs == [] then []
    else
      var n := |xs| - 1;
      assert forall x :: x in xs[..n] ==> x in xs;
      if xs[n] == [] then NonEmpty(xs[..n]) else NonEmpty(xs[..n]) + [xs[n]]
  }

  /** The filter keeps something exactly when some string is non-empty, and its last element is the last such string. */
  lemma {:induction false} NonEmptyLast(xs: seq<string>)
    ensures NonEmpty(xs) != [] <==> exists i :: 0 <= i < |xs| && xs[i] != []
    ensures NonEmpty(xs) != [] ==>
      exists i :: 0 <= i < |xs| && NonEmpty(xs)[|NonEmpty(xs)| - 1] == xs[i] &&
        forall j :: i < j < |xs| ==> xs[j] == []
    decreases |xs|
  {
    if xs != [] {
      var n := |xs| - 1;
      var front := xs[..n];
      NonEmptyLast(front);
      assert forall i :: 0 <= i < n ==> front[i] == xs[i];
      if xs[n] == [] {
        assert NonEmpty(xs) == NonEmpty(front);
        if NonEmpty(xs) != [] {
          var i :| 0 <= i < n && NonEmpty(front)[|NonEmpty(front)| - 1] == front[i]
                   && forall j :: i < j < n ==> front[j] == [];
          assert NonEmpty(xs)[|NonEmpty(xs)| - 1] == xs[i];
          assert forall j :: i < j < |xs| ==> xs[j] == [];
        }
      } else {
        var r := NonEmpty(front) + [xs[n]];
        assert NonEmpty(xs) == r;
        assert r[|r| - 1] == xs[n];
      }
    }
  }

  /**
   * The label of one page: the last of the header crop's stripped lines
   * that is not blank, "" when there is none.
   */
  function PageLabel(cropText: string): string {
    var raw := Strip(cropText);
    if raw == [] then []
    else
      var lines := NonEmpty(StripAll(SplitLines(raw)));
      if lines == [] then [] else lines[|lines| - 1]
  }

  /**
   * A page's label is blank exactly when every line of the stripped crop is
   * blank; otherwise it is stripped, and it is the last non-blank line.
   */
  lemma PageLabelIsLastLine(cropText: string)
    ensures PageLabel(cropText) == [] <==>
      var lines := SplitLines(Strip(cropText));
      forall i :: 0 <= i < |lines| ==> Strip(lines[i]) == []
    ensures PageLabel(cropText) != [] ==> IsStripped(PageLabel(cropText))
    ensures PageLabel(cropText) != [] ==>
      var lines := SplitLines(Strip(cropText));
      exists i :: 0 <= i < |lines| && PageLabel(cropText) == Strip(lines[i]) &&
        forall j :: i < j < |lines| ==> Strip(lines[j]) == []
  {
    var raw := Strip(cropText);
    if raw != [] {
      var lines := SplitLines(raw);
      var stripped := StripAll(lines);
      var kept := NonEmpty(stripped);
      NonEmptyLast(stripped);
      if kept == [] {
        assert forall i :: 0 <= i < |lines| ==> stripped[i] == Strip(lines[i]);
      } else {
        assert kept[|kept| - 1] in kept;
        assert PageLabel(cropText) == kept[|kept| - 1];
        var i :| 0 <= i < |stripped| && kept[|kept| - 1] == stripped[i]
                 && forall j :: i < j < |stripped| ==> stripped[j] == [];
        assert PageLabel(cropText) == Strip(lines[i]);
      }
    }
  }

  function PageLabels(cropTexts: seq<string>): (r: seq<string>)
    ensures |r| == |cropTexts|
    ensures forall i :: 0 <= i < |cropTexts| ==> r[i] == PageLabel(cropTexts[i])
  {
    seq(|cropTexts|, i requires 0 <= i < |cropTexts| => PageLabel(cropTexts[i]))
  }

  /** The values of the `Some` entries, in order. */
  function Somes<T>(xs: seq<Option<T>>): seq<T>
    decreases |xs|
  {
    if xs == [] then []
    else
      var n := |xs| - 1;
      if xs[n].Some? then Somes(xs[..n]) + [xs[n].value] else Somes(xs[..n])
  }

  /** When every entry is `Some`, their values are all kept, one each, in order. */
  lemma {:induction false} SomesOfAllSome<T>(xs: seq<Option<T>>)
    requires forall i :: 0 <= i < |xs| ==> xs[i].Some?
    ensures |Somes(xs)| == |xs|
    ensures forall i :: 0 <= i < |xs| ==> xs[i] == Some(Somes(xs)[i])
    decreases |xs|
  {
    if xs != [] {
      var n := |xs| - 1;
      assert forall i :: 0 <= i < n ==> xs[..n][i] == xs[i];
      SomesOfAllSome(xs[..n]);
    }
  }

  /** `[_split_bilingual_engine_label(l) for l in labels]` */
  function SplitAll(labels: seq<string>): (r: seq<Option<FlatCategory>>)
    ensures |r| == |labels|
    ensures forall i :: 0 <= i < |labels| ==> r[i] == SplitEngineLabel(labels[i])
  {
    seq(|labels|, i requires 0 <= i < |labels| => SplitEngineLabel(labels[i]))
  }

  /** The categories of the labels that split, in order. */
  function LabelCategories(labels: seq<string>): seq<FlatCategory> {
    Somes(SplitAll(labels))
  }

  /** `extract_engine_categories`, as a function of the pages' header crops. */
  function EngineCategories(cropTexts: seq<string>): seq<FlatCategory> {
    LabelCategories(UniqueNonEmpty(PageLabels(cropTexts)))
  }

  /**
   * The engine result has exactly one category per distinct non-blank
   * page label, in order of first appearance, each the split of its label.
   */
  lemma EngineOneCategoryPerLabel(cropTexts: seq<string>)
    ensures var u := UniqueNonEmpty(PageLabels(cropTexts));
      && |EngineCategories(cropTexts)| == |u|
      && forall i :: 0 <= i < |u| ==> SplitEngineLabel(u[i]) == Some(EngineCategories(cropTexts)[i])
  {
    var labels := PageLabels(cropTexts);
    var u := UniqueNonEmpty(labels);
    UniqueNonEmptyMembers(labels);
    forall i | 0 <= i < |u| ensures SplitEngineLabel(u[i]).Some? {
      assert u[i] in u;
      var k :| 0 <= k < |labels| && labels[k] == u[i];
      PageLabelIsLastLine(cropTexts[k]);
      StripOfStripped(u[i]);
      SplitEngineLabelSpec(u[i]);
    }
    SomesOfAllSome(SplitAll(u));
  }

  /**
   * The engine extractor's two loops: record each new non-blank label in
   * the `seen` dict and `raw_labels` list, then split each label.
   */
  method ExtractEngineCategories(cropTexts: seq<string>) returns (categories: seq<FlatCategory>)
    ensures categories == EngineCategories(cropTexts)
  {
    ghost var labels := PageLabels(cropTexts);
    assert |labels| == |cropTexts|;
    var seen: map<string, bool> := map[];
    var rawLabels: seq<string> := [];
    var i := 0;
    while i < |cropTexts|
      invariant 0 <= i <= |cropTexts|
      invariant rawLabels == UniqueNonEmpty(labels[..i])
      invariant forall x :: x in seen <==> x in rawLabels
    {
      var header := PageLabel(cropTexts[i]);
      PrefixSnoc(labels, i);
      UniqueNonEmptySnoc(labels[..i], labels[i]);
      if header != [] && header !in seen {
        seen := seen[header := true];
        rawLabels := rawLabels + [header];
      }
      i := i + 1;
    }
    assert labels[..i] == labels;
    categories := SplitLabels(rawLabels);
  }

  /** The loop appending the split of each label. */
  method SplitLabels(rawLabels: seq<string>) returns (categories: seq<FlatCategory>)
    ensures categories == LabelCategories(rawLabels)
  {
    ghost var parts := SplitAll(rawLabels);
    categories := [];
    var j := 0;
    while j < |rawLabels|
      invariant 0 <= j <= |rawLabels|
      invariant categories == Somes(parts[..j])
    {
      var parsed := SplitEngineLabel(rawLabels[j]);
      assert parsed == parts[j];
      SomesSnoc(parts, j);
      if parsed.Some? {
        categories := categories + [parsed.value];
      }
      j := j + 1;
    }
    assert parts[..j] == parts;
  }

  lemma SomesSnoc<T>(xs: seq<Option<T>>, j: nat)
    requires j < |xs|
    ensures Somes(xs[..j + 1]) == Somes(xs[..j]) + (if xs[j].Some? then [xs[j].value] else [])
  {
    assert xs[..j + 1][..j] == xs[..j];
  }

  lemma PrefixSnoc(xs: seq<string>, i: nat)
    requires i < |xs|
    ensures xs[..i + 1] == xs[..i] + [xs[i]]
  {
  }

  // ---------------------------------------------------------------------
  // The table of contents
  // ---------------------------------------------------------------------

  /** The block one page contributes: a "--- Page n ---" header line, then its text. */
  function PageBlock(index: nat, text: string): (b: string)
    ensures StartsWith(b, "--- Page ")
  {
    "--- Page " + NatToString(index + 1) + " ---\n" + text
  }

  /** A block reads back as its header, the 1-based page number, " ---", a newline, and the page text. */
  lemma PageBlockShape(index: nat, text: string)
    ensures var b := PageBlock(index, text);
      && |b| > |text| + 9 && b[..9] == "--- Page " && b[|b| - |text|..] == text
      && b[9..|b| - |text|] == NatToString(index + 1) + " ---\n"
  {
    var b := PageBlock(index, text);
    var header := "--- Page " + NatToString(index + 1) + " ---\n";
    assert b == header + text;
    assert b[|header|..] == text;
  }

  /** The blocks of the non-blank pages, given their stripped texts, in page order. */
  function Blocks(stripped: seq<string>): (r: seq<string>)
    ensures |r| <= |stripped|
    ensures forall i :: 0 <= i < |r| ==> StartsWith(r[i], "--- Page ")
    decreases |stripped|
  {
    if stripped == [] then []
    else
      var n := |stripped| - 1;
      if stripped[n] == [] then Blocks(stripped[..n]) else Blocks(stripped[..n]) + [PageBlock(n, stripped[n])]
  }

  /** The indices of the non-blank pages, in increasing order. */
  function NonBlankPages(stripped: seq<string>): (idx: seq<nat>)
    ensures forall k :: 0 <= k < |idx| ==> idx[k] < |stripped| && stripped[idx[k]] != []
    ensures forall k, l :: 0 <= k < l < |idx| ==> idx[k] < idx[l]
    ensures forall i :: 0 <= i < |stripped| && stripped[i] != [] ==> i in idx
    decreases |stripped|
  {
    if stripped == [] then []
    else
      var n := |stripped| - 1;
      NonBlankPages(stripped[..n]) + (if stripped[n] == [] then [] else [n])
  }

  /** The k-th block is the block of the k-th non-blank page: one per such page, in page order, none for a blank one. */
  lemma {:induction false} BlocksArePages(stripped: seq<string>)
    ensures var idx := NonBlankPages(stripped);
      |Blocks(stripped)| == |idx|
      && forall k :: 0 <= k < |idx| ==> Blocks(stripped)[k] == PageBlock(idx[k], stripped[idx[k]])
    decreases |stripped|
  {
    if stripped != [] {
      var n := |stripped| - 1;
      var pre := stripped[..n];
      BlocksArePages(pre);
      PagesSnoc(stripped);
      var idx := NonBlankPages(pre);
      var all := NonBlankPages(stripped);
      var blocks := Blocks(stripped);
      forall k | 0 <= k < |all|
        ensures blocks[k] == PageBlock(all[k], stripped[all[k]])
      {
        if k < |idx| {
          assert blocks[k] == Blocks(pre)[k] && all[k] == idx[k];
          assert pre[idx[k]] == stripped[idx[k]];
        }
      }
    }
  }

  lemma PagesSnoc(stripped: seq<string>)
    requires stripped != []
    ensures var n := |stripped| - 1;
      && NonBlankPages(stripped) == NonBlankPages(stripped[..n]) + (if stripped[n] == [] then [] else [n])
      && Blocks(stripped) == Blocks(stripped[..n]) + (if stripped[n] == [] then [] else [PageBlock(n, stripped[n])])
  {
  }

  /** No block is produced exactly when every page is blank. */
  lemma {:induction false} BlocksEmpty(stripped: seq<string>)
    ensures Blocks(stripped) == [] <==> forall i :: 0 <= i < |stripped| ==> stripped[i] == []
    decreases |stripped|
  {
    if stripped != [] {
      var n := |stripped| - 1;
      BlocksEmpty(stripped[..n]);
      assert forall i :: 0 <= i < n ==> stripped[..n][i] == stripped[i];
    }
  }

  lemma BlockHead(b: string)
    requires StartsWith(b, "--- Page ")
    ensures b != [] && b[0] == '-'
  {
    assert b[..9] == "--- Page ";
  }

  lemma NotBlank(text: string)
    requires text != [] && !IsSpace(text[0])
    ensures Strip(text) != []
  {
  }

  /** `min(max_toc_pages, total)`, where a negative count reads nothing. */
  function PagesToRead(maxTocPages: int, total: nat): (n: nat)
    ensures n <= total
    ensures maxTocPages >= 0 ==> n == if maxTocPages < total then maxTocPages else total
    ensures maxTocPages < 0 ==> n == 0
  {
    if maxTocPages < 0 then 0 else if maxTocPages < total then maxTocPages else total
  }

  /** `_extract_toc_pages_text`: the blocks of the pages read, joined by a blank line. */
  function TocText(pageTexts: seq<string>, maxTocPages: int): string {
    Join("\n\n", Blocks(StripAll(pageTexts[..PagesToRead(maxTocPages, |pageTexts|)])))
  }

  /** The table-of-contents text is blank exactly when every page read is blank. */
  lemma TocBlankIff(pageTexts: seq<string>, maxTocPages: int)
    ensures var n := PagesToRead(maxTocPages, |pageTexts|);
      Strip(TocText(pageTexts, maxTocPages)) == [] <==> forall i :: 0 <= i < n ==> Strip(pageTexts[i]) == []
  {
    var n := PagesToRead(maxTocPages, |pageTexts|);
    TocTextBlank(StripAll(pageTexts[..n]));
    AllBlank(pageTexts, n);
  }

  lemma AllBlank(pageTexts: seq<string>, n: nat)
    requires n <= |pageTexts|
    ensures (forall i :: 0 <= i < n ==> StripAll(pageTexts[..n])[i] == []) <==>
            (forall i :: 0 <= i < n ==> Strip(pageTexts[i]) == [])
  {
    var stripped := StripAll(pageTexts[..n]);
    assert forall i :: 0 <= i < n ==> stripped[i] == Strip(pageTexts[i]);
  }

  lemma TocTextBlank(stripped: seq<string>)
    ensures Strip(Join("\n\n", Blocks(stripped))) == [] <==> forall i :: 0 <= i < |stripped| ==> stripped[i] == []
  {
    var blocks := Blocks(stripped);
    BlocksEmpty(stripped);
    if blocks != [] {
      BlockHead(blocks[0]);
      JoinHead("\n\n", blocks);
      NotBlank(Join("\n\n", blocks));
    }
  }

  lemma BlocksSnoc(stripped: seq<string>, i: nat)
    requires i < |stripped|
    ensures Blocks(stripped[..i + 1])
      == if stripped[i] == [] then Blocks(stripped[..i]) else Blocks(stripped[..i]) + [PageBlock(i, stripped[i])]
  {
    assert stripped[..i + 1][..i] == stripped[..i];
  }

  /** The loop over the first pages, appending one block per non-blank page. */
  method ExtractTocPagesText(pageTexts: seq<string>, maxTocPages: int) returns (text: string)
    ensures text == TocText(pageTexts, maxTocPages)
  {
    var pagesToRead := PagesToRead(maxTocPages, |pageTexts|);
    ghost var stripped := StripAll(pageTexts[..pagesToRead]);
    var blocks: seq<string> := [];
    var i := 0;
    while i < pagesToRead
      invariant 0 <= i <= pagesToRead
      invariant blocks == Blocks(stripped[..i])
    {
      var t := Strip(pageTexts[i]);
      assert t == stripped[i];
      BlocksSnoc(stripped, i);
      if t != [] {
        blocks := blocks + [PageBlock(i, t)];
      }
      i := i + 1;
    }
    assert stripped[..i] == stripped;
    text := Join("\n\n", blocks);
  }

  // ---------------------------------------------------------------------
  // The transmission extractor
  // ---------------------------------------------------------------------

  datatype ExtractionError =
    | NoTocText                    // the ValueError for a blank table of contents
    | ModelCallFailed              // the model call raises; nothing catches it
    | InvalidJson                  // json.loads raises
    | MalformedCategories          // the reply is not an object, or a category has no setdefault
    | MissingClient                // transmission without a model client
    | UnknownPartbookType(kind: string)

  const DescriptionKey: string := "category_description"

  /** `cat.setdefault("category_description", "")` */
  function WithDescription(cat: map<string, Json>): (r: map<string, Json>)
    ensures r.Keys == cat.Keys + {DescriptionKey}
    ensures forall k :: k in cat ==> r[k] == cat[k]
    ensures DescriptionKey !in cat ==> r[DescriptionKey] == JStr("")
  {
    if DescriptionKey in cat then cat else cat[DescriptionKey := JStr("")]
  }

  /** The post-processing loop over the categories; a non-object category raises. */
  function WithDescriptions(cats: seq<Json>): (r: Option<seq<Json>>)
    ensures r.Some? <==> forall i :: 0 <= i < |cats| ==> cats[i].JObj?
    ensures r.Some? ==> |r.value| == |cats|
    ensures r.Some? ==> forall i :: 0 <= i < |cats| ==> r.value[i] == JObj(WithDescription(cats[i].fields))
    decreases |cats|
  {
    if cats == [] then Some([])
    else
      var n := |cats| - 1;
      assert forall i :: 0 <= i < n ==> cats[..n][i] == cats[i];
      match WithDescriptions(cats[..n])
      case None => None
      case Some(init) =>
        if cats[n].JObj? then Some(init + [JObj(WithDescription(cats[n].fields))]) else None
  }

  /**
   * `for cat in extracted.get("categories", []): cat.setdefault(...)`.
   * Iterating an empty string or object does nothing; a non-empty one
   * yields strings, which have no setdefault.
   */
  function PostProcess(extracted: Json): (r: Result<Json, ExtractionError>)
    ensures r.Success? ==> r.value.JObj? && extracted.JObj? && r.value.fields.Keys == extracted.fields.Keys
    ensures r.Success? ==> forall k :: k in extracted.fields && k != "categories" ==>
      r.value.fields[k] == extracted.fields[k]
    ensures r.Success? && "categories" in extracted.fields && extracted.fields["categories"].JArr? ==>
      var cats := extracted.fields["categories"].items;
      && WithDescriptions(cats).Some?
      && r.value.fields["categories"] == JArr(WithDescriptions(cats).value)
    ensures r.Failure? ==> r.error == MalformedCategories
  {
    match extracted
    case JObj(m) =>
      if "categories" !in m then Success(extracted)
      else
        (match m["categories"]
         case JArr(cats) =>
           (match WithDescriptions(cats)
            case None => Failure(MalformedCategories)
            case Some(done) => Success(JObj(m["categories" := JArr(done)])))
         case JStr(s) => if s == [] then Success(extracted) else Failure(MalformedCategories)
         case JObj(f) => if f == map[] then Success(extracted) else Failure(MalformedCategories)
         case _ => Failure(MalformedCategories))
    case _ => Failure(MalformedCategories)
  }

  /** The model client: its reply to the one call (None when it raises) and json.loads. */
  datatype ModelClient = ModelClient(reply: Option<string>, parse: string -> Option<Json>)

  /** `extract_transmission_categories`, as a function of the page texts and the model. */
  function TransmissionExtraction(pageTexts: seq<string>, maxTocPages: int, client: ModelClient): (r: Result<Json, ExtractionError>)
    ensures Strip(TocText(pageTexts, maxTocPages)) == [] ==> r == Failure(NoTocText)
    ensures Strip(TocText(pageTexts, maxTocPages)) != [] && client.reply.None? ==> r == Failure(ModelCallFailed)
    ensures r.Success? ==> PdfUtils.ParseLlmJson(client.reply.value, client.parse).Some?
    ensures r.Success? ==> r == PostProcess(PdfUtils.ParseLlmJson(client.reply.value, client.parse).value)
    ensures r.Failure? ==> !r.error.MissingClient? && !r.error.UnknownPartbookType?
  {
    if Strip(TocText(pageTexts, maxTocPages)) == [] then Failure(NoTocText)
    else
      match client.reply
      case None => Failure(ModelCallFailed)
      case Some(text) =>
        match PdfUtils.ParseLlmJson(text, client.parse)
        case None => Failure(InvalidJson)
        case Some(extracted) => PostProcess(extracted)
  }

  /** The setdefault loop, which updates the categories one by one. */
  method SetDefaultDescriptions(cats: seq<Json>) returns (r: Option<seq<Json>>)
    ensures r == WithDescriptions(cats)
  {
    var done: seq<Json> := [];
    var i := 0;
    while i < |cats|
      invariant 0 <= i <= |cats|
      invariant WithDescriptions(cats[..i]) == Some(done)
    {
      assert cats[..i + 1][..i] == cats[..i];
      if !cats[i].JObj? {
        NoObjectNoDescriptions(cats, i);
        return None;
      }
      done := done + [JObj(WithDescription(cats[i].fields))];
      i := i + 1;
    }
    assert cats[..i] == cats;
    r := Some(done);
  }

  lemma NoObjectNoDescriptions(cats: seq<Json>, i: nat)
    requires i < |cats| && !cats[i].JObj?
    ensures WithDescriptions(cats).None?
  {
  }

  /** The post-processing as the source runs it, updating the reply's categories in place. */
  method PostProcessReply(extracted: Json) returns (r: Result<Json, ExtractionError>)
    ensures r == PostProcess(extracted)
  {
    if !extracted.JObj? {
      return Failure(MalformedCategories);
    }
    var m := extracted.fields;
    if "categories" !in m {
      return Success(extracted);
    }
    match m["categories"] {
      case JArr(cats) =>
        var done := SetDefaultDescriptions(cats);
        if done.None? {
          return Failure(MalformedCategories);
        }
        r := Success(JObj(m["categories" := JArr(done.value)]));
      case JStr(str) =>
        r := if str == [] then Success(extracted) else Failure(MalformedCategories);
      case JObj(f) =>
        r := if f == map[] then Success(extracted) else Failure(MalformedCategories);
      case _ =>
        r := Failure(MalformedCategories);
    }
  }

  /** The transmission extractor as the source runs it; it computes exactly `TransmissionExtraction`. */
  method ExtractTransmissionCategories(pageTexts: seq<string>, maxTocPages: int, client: ModelClient)
    returns (r: Result<Json, ExtractionError>)
    ensures r == TransmissionExtraction(pageTexts, maxTocPages, client)
  {
    var tocText := ExtractTocPagesText(pageTexts, maxTocPages);
    if Strip(tocText) == [] {
      return Failure(NoTocText);
    }
    if client.reply.None? {
      return Failure(ModelCallFailed);
    }
    var parsed := PdfUtils.ParseLlmJson(client.reply.value, client.parse);
    if parsed.None? {
      return Failure(InvalidJson);
    }
    r := PostProcessReply(parsed.value);
  }

  // ---------------------------------------------------------------------
  // The dispatcher
  // ---------------------------------------------------------------------

  /** What the extractors read from one partbook PDF. */
  datatype PartbookPdf = PartbookPdf(cropTexts: seq<string>, pageTexts: seq<string>)

  function CategoryJson(c: FlatCategory): Json {
    JObj(map["category_name_en" := JStr(c.nameEn), "category_name_cn" := JStr(c.nameCn),
             "category_description" := JStr(c.description)])
  }

  /** `{"categories": [...]}` */
  function CategoriesJson(cats: seq<FlatCategory>): (j: Json)
    ensures j.JObj? && "categories" in j.fields && j.fields["categories"].JArr?
    ensures |j.fields["categories"].items| == |cats|
  {
    JObj(map["categories" := JArr(seq(|cats|, i requires 0 <= i < |cats| => CategoryJson(cats[i])))])
  }

  /**
   * `extract_engine_or_transmission`: the type is lowered and stripped.
   * "engine" never needs a model client; "transmission" fails without one;
   * any other type fails.
   */
  function EngineOrTransmission(pdf: PartbookPdf, partbookType: string, client: Option<ModelClient>,
                                maxTocPages: int): (r: Result<Json, ExtractionError>)
    ensures var kind := Strip(Lower(partbookType));
      kind == "engine" ==> r == Success(CategoriesJson(EngineCategories(pdf.cropTexts)))
    ensures r == Failure(MissingClient) <==> Strip(Lower(partbookType)) == "transmission" && client.None?
    ensures r.Failure? && r.error.UnknownPartbookType? <==>
      Strip(Lower(partbookType)) != "engine" && Strip(Lower(partbookType)) != "transmission"
    ensures Strip(Lower(partbookType)) == "transmission" && client.Some? ==>
      r == TransmissionExtraction(pdf.pageTexts, maxTocPages, client.value)
  {
    var kind := Strip(Lower(partbookType));
    if kind == "engine" then Success(CategoriesJson(EngineCategories(pdf.cropTexts)))
    else if kind == "transmission" then
      match client
      case None => Failure(MissingClient)
      case Some(c) => TransmissionExtraction(pdf.pageTexts, maxTocPages, c)
    else Failure(UnknownPartbookType(kind))
  }

  /** The dispatcher as the source runs it, calling the two extractors. */
  method ExtractEngineOrTransmission(pdf: PartbookPdf, partbookType: string, client: Option<ModelClient>,
                                     maxTocPages: int) returns (r: Result<Json, ExtractionError>)
    ensures r == EngineOrTransmission(pdf, partbookType, client, maxTocPages)
  {
    var kind := Strip(Lower(partbookType));
    if kind == "engine" {
      var cats := ExtractEngineCategories(pdf.cropTexts);
      r := Success(CategoriesJson(cats));
    } else if kind == "transmission" {
      if client.None? {
        return Failure(MissingClient);
      }
      r := ExtractTransmissionCategories(pdf.pageTexts, maxTocPages, client.value);
    } else {
      r := Failure(UnknownPartbookType(kind));
    }
  }
}
