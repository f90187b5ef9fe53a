/**
 * Format sniffing, manifest extraction and markdown-fence stripping shared by
 * the extractors (pdf_utils.py; the axle extractor holds copies of the same
 * three rules).
 */
module PdfUtils {
  import opened Wrappers
  import opened Text
  import opened JsonValue

  /** The first min(n, |file|) bytes, as `f.read(n)` returns them. */
  function ReadPrefix(file: seq<bv8>, n: nat): (r: seq<bv8>)
    ensures |r| == if n <= |file| then n else |file|
    ensures r == file[..|r|]
  {
    if n <= |file| then file[..n] else file
  }

  /** The two magic bytes b"PK". */
  const ZipMagic: seq<bv8> := [0x50, 0x4B]

  /**
   * is_zip_pdf: the file as read from disk, or None when opening or
   * reading it raises OSError (then the answer is false).
   */
  function IsZipPdf(file: Option<seq<bv8>>): (r: bool)
    ensures r <==> file.Some? && |file.value| >= 2 && file.value[0] == 0x50 && file.value[1] == 0x4B
    ensures file.None? ==> !r
  {
    match file
    case None => false
    case Some(bytes) => ReadPrefix(bytes, 2) == ZipMagic
  }

  /** The four bytes of a little-endian 32-bit value, lowest first. */
  function LittleEndian32(v: bv32): (r: seq<bv8>)
    ensures |r| == 4
  {
    [(v & 0xFF) as bv8, ((v >> 8) & 0xFF) as bv8, ((v >> 16) & 0xFF) as bv8, ((v >> 24) & 0xFF) as bv8]
  }

  /** Local file header signature, section 4.3.7 of PKWARE's APPNOTE.TXT. */
  const LocalFileHeaderSignature: bv32 := 0x04034b50

  /** Every ZIP archive, which starts with a local file header, is detected. */
  lemma ZipArchiveDetected(rest: seq<bv8>)
    ensures IsZipPdf(Some(LittleEndian32(LocalFileHeaderSignature) + rest))
  {
    var h := LittleEndian32(LocalFileHeaderSignature);
    assert h == [0x50, 0x4B, 0x03, 0x04];
    assert (h + rest)[0] == 0x50 && (h + rest)[1] == 0x4B;
  }

  /** A classic PDF, which starts with "%PDF", is not taken for a ZIP archive. */
  lemma PdfHeaderNotZip(rest: seq<bv8>)
    ensures !IsZipPdf(Some([0x25, 0x50, 0x44, 0x46] + rest))
  {
  }

  /** Why extracting the manifest can fail. */
  datatype ZipError =
    | BadArchive          // zipfile.ZipFile raises (not a ZIP, corrupt)
    | ManifestNotFound    // FileNotFoundError: no manifest.json at the archive root
    | ManifestNotJson     // json.loads raises on the manifest text

  const ManifestName: string := "manifest.json"

  /**
   * extract_zip_pdf: the archive is given as its member names and contents
   * (None when it cannot be opened); `decode` stands for reading the
   * manifest as UTF-8 and json.loads (None when either raises).
   */
  function ExtractZipPdf(archive: Option<map<string, seq<bv8>>>, decode: seq<bv8> -> Option<Json>): (r: Result<Json, ZipError>)
    ensures archive.None? <==> r == Failure(BadArchive)
    ensures r == Failure(ManifestNotFound) <==> archive.Some? && ManifestName !in archive.value
    ensures r.Success? <==> archive.Some? && ManifestName in archive.value && decode(archive.value[ManifestName]).Some?
    ensures r.Success? ==> r.value == decode(archive.value[ManifestName]).value
  {
    match archive
    case None => Failure(BadArchive)
    case Some(entries) =>
      if ManifestName !in entries then Failure(ManifestNotFound)
      else match decode(entries[ManifestName])
        case None => Failure(ManifestNotJson)
        case Some(j) => Success(j)
  }

  const Fence: string := "```"

  predicate StartsWithFence(s: string) {
    StartsWith(s, Fence)
  }

  /** A line that the fence filter drops. */
  predicate IsFenceLine(ln: string) {
    StartsWithFence(Strip(ln))
  }

  /** The elements for which `drop` is false, in their order. */
  function Keep(xs: seq<string>, drop: string -> bool): seq<string>
    decreases |xs|
  {
    if xs == [] then []
    else (if drop(xs[0]) then [] else [xs[0]]) + Keep(xs[1..], drop)
  }

  lemma {:induction false} KeepDrops(xs: seq<string>, drop: string -> bool)
    ensures forall i :: 0 <= i < |Keep(xs, drop)| ==> !drop(Keep(xs, drop)[i])
    decreases |xs|
  {
    if xs != [] {
      var rest := Keep(xs[1..], drop);
      KeepDrops(xs[1..], drop);
      var head: seq<string> := if drop(xs[0]) then [] else [xs[0]];
      assert Keep(xs, drop) == head + rest;
      forall i | 0 <= i < |head + rest|
        ensures !drop((head + rest)[i])
      {
        if i >= |head| {
          assert (head + rest)[i] == rest[i - |head|];
        }
      }
    }
  }

  lemma {:induction false} KeepAppend(a: seq<string>, b: seq<string>, drop: string -> bool)
    ensures Keep(a + b, drop) == Keep(a, drop) + Keep(b, drop)
    decreases |a|
  {
    if a == [] {
      assert a + b == b;
    } else {
      assert (a + b)[0] == a[0];
      assert (a + b)[1..] == a[1..] + b;
      KeepAppend(a[1..], b, drop);
    }
  }

  lemma {:induction false} KeepAll(xs: seq<string>, drop: string -> bool)
    requires forall i :: 0 <= i < |xs| ==> !drop(xs[i])
    ensures Keep(xs, drop) == xs
    decreases |xs|
  {
    if xs != [] {
      KeepAll(xs[1..], drop);
    }
  }

  /** The lines that are not fence lines, in their order. */
  function KeepNonFence(lines: seq<string>): seq<string> {
    Keep(lines, IsFenceLine)
  }

  /** No fence line survives the filter. */
  lemma KeepNonFenceDropsFences(lines: seq<string>)
    ensures forall i :: 0 <= i < |KeepNonFence(lines)| ==> !IsFenceLine(KeepNonFence(lines)[i])
  {
    KeepDrops(lines, IsFenceLine);
  }

  /** The filter works line by line: it distributes over concatenation. */
  lemma KeepNonFenceAppend(a: seq<string>, b: seq<string>)
    ensures KeepNonFence(a + b) == KeepNonFence(a) + KeepNonFence(b)
  {
    KeepAppend(a, b, IsFenceLine);
  }

  /**
   * The text that parse_llm_json hands to json.loads: the stripped reply,
   * and when it opens with a fence, its lines minus every fence line,
   * joined by newlines and stripped again.
   */
  function StripLlmFences(text: string): string {
    var t := Strip(text);
    if StartsWithFence(t) then Strip(Join("\n", KeepNonFence(SplitLines(t)))) else t
  }

  /**
   * parse_llm_json, with json.loads as the oracle `parse` (None when it
   * raises): what json.loads receives is stripped and never opens with a
   * fence, and a reply without an opening fence reaches it stripped and
   * otherwise unchanged.
   */
  function ParseLlmJson(text: string, parse: string -> Option<Json>): (r: Option<Json>)
    ensures r == parse(StripLlmFences(text))
    ensures IsStripped(StripLlmFences(text)) && !StartsWithFence(StripLlmFences(text))
    ensures !StartsWithFence(Strip(text)) ==> r == parse(Strip(text))
  {
    StripLlmFencesShape(text);
    parse(StripLlmFences(text))
  }

  /** A reply that does not open with a fence is passed on stripped and otherwise unchanged. */
  lemma UnfencedPassThrough(text: string)
    requires !StartsWithFence(Strip(text))
    ensures StripLlmFences(text) == Strip(text)
  {
  }

  lemma {:induction false} TrimLeftAppend(a: string, b: string)
    ensures TrimLeft(a) != [] ==> TrimLeft(a + b) == TrimLeft(a) + b
    ensures TrimLeft(a) == [] ==> TrimLeft(a + b) == TrimLeft(b)
    decreases |a|
  {
    if a == [] {
      assert a + b == b;
    } else if IsSpace(a[0]) {
      assert (a + b)[1..] == a[1..] + b;
      TrimLeftAppend(a[1..], b);
    } else {
      assert (a + b)[0] == a[0];
    }
  }

  lemma FenceByChars(s: string)
    ensures StartsWithFence(s) <==> |s| >= 3 && s[0] == '`' && s[1] == '`' && s[2] == '`'
  {
    if |s| >= 3 {
      assert s[..3] == [s[0], s[1], s[2]];
    }
  }

  /** Right-trimming cannot remove an opening fence, so a fence line is one whose left-trimmed form opens with a fence. */
  lemma FenceLineByTrimLeft(ln: string)
    ensures IsFenceLine(ln) <==> StartsWithFence(TrimLeft(ln))
  {
    var t := TrimLeft(ln);
    var r := TrimRight(t);
    assert Strip(ln) == r;
    FenceByChars(t);
    FenceByChars(r);
    if StartsWithFence(t) {
      assert !IsSpace(t[2]);
      assert |r| > 2;
    }
  }

  /** Text that does not open with a fence keeps not doing so when whitespace follows it. */
  lemma NoFenceBeforeSpace(t: string, tail: string)
    requires !StartsWithFence(t)
    requires tail == [] || IsSpace(tail[0])
    ensures !StartsWithFence(t + tail)
  {
    var u := t + tail;
    FenceByChars(t);
    FenceByChars(u);
    if |t| < 3 && |u| >= 3 {
      assert u[|t|] == tail[0];
    }
  }

  lemma TrimLeftNewline(rest: string)
    ensures TrimLeft("\n" + rest) == TrimLeft(rest)
  {
    var nl := "\n" + rest;
    assert nl[0] == '\n' && IsSpace(nl[0]);
    assert TrimLeft(nl) == TrimLeft(nl[1..]);
    assert nl[1..] == rest;
  }

  /** A non-fence line in front of text that starts with whitespace keeps it from opening with a fence. */
  lemma JoinedLineStep(ln: string, tail: string)
    requires !IsFenceLine(ln)
    requires tail != [] && IsSpace(tail[0]) && !StartsWithFence(TrimLeft(tail))
    ensures !StartsWithFence(TrimLeft(ln + tail))
  {
    TrimLeftAppend(ln, tail);
    if TrimLeft(ln) != [] {
      FenceLineByTrimLeft(ln);
      NoFenceBeforeSpace(TrimLeft(ln), tail);
    }
  }

  lemma JoinedLinesStep(lines: seq<string>)
    requires |lines| >= 2 && !IsFenceLine(lines[0])
    requires !StartsWithFence(TrimLeft(Join("\n", lines[1..])))
    ensures !StartsWithFence(TrimLeft(Join("\n", lines)))
  {
    var rest := Join("\n", lines[1..]);
    var tail := "\n" + rest;
    JoinCons("\n", lines);
    TrimLeftNewline(rest);
    JoinedLineStep(lines[0], tail);
  }

  /** Joining non-fence lines never yields text that opens with a fence. */
  lemma {:induction false} JoinedNonFenceLines(lines: seq<string>)
    requires forall i :: 0 <= i < |lines| ==> !IsFenceLine(lines[i])
    ensures !StartsWithFence(TrimLeft(Join("\n", lines)))
    decreases |lines|
  {
    if |lines| == 0 {
      FenceByChars(TrimLeft(Join("\n", lines)));
    } else if |lines| == 1 {
      FenceLineByTrimLeft(lines[0]);
      assert Join("\n", lines) == lines[0];
    } else {
      JoinedNonFenceLines(lines[1..]);
      JoinedLinesStep(lines);
    }
  }

  /** The filtered text is stripped and never opens with a fence. */
  lemma StripLlmFencesShape(text: string)
    ensures IsStripped(StripLlmFences(text))
    ensures !StartsWithFence(StripLlmFences(text))
  {
    var t := Strip(text);
    if StartsWithFence(t) {
      var j := Join("\n", KeepNonFence(SplitLines(t)));
      KeepNonFenceDropsFences(SplitLines(t));
      JoinedNonFenceLines(KeepNonFence(SplitLines(t)));
      var l := TrimLeft(j);
      var r := TrimRight(l);
      assert Strip(j) == r;
      FenceByChars(l);
      FenceByChars(r);
    }
  }

  /** Fence stripping is idempotent: a second pass changes nothing. */
  lemma StripLlmFencesIdempotent(text: string)
    ensures StripLlmFences(StripLlmFences(text)) == StripLlmFences(text)
  {
    StripLlmFencesShape(text);
    StripOfStripped(StripLlmFences(text));
  }

  /** An opening fence line with any language tag is a fence line. */
  lemma OpeningFenceLine(tag: string)
    ensures StartsWithFence(Fence + tag) && IsFenceLine(Fence + tag)
  {
    var f := Fence + tag;
    assert f[..3] == Fence;
    assert f[0] == '`';
    assert TrimLeft(f) == f;
    FenceLineByTrimLeft(f);
  }

  /** The lines of a fenced reply, read back from its text. */
  lemma FencedLines(tag: string, body: seq<string>)
    requires '\n' !in tag
    requires forall i :: 0 <= i < |body| ==> '\n' !in body[i]
    ensures var lines := [Fence + tag] + body + [Fence];
      var text := Join("\n", lines);
      Strip(text) == text && StartsWithFence(text) && SplitLines(text) == lines
  {
    var lines := [Fence + tag] + body + [Fence];
    var text := Join("\n", lines);
    forall i | 0 <= i < |lines|
      ensures '\n' !in lines[i]
    {
      if 0 < i < |lines| - 1 {
        assert lines[i] == body[i - 1];
      }
    }
    assert text == (Fence + tag) + "\n" + Join("\n", lines[1..]);
    assert text[0] == '`';
    OpeningFenceLine(tag);
    assert text[..3] == (Fence + tag)[..3];
    JoinAppend("\n", [Fence + tag] + body, Fence);
    assert text[|text| - 1] == '`';
    StripOfStripped(text);
    SplitJoin(lines, '\n');
  }

  /** The fence filter on a fenced text, once its lines are known. */
  lemma FencedText(text: string, lines: seq<string>, body: seq<string>)
    requires Strip(text) == text && StartsWithFence(text)
    requires SplitLines(text) == lines && KeepNonFence(lines) == body
    ensures StripLlmFences(text) == Strip(Join("\n", body))
  {
  }

  lemma DropOpeningFence(tag: string, rest: seq<string>)
    ensures KeepNonFence([Fence + tag] + rest) == KeepNonFence(rest)
  {
    OpeningFenceLine(tag);
    KeepNonFenceAppend([Fence + tag], rest);
    assert KeepNonFence([Fence + tag]) == [];
  }

  lemma ClosingFenceDropped()
    ensures KeepNonFence([Fence]) == []
  {
    OpeningFenceLine([]);
    assert Fence + [] == Fence;
    assert [Fence][1..] == [];
    assert Keep([], IsFenceLine) == [];
    assert Keep([Fence], IsFenceLine) == [] + Keep([], IsFenceLine);
  }

  lemma DropClosingFence(lines: seq<string>)
    ensures KeepNonFence(lines + [Fence]) == KeepNonFence(lines)
  {
    KeepNonFenceAppend(lines, [Fence]);
    ClosingFenceDropped();
  }

  /** The filter drops the opening and the closing fence line around a body. */
  lemma DropOuterFences(tag: string, body: seq<string>)
    ensures KeepNonFence([Fence + tag] + body + [Fence]) == KeepNonFence(body)
  {
    assert [Fence + tag] + body + [Fence] == [Fence + tag] + (body + [Fence]);
    DropOpeningFence(tag, body + [Fence]);
    DropClosingFence(body);
  }

  /**
   * A reply made of an opening fence with a language tag, a body of
   * non-fence lines and a closing fence yields the stripped body.
   */
  lemma FencedRoundTrip(tag: string, body: seq<string>)
    requires '\n' !in tag
    requires forall i :: 0 <= i < |body| ==> '\n' !in body[i] && !IsFenceLine(body[i])
    ensures StripLlmFences(Join("\n", [Fence + tag] + body + [Fence])) == Strip(Join("\n", body))
  {
    var lines := [Fence + tag] + body + [Fence];
    var text := Join("\n", lines);
    FencedLines(tag, body);
    DropOuterFences(tag, body);
    KeepAllNonFence(body);
    FencedText(text, lines, body);
  }

  lemma KeepAllNonFence(lines: seq<string>)
    requires forall i :: 0 <= i < |lines| ==> !IsFenceLine(lines[i])
    ensures KeepNonFence(lines) == lines
  {
    KeepAll(lines, IsFenceLine);
  }
}
