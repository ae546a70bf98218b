/** The string helpers of `src/utils.py`. */
module Utils {
  import opened Text

  /** Python's character classes, left abstract: `isSpace` is `\s` (and
      `str.isspace`), `isWord` is `\w`. */
  datatype CharClasses = CharClasses(isSpace: char -> bool, isWord: char -> bool)

  /** Punctuation that `clean_text` keeps besides word characters and whitespace. */
  const KeptPunctuation: string := ".,!?;:-()"

  /** A character that survives the character filter of `clean_text`. */
  predicate Allowed(cc: CharClasses, c: char)
  {
    cc.isWord(c) || cc.isSpace(c) || c in KeptPunctuation
  }

  /** `re.sub(r'\s+', ' ', s)`: every maximal run of whitespace becomes one ' '.
      No two whitespace characters end up next to each other, the only
      whitespace left is ' ', and every other character comes from `s`. */
  function CollapseWhitespace(isSpace: char -> bool, s: string): (r: string)
    ensures |r| <= |s| && (|r| == 0 <==> |s| == 0)
    ensures |s| > 0 && !isSpace(s[0]) ==> r[0] == s[0]
    ensures forall i :: 0 <= i < |r| && isSpace(r[i]) ==> r[i] == ' '
    ensures forall c :: c in r ==> c == ' ' || c in s
    ensures forall i :: 0 <= i < |r| - 1 ==> !isSpace(r[i]) || !isSpace(r[i + 1])
    decreases |s|
  {
    if |s| == 0 then ""
    else if isSpace(s[0]) then
      TrimLeftSuffix(isSpace, s);
      " " + CollapseWhitespace(isSpace, TrimLeft(isSpace, s))
    else
      var r := [s[0]] + CollapseWhitespace(isSpace, s[1..]);
      assert r[1..] == CollapseWhitespace(isSpace, s[1..]);
      r
  }

  /** Collapsing read left to right: a non-whitespace character is appended
      as it is; a whitespace character appends one ' ' when it starts a run
      and nothing when it continues one. So each maximal run of whitespace
      becomes exactly one ' ', in its place. */
  lemma {:induction false} CollapseAppend(isSpace: char -> bool, s: string, c: char)
    ensures CollapseWhitespace(isSpace, s + [c]) == CollapseWhitespace(isSpace, s) + RunStep(isSpace, s, c)
    decreases |s|
  {
    var t := s + [c];
    if |s| == 0 {
      assert t == [c] && t[1..] == "";
      if isSpace(c) {
        assert TrimLeft(isSpace, t) == TrimLeft(isSpace, t[1..]);
      }
    } else if !isSpace(s[0]) {
      assert t[0] == s[0] && t[1..] == s[1..] + [c];
      assert CollapseWhitespace(isSpace, t) == [s[0]] + CollapseWhitespace(isSpace, s[1..] + [c]);
      assert CollapseWhitespace(isSpace, s) == [s[0]] + CollapseWhitespace(isSpace, s[1..]);
      assert RunStep(isSpace, s[1..], c) == RunStep(isSpace, s, c);
      CollapseAppend(isSpace, s[1..], c);
    } else {
      CollapseAppendAfterSpace(isSpace, s, c);
    }
  }

  /** What appending `c` to `s` adds to the collapsed text: `c` itself when
      it is not whitespace; one ' ' when it starts a run of whitespace;
      nothing when it continues one. */
  function RunStep(isSpace: char -> bool, s: string, c: char): string
  {
    if !isSpace(c) then [c] else if |s| > 0 && isSpace(s[|s| - 1]) then "" else " "
  }

  /** The case of `CollapseAppend` where `s` starts with whitespace. */
  lemma {:induction false} CollapseAppendAfterSpace(isSpace: char -> bool, s: string, c: char)
    requires |s| > 0 && isSpace(s[0])
    ensures CollapseWhitespace(isSpace, s + [c]) == CollapseWhitespace(isSpace, s) + RunStep(isSpace, s, c)
    decreases |s|, 0
  {
    var t := s + [c];
    var l := TrimLeft(isSpace, s);
    TrimLeftAppend(isSpace, s, c);
    TrimLeftSuffix(isSpace, s);
    assert CollapseWhitespace(isSpace, t) == " " + CollapseWhitespace(isSpace, TrimLeft(isSpace, t));
    assert CollapseWhitespace(isSpace, s) == " " + CollapseWhitespace(isSpace, l);
    if |l| == 0 {
      assert IsBlank(isSpace, s[..|s|]) && s[..|s|] == s;
      assert isSpace(s[|s| - 1]);
      assert [c][1..] == "";
    } else {
      assert !IsBlank(isSpace, s);
      assert l[|l| - 1] == s[|s| - 1];
      assert RunStep(isSpace, l, c) == RunStep(isSpace, s, c);
      CollapseAppend(isSpace, l, c);
    }
  }

  /** Collapsing keeps the non-whitespace characters of `s`, in order. */
  lemma {:induction false} CollapseKeepsNonSpace(isSpace: char -> bool, s: string)
    requires isSpace(' ')
    ensures Filter(c => !isSpace(c), CollapseWhitespace(isSpace, s)) == Filter(c => !isSpace(c), s)
    decreases |s|
  {
    if |s| > 0 {
      if isSpace(s[0]) {
        var t := TrimLeft(isSpace, s);
        TrimLeftSuffix(isSpace, s);
        CollapseKeepsNonSpace(isSpace, t);
        NonSpacesOfBlankPrefix(isSpace, s, |s| - |t|);
      } else {
        var r := CollapseWhitespace(isSpace, s);
        assert r == [s[0]] + CollapseWhitespace(isSpace, s[1..]);
        assert r[1..] == CollapseWhitespace(isSpace, s[1..]);
        CollapseKeepsNonSpace(isSpace, s[1..]);
      }
    }
  }

  /** Dropping a blank prefix does not change the non-whitespace characters. */
  lemma {:induction false} NonSpacesOfBlankPrefix(isSpace: char -> bool, s: string, k: nat)
    requires k <= |s| && IsBlank(isSpace, s[..k])
    ensures Filter(c => !isSpace(c), s) == Filter(c => !isSpace(c), s[k..])
  {
    if k > 0 {
      assert s[1..][..k - 1] == s[1..k];
      NonSpacesOfBlankPrefix(isSpace, s[1..], k - 1);
      assert s[1..][k - 1..] == s[k..];
    }
  }

  /** `re.sub(r'[^\w\s.,!?;:\-\(\)]', '', s)`: a character stays exactly
      when it is allowed, and order is kept. */
  function KeepAllowed(cc: CharClasses, s: string): (r: string)
    ensures |r| <= |s|
    ensures forall i :: 0 <= i < |r| ==> Allowed(cc, r[i])
  {
    Filter(c => Allowed(cc, c), s)
  }

  /** A character is in the filtered text exactly when it is in the text
      and allowed. */
  lemma KeepAllowedMembers(cc: CharClasses, s: string)
    ensures forall c :: c in KeepAllowed(cc, s) <==> c in s && Allowed(cc, c)
  {
    var r := KeepAllowed(cc, s);
    forall c | c in s && Allowed(cc, c)
      ensures c in r
    {
      FilterKeeps(c => Allowed(cc, c), s, c);
    }
    forall c | c in r
      ensures c in s && Allowed(cc, c)
    {
      var i :| 0 <= i < |r| && r[i] == c;
    }
  }

  /** `clean_text`: collapse whitespace, drop every character that is not a word
      character, whitespace or kept punctuation, then strip. The result is
      never longer than the text and holds only allowed characters. */
  function CleanText(cc: CharClasses, text: string): (r: string)
    ensures |r| <= |text|
  {
    var kept := KeepAllowed(cc, CollapseWhitespace(cc.isSpace, text));
    StripInner(cc.isSpace, kept);
    Strip(cc.isSpace, kept)
  }

  /** What `clean_text` promises: no whitespace at either end, every
      character a word character, a plain space or kept punctuation, and the
      text's own non-whitespace characters that are allowed all survive, in
      order. (`\s` matches ' ', as Python's does.) */
  lemma CleanTextCharacters(cc: CharClasses, text: string)
    requires cc.isSpace(' ')
    ensures var r := CleanText(cc, text);
      (r == [] || (!cc.isSpace(r[0]) && !cc.isSpace(r[|r| - 1]))) &&
      (forall i :: 0 <= i < |r| && cc.isSpace(r[i]) ==> r[i] == ' ') &&
      (forall i :: 0 <= i < |r| ==> cc.isWord(r[i]) || r[i] == ' ' || r[i] in KeptPunctuation) &&
      Filter(c => !cc.isSpace(c), r) == Filter(c => !cc.isSpace(c) && Allowed(cc, c), text)
  {
    var collapsed := CollapseWhitespace(cc.isSpace, text);
    var kept := KeepAllowed(cc, collapsed);
    var r := Strip(cc.isSpace, kept);
    StripInner(cc.isSpace, kept);
    var o := |kept| - |TrimLeft(cc.isSpace, kept)|;
    forall i | 0 <= i < |r|
      ensures cc.isWord(r[i]) || r[i] == ' ' || r[i] in KeptPunctuation
      ensures cc.isSpace(r[i]) ==> r[i] == ' '
    {
      assert r[i] == kept[o + i];
      assert r[i] in collapsed;
      var j :| 0 <= j < |collapsed| && collapsed[j] == r[i];
    }
    CleanTextKeepsText(cc, text);
  }

  /** The non-whitespace characters of the cleaned text are the allowed
      non-whitespace characters of the input, in order. */
  lemma CleanTextKeepsText(cc: CharClasses, text: string)
    requires cc.isSpace(' ')
    ensures Filter(c => !cc.isSpace(c), CleanText(cc, text))
         == Filter(c => !cc.isSpace(c) && Allowed(cc, c), text)
  {
    var nonSpace := c => !cc.isSpace(c);
    var allowed := c => Allowed(cc, c);
    var both := c => !cc.isSpace(c) && Allowed(cc, c);
    var collapsed := CollapseWhitespace(cc.isSpace, text);
    var kept := KeepAllowed(cc, collapsed);
    StripKeepsNonSpace(cc.isSpace, kept);
    FilterCompose(nonSpace, allowed, both, collapsed);
    FilterCompose(allowed, nonSpace, both, collapsed);
    CollapseKeepsNonSpace(cc.isSpace, text);
    FilterCompose(allowed, nonSpace, both, text);
  }

  /** Stripping removes whitespace only. */
  lemma StripKeepsNonSpace(isSpace: char -> bool, s: string)
    ensures Filter(c => !isSpace(c), Strip(isSpace, s)) == Filter(c => !isSpace(c), s)
  {
    var nonSpace := c => !isSpace(c);
    var l := TrimLeft(isSpace, s);
    var r := TrimRight(isSpace, l);
    TrimLeftSuffix(isSpace, s);
    NonSpacesOfBlankPrefix(isSpace, s, |s| - |l|);
    TrimRightPrefix(isSpace, l);
    assert l == r + l[|r|..];
    FilterAppend(nonSpace, r, l[|r|..]);
    FilterNoneKept(nonSpace, l[|r|..]);
  }

  /** `clean_text` as written filters AFTER collapsing, so removing a character
      between two spaces leaves a double space: "a @ b" becomes "a  b". */
  lemma CleanTextKeepsDoubleSpace(cc: CharClasses)
    requires cc.isSpace(' ') && !cc.isSpace('a') && !cc.isSpace('b') && !cc.isSpace('@')
    requires cc.isWord('a') && cc.isWord('b') && !cc.isWord('@')
    ensures CleanText(cc, "a @ b") == "a  b"
  {
    CollapseSingleSpaces(cc.isSpace);
    DropSymbol(cc);
    assert TrimLeft(cc.isSpace, "a  b") == "a  b";
    assert TrimRight(cc.isSpace, "a  b") == "a  b";
  }

  /** "a @ b" has no run of two whitespace characters, so collapsing keeps it. */
  lemma CollapseSingleSpaces(isSpace: char -> bool)
    requires isSpace(' ') && !isSpace('a') && !isSpace('b') && !isSpace('@')
    ensures CollapseWhitespace(isSpace, "a @ b") == "a @ b"
  {
    assert TrimLeft(isSpace, " b") == "b";
    assert TrimLeft(isSpace, " @ b") == "@ b";
    assert CollapseWhitespace(isSpace, "b") == "b";
    assert CollapseWhitespace(isSpace, " b") == " b";
    assert CollapseWhitespace(isSpace, "@ b") == "@ b";
    assert CollapseWhitespace(isSpace, " @ b") == " @ b";
  }

  /** The character filter removes the '@' and keeps both spaces around it. */
  lemma DropSymbol(cc: CharClasses)
    requires cc.isSpace(' ') && !cc.isSpace('@')
    requires cc.isWord('a') && cc.isWord('b') && !cc.isWord('@')
    ensures KeepAllowed(cc, "a @ b") == "a  b"
  {
    DropSymbolTail(cc);
    assert Allowed(cc, 'a');
  }

  /** The filter turns " @ b" into "  b". */
  lemma DropSymbolTail(cc: CharClasses)
    requires cc.isSpace(' ') && !cc.isSpace('@')
    requires cc.isWord('b') && !cc.isWord('@')
    ensures KeepAllowed(cc, " @ b") == "  b"
  {
    assert '@' !in KeptPunctuation;
    assert !Allowed(cc, '@') && Allowed(cc, 'b') && Allowed(cc, ' ');
    assert KeepAllowed(cc, "") == "";
    assert KeepAllowed(cc, "b") == "b";
    assert KeepAllowed(cc, " b") == " b";
    assert KeepAllowed(cc, "@ b") == " b";
  }

  /** `clean_text` with the evidently intended order: filter first, then
      collapse whitespace, then strip. */
  function CleanTextCollapsed(cc: CharClasses, text: string): string
  {
    Strip(cc.isSpace, CollapseWhitespace(cc.isSpace, KeepAllowed(cc, text)))
  }

  /** The corrected cleaner never leaves two whitespace characters side by
      side, and keeps the other guarantees of `clean_text`. */
  lemma CleanTextCollapsedNormalized(cc: CharClasses, text: string)
    ensures var r := CleanTextCollapsed(cc, text);
      (r == [] || (!cc.isSpace(r[0]) && !cc.isSpace(r[|r| - 1]))) &&
      (forall i :: 0 <= i < |r| - 1 ==> !cc.isSpace(r[i]) || !cc.isSpace(r[i + 1])) &&
      forall i :: 0 <= i < |r| ==> cc.isWord(r[i]) || r[i] == ' ' || r[i] in KeptPunctuation
  {
    var kept := KeepAllowed(cc, text);
    var collapsed := CollapseWhitespace(cc.isSpace, kept);
    var r := Strip(cc.isSpace, collapsed);
    StripInner(cc.isSpace, collapsed);
    var o := |collapsed| - |TrimLeft(cc.isSpace, collapsed)|;
    assert r == collapsed[o..o + |r|];
    forall i | 0 <= i < |r| - 1
      ensures !cc.isSpace(r[i]) || !cc.isSpace(r[i + 1])
    {
      assert r[i] == collapsed[o + i] && r[i + 1] == collapsed[o + i + 1];
    }
    forall i | 0 <= i < |r|
      ensures cc.isWord(r[i]) || r[i] == ' ' || r[i] in KeptPunctuation
    {
      assert r[i] == collapsed[o + i];
      assert r[i] in collapsed;
      assert r[i] == ' ' || r[i] in kept;
      if r[i] != ' ' {
        FilterMember(c => Allowed(cc, c), text, r[i]);
      }
    }
  }

  /** `re.sub(r'[^\w]', '_', name)`: character for character, a word
      character stays and any other character becomes '_'. */
  function SanitizeName(isWord: char -> bool, name: string): (r: string)
    ensures |r| == |name|
    ensures forall i :: 0 <= i < |name| && isWord(name[i]) ==> r[i] == name[i]
    ensures forall i :: 0 <= i < |name| && !isWord(name[i]) ==> r[i] == '_'
  {
    seq(|name|, i requires 0 <= i < |name| => if isWord(name[i]) then name[i] else '_')
  }

  /** Sanitising replaces characters one for one: the length is kept, word
      characters stay, every other character becomes '_'; since '_' is itself
      a word character, the result has word characters only and sanitising
      twice changes nothing more. */
  lemma SanitizeNameProperties(isWord: char -> bool, name: string)
    requires isWord('_')
    ensures var clean := SanitizeName(isWord, name);
      |clean| == |name| &&
      (forall i :: 0 <= i < |name| ==> isWord(clean[i])) &&
      (forall i :: 0 <= i < |name| && isWord(name[i]) ==> clean[i] == name[i]) &&
      (forall i :: 0 <= i < |name| && !isWord(name[i]) ==> clean[i] == '_') &&
      SanitizeName(isWord, clean) == clean
  {
  }

  /** The id layout shared by `generate_chunk_id` and the chunker:
      `f"{prefix}_page{page_num}_chunk{idx}"`. */
  function PageChunkLabel(prefix: string, pageNum: int, idx: int): string
  {
    prefix + "_page" + IntToString(pageNum) + "_chunk" + IntToString(idx)
  }

  /** An id of this layout is read back from the right: the index is the
      numeral after the last "_chunk", the page the numeral before it, and
      what precedes "_page" is the prefix. So the layout is injective. */
  lemma PageChunkLabelInjective(x1: string, p1: int, i1: int, x2: string, p2: int, i2: int)
    requires PageChunkLabel(x1, p1, i1) == PageChunkLabel(x2, p2, i2)
    ensures x1 == x2 && p1 == p2 && i1 == i2
  {
    var a1, a2 := IntToString(p1), IntToString(p2);
    var b1, b2 := IntToString(i1), IntToString(i2);
    var head1, head2 := x1 + "_page" + a1 + "_chunk", x2 + "_page" + a2 + "_chunk";
    assert PageChunkLabel(x1, p1, i1) == head1 + b1;
    assert PageChunkLabel(x2, p2, i2) == head2 + b2;
    NumeralSuffixSplit(head1, b1, head2, b2);
    var page1, page2 := x1 + "_page", x2 + "_page";
    assert head1 == (page1 + a1) + "_chunk" && head2 == (page2 + a2) + "_chunk";
    assert page1 + a1 == head1[..|head1| - 6] && page2 + a2 == head2[..|head2| - 6];
    NumeralSuffixSplit(page1, a1, page2, a2);
    assert x1 == page1[..|page1| - 5] && x2 == page2[..|page2| - 5];
    IntToStringInjective(p1, p2);
    IntToStringInjective(i1, i2);
  }

  /** `generate_chunk_id`: the sanitised name, then "_page<n>_chunk<i>". */
  function GenerateChunkId(isWord: char -> bool, docName: string, pageNum: int, chunkIdx: int): (r: string)
    ensures |docName| < |r| && r[..|docName|] == SanitizeName(isWord, docName)
    ensures EndsWith(r, "_chunk" + IntToString(chunkIdx))
  {
    var r := PageChunkLabel(SanitizeName(isWord, docName), pageNum, chunkIdx);
    assert r == (SanitizeName(isWord, docName) + "_page" + IntToString(pageNum)) + ("_chunk" + IntToString(chunkIdx));
    r
  }

  /** Ids are unique per (sanitised name, page, index): two equal ids have
      the same page, the same index and names that sanitise alike. */
  lemma GenerateChunkIdInjective(isWord: char -> bool, n1: string, p1: int, i1: int, n2: string, p2: int, i2: int)
    requires GenerateChunkId(isWord, n1, p1, i1) == GenerateChunkId(isWord, n2, p2, i2)
    ensures SanitizeName(isWord, n1) == SanitizeName(isWord, n2) && p1 == p2 && i1 == i2
  {
    PageChunkLabelInjective(SanitizeName(isWord, n1), p1, i1, SanitizeName(isWord, n2), p2, i2);
  }

  /** `filepath.split('/')[-1]`: the suffix of `path` that holds no '/' and
      is the whole path or follows a '/'. */
  function LastSegment(path: string): (r: string)
    ensures '/' !in r
    ensures |r| <= |path| && path[|path| - |r|..] == r
    ensures |r| == |path| || path[|path| - |r| - 1] == '/'
  {
    path[LastIndexOf(path, '/') + 1..]
  }

  /** `s.replace(pat, '')`: remove the non-overlapping occurrences of `pat`,
      scanning left to right once. With no occurrence the string is unchanged. */
  function RemoveAll(s: string, pat: string): (r: string)
    requires |pat| > 0
    ensures |r| <= |s|
    ensures forall c :: c in r ==> c in s
  {
    if |s| < |pat| then s
    else if pat <= s then RemoveAll(s[|pat|..], pat)
    else [s[0]] + RemoveAll(s[1..], pat)
  }

  /** With no occurrence of `pat`, nothing is removed. */
  lemma {:induction false} RemoveAllAbsent(s: string, pat: string)
    requires |pat| > 0
    ensures !Contains(s, pat) ==> RemoveAll(s, pat) == s
  {
    if |s| >= |pat| {
      RemoveAllAbsent(s[1..], pat);
    }
  }

  /** When `pat` occurs, at least one occurrence is removed. */
  lemma {:induction false} RemoveAllShortens(s: string, pat: string)
    requires |pat| > 0 && Contains(s, pat)
    ensures |RemoveAll(s, pat)| <= |s| - |pat|
  {
    ContainsLength(s, pat);
    if !(pat <= s) {
      RemoveAllShortens(s[1..], pat);
    }
  }

  /** `replace` makes a single pass: removing an occurrence can join the
      characters around it into a new one, which stays. */
  lemma RemoveAllSinglePass()
    ensures RemoveAll("..pdfpdf", ".pdf") == ".pdf"
  {
    assert RemoveAll("pdf", ".pdf") == "pdf";
    assert ".pdf" <= ".pdfpdf" && ".pdfpdf"[4..] == "pdf";
    assert "..pdfpdf"[1..] == ".pdfpdf";
    assert RemoveAll(".pdfpdf", ".pdf") == "pdf";
    assert "..pdfpdf"[..4][1] != ".pdf"[1];
  }

  /** A non-empty stem that does not start with `pat` does not start with
      it once `pat` is appended, when `pat`'s first character does not recur. */
  lemma NoMatchAtStart(stem: string, pat: string)
    requires 0 < |stem| && 0 < |pat| && forall j :: 0 < j < |pat| ==> pat[j] != pat[0]
    requires !(pat <= stem)
    ensures !(pat <= stem + pat)
  {
    var s := stem + pat;
    if |stem| >= |pat| {
      assert s[..|pat|] == stem[..|pat|];
    } else {
      assert s[|stem|] == pat[0];
    }
  }

  /** A stem with no occurrence of `pat` keeps its characters when `pat` is
      appended and removed again, provided `pat` cannot start inside its own
      tail (its first character does not recur, as in ".pdf"). */
  lemma {:induction false} RemoveAllAppended(stem: string, pat: string)
    requires |pat| > 0 && forall j :: 0 < j < |pat| ==> pat[j] != pat[0]
    requires !Contains(stem, pat)
    ensures RemoveAll(stem + pat, pat) == stem
  {
    var s := stem + pat;
    if |stem| == 0 {
      assert s == pat;
      RemoveAllWhole(pat);
    } else {
      NoMatchAtStart(stem, pat);
      RemoveAllStep(s, pat);
      assert s[1..] == stem[1..] + pat;
      NotContainedInTail(stem, pat);
      RemoveAllAppended(stem[1..], pat);
      assert stem == [s[0]] + stem[1..];
    }
  }

  /** A string without `pat` has no `pat` after its first character, nor at its start. */
  lemma NotContainedInTail(s: string, pat: string)
    requires |s| > 0 && !Contains(s, pat)
    ensures !(pat <= s) && !Contains(s[1..], pat)
  {
  }

  /** Removing `pat` from itself leaves nothing. */
  lemma RemoveAllWhole(pat: string)
    requires |pat| > 0
    ensures RemoveAll(pat, pat) == ""
  {
    assert pat[|pat|..] == "";
  }

  /** Where `pat` does not start, the first character is kept. */
  lemma RemoveAllStep(s: string, pat: string)
    requires 0 < |pat| <= |s| && !(pat <= s)
    ensures RemoveAll(s, pat) == [s[0]] + RemoveAll(s[1..], pat)
  {
  }

  /** The last segment of `dir + "/" + seg` is `seg` when `seg` holds no '/'. */
  lemma LastSegmentAfterSlash(dir: string, seg: string)
    requires '/' !in seg
    ensures LastSegment(dir + "/" + seg) == seg
  {
    var path := dir + "/" + seg;
    assert path[|path| - |seg| - 1] == '/';
    assert path[|path| - |seg|..] == seg;
  }

  /** `extract_filename` as written: every ".pdf" anywhere in the last segment
      is removed, not only the extension. */
  function ExtractFilename(filepath: string): (r: string)
    ensures '/' !in r
    ensures |r| <= |LastSegment(filepath)|
    ensures !Contains(LastSegment(filepath), ".pdf") ==> r == LastSegment(filepath)
  {
    RemoveAllAbsent(LastSegment(filepath), ".pdf");
    RemoveAll(LastSegment(filepath), ".pdf")
  }

  /** In ".pdf" the dot occurs only first. */
  lemma DotOnlyLeadsPdf()
    ensures forall j :: 0 < j < |".pdf"| ==> ".pdf"[j] != ".pdf"[0]
  {
    var pat := ".pdf";
    assert pat[0] == '.' && pat[1] == 'p' && pat[2] == 'd' && pat[3] == 'f';
  }

  /** For a PDF path whose file stem has no '/' and no ".pdf" of its own,
      `extract_filename` gives the stem, as the corrected `FilenameStem` does. */
  lemma ExtractFilenameOfPdfPath(dir: string, stem: string)
    requires '/' !in stem && !Contains(stem, ".pdf")
    ensures ExtractFilename(dir + "/" + stem + ".pdf") == stem
    ensures FilenameStem(dir + "/" + stem + ".pdf") == stem
  {
    PdfPathSegment(dir, stem);
    DotOnlyLeadsPdf();
    RemoveAllAppended(stem, ".pdf");
    PdfPathStem(dir, stem);
  }

  /** The last segment of a PDF path is the stem with its extension. */
  lemma PdfPathSegment(dir: string, stem: string)
    requires '/' !in stem
    ensures LastSegment(dir + "/" + stem + ".pdf") == stem + ".pdf"
  {
    var seg := stem + ".pdf";
    assert dir + "/" + stem + ".pdf" == (dir + "/") + seg;
    assert '/' !in seg;
    LastSegmentAfterSlash(dir, seg);
  }

  /** The corrected version strips the extension of a PDF path. */
  lemma PdfPathStem(dir: string, stem: string)
    requires '/' !in stem
    ensures FilenameStem(dir + "/" + stem + ".pdf") == stem
  {
    var seg := stem + ".pdf";
    PdfPathSegment(dir, stem);
    assert seg[|seg| - 4..] == ".pdf" && seg[..|seg| - 4] == stem;
  }

  /** The name "a.pdf.b.pdf" loses its inner ".pdf" too. */
  lemma ExtractFilenameRemovesInnerPdf()
    ensures ExtractFilename("a.pdf.b.pdf") == "a.b"
  {
    assert '/' !in "a.pdf.b.pdf";
    assert LastSegment("a.pdf.b.pdf") == "a.pdf.b.pdf";
    RemoveBothPdf();
  }

  /** Both occurrences of ".pdf" in "a.pdf.b.pdf" are removed. */
  lemma RemoveBothPdf()
    ensures RemoveAll("a.pdf.b.pdf", ".pdf") == "a.b"
  {
    RemoveSecondPdf();
    assert ".pdf" <= ".pdf.b.pdf";
    assert RemoveAll(".pdf.b.pdf", ".pdf") == ".b";
  }

  /** The trailing ".pdf" of "b.pdf" is removed. */
  lemma RemoveSecondPdf()
    ensures RemoveAll(".b.pdf", ".pdf") == ".b"
  {
    assert RemoveAll(".pdf", ".pdf") == RemoveAll("", ".pdf") == "";
    assert RemoveAll("b.pdf", ".pdf") == "b";
  }

  /** The evidently intended `extract_filename`: the last path segment without
      a trailing ".pdf" extension. */
  function FilenameStem(filepath: string): (r: string)
    ensures '/' !in r
    ensures var seg := LastSegment(filepath);
      if |seg| >= 4 && seg[|seg| - 4..] == ".pdf" then r + ".pdf" == seg else r == seg
  {
    var seg := LastSegment(filepath);
    if |seg| >= 4 && seg[|seg| - 4..] == ".pdf" then
      var stem := seg[..|seg| - 4];
      assert seg == stem + ".pdf";
      stem
    else seg
  }

  /** `truncate_text`: unchanged when short enough, otherwise the Python
      prefix `text[:max_length]` followed by "...". */
  function TruncateText(text: string, maxLength: int := 200): (r: string)
    ensures |text| <= maxLength ==> r == text
    ensures 0 <= maxLength < |text| ==>
      |r| == maxLength + 3 && r[..maxLength] == text[..maxLength] && r[maxLength..] == "..."
    ensures maxLength < 0 && |text| > 0 ==> r == PyPrefix(text, maxLength) + "..." && |r| < |text| + 3
  {
    if |text| <= maxLength then text else PyPrefix(text, maxLength) + "..."
  }
}
