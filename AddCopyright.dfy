/**
 * The copyright-header task: when a C# document has no "<copyright" tag in its first
 * two lines, a five-line header naming the file, the company and the copyright text of
 * the project's AssemblyInfo.cs is put in front of it.
 */
module AddCopyright {
  import opened CodeModel

  // ---------------------------------------------------------------------------
  // Finding text

  function NewlineCount(s: string): nat
  {
    if s == [] then 0 else (if s[0] == '\n' then 1 else 0) + NewlineCount(s[1..])
  }

  /** The 1-based line of an offset into a document. */
  function LineAt(doc: string, offset: nat): nat
    requires offset <= |doc|
  {
    1 + NewlineCount(doc[..offset])
  }

  const CopyrightTag: string := "<copyright"

  /** The insert decision: no "<copyright" tag, or its first occurrence ends after line 2. */
  predicate ShouldInsertHeader(doc: string)
  {
    var found := IndexOf(doc, CopyrightTag);
    found.None? || LineAt(doc, found.value + |CopyrightTag|) > 2
  }

  // ---------------------------------------------------------------------------
  // Reading AssemblyInfo.cs

  /** The opening part "[assembly: KEY(\"" of the attribute pattern for a key. */
  function AttributeOpen(key: string): string
  {
    "[assembly: " + key + "(\""
  }

  const AttributeClose: string := "\")]"

  /** The letter case the host's find ignores without vsFindOptionsMatchCase: A-Z read as a-z. */
  function FoldCase(c: char): (r: char)
    ensures r == '"' <==> c == '"'
  {
    if 'A' <= c <= 'Z' then (c as int + 32) as char else c
  }

  function Folded(s: string): (r: string)
    ensures |r| == |s|
  {
    if s == [] then [] else [FoldCase(s[0])] + Folded(s[1..])
  }

  /** Each character of the folded text is the folded character. */
  lemma {:induction false} FoldedAt(s: string, k: nat)
    requires k < |s|
    ensures Folded(s)[k] == FoldCase(s[k])
  {
    if k > 0 {
      FoldedAt(s[1..], k - 1);
    }
  }

  lemma {:induction false} FoldedAppend(a: string, b: string)
    ensures Folded(a + b) == Folded(a) + Folded(b)
  {
    if a == [] {
      assert a + b == b;
    } else {
      assert (a + b)[1..] == a[1..] + b;
      FoldedAppend(a[1..], b);
    }
  }

  predicate NoCapitals(s: string)
  {
    s == [] || (!('A' <= s[0] <= 'Z') && NoCapitals(s[1..]))
  }

  /** Text without capital letters is its own folding. */
  lemma {:induction false} FoldedWithoutCapitals(s: string)
    requires NoCapitals(s)
    ensures Folded(s) == s
  {
    if s != [] {
      FoldedWithoutCapitals(s[1..]);
    }
  }

  /** Folding the whole pattern is folding its key: the rest of it has no capital letters. */
  lemma {:induction false} FoldedPattern(key: string)
    ensures Folded(AttributeOpen(key)) == AttributeOpen(Folded(key))
  {
    var head, tail := "[assembly: ", "(\"";
    assert AttributeOpen(key) == (head + key) + tail;
    FoldedAppend(head + key, tail);
    FoldedAppend(head, key);
    FoldedWithoutCapitals(head);
    FoldedWithoutCapitals(tail);
  }

  /**
   * A line holds a match of the pattern [assembly: KEY(".*")], letter case ignored: the
   * opening part, and somewhere after it the closing part. A match never spans lines.
   * The pattern's fixed text has no capital letters, so folding the pattern folds only
   * the key (FoldedPattern).
   */
  predicate MatchesAttribute(line: string, key: string)
  {
    MatchesIn(Folded(line), AttributeOpen(Folded(key)))
  }

  /** The text holds the opening part, and somewhere after it the closing part. */
  predicate MatchesIn(text: string, open: string)
  {
    match IndexOf(text, open)
    case None => false
    case Some(p) => IndexOf(text[p + |open|..], AttributeClose).Some?
  }

  /** Folding twice is folding once. */
  lemma {:induction false} FoldedTwice(s: string)
    ensures Folded(Folded(s)) == Folded(s)
  {
    if s != [] {
      assert Folded(s)[1..] == Folded(s[1..]);
      FoldedTwice(s[1..]);
    }
  }

  /**
   * The attribute search ignores letter case: a line matches exactly when its folded
   * text matches, for the key in any case.
   */
  lemma MatchIgnoresCase(line: string, key: string)
    ensures MatchesAttribute(line, key) <==> MatchesAttribute(Folded(line), Folded(key))
  {
    FoldedTwice(line);
    FoldedTwice(key);
  }

  /** The index of the first element of xs that satisfies p. */
  function FirstWhere<T>(xs: seq<T>, p: T -> bool): Option<nat>
  {
    if xs == [] then None
    else if p(xs[0]) then Some(0)
    else match FirstWhere(xs[1..], p)
      case None => None
      case Some(i) => Some(i + 1)
  }

  /** FirstWhere finds the first element satisfying p, and nothing when none does. */
  lemma {:induction false} FirstWhereIsFirst<T>(xs: seq<T>, p: T -> bool)
    ensures var r := FirstWhere(xs, p);
      (r.Some? ==> r.value < |xs| && p(xs[r.value]) && forall k :: 0 <= k < r.value ==> !p(xs[k])) &&
      (r.None? ==> forall k :: 0 <= k < |xs| ==> !p(xs[k]))
  {
    if xs != [] && !p(xs[0]) {
      FirstWhereIsFirst(xs[1..], p);
      assert forall k :: 1 <= k < |xs| ==> xs[k] == xs[1..][k - 1];
    }
  }

  /** The line test of the attribute search for a key. */
  function LineMatches(key: string): string -> bool
  {
    line => MatchesAttribute(line, key)
  }

  /** The first line of the document holding a match, as the search returns it. */
  function FirstMatchingLine(lines: seq<string>, key: string): (r: Option<nat>)
    ensures r.Some? ==> r.value < |lines|
  {
    FirstWhereIsFirst(lines, LineMatches(key));
    FirstWhere(lines, LineMatches(key))
  }

  /** The search finds the first matching line, and nothing when no line matches. */
  lemma FirstMatchingLineIsFirst(lines: seq<string>, key: string)
    ensures var r := FirstMatchingLine(lines, key);
      (r.Some? ==>
        MatchesAttribute(lines[r.value], key) && forall k :: 0 <= k < r.value ==> !MatchesAttribute(lines[k], key)) &&
      (r.None? ==> forall k :: 0 <= k < |lines| ==> !MatchesAttribute(lines[k], key))
  {
    FirstWhereIsFirst(lines, LineMatches(key));
  }

  /** char.IsWhiteSpace */
  predicate IsWhiteSpace(c: char)
  {
    ('\t' <= c <= '\r') || c == ' ' || c == '\U{85}' || c == '\U{A0}' || c == '\U{1680}' ||
    ('\U{2000}' <= c <= '\U{200A}') || c == '\U{2028}' || c == '\U{2029}' || c == '\U{202F}' ||
    c == '\U{205F}' || c == '\U{3000}'
  }

  function TrimStart(s: string): (r: string)
    ensures |r| <= |s| && r == s[|s| - |r|..]
    ensures forall k :: 0 <= k < |s| - |r| ==> IsWhiteSpace(s[k])
    ensures r == [] || !IsWhiteSpace(r[0])
  {
    if s != [] && IsWhiteSpace(s[0]) then TrimStart(s[1..]) else s
  }

  function TrimEnd(s: string): (r: string)
    ensures |r| <= |s| && r == s[..|r|]
    ensures forall k :: |r| <= k < |s| ==> IsWhiteSpace(s[k])
    ensures r == [] || !IsWhiteSpace(r[|r| - 1])
  {
    if s != [] && IsWhiteSpace(s[|s| - 1]) then TrimEnd(s[..|s| - 1]) else s
  }

  /** string.Trim: the line without its leading and trailing white space. */
  function Trim(s: string): string
  {
    TrimEnd(TrimStart(s))
  }

  /** Trim(s) is the slice of s from a, with only white space before and after it. */
  lemma {:induction false} TrimShape(s: string) returns (a: nat)
    ensures a + |Trim(s)| <= |s| && Trim(s) == s[a..a + |Trim(s)|]
    ensures forall k :: 0 <= k < a ==> IsWhiteSpace(s[k])
    ensures forall k :: a + |Trim(s)| <= k < |s| ==> IsWhiteSpace(s[k])
  {
    var t := TrimStart(s);
    var r := TrimEnd(t);
    a := |s| - |t|;
    PrefixOfSuffix(s, a, |r|);
    forall k | a + |r| <= k < |s|
      ensures IsWhiteSpace(s[k])
    {
      assert s[k] == t[k - a];
    }
  }

  lemma PrefixOfSuffix(s: string, a: nat, n: nat)
    requires a + n <= |s|
    ensures s[a..][..n] == s[a..a + n]
  {
  }

  /** The index of the first '"' of s, or |s| when there is none. */
  function FirstQuote(s: string): (f: nat)
    ensures f <= |s| && (f < |s| ==> s[f] == '"')
    ensures forall k :: 0 <= k < f ==> s[k] != '"'
  {
    if s == [] || s[0] == '"' then 0 else 1 + FirstQuote(s[1..])
  }

  /** The index just past the last '"' of s, or 0 when there is none. */
  function EndOfLastQuote(s: string): (e: nat)
    ensures e <= |s| && (e > 0 ==> s[e - 1] == '"')
    ensures forall k :: e <= k < |s| ==> s[k] != '"'
  {
    if s == [] || s[|s| - 1] == '"' then |s| else EndOfLastQuote(s[..|s| - 1])
  }

  /**
   * The match of the greedy pattern ".*" on a line: from its first '"' to its last '"',
   * or "" when the line has fewer than two.
   */
  function QuotedSpan(s: string): (r: string)
    ensures r == [] || (|r| >= 2 && r[0] == '"' && r[|r| - 1] == '"')
  {
    var f, e := FirstQuote(s), EndOfLastQuote(s);
    if f + 2 <= e then s[f..e] else ""
  }

  /** The span is empty exactly when the line has fewer than two quotes. */
  lemma {:induction false} QuotedSpanEmptyIff(s: string)
    ensures QuotedSpan(s) == [] <==> forall i, j :: 0 <= i < j < |s| ==> !(s[i] == '"' && s[j] == '"')
  {
    var f, e := FirstQuote(s), EndOfLastQuote(s);
    if f + 2 <= e {
      assert s[f] == '"' && s[e - 1] == '"';
    } else {
      forall i, j | 0 <= i < j < |s| && s[i] == '"' ensures s[j] != '"' {
        assert f <= i;
      }
    }
  }

  /**
   * RetrieveAssemblyInfoValue: the quoted value of the first line matching the attribute
   * pattern for key, quotes included; "" when no line matches. Trimming the line first
   * changes nothing, since the value lies between two quotes.
   */
  function RetrieveAssemblyInfoValue(lines: seq<string>, key: string): (r: string)
    ensures FirstMatchingLine(lines, key).None? ==> r == ""
    ensures FirstMatchingLine(lines, key).Some? ==> r == QuotedSpan(lines[FirstMatchingLine(lines, key).value])
    ensures r == [] || (|r| >= 2 && r[0] == '"' && r[|r| - 1] == '"')
  {
    ValueOfLine(lines, FirstMatchingLine(lines, key))
  }

  /** The quoted value read from the line the search found, if any. */
  function ValueOfLine(lines: seq<string>, found: Option<nat>): (r: string)
    requires found.Some? ==> found.value < |lines|
    ensures found.None? ==> r == ""
    ensures found.Some? ==> r == QuotedSpan(lines[found.value])
    ensures r == [] || (|r| >= 2 && r[0] == '"' && r[|r| - 1] == '"')
  {
    match found
    case None => ""
    case Some(i) =>
      TrimKeepsQuotedSpan(lines[i]);
      QuotedSpan(Trim(lines[i]))
  }

  /** Cutting white space off both ends of a line cannot change its quoted span. */
  lemma {:induction false} TrimKeepsQuotedSpan(line: string)
    ensures QuotedSpan(Trim(line)) == QuotedSpan(line)
  {
    var a := TrimShape(line);
    var b := a + |Trim(line)|;
    assert !IsWhiteSpace('"');
    assert forall k :: 0 <= k < a ==> line[k] != '"';
    assert forall k :: b <= k < |line| ==> line[k] != '"';
    SpanOfInner(line, a, b);
    assert line[a..b] == Trim(line);
  }

  /** Removing quote-free text from both ends of a line keeps its quoted span. */
  lemma {:induction false} SpanOfInner(line: string, a: nat, b: nat)
    requires a <= b <= |line|
    requires forall k :: 0 <= k < a ==> line[k] != '"'
    requires forall k :: b <= k < |line| ==> line[k] != '"'
    ensures QuotedSpan(line[a..b]) == QuotedSpan(line)
  {
    var f, e := FirstQuote(line), EndOfLastQuote(line);
    if f + 2 <= e {
      QuotesInside(line, a, b, f, e);
      ManyQuotesInner(line, a, b);
    } else {
      FewQuotesInner(line, a, b);
    }
  }

  lemma {:induction false} ManyQuotesInner(line: string, a: nat, b: nat)
    requires a <= FirstQuote(line) && FirstQuote(line) + 2 <= EndOfLastQuote(line) <= b <= |line|
    ensures QuotedSpan(line[a..b]) == QuotedSpan(line)
  {
    var f, e := FirstQuote(line), EndOfLastQuote(line);
    var t := line[a..b];
    assert QuotedSpan(t) == t[f - a..e - a] by {
      FirstQuoteOfInner(line, a, b, f);
      EndOfLastQuoteOfInner(line, a, b, e);
      QuotedSpanIs(t, f - a, e - a);
    }
    assert t[f - a..e - a] == line[f..e] by {
      SliceOfSlice(line, a, b, f, e);
    }
    QuotedSpanIs(line, f, e);
  }

  lemma {:induction false} QuotedSpanIs(s: string, f: nat, e: nat)
    requires FirstQuote(s) == f && EndOfLastQuote(s) == e && f + 2 <= e
    ensures QuotedSpan(s) == s[f..e]
  {
  }

  lemma {:induction false} QuotesInside(line: string, a: nat, b: nat, f: nat, e: nat)
    requires a <= b <= |line|
    requires forall k :: 0 <= k < a ==> line[k] != '"'
    requires forall k :: b <= k < |line| ==> line[k] != '"'
    requires f + 2 <= e <= |line| && line[f] == '"' && line[e - 1] == '"'
    ensures a <= f && e <= b
  {
  }

  lemma {:induction false} SliceOfSlice(s: string, lo: nat, hi: nat, f: nat, e: nat)
    requires lo <= f <= e <= hi <= |s|
    ensures s[lo..hi][f - lo..e - lo] == s[f..e]
  {
    forall k | 0 <= k < e - f ensures s[lo..hi][f - lo..e - lo][k] == s[f..e][k] {
      assert s[lo..hi][f - lo..e - lo][k] == s[lo..hi][f - lo + k] == s[f + k];
    }
  }

  lemma {:induction false} FewQuotesInner(line: string, a: nat, b: nat)
    requires a <= b <= |line|
    requires !(FirstQuote(line) + 2 <= EndOfLastQuote(line))
    ensures QuotedSpan(line[a..b]) == []
  {
    var t := line[a..b];
    QuotedSpanEmptyIff(line);
    QuotedSpanEmptyIff(t);
    forall i, j | 0 <= i < j < |t| ensures !(t[i] == '"' && t[j] == '"') {
      assert t[i] == line[a + i] && t[j] == line[a + j];
    }
  }

  lemma {:induction false} FirstQuoteOfInner(line: string, a: nat, b: nat, f: nat)
    requires a <= b <= |line|
    requires f == FirstQuote(line) && a <= f < b
    ensures FirstQuote(line[a..b]) == f - a
  {
    var t := line[a..b];
    assert t[f - a] == line[f];
    forall k | 0 <= k < f - a ensures t[k] != '"' {
      assert t[k] == line[a + k];
    }
  }

  lemma {:induction false} EndOfLastQuoteOfInner(line: string, a: nat, b: nat, e: nat)
    requires a <= b <= |line|
    requires e == EndOfLastQuote(line) && a < e <= b
    ensures EndOfLastQuote(line[a..b]) == e - a
  {
    var t := line[a..b];
    assert t[e - a - 1] == line[e - 1];
    forall k | e - a <= k < |t| ensures t[k] != '"' {
      assert t[k] == line[a + k];
    }
  }

  // ---------------------------------------------------------------------------
  // The header

  /** The dashed rule that opens and closes the header: a comment of 71 dashes. */
  function Rule(width: nat): string
  {
    "// " + Dashes(width)
  }

  const RuleWidth: nat := 71

  function Dashes(n: nat): (r: string)
    ensures |r| == n && forall i :: 0 <= i < n ==> r[i] == '-'
  {
    seq(n, _ => '-')
  }

  lemma {:induction false} RuleHasNoBreakOrTag(width: nat)
    ensures '\n' !in Rule(width) && '<' !in Rule(width) && |Rule(width)| == 3 + width
  {
    assert Rule(width)[3..] == Dashes(width);
  }

  /** The five lines of the header, in order. */
  function HeaderLines(fileName: string, company: string, copyright: string): seq<string>
  {
    [ Rule(RuleWidth),
      "// " + CopyrightTag + " file=\"" + fileName + "\" company=" + company + ">",
      "// " + copyright,
      "// </copyright>",
      Rule(RuleWidth) ]
  }

  /**
   * AddCopyrightToFile: builds the header line by line and inserts it at the start of the
   * document, in front of the unchanged old text.
   */
  method AddCopyrightToFile(doc: string, fileName: string, company: string, copyright: string)
    returns (newDoc: string)
    ensures newDoc == Unlines(HeaderLines(fileName, company, copyright)) + doc
  {
    var lines := HeaderLines(fileName, company, copyright);
    var header := "";
    for k := 0 to |lines|
      invariant header == Unlines(lines[..k])
    {
      UnlinesSnoc(lines[..k], lines[k]);
      assert lines[..k + 1] == lines[..k] + [lines[k]];
      header := header + lines[k] + NewLine;
    }
    assert lines[..|lines|] == lines;
    newDoc := header + doc;
  }

  /** With no line break in the three values, the header is exactly five lines. */
  lemma {:induction false} HeaderIsFiveLines(fileName: string, company: string, copyright: string)
    requires '\n' !in fileName && '\n' !in company && '\n' !in copyright
    ensures |HeaderLines(fileName, company, copyright)| == 5
    ensures NewlineCount(Unlines(HeaderLines(fileName, company, copyright))) == 5
  {
    HeaderLinesHaveNoBreak(fileName, company, copyright);
    UnlinesCount(HeaderLines(fileName, company, copyright));
  }

  lemma {:induction false} HeaderLinesHaveNoBreak(fileName: string, company: string, copyright: string)
    requires '\n' !in fileName && '\n' !in company && '\n' !in copyright
    ensures forall k :: 0 <= k < |HeaderLines(fileName, company, copyright)| ==>
      '\n' !in HeaderLines(fileName, company, copyright)[k]
  {
    RuleHasNoBreakOrTag(RuleWidth);
    var tagLine := "// " + CopyrightTag + " file=\"" + fileName + "\" company=" + company + ">";
    assert '\n' !in tagLine;
  }

  lemma {:induction false} NoNewlineCount(s: string)
    requires '\n' !in s
    ensures NewlineCount(s) == 0
  {
    if s != [] {
      assert s[0] in s;
      assert forall c :: c in s[1..] ==> c in s;
      NoNewlineCount(s[1..]);
    }
  }

  lemma {:induction false} NewlineCountAppend(a: string, b: string)
    ensures NewlineCount(a + b) == NewlineCount(a) + NewlineCount(b)
  {
    if a != [] {
      assert (a + b)[1..] == a[1..] + b;
      NewlineCountAppend(a[1..], b);
    } else {
      assert a + b == b;
    }
  }

  lemma {:induction false} NewLineCountsOne()
    ensures NewlineCount(NewLine) == 1
  {
    assert NewLine[1..] == "\n";
    assert "\n"[1..] == "";
  }

  lemma {:induction false} UnlinesCount(lines: seq<string>)
    requires forall k :: 0 <= k < |lines| ==> '\n' !in lines[k]
    ensures NewlineCount(Unlines(lines)) == |lines|
  {
    if lines != [] {
      assert forall k :: 0 <= k < |lines[1..]| ==> lines[1..][k] == lines[k + 1];
      UnlinesCount(lines[1..]);
      NoNewlineCount(lines[0]);
      NewLineCountsOne();
      NewlineCountAppend(lines[0] + NewLine, Unlines(lines[1..]));
      NewlineCountAppend(lines[0], NewLine);
    }
  }

  // ---------------------------------------------------------------------------
  // The task

  /**
   * DoWork on one project item. assemblyInfo is the text of the solution's AssemblyInfo.cs
   * by lines, or None when the solution has none (the null item makes the task fail and
   * the catch leaves the document as it was).
   */
  function DoWork(itemName: string, doc: string, assemblyInfo: Option<seq<string>>): (r: string)
    ensures !EndsWith(itemName, ".cs") ==> r == doc
    ensures !ShouldInsertHeader(doc) ==> r == doc
    ensures assemblyInfo.None? ==> r == doc
    ensures EndsWith(itemName, ".cs") && ShouldInsertHeader(doc) && assemblyInfo.Some? ==>
      r == Unlines(HeaderLines(itemName,
        RetrieveAssemblyInfoValue(assemblyInfo.value, "AssemblyCompany"),
        RetrieveAssemblyInfoValue(assemblyInfo.value, "AssemblyCopyright"))) + doc
  {
    if EndsWith(itemName, ".cs") && ShouldInsertHeader(doc) && assemblyInfo.Some? then
      var company := RetrieveAssemblyInfoValue(assemblyInfo.value, "AssemblyCompany");
      var copyright := RetrieveAssemblyInfoValue(assemblyInfo.value, "AssemblyCopyright");
      Unlines(HeaderLines(itemName, company, copyright)) + doc
    else doc
  }

  /** A document that starts with the header has its tag on line 2, so it is left alone. */
  lemma {:induction false} HeaderIsDetected(fileName: string, company: string, copyright: string, doc: string)
    ensures !ShouldInsertHeader(Unlines(HeaderLines(fileName, company, copyright)) + doc)
  {
    var first := Rule(RuleWidth) + NewLine + "// ";
    var rest := HeaderAfterTag(fileName, company, copyright, doc);
    var s := first + CopyrightTag + rest;
    RuleHasNoBreakOrTag(RuleWidth);
    assert '<' !in first;
    TagFoundAt(first, rest);
    assert s[..|first| + |CopyrightTag|] == first + CopyrightTag;
    FirstLinesCount(first);
  }

  lemma {:induction false} FirstLinesCount(first: string)
    requires first == Rule(RuleWidth) + NewLine + "// "
    ensures NewlineCount(first + CopyrightTag) == 1
  {
    RuleHasNoBreakOrTag(RuleWidth);
    NoNewlineCount(Rule(RuleWidth));
    NoNewlineCount("// ");
    NoNewlineCount(CopyrightTag);
    NewLineCountsOne();
    NewlineCountAppend(Rule(RuleWidth), NewLine);
    NewlineCountAppend(Rule(RuleWidth) + NewLine, "// ");
    NewlineCountAppend(first, CopyrightTag);
  }

  /** The header and the document, from just after the tag on line 2. */
  function HeaderAfterTag(fileName: string, company: string, copyright: string, doc: string): (r: string)
    ensures Unlines(HeaderLines(fileName, company, copyright)) + doc == Rule(RuleWidth) + NewLine + "// " + CopyrightTag + r
  {
    var lines := HeaderLines(fileName, company, copyright);
    assert lines[1..][1..] == lines[2..];
    " file=\"" + fileName + "\" company=" + company + ">" + NewLine + Unlines(lines[2..]) + doc
  }

  /** The first occurrence of the tag is right after a prefix that holds no '<'. */
  lemma {:induction false} TagFoundAt(first: string, rest: string)
    requires '<' !in first
    ensures IndexOf(first + CopyrightTag + rest, CopyrightTag) == Some(|first|)
  {
    var s := first + CopyrightTag + rest;
    assert s[|first|..][..|CopyrightTag|] == CopyrightTag;
    assert CopyrightTag[0] == '<';
    forall k | 0 <= k < |first| ensures !StartsWith(s[k..], CopyrightTag) {
      assert s[k..][0] == s[k] == first[k];
    }
  }

  /** Running the task a second time changes nothing: the header goes in at most once. */
  lemma {:induction false} DoWorkIdempotent(itemName: string, doc: string, assemblyInfo: Option<seq<string>>)
    ensures DoWork(itemName, DoWork(itemName, doc, assemblyInfo), assemblyInfo) == DoWork(itemName, doc, assemblyInfo)
  {
    var once := DoWork(itemName, doc, assemblyInfo);
    if once != doc {
      HeaderIsDetected(itemName,
        RetrieveAssemblyInfoValue(assemblyInfo.value, "AssemblyCompany"),
        RetrieveAssemblyInfoValue(assemblyInfo.value, "AssemblyCopyright"), doc);
    }
  }

  /**
   * Because the value keeps its quotes, the company and copyright texts of an inserted
   * header are quoted, whenever AssemblyInfo.cs has the attribute.
   */
  lemma {:induction false} AttributeValueIsQuoted(lines: seq<string>, key: string)
    requires FirstMatchingLine(lines, key).Some?
    ensures var v := RetrieveAssemblyInfoValue(lines, key);
      |v| >= 2 && v[0] == '"' && v[|v| - 1] == '"'
  {
    FirstMatchingLineIsFirst(lines, key);
    var line := lines[FirstMatchingLine(lines, key).value];
    var i, j := MatchHasTwoQuotes(line, key);
    QuotedSpanEmptyIff(line);
  }

  /** A matching line has the quote that ends the opening part and the one that starts the closing part. */
  lemma {:induction false} MatchHasTwoQuotes(line: string, key: string) returns (i: nat, j: nat)
    requires MatchesAttribute(line, key)
    ensures i < j < |line| && line[i] == '"' && line[j] == '"'
  {
    var text := Folded(line);
    i, j := QuotesOfMatch(text, AttributeOpen(Folded(key)));
    FoldedAt(line, i);
    FoldedAt(line, j);
  }

  /** In a text holding a match of an opening part that ends in '"', two quotes are found. */
  lemma {:induction false} QuotesOfMatch(text: string, open: string) returns (i: nat, j: nat)
    requires MatchesIn(text, open) && open != [] && open[|open| - 1] == '"'
    ensures i < j < |text| && text[i] == '"' && text[j] == '"'
  {
    var p, q := MatchOffsets(text, open);
    var after := text[p + |open|..];
    i, j := p + |open| - 1, p + |open| + q;
    assert text[i] == '"' by {
      CharOfMatch(text, p, open, |open| - 1);
    }
    assert text[j] == '"' by {
      CharOfMatch(after, q, AttributeClose, 0);
      assert after[q] == text[j];
    }
  }

  /** Where the opening part of a match starts, and where the closing part starts after it. */
  lemma MatchOffsets(text: string, open: string) returns (p: nat, q: nat)
    requires MatchesIn(text, open)
    ensures IndexOf(text, open) == Some(p) && p + |open| <= |text|
    ensures IndexOf(text[p + |open|..], AttributeClose) == Some(q)
  {
    p := IndexOf(text, open).value;
    q := IndexOf(text[p + |open|..], AttributeClose).value;
  }

  /** A match of pattern at p puts the pattern's k-th character at p + k. */
  lemma CharOfMatch(s: string, p: nat, pattern: string, k: nat)
    requires p + |pattern| <= |s| && StartsWith(s[p..], pattern) && k < |pattern|
    ensures s[p + k] == pattern[k]
  {
    assert s[p..][..|pattern|][k] == s[p + k];
  }
}
