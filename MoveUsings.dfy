/**
 * The using-relocation task: the using directives at the top level of a C# file are cut
 * out, in document order, and the whole list is pasted back just after the first "{" of
 * every top-level namespace. Any failure while editing restores the saved document.
 *
 * A document is the sequence of its top-level code elements, and its text is their texts
 * in order; the gaps between elements are not represented.
 */
module MoveUsings {
  import opened CodeModel

  /** The item filter: C# files that are not designer files. */
  predicate IsMovable(itemName: string)
  {
    EndsWith(itemName, ".cs") && !EndsWith(itemName, "Designer.cs")
  }

  /** The document text of a sequence of top-level elements. */
  function Text(file: seq<CodeElement>): string
  {
    if file == [] then "" else file[0].text + Text(file[1..])
  }

  /** Just past the first "{" of a namespace's text, as the search from its start point finds it. */
  function BracePoint(ns: CodeElement): (r: Option<nat>)
    ensures r.Some? ==> 1 <= r.value <= |ns.text| && ns.text[r.value - 1] == '{'
    ensures r.Some? ==> forall k :: 0 <= k < r.value - 1 ==> ns.text[k] != '{'
    ensures r.None? ==> '{' !in ns.text
  {
    match IndexOf(ns.text, "{")
    case None =>
      assert forall k :: 0 <= k < |ns.text| ==> ns.text[k..][..1] == [ns.text[k]];
      None
    case Some(i) =>
      assert forall k :: 0 <= k <= i ==> ns.text[k..][..1] == [ns.text[k]];
      Some(i + 1)
  }

  /** An insertion point: the index of its namespace and the offset just past the namespace's "{". */
  datatype InsertionPoint = InsertionPoint(element: nat, offset: nat)

  /** GetInsertionPoints over the first n top-level elements. */
  function InsertionPoints(file: seq<CodeElement>, n: nat): seq<InsertionPoint>
    requires n <= |file|
  {
    if n == 0 then []
    else
      var e := file[n - 1];
      var before := InsertionPoints(file, n - 1);
      if e.kind == Namespace && BracePoint(e).Some? then before + [InsertionPoint(n - 1, BracePoint(e).value)]
      else before
  }

  /** GetInsertionPoints: one point per top-level namespace that has a "{", in document order. */
  method GetInsertionPoints(fileCodeModel: seq<CodeElement>) returns (points: seq<InsertionPoint>)
    ensures points == InsertionPoints(fileCodeModel, |fileCodeModel|)
    ensures forall k :: 0 <= k < |points| ==>
      points[k].element < |fileCodeModel| && fileCodeModel[points[k].element].kind == Namespace &&
      BracePoint(fileCodeModel[points[k].element]) == Some(points[k].offset)
    ensures forall k, l :: 0 <= k < l < |points| ==> points[k].element < points[l].element
  {
    points := [];
    for i := 0 to |fileCodeModel|
      invariant points == InsertionPoints(fileCodeModel, i)
    {
      if fileCodeModel[i].kind == Namespace {
        var point := BracePoint(fileCodeModel[i]);
        if point.Some? {
          points := points + [InsertionPoint(i, point.value)];
        }
      }
    }
    InsertionPointsAreBraces(fileCodeModel, |fileCodeModel|);
  }

  /**
   * The points are exactly the namespaces that have a "{", each with its brace offset,
   * in strictly increasing document order.
   */
  lemma {:induction false} InsertionPointsAreBraces(file: seq<CodeElement>, n: nat)
    requires n <= |file|
    ensures forall k :: 0 <= k < |InsertionPoints(file, n)| ==>
      var p := InsertionPoints(file, n)[k];
      p.element < n && file[p.element].kind == Namespace && BracePoint(file[p.element]) == Some(p.offset)
    ensures forall k, l :: 0 <= k < l < |InsertionPoints(file, n)| ==>
      InsertionPoints(file, n)[k].element < InsertionPoints(file, n)[l].element
    ensures forall i :: 0 <= i < n && file[i].kind == Namespace && BracePoint(file[i]).Some? ==>
      InsertionPoint(i, BracePoint(file[i]).value) in InsertionPoints(file, n)
  {
    if n > 0 {
      InsertionPointsAreBraces(file, n - 1);
    }
  }

  /** The texts of the top-level using directives, in document order. */
  function Usings(file: seq<CodeElement>): seq<string>
  {
    if file == [] then []
    else
      var last := file[|file| - 1];
      Usings(file[..|file| - 1]) + (if last.kind == ImportStmt then [last.text] else [])
  }

  /** The top-level elements other than using directives, in document order. */
  function WithoutUsings(file: seq<CodeElement>): seq<CodeElement>
  {
    if file == [] then []
    else
      var last := file[|file| - 1];
      WithoutUsings(file[..|file| - 1]) + (if last.kind == ImportStmt then [] else [last])
  }

  /** The text pasted after a namespace's "{": a line break, then each directive on a line of its own. */
  function UsingBlock(usings: seq<string>): string
  {
    if usings == [] then "" else NewLine + Unlines(usings)
  }

  /**
   * One namespace after the paste: the block goes in just after its "{", the host's
   * vertical white-space deletion (squeeze) acts on the text that follows, and a line
   * break separates the two when there was something to paste.
   */
  function Relocate(ns: CodeElement, usings: seq<string>, squeeze: string -> string): CodeElement
  {
    match BracePoint(ns)
    case None => ns
    case Some(p) =>
      ns.(text := ns.text[..p] + UsingBlock(usings) + (if usings == [] then "" else NewLine) + squeeze(ns.text[p..]))
  }

  function RelocateIfNamespace(e: CodeElement, usings: seq<string>, squeeze: string -> string): CodeElement
  {
    if e.kind == Namespace then Relocate(e, usings, squeeze) else e
  }

  /** MoveUsingStatements: the usings are cut out, then pasted into every namespace. */
  function MoveUsingStatements(file: seq<CodeElement>, squeeze: string -> string): (r: seq<CodeElement>)
    ensures |r| == |WithoutUsings(file)|
  {
    var kept := WithoutUsings(file);
    seq(|kept|, k requires 0 <= k < |kept| => RelocateIfNamespace(kept[k], Usings(file), squeeze))
  }

  /**
   * The cutting loop removes each top-level directive and looks at the same index again;
   * then every namespace gets the block, built one directive at a time.
   */
  method MoveUsingStatementsInPlace(fileCodeModel: seq<CodeElement>, squeeze: string -> string)
    returns (elements: seq<CodeElement>)
    ensures elements == MoveUsingStatements(fileCodeModel, squeeze)
  {
    var usingStatements;
    elements, usingStatements := CutUsings(fileCodeModel);
    ghost var kept := elements;
    for k := 0 to |elements|
      invariant |elements| == |kept|
      invariant forall j :: 0 <= j < k ==> elements[j] == RelocateIfNamespace(kept[j], usingStatements, squeeze)
      invariant forall j :: k <= j < |kept| ==> elements[j] == kept[j]
    {
      if elements[k].kind == Namespace {
        var origin := BracePoint(elements[k]);
        if origin.Some? {
          var text := elements[k].text;
          var p := origin.value;
          var block := PasteBlock(usingStatements);
          elements := elements[k := elements[k].(text := text[..p] + block + squeeze(text[p..]))];
        }
      }
    }
  }

  /** The cutting loop: a directive is removed and the same index is looked at again. */
  method CutUsings(fileCodeModel: seq<CodeElement>) returns (elements: seq<CodeElement>, usingStatements: seq<string>)
    ensures elements == WithoutUsings(fileCodeModel) && usingStatements == Usings(fileCodeModel)
  {
    elements := fileCodeModel;
    usingStatements := [];
    var i := 0;
    ghost var done := 0;
    while i < |elements|
      invariant 0 <= done <= |fileCodeModel|
      invariant elements == WithoutUsings(fileCodeModel[..done]) + fileCodeModel[done..]
      invariant i == |WithoutUsings(fileCodeModel[..done])|
      invariant usingStatements == Usings(fileCodeModel[..done])
      decreases |elements| - i
    {
      CutStep(fileCodeModel, done);
      var element := elements[i];
      if element.kind == ImportStmt {
        usingStatements := usingStatements + [element.text];
        elements := elements[..i] + elements[i + 1..];
      } else {
        i := i + 1;
      }
      done := done + 1;
    }
    assert fileCodeModel[..done] == fileCodeModel;
  }

  /** One step of the cutting loop, on the elements left in place. */
  lemma CutStep(file: seq<CodeElement>, done: nat)
    requires done < |file|
    ensures var kept := WithoutUsings(file[..done]);
      var e := file[done];
      (kept + file[done..])[|kept|] == e &&
      (e.kind == ImportStmt ==>
        WithoutUsings(file[..done + 1]) == kept &&
        Usings(file[..done + 1]) == Usings(file[..done]) + [e.text] &&
        (kept + file[done..])[..|kept|] + (kept + file[done..])[|kept| + 1..] == kept + file[done + 1..]) &&
      (e.kind != ImportStmt ==>
        WithoutUsings(file[..done + 1]) == kept + [e] &&
        Usings(file[..done + 1]) == Usings(file[..done]) &&
        kept + file[done..] == (kept + [e]) + file[done + 1..])
  {
    assert file[..done + 1][..done] == file[..done];
    var kept := WithoutUsings(file[..done]);
    assert (kept + file[done..])[..|kept|] == kept;
    assert (kept + file[done..])[|kept| + 1..] == file[done + 1..];
    assert file[done..] == [file[done]] + file[done + 1..];
  }

  /** The pasting loop for one namespace. */
  method PasteBlock(usingStatements: seq<string>) returns (block: string)
    ensures block == UsingBlock(usingStatements) + (if usingStatements == [] then "" else NewLine)
  {
    block := "";
    if |usingStatements| > 0 {
      block := NewLine;
      for j := 0 to |usingStatements|
        invariant block == NewLine + Unlines(usingStatements[..j])
      {
        UnlinesSnoc(usingStatements[..j], usingStatements[j]);
        assert usingStatements[..j + 1] == usingStatements[..j] + [usingStatements[j]];
        block := block + usingStatements[j] + NewLine;
      }
      assert usingStatements[..|usingStatements|] == usingStatements;
      block := block + NewLine;
    }
  }

  /**
   * DoWork on one project item; None when the exception the missing window raises
   * escapes the task. fault stands for a failure of any host edit inside the guarded
   * part, after which the saved text is put back.
   */
  function DoWork(itemName: string, hasWindow: bool, file: seq<CodeElement>, fault: bool, squeeze: string -> string):
    (r: Option<string>)
    ensures !IsMovable(itemName) ==> r == Some(Text(file))
    ensures IsMovable(itemName) && !hasWindow ==> r.None?
    ensures IsMovable(itemName) && hasWindow && fault ==> r == Some(Text(file))
    ensures InsertionPoints(file, |file|) == [] && (hasWindow || !IsMovable(itemName)) ==> r == Some(Text(file))
    ensures IsMovable(itemName) && hasWindow && !fault && InsertionPoints(file, |file|) != [] ==>
      r == Some(Text(MoveUsingStatements(file, squeeze)))
  {
    if !IsMovable(itemName) then Some(Text(file))
    else if !hasWindow then None
    else
      var backupText := Text(file);
      if fault then Some(backupText)
      else if InsertionPoints(file, |file|) == [] then Some(Text(file))
      else Some(Text(MoveUsingStatements(file, squeeze)))
  }

  method RunMoveUsings(itemName: string, hasWindow: bool, fileCodeModel: seq<CodeElement>, fault: bool, squeeze: string -> string)
    returns (r: Option<string>)
    ensures r == DoWork(itemName, hasWindow, fileCodeModel, fault, squeeze)
  {
    if !IsMovable(itemName) {
      return Some(Text(fileCodeModel));
    }
    if !hasWindow {
      return None;
    }
    var backupText := Text(fileCodeModel);
    if fault {
      return Some(backupText);
    }
    var namespaceInsertionPoints := GetInsertionPoints(fileCodeModel);
    if |namespaceInsertionPoints| > 0 {
      var edited := MoveUsingStatementsInPlace(fileCodeModel, squeeze);
      return Some(Text(edited));
    }
    return Some(backupText);
  }

  // ---------------------------------------------------------------------------
  // What the move promises

  /** Cutting splits the file: every element is either a collected directive or kept, in order. */
  lemma {:induction false} CutSplitsFile(file: seq<CodeElement>)
    ensures |Usings(file)| + |WithoutUsings(file)| == |file|
    ensures forall e :: e in WithoutUsings(file) ==> e in file && e.kind != ImportStmt
  {
    if file != [] {
      var init := file[..|file| - 1];
      CutSplitsFile(init);
      assert forall e :: e in init ==> e in file;
    }
  }

  /** The collected texts are exactly those of the file's top-level directives. */
  lemma {:induction false} UsingsAreTheDirectives(file: seq<CodeElement>)
    ensures forall u :: u in Usings(file) <==> exists i :: 0 <= i < |file| && file[i].kind == ImportStmt && file[i].text == u
  {
    if file != [] {
      var init := file[..|file| - 1];
      UsingsAreTheDirectives(init);
      assert forall i :: 0 <= i < |init| ==> init[i] == file[i];
    }
  }

  /** A file with no top-level directive keeps all its elements, and nothing is collected. */
  lemma {:induction false} NothingToCut(file: seq<CodeElement>)
    requires forall i :: 0 <= i < |file| ==> file[i].kind != ImportStmt
    ensures Usings(file) == [] && WithoutUsings(file) == file
  {
    if file != [] {
      var init := file[..|file| - 1];
      assert forall i :: 0 <= i < |init| ==> init[i] == file[i];
      NothingToCut(init);
      assert init + [file[|file| - 1]] == file;
    }
  }

  /**
   * After the move no directive is left at the top level, so a second run collects
   * nothing; every other element keeps its place, and only namespace texts change.
   */
  lemma MovedFileHasNoTopLevelUsings(file: seq<CodeElement>, squeeze: string -> string)
    ensures forall e :: e in MoveUsingStatements(file, squeeze) ==> e.kind != ImportStmt
    ensures Usings(MoveUsingStatements(file, squeeze)) == []
    ensures forall k :: 0 <= k < |MoveUsingStatements(file, squeeze)| ==>
      var before := WithoutUsings(file)[k];
      var after := MoveUsingStatements(file, squeeze)[k];
      after.(text := before.text) == before && (before.kind != Namespace ==> after == before)
  {
    var moved := MoveUsingStatements(file, squeeze);
    CutSplitsFile(file);
    forall k | 0 <= k < |moved| ensures moved[k].kind != ImportStmt {
      assert WithoutUsings(file)[k] in WithoutUsings(file);
    }
    NothingToCut(moved);
  }

  /**
   * Every namespace with a "{" receives the whole list, in the collected order, one
   * directive per line, followed by a blank line; the text before the brace is kept.
   */
  lemma EveryNamespaceGetsAllUsings(file: seq<CodeElement>, squeeze: string -> string, k: nat)
    requires k < |WithoutUsings(file)|
    requires WithoutUsings(file)[k].kind == Namespace && BracePoint(WithoutUsings(file)[k]).Some?
    requires Usings(file) != []
    ensures var ns := WithoutUsings(file)[k];
      var p := BracePoint(ns).value;
      MoveUsingStatements(file, squeeze)[k].text ==
        ns.text[..p] + NewLine + Unlines(Usings(file)) + NewLine + squeeze(ns.text[p..])
  {
    MovedAt(file, squeeze, k);
  }

  /** With no directives to move, nothing is pasted: only the white-space deletion after each "{" happens. */
  lemma NoUsingsNoPaste(file: seq<CodeElement>, squeeze: string -> string, k: nat)
    requires k < |WithoutUsings(file)| && Usings(file) == []
    requires WithoutUsings(file)[k].kind == Namespace && BracePoint(WithoutUsings(file)[k]).Some?
    ensures var ns := WithoutUsings(file)[k];
      var p := BracePoint(ns).value;
      MoveUsingStatements(file, squeeze)[k].text == ns.text[..p] + squeeze(ns.text[p..])
  {
    MovedAt(file, squeeze, k);
  }

  lemma MovedAt(file: seq<CodeElement>, squeeze: string -> string, k: nat)
    requires k < |WithoutUsings(file)|
    ensures MoveUsingStatements(file, squeeze)[k] == RelocateIfNamespace(WithoutUsings(file)[k], Usings(file), squeeze)
  {
  }

  /** Each pasted directive sits on a line of its own in the block, in the collected order. */
  lemma {:induction false} UnlinesHasEveryLine(lines: seq<string>, j: nat)
    requires j < |lines|
    ensures Unlines(lines) == Unlines(lines[..j]) + lines[j] + NewLine + Unlines(lines[j + 1..])
  {
    if j > 0 {
      UnlinesHasEveryLine(lines[1..], j - 1);
      assert lines[1..][..j - 1] == lines[1..j];
      assert lines[1..][j - 1] == lines[j];
      assert lines[1..][j..] == lines[j + 1..];
      assert lines[..j][1..] == lines[1..j];
    } else {
      assert lines[..0] == [];
      assert lines[1..] == lines[j + 1..];
    }
  }
}
