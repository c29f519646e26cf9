/**
 * The access-modifier task: walks the classes and structs of every top-level namespace
 * and writes each member's own Access property back to it wherever the declaration
 * does not yet start with the access keyword; the host then spells the keyword out.
 *
 * Two revisions of the task exist. The Sweeper revision also exempts declarations that
 * start with "partial" and tests the block-type table before walking; the trunk revision
 * has its own keyword and type tables and neither test. SweeperCorrected is the Sweeper
 * revision with the block-type tests removed, as the trunk revision removes them.
 */
module AddAccessModifiers {
  import opened CodeModel
  import opened StyleTaskBase

  datatype Version = SweeperAsWritten | SweeperCorrected | Trunk

  /** One write of an element's Access property; path leads to the element from the file's top level. */
  datatype Write = Write(path: seq<nat>, access: Access)

  /** The writes made, in order, and whether an exception ended the walk. */
  datatype Walk = Walk(writes: seq<Write>, failed: bool)

  /** The trunk revision's own keyword table. */
  const TrunkAccessKeywords: map<Access, string> :=
    map[Public := "public", Protected := "protected", Private := "private", Project := "internal"]

  /** The trunk revision's own type table: the shared one without the interface entry. */
  const TrunkElementTypes: map<ElementKind, HostType> :=
    map[
      Class := CodeClass, Delegate := CodeDelegate, Enum := CodeEnum, Event := CodeEvent,
      Function := CodeFunction, Property := CodeProperty, Struct := CodeStruct, Variable := CodeVariable]

  function KeywordTable(v: Version): map<Access, string>
  {
    if v == Trunk then TrunkAccessKeywords else CodeAccessKeywords
  }

  function TypeTable(v: Version): map<ElementKind, HostType>
  {
    if v == Trunk then TrunkElementTypes else CodeElementTypes
  }

  /** The trunk tables agree with the shared ones, except that the type table has no interface entry. */
  lemma TrunkTablesAgree()
    ensures TrunkAccessKeywords == CodeAccessKeywords
    ensures TrunkElementTypes.Keys == CodeElementTypes.Keys - {Interface}
    ensures forall k :: k in TrunkElementTypes ==> TrunkElementTypes[k] == CodeElementTypes[k]
  {
  }

  /** The test in front of the child loop. */
  predicate ParentAccepted(v: Version, k: ElementKind)
  {
    k != Interface && (v == SweeperAsWritten ==> k in CodeElementBlockTypes)
  }

  /** The test on each child; the Sweeper revision re-tests the parent's kind here. */
  predicate ChildAccepted(v: Version, parentKind: ElementKind, k: ElementKind)
  {
    k != ImportStmt && k != Interface && (v == SweeperAsWritten ==> parentKind in CodeElementBlockTypes)
  }

  predicate IsClassOrStruct(k: ElementKind)
  {
    k == Class || k == Struct
  }

  /** Finalizers and static constructors take no access modifier. */
  predicate IsExempt(e: CodeElement)
  {
    e.kind == Function && (e.functionKind == Destructor || (e.functionKind == Constructor && e.isShared))
  }

  /**
   * The declaration line the keyword is looked for in: after the attributes of an
   * attributed property, variable or event, from the start point of an unattributed one,
   * and from the header for every other kind.
   */
  function Declaration(e: CodeElement): string
  {
    if e.kind == Property || e.kind == Variable || e.kind == Event then
      (if e.attributeCount > 0 then e.afterAttributesLine else e.startLine)
    else e.headerLine
  }

  /** The declaration already carries its keyword (or, in the Sweeper revision, starts with "partial"). */
  predicate HasModifier(v: Version, declaration: string, keyword: string)
  {
    StartsWith(declaration, keyword) || (v != Trunk && StartsWith(declaration, "partial"))
  }

  /** An element, once reached, gets its access written back. */
  predicate NeedsModifier(v: Version, e: CodeElement)
  {
    e.access.Some? && e.access.value in KeywordTable(v) && !IsExempt(e) &&
    !HasModifier(v, Declaration(e), KeywordTable(v)[e.access.value])
  }

  function Then(first: Walk, second: Walk): Walk
  {
    Walk(first.writes + second.writes, second.failed)
  }

  /**
   * One accepted child at path: its Access is read through the type table (an unknown
   * kind or an unreadable Access throws), a class or struct is walked first, exempt
   * functions are skipped, and the access is written back when the declaration lacks it
   * (a level without a keyword throws at the keyword lookup).
   */
  function Visit(v: Version, c: CodeElement, path: seq<nat>): Walk
    decreases c, 2
  {
    if c.kind !in TypeTable(v) || c.access.None? then Walk([], true)
    else
      var nested := if IsClassOrStruct(c.kind) then WalkElement(v, c, path) else Walk([], false);
      var a := c.access.value;
      if nested.failed || IsExempt(c) then nested
      else if a !in KeywordTable(v) then Walk(nested.writes, true)
      else if HasModifier(v, Declaration(c), KeywordTable(v)[a]) then nested
      else Walk(nested.writes + [Write(path, a)], false)
  }

  /** AddMissingAccessModifiers on the element at path. */
  function WalkElement(v: Version, e: CodeElement, path: seq<nat>): Walk
    decreases e, 1
  {
    if ParentAccepted(v, e.kind) then WalkUpTo(v, e, path, |e.children|) else Walk([], false)
  }

  /** The child loop over the first n children; an exception ends it. */
  function WalkUpTo(v: Version, e: CodeElement, path: seq<nat>, n: nat): Walk
    requires n <= |e.children|
    decreases e, 0, n
  {
    if n == 0 then Walk([], false)
    else
      var before := WalkUpTo(v, e, path, n - 1);
      var c := e.children[n - 1];
      if before.failed || !ChildAccepted(v, e.kind, c.kind) then before
      else Then(before, Visit(v, c, path + [n - 1]))
  }

  /** DoWork's loop over the first n top-level elements: each namespace is walked. */
  function WalkFile(v: Version, file: seq<CodeElement>, n: nat): Walk
    requires n <= |file|
  {
    if n == 0 then Walk([], false)
    else
      var before := WalkFile(v, file, n - 1);
      if before.failed || file[n - 1].kind != Namespace then before
      else Then(before, WalkElement(v, file[n - 1], [n - 1]))
  }

  lemma {:induction false} ChildLoopFailureSticks(v: Version, e: CodeElement, path: seq<nat>, m: nat, n: nat)
    requires m <= n <= |e.children| && WalkUpTo(v, e, path, m).failed
    ensures WalkUpTo(v, e, path, n) == WalkUpTo(v, e, path, m)
    decreases n
  {
    if n > m {
      ChildLoopFailureSticks(v, e, path, m, n - 1);
    }
  }

  lemma {:induction false} FileLoopFailureSticks(v: Version, file: seq<CodeElement>, m: nat, n: nat)
    requires m <= n <= |file| && WalkFile(v, file, m).failed
    ensures WalkFile(v, file, n) == WalkFile(v, file, m)
    decreases n
  {
    if n > m {
      FileLoopFailureSticks(v, file, m, n - 1);
    }
  }

  /**
   * AddMissingAccessModifiers: the indexed child loop, with the recursion into classes
   * and structs and the in-place Access writes recorded in order.
   */
  method AddMissingAccessModifiers(v: Version, codeElement: CodeElement, path: seq<nat>) returns (w: Walk)
    ensures w == WalkElement(v, codeElement, path)
    decreases codeElement, 1
  {
    w := Walk([], false);
    if !ParentAccepted(v, codeElement.kind) {
      return;
    }
    var children := codeElement.children;
    var i := 0;
    while i < |children|
      invariant 0 <= i <= |children|
      invariant w == WalkUpTo(v, codeElement, path, i) && !w.failed
    {
      var element := children[i];
      if ChildAccepted(v, codeElement.kind, element.kind) {
        var r := VisitChild(v, element, path + [i]);
        assert WalkUpTo(v, codeElement, path, i + 1) == Then(w, r);
        w := Then(w, r);
        if w.failed {
          ChildLoopFailureSticks(v, codeElement, path, i + 1, |children|);
          return;
        }
      } else {
        assert WalkUpTo(v, codeElement, path, i + 1) == w;
      }
      i := i + 1;
    }
  }

  /** The body of the child loop for one accepted child. */
  method VisitChild(v: Version, element: CodeElement, path: seq<nat>) returns (r: Walk)
    ensures r == Visit(v, element, path)
    decreases element, 2
  {
    if element.kind !in TypeTable(v) || element.access.None? {
      return Walk([], true);
    }
    var access := element.access.value;
    r := Walk([], false);
    if IsClassOrStruct(element.kind) {
      r := AddMissingAccessModifiers(v, element, path);
      if r.failed {
        return;
      }
    }
    if IsExempt(element) {
      return;
    }
    if access !in KeywordTable(v) {
      return Walk(r.writes, true);
    }
    var declaration := Declaration(element);
    if !HasModifier(v, declaration, KeywordTable(v)[access]) {
      r := Walk(r.writes + [Write(path, access)], false);
    }
  }

  /** DoWork: every top-level namespace of the file's code model is handed to the walk. */
  method DoWork(v: Version, fileCodeModel: seq<CodeElement>) returns (w: Walk)
    ensures w == WalkFile(v, fileCodeModel, |fileCodeModel|)
  {
    w := Walk([], false);
    var i := 0;
    while i < |fileCodeModel|
      invariant 0 <= i <= |fileCodeModel|
      invariant w == WalkFile(v, fileCodeModel, i) && !w.failed
    {
      if fileCodeModel[i].kind == Namespace {
        var r := AddMissingAccessModifiers(v, fileCodeModel[i], [i]);
        w := Then(w, r);
        if w.failed {
          FileLoopFailureSticks(v, fileCodeModel, i + 1, |fileCodeModel|);
          return;
        }
      }
      i := i + 1;
    }
  }

  // ---------------------------------------------------------------------------
  // Which elements are written

  /**
   * The element at q below parent is one the walk reaches: the parent passes the loop
   * guard, the child passes the child test, and every element passed through on the way
   * down is a class or a struct.
   */
  predicate ReachedBelow(v: Version, parent: CodeElement, q: seq<nat>)
    decreases q
  {
    |q| >= 1 && q[0] < |parent.children| && ParentAccepted(v, parent.kind) &&
    ChildAccepted(v, parent.kind, parent.children[q[0]].kind) &&
    (|q| > 1 ==> IsClassOrStruct(parent.children[q[0]].kind) && ReachedBelow(v, parent.children[q[0]], q[1..]))
  }

  /** The element at q below parent is reached, needs its modifier, and has access a. */
  predicate TargetBelow(v: Version, parent: CodeElement, q: seq<nat>, a: Access)
  {
    ReachedBelow(v, parent, q) && ElementAt(parent.children, q).Some? &&
    ElementAt(parent.children, q).value.access == Some(a) &&
    NeedsModifier(v, ElementAt(parent.children, q).value)
  }

  /** The same, for a path from the top level of a file: it starts at a namespace. */
  predicate Target(v: Version, file: seq<CodeElement>, p: seq<nat>, a: Access)
  {
    |p| >= 2 && p[0] < |file| && file[p[0]].kind == Namespace && TargetBelow(v, file[p[0]], p[1..], a)
  }

  lemma {:induction false} ReachedBelowHasElement(v: Version, parent: CodeElement, q: seq<nat>)
    requires ReachedBelow(v, parent, q)
    ensures ElementAt(parent.children, q).Some?
    decreases q
  {
    if |q| > 1 {
      ReachedBelowHasElement(v, parent.children[q[0]], q[1..]);
    }
  }

  /** Target paths one level down: a target below a reached class or struct child. */
  lemma NestedTarget(v: Version, parent: CodeElement, j: nat, q: seq<nat>, a: Access)
    requires j < |parent.children| && ParentAccepted(v, parent.kind)
    requires ChildAccepted(v, parent.kind, parent.children[j].kind) && IsClassOrStruct(parent.children[j].kind)
    requires TargetBelow(v, parent.children[j], q, a)
    ensures TargetBelow(v, parent, [j] + q, a)
  {
    assert ([j] + q)[1..] == q;
  }

  /** Every write of an accepted child's visit is a target below the parent. */
  lemma {:induction false} VisitSound(v: Version, parent: CodeElement, path: seq<nat>, j: nat)
    requires j < |parent.children| && ParentAccepted(v, parent.kind)
    requires ChildAccepted(v, parent.kind, parent.children[j].kind)
    ensures forall w :: w in Visit(v, parent.children[j], path + [j]).writes ==>
      |w.path| > |path| && w.path[..|path|] == path && TargetBelow(v, parent, w.path[|path|..], w.access)
    decreases parent.children[j], 2
  {
    var c := parent.children[j];
    var cpath := path + [j];
    if c.kind in TypeTable(v) && c.access.Some? {
      var nested := if IsClassOrStruct(c.kind) then WalkElement(v, c, cpath) else Walk([], false);
      if IsClassOrStruct(c.kind) {
        WalkElementSound(v, c, cpath);
        forall w | w in nested.writes
          ensures |w.path| > |path| && w.path[..|path|] == path && TargetBelow(v, parent, w.path[|path|..], w.access)
        {
          var q := w.path[|cpath|..];
          assert w.path == cpath + q;
          NestedTarget(v, parent, j, q, w.access);
          assert w.path[|path|..] == [j] + q;
        }
      }
      forall w | w in Visit(v, c, cpath).writes && w !in nested.writes
        ensures |w.path| > |path| && w.path[..|path|] == path && TargetBelow(v, parent, w.path[|path|..], w.access)
      {
        assert w == Write(cpath, c.access.value);
        assert cpath[|path|..] == [j];
      }
    }
  }

  lemma {:induction false} WalkUpToSound(v: Version, e: CodeElement, path: seq<nat>, n: nat)
    requires n <= |e.children| && ParentAccepted(v, e.kind)
    ensures forall w :: w in WalkUpTo(v, e, path, n).writes ==>
      |w.path| > |path| && w.path[..|path|] == path && TargetBelow(v, e, w.path[|path|..], w.access)
    decreases e, 0, n
  {
    if n > 0 {
      WalkUpToSound(v, e, path, n - 1);
      if !WalkUpTo(v, e, path, n - 1).failed && ChildAccepted(v, e.kind, e.children[n - 1].kind) {
        VisitSound(v, e, path, n - 1);
      }
    }
  }

  lemma {:induction false} WalkElementSound(v: Version, e: CodeElement, path: seq<nat>)
    ensures forall w :: w in WalkElement(v, e, path).writes ==>
      |w.path| > |path| && w.path[..|path|] == path && TargetBelow(v, e, w.path[|path|..], w.access)
    decreases e, 1
  {
    if ParentAccepted(v, e.kind) {
      WalkUpToSound(v, e, path, |e.children|);
    }
  }

  lemma {:induction false} WalkFileSound(v: Version, file: seq<CodeElement>, n: nat)
    requires n <= |file|
    ensures forall w :: w in WalkFile(v, file, n).writes ==> Target(v, file, w.path, w.access)
  {
    if n > 0 {
      WalkFileSound(v, file, n - 1);
      if !WalkFile(v, file, n - 1).failed && file[n - 1].kind == Namespace {
        WalkElementSound(v, file[n - 1], [n - 1]);
        forall w | w in WalkElement(v, file[n - 1], [n - 1]).writes ensures Target(v, file, w.path, w.access) {
          assert w.path[..1] == [n - 1];
        }
      }
    }
  }

  /**
   * Every write the task makes is to a target: a reached element that needs its modifier,
   * written with the access level it already has. Hence no finalizer, static constructor,
   * import or interface is written, and nothing below an interface.
   */
  lemma WritesOnlyTargets(v: Version, file: seq<CodeElement>)
    ensures forall w :: w in WalkFile(v, file, |file|).writes ==> Target(v, file, w.path, w.access)
  {
    WalkFileSound(v, file, |file|);
  }

  lemma {:induction false} WalkUpToGrows(v: Version, e: CodeElement, path: seq<nat>, m: nat, n: nat)
    requires m <= n <= |e.children| && !WalkUpTo(v, e, path, n).failed
    ensures !WalkUpTo(v, e, path, m).failed
    ensures forall w :: w in WalkUpTo(v, e, path, m).writes ==> w in WalkUpTo(v, e, path, n).writes
    decreases n
  {
    if n > m {
      WalkUpToGrows(v, e, path, m, n - 1);
    }
  }

  lemma {:induction false} WalkElementComplete(v: Version, e: CodeElement, path: seq<nat>, q: seq<nat>, a: Access)
    requires !WalkElement(v, e, path).failed && TargetBelow(v, e, q, a)
    ensures Write(path + q, a) in WalkElement(v, e, path).writes
    decreases e, 1
  {
    var j := q[0];
    assert ReachedBelow(v, e, q);
    assert WalkElement(v, e, path) == WalkUpTo(v, e, path, |e.children|);
    WalkUpToGrows(v, e, path, j + 1, |e.children|);
    WalkUpToGrows(v, e, path, j, j + 1);
    ChildStep(v, e, path, j);
    VisitComplete(v, e, path, q, a);
  }

  /** One turn of the child loop on an accepted child. */
  lemma ChildStep(v: Version, e: CodeElement, path: seq<nat>, j: nat)
    requires j < |e.children| && ChildAccepted(v, e.kind, e.children[j].kind)
    requires !WalkUpTo(v, e, path, j).failed
    ensures WalkUpTo(v, e, path, j + 1) == Then(WalkUpTo(v, e, path, j), Visit(v, e.children[j], path + [j]))
  {
  }

  lemma {:induction false} VisitComplete(v: Version, e: CodeElement, path: seq<nat>, q: seq<nat>, a: Access)
    requires TargetBelow(v, e, q, a) && !Visit(v, e.children[q[0]], path + [q[0]]).failed
    ensures Write(path + q, a) in Visit(v, e.children[q[0]], path + [q[0]]).writes
    decreases e.children[q[0]], 2
  {
    var j := q[0];
    var c := e.children[j];
    if |q| == 1 {
      assert q == [j] && c == ElementAt(e.children, q).value;
    } else {
      assert ElementAt(e.children, q) == ElementAt(c.children, q[1..]);
      WalkElementComplete(v, c, path + [j], q[1..], a);
      assert path + [j] + q[1..] == path + q;
    }
  }

  /** When no exception ends the walk, every target is written, with its own access level. */
  lemma WritesEveryTarget(v: Version, file: seq<CodeElement>, p: seq<nat>, a: Access)
    requires !WalkFile(v, file, |file|).failed && Target(v, file, p, a)
    ensures Write(p, a) in WalkFile(v, file, |file|).writes
  {
    var i, q := p[0], p[1..];
    assert [i] + q == p;
    FileWalkGrows(v, file, i + 1, |file|);
    NamespaceWritten(v, file, i, q, a);
  }

  /** A target below the i-th top-level namespace is written by the file loop's i-th turn. */
  lemma NamespaceWritten(v: Version, file: seq<CodeElement>, i: nat, q: seq<nat>, a: Access)
    requires i < |file| && file[i].kind == Namespace && TargetBelow(v, file[i], q, a)
    requires !WalkFile(v, file, i + 1).failed
    ensures Write([i] + q, a) in WalkFile(v, file, i + 1).writes
  {
    FileWalkGrows(v, file, i, i + 1);
    var here := WalkElement(v, file[i], [i]);
    assert WalkFile(v, file, i + 1) == Then(WalkFile(v, file, i), here);
    WalkElementComplete(v, file[i], [i], q, a);
  }

  lemma {:induction false} FileWalkGrows(v: Version, file: seq<CodeElement>, m: nat, n: nat)
    requires m <= n <= |file| && !WalkFile(v, file, n).failed
    ensures !WalkFile(v, file, m).failed
    ensures forall w :: w in WalkFile(v, file, m).writes ==> w in WalkFile(v, file, n).writes
    decreases n
  {
    if n > m {
      FileWalkGrows(v, file, m, n - 1);
    }
  }

  // ---------------------------------------------------------------------------
  // What the writes do to the code model

  /** The code model after the writes, one after the other. */
  function ApplyWrites(file: seq<CodeElement>, writes: seq<Write>): seq<CodeElement>
    decreases |writes|
  {
    if writes == [] then file
    else ApplyWrites(SetAccessAt(file, writes[0].path, writes[0].access), writes[1..])
  }

  lemma {:induction false} ApplyCurrentWrites(file: seq<CodeElement>, writes: seq<Write>)
    requires forall w :: w in writes ==>
      ElementAt(file, w.path).Some? && ElementAt(file, w.path).value.access == Some(w.access)
    ensures ApplyWrites(file, writes) == file
  {
    if writes != [] {
      assert writes[0] in writes;
      SetAccessToCurrentIsIdentity(file, writes[0].path, writes[0].access);
      assert forall w :: w in writes[1..] ==> w in writes;
      ApplyCurrentWrites(file, writes[1..]);
    }
  }

  lemma TargetElement(v: Version, file: seq<CodeElement>, p: seq<nat>, a: Access)
    requires Target(v, file, p, a)
    ensures ElementAt(file, p).Some? && ElementAt(file, p).value.access == Some(a)
  {
    assert ElementAt(file, p) == ElementAt(file[p[0]].children, p[1..]);
  }

  /**
   * Each write sets an element's access to the level it already has, so no access level
   * changes: the code model after all the writes is the one before.
   */
  lemma WritesKeepAccessLevels(v: Version, file: seq<CodeElement>)
    ensures ApplyWrites(file, WalkFile(v, file, |file|).writes) == file
  {
    var writes := WalkFile(v, file, |file|).writes;
    WritesOnlyTargets(v, file);
    forall w | w in writes
      ensures ElementAt(file, w.path).Some? && ElementAt(file, w.path).value.access == Some(w.access)
    {
      TargetElement(v, file, w.path, w.access);
    }
    ApplyCurrentWrites(file, writes);
  }

  /** Everything the walk reaches lies in a namespace and then only in classes and structs. */
  lemma {:induction false} ReachedThroughTypes(v: Version, parent: CodeElement, q: seq<nat>, k: nat)
    requires ReachedBelow(v, parent, q) && 1 <= k < |q|
    ensures ElementAt(parent.children, q[..k]).Some?
    ensures IsClassOrStruct(ElementAt(parent.children, q[..k]).value.kind)
    decreases q
  {
    var c := parent.children[q[0]];
    if k > 1 {
      ReachedThroughTypes(v, c, q[1..], k - 1);
      assert q[..k][1..] == q[1..][..k - 1];
    } else {
      assert q[..k] == [q[0]];
    }
  }

  /** The members of an interface are never written: every enclosing element is a namespace, class or struct. */
  lemma InterfaceMembersNeverWritten(v: Version, file: seq<CodeElement>, w: Write, k: nat)
    requires w in WalkFile(v, file, |file|).writes && 1 <= k < |w.path|
    ensures ElementAt(file, w.path[..k]).Some?
    ensures ElementAt(file, w.path[..k]).value.kind in {Namespace, Class, Struct}
  {
    WritesOnlyTargets(v, file);
    var p := w.path;
    if k > 1 {
      ReachedThroughTypes(v, file[p[0]], p[1..], k - 1);
      assert p[..k][1..] == p[1..][..k - 1];
    } else {
      assert p[..k] == [p[0]];
    }
  }

  // ---------------------------------------------------------------------------
  // The revisions compared

  /**
   * As written, the Sweeper revision changes nothing: the guard in front of the child loop
   * asks for a block kind, and the walk is only ever handed namespaces, which are none.
   */
  lemma {:induction false} SweeperAsWrittenIsNoOp(file: seq<CodeElement>, n: nat)
    requires n <= |file|
    ensures WalkFile(SweeperAsWritten, file, n) == Walk([], false)
  {
    if n > 0 {
      SweeperAsWrittenIsNoOp(file, n - 1);
    }
  }

  /** A namespace with one internal class whose declaration lacks the keyword. */
  function OneClassFile(): seq<CodeElement>
  {
    var cls := CodeElement(Class, "Foo", Some(Project), OtherFunction, false, map[], [], 0,
      "class Foo", "class Foo", "class Foo", "class Foo { }", "class Foo { }", []);
    [CodeElement(Namespace, "N", None, OtherFunction, false, map[], [], 0,
      "namespace N", "namespace N", "namespace N", "", "", [cls])]
  }

  /** On that file the corrected and trunk walks write "internal" to the class; the written Sweeper walk writes nothing. */
  lemma OneClassFileIsWritten()
    ensures WalkFile(SweeperAsWritten, OneClassFile(), 1).writes == []
    ensures WalkFile(SweeperCorrected, OneClassFile(), 1).writes == [Write([0, 0], Project)]
    ensures WalkFile(Trunk, OneClassFile(), 1).writes == [Write([0, 0], Project)]
  {
    SweeperAsWrittenIsNoOp(OneClassFile(), 1);
    var cls := OneClassFile()[0].children[0];
    var h := cls.headerLine;
    assert h == "class Foo";
    assert !StartsWith(h, "internal") by {
      assert h[..8][0] == 'c' && "internal"[0] == 'i';
    }
    assert !StartsWith(h, "partial") by {
      assert h[..7][0] == 'c' && "partial"[0] == 'p';
    }
    assert [0] + [0] == [0, 0];
  }

  /**
   * The trunk revision writes the access of a reached declaration that starts with
   * "partial", which the Sweeper revision leaves alone; RevisionsWriteTheSame shows that
   * this is the only difference between the corrected Sweeper walk and the trunk walk.
   */
  lemma PartialDeclarationsDiffer(e: CodeElement)
    requires e.access.Some? && e.access.value in CodeAccessKeywords && !IsExempt(e)
    requires StartsWith(Declaration(e), "partial")
    ensures NeedsModifier(Trunk, e) && !NeedsModifier(SweeperCorrected, e)
  {
    var d := Declaration(e);
    var kw := CodeAccessKeywords[e.access.value];
    assert d[1] == 'a';
    assert |kw| >= 2 && kw[1] != 'a';
  }

  /** A declaration that does not start with "partial" needs its keyword in one revision exactly when it does in the other. */
  lemma RevisionsAgreeWithoutPartial(e: CodeElement)
    requires !StartsWith(Declaration(e), "partial")
    ensures NeedsModifier(Trunk, e) <==> NeedsModifier(SweeperCorrected, e)
  {
  }

  /** No element below e, at any depth, has a declaration starting with "partial". */
  predicate NoPartialBelow(e: CodeElement)
    decreases e
  {
    forall i :: 0 <= i < |e.children| ==>
      !StartsWith(Declaration(e.children[i]), "partial") && NoPartialBelow(e.children[i])
  }

  lemma {:induction false} VisitAgrees(c: CodeElement, path: seq<nat>)
    requires c.kind != Interface && !StartsWith(Declaration(c), "partial") && NoPartialBelow(c)
    ensures Visit(Trunk, c, path) == Visit(SweeperCorrected, c, path)
    decreases c, 2
  {
    if IsClassOrStruct(c.kind) {
      WalkElementAgrees(c, path);
    }
    RevisionsAgreeWithoutPartial(c);
  }

  lemma {:induction false} WalkElementAgrees(e: CodeElement, path: seq<nat>)
    requires NoPartialBelow(e)
    ensures WalkElement(Trunk, e, path) == WalkElement(SweeperCorrected, e, path)
    decreases e, 1
  {
    WalkUpToAgrees(e, path, |e.children|);
  }

  lemma {:induction false} WalkUpToAgrees(e: CodeElement, path: seq<nat>, n: nat)
    requires n <= |e.children| && NoPartialBelow(e)
    ensures WalkUpTo(Trunk, e, path, n) == WalkUpTo(SweeperCorrected, e, path, n)
    decreases e, 0, n
  {
    if n > 0 {
      WalkUpToAgrees(e, path, n - 1);
      var c := e.children[n - 1];
      if ChildAccepted(Trunk, e.kind, c.kind) {
        VisitAgrees(c, path + [n - 1]);
      }
    }
  }

  /**
   * Without "partial" declarations the corrected Sweeper walk and the trunk walk make the
   * same writes, in the same order, and fail on the same files: the "partial" exemption is
   * the one difference between them.
   */
  lemma {:induction false} RevisionsWriteTheSame(file: seq<CodeElement>, n: nat)
    requires n <= |file|
    requires forall i :: 0 <= i < |file| ==> NoPartialBelow(file[i])
    ensures WalkFile(Trunk, file, n) == WalkFile(SweeperCorrected, file, n)
  {
    if n > 0 {
      RevisionsWriteTheSame(file, n - 1);
      WalkElementAgrees(file[n - 1], [n - 1]);
    }
  }
}
