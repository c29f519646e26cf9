/**
 * The GhostDoc task: a pre-order walk over a C# file's code model that issues GhostDoc's
 * "document this" command on every element of a documentable kind that is not internal.
 * Elements are named by their paths of child indices from the file's top level; the
 * walk's result is the list of paths documented, in the order the commands are issued.
 */
module RunGhostDoc {
  import opened CodeModel

  /** The kinds whose Access is read and which are documented unless internal. */
  predicate IsDocumentedKind(k: ElementKind)
  {
    k == Function || k == Property || k == Event || k == Class || k == Struct ||
    k == Delegate || k == Enum || k == Variable || k == Interface
  }

  /** The kinds whose children are walked: the documented kinds except variables, and namespaces. */
  predicate WalksChildren(k: ElementKind)
  {
    (IsDocumentedKind(k) && k != Variable) || k == Namespace
  }

  /** An element that gets documented when the walk reaches it. */
  predicate IsCandidate(e: CodeElement)
  {
    IsDocumentedKind(e.kind) && e.access.Some? && e.access.value != Project
  }

  /**
   * The state of one DocumentElements loop: the paths documented so far, and whether an
   * exception has ended the loop.
   */
  datatype Pass = Pass(documented: seq<seq<nat>>, aborted: bool)

  /**
   * One element of the loop, at path. An unreadable Access, or a DocumentElement call that
   * throws (the paths in faults), ends the loop; otherwise the element is documented when
   * it is a candidate and its children are walked by a loop of their own, which catches
   * its own exceptions.
   */
  function VisitElement(e: CodeElement, path: seq<nat>, faults: set<seq<nat>>): Pass
    decreases e, 1
  {
    if !WalksChildren(e.kind) && !IsDocumentedKind(e.kind) then Pass([], false)
    else if IsDocumentedKind(e.kind) && e.access.None? then Pass([], true)
    else if IsCandidate(e) && path in faults then Pass([], true)
    else
      var own := if IsCandidate(e) then [path] else [];
      var below := if WalksChildren(e.kind) then DocumentedBelow(e.children, path, faults) else [];
      Pass(own + below, false)
  }

  /** The loop over the first n elements, whose parent is at path. */
  function VisitUpTo(elements: seq<CodeElement>, path: seq<nat>, faults: set<seq<nat>>, n: nat): Pass
    requires n <= |elements|
    decreases elements, 0, n
  {
    if n == 0 then Pass([], false)
    else
      var before := VisitUpTo(elements, path, faults, n - 1);
      if before.aborted then before
      else
        var next := VisitElement(elements[n - 1], path + [n - 1], faults);
        Pass(before.documented + next.documented, next.aborted)
  }

  /** DocumentElements: what one loop documents; its exception is caught there. */
  function DocumentedBelow(elements: seq<CodeElement>, path: seq<nat>, faults: set<seq<nat>>): seq<seq<nat>>
    decreases elements, 1
  {
    VisitUpTo(elements, path, faults, |elements|).documented
  }

  /**
   * DoWork: only a C# item open in a window is walked; documentFails stands for a host
   * call before the walk that throws.
   */
  function DoWorkTrace(itemName: string, hasWindow: bool, documentFails: bool,
                       file: seq<CodeElement>, faults: set<seq<nat>>): seq<seq<nat>>
  {
    if EndsWith(itemName, ".cs") && hasWindow && !documentFails then DocumentedBelow(file, [], faults)
    else []
  }

  lemma {:induction false} AbortSticks(elements: seq<CodeElement>, path: seq<nat>, faults: set<seq<nat>>, m: nat, n: nat)
    requires m <= n <= |elements| && VisitUpTo(elements, path, faults, m).aborted
    ensures VisitUpTo(elements, path, faults, n) == VisitUpTo(elements, path, faults, m)
    decreases n
  {
    if n > m {
      AbortSticks(elements, path, faults, m, n - 1);
    }
  }

  class RunGhostDocTask {
    /** window != null: the window the task last ran off. */
    var window: bool

    constructor()
      ensures !window
    {
      window := false;
    }

    /** DoWork: returns the paths documented, in order. */
    method DoWork(itemName: string, ideWindow: bool, documentFails: bool,
                  file: seq<CodeElement>, faults: set<seq<nat>>) returns (documented: seq<seq<nat>>)
      modifies this
      ensures documented == DoWorkTrace(itemName, ideWindow, documentFails, file, faults)
      ensures window == (old(window) || (EndsWith(itemName, ".cs") && ideWindow))
    {
      documented := [];
      if EndsWith(itemName, ".cs") && ideWindow {
        window := ideWindow;
        if documentFails {
          return;
        }
        documented := DocumentElements(file, [], faults);
      }
    }

    /** DocumentElements: the loop over one level, the switch on the kind, and the recursion. */
    method DocumentElements(elements: seq<CodeElement>, path: seq<nat>, faults: set<seq<nat>>)
      returns (documented: seq<seq<nat>>)
      ensures documented == DocumentedBelow(elements, path, faults)
      decreases elements
    {
      documented := [];
      var i := 0;
      while i < |elements|
        invariant 0 <= i <= |elements|
        invariant VisitUpTo(elements, path, faults, i) == Pass(documented, false)
      {
        var element := elements[i];
        if IsDocumentedKind(element.kind) {
          if element.access.None? {
            AbortSticks(elements, path, faults, i + 1, |elements|);
            return;
          }
          if element.access.value != Project {
            if path + [i] in faults {
              AbortSticks(elements, path, faults, i + 1, |elements|);
              return;
            }
            documented := documented + [path + [i]];
          }
        }
        if WalksChildren(element.kind) {
          var below := DocumentElements(element.children, path + [i], faults);
          documented := documented + below;
        }
        i := i + 1;
      }
    }
  }

  // ---------------------------------------------------------------------------
  // Which elements are documented

  /**
   * The element at q in forest is reached: every element passed through on the way down
   * has its children walked.
   */
  predicate Reached(forest: seq<CodeElement>, q: seq<nat>)
    decreases q
  {
    |q| >= 1 && q[0] < |forest| &&
    (|q| > 1 ==> WalksChildren(forest[q[0]].kind) && Reached(forest[q[0]].children, q[1..]))
  }

  /** The element at q is reached and is a candidate. */
  predicate Selected(forest: seq<CodeElement>, q: seq<nat>)
  {
    Reached(forest, q) && ElementAt(forest, q).Some? && IsCandidate(ElementAt(forest, q).value)
  }

  /** p lies below the first n elements of a level whose parent is at base, and is selected there. */
  predicate Under(base: seq<nat>, elements: seq<CodeElement>, n: nat, p: seq<nat>)
  {
    |base| < |p| && p[..|base|] == base && p[|base|] < n && Selected(elements, p[|base|..])
  }

  /** A selection one level down is a selection from the level above. */
  lemma LiftUnder(base: seq<nat>, elements: seq<CodeElement>, n: nat, k: nat, p: seq<nat>)
    requires k < n <= |elements| && WalksChildren(elements[k].kind)
    requires Under(base + [k], elements[k].children, |elements[k].children|, p)
    ensures Under(base, elements, n, p)
  {
    var r := p[|base| + 1..];
    assert p[..|base| + 1] == base + [k];
    assert p[|base|] == k by {
      assert p[..|base| + 1][|base|] == p[|base|];
    }
    assert p[..|base|] == base by {
      assert p[..|base|] == p[..|base| + 1][..|base|];
    }
    var q := p[|base|..];
    assert q == [k] + r;
    assert q[1..] == r;
    assert ElementAt(elements, q) == ElementAt(elements[k].children, r);
  }

  /** Soundness of one element's visit: its own path, and what it reaches below. */
  lemma {:induction false} VisitElementSound(elements: seq<CodeElement>, base: seq<nat>, faults: set<seq<nat>>, k: nat, n: nat)
    requires k < n <= |elements|
    ensures forall p :: p in VisitElement(elements[k], base + [k], faults).documented ==>
      Under(base, elements, n, p) && p !in faults && p[..|base| + 1] == base + [k]
    decreases elements[k]
  {
    var e := elements[k];
    var path := base + [k];
    var r := VisitElement(e, path, faults);
    if r.documented != [] {
      assert (base + [k])[..|base|] == base;
      assert (base + [k])[|base|..] == [k];
      if WalksChildren(e.kind) {
        DocumentedBelowSound(e.children, path, faults);
        forall p | p in DocumentedBelow(e.children, path, faults)
          ensures Under(base, elements, n, p) && p !in faults && p[..|base| + 1] == base + [k]
        {
          LiftUnder(base, elements, n, k, p);
        }
      }
    }
  }

  lemma {:induction false} VisitUpToSound(elements: seq<CodeElement>, base: seq<nat>, faults: set<seq<nat>>, n: nat)
    requires n <= |elements|
    ensures forall p :: p in VisitUpTo(elements, base, faults, n).documented ==>
      Under(base, elements, n, p) && p !in faults
    decreases elements, 0, n
  {
    if n > 0 {
      VisitUpToSound(elements, base, faults, n - 1);
      VisitElementSound(elements, base, faults, n - 1, n);
    }
  }

  lemma {:induction false} DocumentedBelowSound(elements: seq<CodeElement>, base: seq<nat>, faults: set<seq<nat>>)
    ensures forall p :: p in DocumentedBelow(elements, base, faults) ==>
      Under(base, elements, |elements|, p) && p !in faults
    decreases elements, 2
  {
    VisitUpToSound(elements, base, faults, |elements|);
  }

  /**
   * Every element documented is reached through namespaces and walked kinds only, has a
   * documented kind (so never a namespace, and never the child of a variable), is not
   * internal, and its command did not throw.
   */
  lemma DocumentsOnlyCandidates(file: seq<CodeElement>, faults: set<seq<nat>>, p: seq<nat>)
    requires p in DocumentedBelow(file, [], faults)
    ensures Selected(file, p) && p !in faults
    ensures ElementAt(file, p).value.kind != Namespace && ElementAt(file, p).value.access != Some(Project)
  {
    DocumentedBelowSound(file, [], faults);
    assert p[0..] == p;
  }

  // ---------------------------------------------------------------------------
  // Every candidate is documented when nothing throws

  /** No reached element of a documented kind has an unreadable Access, and no command it issues throws. */
  predicate Clean(elements: seq<CodeElement>, base: seq<nat>, faults: set<seq<nat>>)
    decreases elements
  {
    forall k :: 0 <= k < |elements| ==> CleanElement(elements[k], base + [k], faults)
  }

  predicate CleanElement(e: CodeElement, path: seq<nat>, faults: set<seq<nat>>)
    decreases e
  {
    (IsDocumentedKind(e.kind) ==> e.access.Some?) &&
    (IsCandidate(e) ==> path !in faults) &&
    (WalksChildren(e.kind) ==> Clean(e.children, path, faults))
  }

  lemma {:induction false} VisitElementComplete(elements: seq<CodeElement>, base: seq<nat>, faults: set<seq<nat>>, k: nat)
    requires k < |elements| && CleanElement(elements[k], base + [k], faults)
    ensures !VisitElement(elements[k], base + [k], faults).aborted
    ensures forall q :: Selected(elements, q) && q[0] == k ==>
      base + q in VisitElement(elements[k], base + [k], faults).documented
    decreases elements[k]
  {
    var e := elements[k];
    var path := base + [k];
    if WalksChildren(e.kind) {
      DocumentedBelowComplete(e.children, path, faults);
    }
    forall q | Selected(elements, q) && q[0] == k
      ensures base + q in VisitElement(e, path, faults).documented
    {
      if |q| > 1 {
        var r := q[1..];
        assert q == [k] + r;
        assert ElementAt(elements, q) == ElementAt(e.children, r);
        assert Selected(e.children, r);
        assert base + q == path + r;
      } else {
        assert q == [k];
      }
    }
  }

  lemma {:induction false} VisitUpToComplete(elements: seq<CodeElement>, base: seq<nat>, faults: set<seq<nat>>, n: nat)
    requires n <= |elements| && Clean(elements, base, faults)
    ensures !VisitUpTo(elements, base, faults, n).aborted
    ensures forall q :: Selected(elements, q) && q[0] < n ==> base + q in VisitUpTo(elements, base, faults, n).documented
    decreases elements, 0, n
  {
    if n > 0 {
      var before := VisitUpTo(elements, base, faults, n - 1).documented;
      VisitUpToComplete(elements, base, faults, n - 1);
      assert CleanElement(elements[n - 1], base + [n - 1], faults);
      VisitElementComplete(elements, base, faults, n - 1);
      var next := VisitElement(elements[n - 1], base + [n - 1], faults).documented;
      assert VisitUpTo(elements, base, faults, n).documented == before + next;
      forall q | Selected(elements, q) && q[0] < n
        ensures base + q in before + next
      {
        if q[0] < n - 1 {
          assert base + q in before;
        } else {
          assert base + q in next;
        }
      }
    }
  }

  lemma {:induction false} DocumentedBelowComplete(elements: seq<CodeElement>, base: seq<nat>, faults: set<seq<nat>>)
    requires Clean(elements, base, faults)
    ensures forall q :: Selected(elements, q) ==> base + q in DocumentedBelow(elements, base, faults)
    decreases elements, 2
  {
    VisitUpToComplete(elements, base, faults, |elements|);
  }

  /**
   * When no Access read and no command throws, every candidate reached through walked kinds
   * is documented; with DocumentsOnlyCandidates, the walk documents exactly the selected
   * elements.
   */
  lemma DocumentsEveryCandidate(file: seq<CodeElement>, faults: set<seq<nat>>, q: seq<nat>)
    requires Clean(file, [], faults) && Selected(file, q)
    ensures q in DocumentedBelow(file, [], faults)
  {
    DocumentedBelowComplete(file, [], faults);
    assert [] + q == q;
  }

  // ---------------------------------------------------------------------------
  // Exceptions

  /** Only an element's own Access read or command ends its loop: an exception below it is caught below. */
  lemma VisitAbortsOnlyOnItsOwn(e: CodeElement, path: seq<nat>, faults: set<seq<nat>>)
    requires VisitElement(e, path, faults).aborted
    ensures IsDocumentedKind(e.kind) && (e.access.None? || (IsCandidate(e) && path in faults))
  {
  }

  /** An exception at the k-th element skips that element's subtree and every later sibling. */
  lemma AbortSkipsLaterSiblings(elements: seq<CodeElement>, base: seq<nat>, faults: set<seq<nat>>, k: nat, p: seq<nat>)
    requires k < |elements| && !VisitUpTo(elements, base, faults, k).aborted
    requires VisitElement(elements[k], base + [k], faults).aborted
    requires p in DocumentedBelow(elements, base, faults)
    ensures |p| > |base| && p[|base|] < k
  {
    AbortSticks(elements, base, faults, k + 1, |elements|);
    VisitUpToSound(elements, base, faults, k);
    assert VisitUpTo(elements, base, faults, k + 1).documented == VisitUpTo(elements, base, faults, k).documented;
  }

  // ---------------------------------------------------------------------------
  // Pre-order

  /** p comes before q in a pre-order walk: q extends p, or q branches off to a later sibling. */
  predicate Before(p: seq<nat>, q: seq<nat>)
    decreases |p|
  {
    q != [] && (p == [] || p[0] < q[0] || (p[0] == q[0] && Before(p[1..], q[1..])))
  }

  predicate Ordered(s: seq<seq<nat>>)
  {
    forall i, j :: 0 <= i < j < |s| ==> Before(s[i], s[j])
  }

  lemma {:induction false} BeforeExtension(x: seq<nat>, y: seq<nat>)
    requires |x| < |y| && y[..|x|] == x
    ensures Before(x, y)
    decreases |x|
  {
    if x != [] {
      assert x[0] == y[..|x|][0];
      assert y[1..][..|x| - 1] == x[1..];
      BeforeExtension(x[1..], y[1..]);
    }
  }

  lemma {:induction false} BeforeBranch(x: seq<nat>, y: seq<nat>, d: nat)
    requires d < |x| && d < |y| && x[..d] == y[..d] && x[d] < y[d]
    ensures Before(x, y)
    decreases d
  {
    if d > 0 {
      assert x[0] == x[..d][0] && y[0] == y[..d][0];
      assert x[1..][..d - 1] == x[..d][1..] && y[1..][..d - 1] == y[..d][1..];
      BeforeBranch(x[1..], y[1..], d - 1);
    }
  }

  lemma OrderedAppend(a: seq<seq<nat>>, b: seq<seq<nat>>)
    requires Ordered(a) && Ordered(b)
    requires forall i, j :: 0 <= i < |a| && 0 <= j < |b| ==> Before(a[i], b[j])
    ensures Ordered(a + b)
  {
    forall i, j | 0 <= i < j < |a + b|
      ensures Before((a + b)[i], (a + b)[j])
    {
      if j < |a| {
      } else if i >= |a| {
        assert (a + b)[i] == b[i - |a|] && (a + b)[j] == b[j - |a|];
      } else {
        assert (a + b)[j] == b[j - |a|];
      }
    }
  }

  lemma {:induction false} VisitElementOrdered(elements: seq<CodeElement>, base: seq<nat>, faults: set<seq<nat>>, k: nat)
    requires k < |elements|
    ensures Ordered(VisitElement(elements[k], base + [k], faults).documented)
    decreases elements[k]
  {
    var e := elements[k];
    var path := base + [k];
    if WalksChildren(e.kind) && IsCandidate(e) && path !in faults {
      var below := DocumentedBelow(e.children, path, faults);
      DocumentedBelowOrdered(e.children, path, faults);
      DocumentedBelowSound(e.children, path, faults);
      forall j | 0 <= j < |below|
        ensures Before(path, below[j])
      {
        assert below[j] in below;
        BeforeExtension(path, below[j]);
      }
      OrderedAppend([path], below);
    } else if WalksChildren(e.kind) {
      DocumentedBelowOrdered(e.children, path, faults);
    }
  }

  /** What the first k elements document comes before what the k-th element documents. */
  lemma SubtreesInSiblingOrder(elements: seq<CodeElement>, base: seq<nat>, faults: set<seq<nat>>, k: nat)
    requires k < |elements|
    ensures forall i, j ::
      0 <= i < |VisitUpTo(elements, base, faults, k).documented| &&
      0 <= j < |VisitElement(elements[k], base + [k], faults).documented| ==>
      Before(VisitUpTo(elements, base, faults, k).documented[i], VisitElement(elements[k], base + [k], faults).documented[j])
  {
    var before := VisitUpTo(elements, base, faults, k).documented;
    var next := VisitElement(elements[k], base + [k], faults).documented;
    VisitUpToSound(elements, base, faults, k);
    VisitElementSound(elements, base, faults, k, k + 1);
    forall i, j | 0 <= i < |before| && 0 <= j < |next|
      ensures Before(before[i], next[j])
    {
      var x, y := before[i], next[j];
      assert x in before && y in next;
      SiblingBefore(x, y, base, k);
    }
  }

  lemma SiblingBefore(x: seq<nat>, y: seq<nat>, base: seq<nat>, k: nat)
    requires |x| > |base| && x[..|base|] == base && x[|base|] < k
    requires |y| > |base| && y[..|base| + 1] == base + [k]
    ensures Before(x, y)
  {
    assert y[..|base|] == y[..|base| + 1][..|base|];
    BeforeBranch(x, y, |base|);
  }

  lemma {:induction false} VisitUpToOrdered(elements: seq<CodeElement>, base: seq<nat>, faults: set<seq<nat>>, n: nat)
    requires n <= |elements|
    ensures Ordered(VisitUpTo(elements, base, faults, n).documented)
    decreases elements, 0, n
  {
    if n > 0 && !VisitUpTo(elements, base, faults, n - 1).aborted {
      var before := VisitUpTo(elements, base, faults, n - 1).documented;
      var next := VisitElement(elements[n - 1], base + [n - 1], faults).documented;
      VisitUpToOrdered(elements, base, faults, n - 1);
      VisitElementOrdered(elements, base, faults, n - 1);
      SubtreesInSiblingOrder(elements, base, faults, n - 1);
      OrderedAppend(before, next);
    } else if n > 0 {
      VisitUpToOrdered(elements, base, faults, n - 1);
    }
  }

  lemma {:induction false} DocumentedBelowOrdered(elements: seq<CodeElement>, base: seq<nat>, faults: set<seq<nat>>)
    ensures Ordered(DocumentedBelow(elements, base, faults))
    decreases elements, 2
  {
    VisitUpToOrdered(elements, base, faults, |elements|);
  }

  /**
   * The commands are issued in pre-order: an element before everything below it, and a
   * subtree before its later siblings; in particular no element is documented twice.
   */
  lemma DocumentsInPreOrder(itemName: string, hasWindow: bool, documentFails: bool,
                            file: seq<CodeElement>, faults: set<seq<nat>>)
    ensures Ordered(DoWorkTrace(itemName, hasWindow, documentFails, file, faults))
  {
    DocumentedBelowOrdered(file, [], faults);
  }

  /** Before is irreflexive, so an ordered trace has no repeated path. */
  lemma {:induction false} BeforeIrreflexive(p: seq<nat>)
    ensures !Before(p, p)
    decreases |p|
  {
    if p != [] {
      BeforeIrreflexive(p[1..]);
    }
  }

  /** Nothing is documented unless the item is a C# file open in a window. */
  lemma GuardedByItem(itemName: string, hasWindow: bool, documentFails: bool,
                      file: seq<CodeElement>, faults: set<seq<nat>>)
    requires !EndsWith(itemName, ".cs") || !hasWindow
    ensures DoWorkTrace(itemName, hasWindow, documentFails, file, faults) == []
  {
  }
}
