/**
 * The member-ordering task: every class, interface and struct directly inside a
 * top-level namespace is checked for member order and, when it is out of order, its
 * members are cut out, sorted by (placement, access, name, weight) and pasted back.
 */
module SortElementsWithinClass {
  import opened CodeModel
  import opened StyleTaskBase

  /**
   * ElementAccess: the access rank of a member. The enumerators keep the source's
   * names; Ordinal is their declaration order, which is the sort order.
   */
  datatype ElementAccess =
    | PUBLIC_CONSTANT_STATIC | PUBLIC_CONSTANT | PUBLIC_STATIC | PUBLIC
    | INTERNAL_CONSTANT_STATIC | INTERNAL_CONSTANT | INTERNAL_STATIC | INTERNAL
    | PROTECTED_CONSTANT_STATIC | PROTECTED_CONSTANT | PROTECTED_STATIC | PROTECTED
    | PRIVATE_CONSTANT_STATIC | PRIVATE_CONSTANT | PRIVATE_STATIC | PRIVATE
  {
    function Ordinal(): nat
    {
      match this
      case PUBLIC_CONSTANT_STATIC => 0
      case PUBLIC_CONSTANT => 1
      case PUBLIC_STATIC => 2
      case PUBLIC => 3
      case INTERNAL_CONSTANT_STATIC => 4
      case INTERNAL_CONSTANT => 5
      case INTERNAL_STATIC => 6
      case INTERNAL => 7
      case PROTECTED_CONSTANT_STATIC => 8
      case PROTECTED_CONSTANT => 9
      case PROTECTED_STATIC => 10
      case PROTECTED => 11
      case PRIVATE_CONSTANT_STATIC => 12
      case PRIVATE_CONSTANT => 13
      case PRIVATE_STATIC => 14
      case PRIVATE => 15
    }

    /** A rank without a _CONSTANT or _STATIC suffix. */
    predicate IsPlain()
    {
      this == PUBLIC || this == INTERNAL || this == PROTECTED || this == PRIVATE
    }

    /** A rank without a _STATIC suffix. */
    predicate IsNotStatic()
    {
      IsPlain() || this == PUBLIC_CONSTANT || this == INTERNAL_CONSTANT ||
      this == PROTECTED_CONSTANT || this == PRIVATE_CONSTANT
    }
  }

  lemma AccessOrdinalInjective()
    ensures forall a1: ElementAccess, a2: ElementAccess :: a1.Ordinal() == a2.Ordinal() ==> a1 == a2
  {
  }

  /** accessLookup: the plain rank of each access level it has a key for. */
  const AccessLookup: map<Access, ElementAccess> :=
    map[Private := PRIVATE, Protected := PROTECTED, Project := INTERNAL, Public := PUBLIC]

  /** The position of an access level in the rank order: public, internal, protected, private. */
  function LevelRank(a: Access): nat
  {
    match a
    case Public => 0
    case Project => 1
    case Protected => 2
    case _ => 3
  }

  /** Enum.Parse of the rank's name with "_CONSTANT" appended. */
  function WithConstant(a: ElementAccess): ElementAccess
    requires a.IsPlain()
  {
    match a
    case PUBLIC => PUBLIC_CONSTANT
    case INTERNAL => INTERNAL_CONSTANT
    case PROTECTED => PROTECTED_CONSTANT
    case PRIVATE => PRIVATE_CONSTANT
  }

  /** Enum.Parse of the rank's name with "_STATIC" appended. */
  function WithStatic(a: ElementAccess): ElementAccess
    requires a.IsNotStatic()
  {
    match a
    case PUBLIC => PUBLIC_STATIC
    case INTERNAL => INTERNAL_STATIC
    case PROTECTED => PROTECTED_STATIC
    case PRIVATE => PRIVATE_STATIC
    case PUBLIC_CONSTANT => PUBLIC_CONSTANT_STATIC
    case INTERNAL_CONSTANT => INTERNAL_CONSTANT_STATIC
    case PROTECTED_CONSTANT => PROTECTED_CONSTANT_STATIC
    case PRIVATE_CONSTANT => PRIVATE_CONSTANT_STATIC
  }

  /**
   * EvaluateAccess: the rank of a member. Within one access level the order is
   * constant-static, constant, static, plain; the levels run public, internal,
   * protected, private. Only the four levels accessLookup knows have a rank.
   */
  function EvaluateAccess(access: Access, isConstant: bool, isStatic: bool): (r: ElementAccess)
    requires access in AccessLookup
    ensures r.Ordinal() ==
      4 * LevelRank(access) + 3 - 2 * (if isConstant then 1 else 0) - (if isStatic then 1 else 0)
  {
    var plain := AccessLookup[access];
    var constant := if isConstant then WithConstant(plain) else plain;
    if isStatic then WithStatic(constant) else constant
  }

  /** The rank order separates any two different (level, constant, static) triples. */
  lemma EvaluateAccessInjective(a1: Access, c1: bool, s1: bool, a2: Access, c2: bool, s2: bool)
    requires a1 in AccessLookup && a2 in AccessLookup
    ensures EvaluateAccess(a1, c1, s1) == EvaluateAccess(a2, c2, s2) <==> (a1 == a2 && c1 == c2 && s1 == s2)
  {
    var r1, r2 := EvaluateAccess(a1, c1, s1), EvaluateAccess(a2, c2, s2);
    AccessOrdinalInjective();
    if r1 == r2 {
      assert LevelRank(a1) == LevelRank(a2);
    }
  }

  /** GetType: the placement of a member; constructors and destructors get their own. */
  function GetType(e: CodeElement): (t: ElementType)
    requires e.kind in CodeElementBlockTypes
    ensures e.kind == Function && e.functionKind == Constructor ==> t == ElementType.CONSTRUCTOR
    ensures e.kind == Function && e.functionKind == Destructor ==> t == ElementType.FINALIZER
    ensures (e.kind != Function || e.functionKind == OtherFunction) ==> t == CodeElementBlockTypes[e.kind]
  {
    if e.kind == Function && e.functionKind == Constructor then ElementType.CONSTRUCTOR
    else if e.kind == Function && e.functionKind == Destructor then ElementType.FINALIZER
    else CodeElementBlockTypes[e.kind]
  }

  /** GetAccess's read of the Access property: private when the property cannot be read. */
  function ReadAccess(e: CodeElement): Access
  {
    if e.access.Some? then e.access.value else Private
  }

  /** GetElementIsStatic: a property is static when its getter is, or lacking a getter, its setter. */
  function IsStatic(e: CodeElement): bool
  {
    if e.kind == Property then
      if "Getter.IsShared" in e.flags then e.flags["Getter.IsShared"]
      else if "Setter.IsShared" in e.flags then e.flags["Setter.IsShared"]
      else false
    else "IsShared" in e.flags && e.flags["IsShared"]
  }

  /** GetElementIsConstant */
  function IsConstant(e: CodeElement): bool
  {
    "IsConstant" in e.flags && e.flags["IsConstant"]
  }

  /** CodeBlock: a member cut out of a class, with the keys it is sorted by. */
  datatype CodeBlock = CodeBlock(
    access: ElementAccess, placement: ElementType, name: string, body: string, weight: int)

  /**
   * EvaluateBlock: the block of one member. It fails (the host throws) when the kind has
   * no placement or the access level has no rank. The weight is always 0.
   */
  function EvaluateBlock(e: CodeElement): (r: Option<CodeBlock>)
    ensures r.Some? <==> e.kind in CodeElementBlockTypes && ReadAccess(e) in AccessLookup
    ensures r.Some? ==> r.value.weight == 0 && r.value.name == e.name && r.value.body == e.blockText
    ensures r.Some? ==> r.value.placement == GetType(e)
    ensures r.Some? ==> r.value.access == EvaluateAccess(ReadAccess(e), IsConstant(e), IsStatic(e))
  {
    if e.kind in CodeElementBlockTypes && ReadAccess(e) in AccessLookup then
      Some(CodeBlock(EvaluateAccess(ReadAccess(e), IsConstant(e), IsStatic(e)), GetType(e), e.name, e.blockText, 0))
    else None
  }

  /** The text a parameter kind contributes to the weight. */
  function ParameterKindText(k: ParameterKind): string
  {
    match k
    case NoKind => ""
    case In => "In"
    case Ref => "Ref"
    case Out => "Out"
    case Optional => "Optional"
    case ParamArray => "params"
  }

  function ParameterWeight(p: Parameter): nat
  {
    |p.typeName| + |p.fullName| + |ParameterKindText(p.kind)|
  }

  function ParametersWeight(ps: seq<Parameter>): nat
  {
    if ps == [] then 0 else ParameterWeight(ps[0]) + ParametersWeight(ps[1..])
  }

  /**
   * GetWeight: the summed text lengths of a function's parameters, 0 for other kinds.
   * EvaluateBlock computes it and then discards it.
   */
  method GetWeight(e: CodeElement) returns (weight: nat)
    ensures weight == if e.kind == Function then ParametersWeight(e.parameters) else 0
    ensures e.kind == Function && e.parameters != [] && |e.parameters[0].fullName| > 0 ==> weight > 0
  {
    weight := 0;
    if e.kind == Function {
      var i := 0;
      while i < |e.parameters|
        invariant 0 <= i <= |e.parameters|
        invariant weight + ParametersWeight(e.parameters[i..]) == ParametersWeight(e.parameters)
      {
        assert e.parameters[i..][1..] == e.parameters[i + 1..];
        weight := weight + ParameterWeight(e.parameters[i]);
        i := i + 1;
      }
    }
  }

  // ---------------------------------------------------------------------------
  // The sortedness check

  /** The test of one adjacent pair: placement first, access only within one placement; names are ignored. */
  predicate OutOfOrder(last: CodeBlock, current: CodeBlock)
  {
    if last.placement != current.placement then last.placement.Ordinal() > current.placement.Ordinal()
    else last.access.Ordinal() > current.access.Ordinal()
  }

  /**
   * The scan of EvaluateElementsWithinClassSorted over the children still to visit, with
   * the previous recognised block. A failing block ends the scan with true.
   */
  function CheckFrom(rest: seq<CodeElement>, last: Option<CodeBlock>): bool
  {
    if rest == [] then true
    else if rest[0].kind !in CodeElementBlockTypes then CheckFrom(rest[1..], last)
    else match EvaluateBlock(rest[0])
      case None => true
      case Some(b) => if last.Some? && OutOfOrder(last.value, b) then false else CheckFrom(rest[1..], Some(b))
  }

  /** The class counts as sorted. */
  predicate ClassIsSorted(cls: CodeElement)
  {
    CheckFrom(cls.children, None)
  }

  /**
   * EvaluateElementsWithinClassSorted: walks the children, skipping kinds without a
   * placement, and reports false at the first adjacent pair out of order.
   */
  method EvaluateElementsWithinClassSorted(cls: CodeElement) returns (sorted: bool)
    ensures sorted == ClassIsSorted(cls)
    ensures sorted == InOrder(Scan(cls.children))
  {
    var lastBlock: Option<CodeBlock> := None;
    var i := 0;
    while i < |cls.children|
      invariant 0 <= i <= |cls.children|
      invariant CheckFrom(cls.children, None) == CheckFrom(cls.children[i..], lastBlock)
    {
      var element := cls.children[i];
      assert cls.children[i..][1..] == cls.children[i + 1..];
      if element.kind in CodeElementBlockTypes {
        var currentBlock := EvaluateBlock(element);
        if currentBlock.None? {
          sorted := true;
          CheckIsInOrder(cls.children, None);
          return;
        }
        if lastBlock.Some? && OutOfOrder(lastBlock.value, currentBlock.value) {
          sorted := false;
          CheckIsInOrder(cls.children, None);
          return;
        }
        lastBlock := currentBlock;
      }
      i := i + 1;
    }
    sorted := true;
    CheckIsInOrder(cls.children, None);
  }

  /** The blocks the check compares: those of recognised children, up to the first that fails. */
  function Scan(rest: seq<CodeElement>): seq<CodeBlock>
  {
    if rest == [] then []
    else if rest[0].kind !in CodeElementBlockTypes then Scan(rest[1..])
    else match EvaluateBlock(rest[0])
      case None => []
      case Some(b) => [b] + Scan(rest[1..])
  }

  predicate InOrder(bs: seq<CodeBlock>)
  {
    forall k :: 0 <= k < |bs| - 1 ==> !OutOfOrder(bs[k], bs[k + 1])
  }

  function Prepend(last: Option<CodeBlock>, bs: seq<CodeBlock>): seq<CodeBlock>
  {
    if last.Some? then [last.value] + bs else bs
  }

  /**
   * The check answers false exactly when two consecutive scanned blocks are out of order;
   * unrecognised kinds are skipped and a failing block stops the scan.
   */
  lemma {:induction false} CheckIsInOrder(rest: seq<CodeElement>, last: Option<CodeBlock>)
    ensures CheckFrom(rest, last) == InOrder(Prepend(last, Scan(rest)))
  {
    if rest == [] {
    } else if rest[0].kind !in CodeElementBlockTypes {
      CheckIsInOrder(rest[1..], last);
    } else {
      match EvaluateBlock(rest[0])
      case None =>
      case Some(b) =>
        CheckIsInOrder(rest[1..], Some(b));
        var tail := Scan(rest[1..]);
        assert Prepend(Some(b), tail) == [b] + tail;
        if last.Some? {
          var all := [last.value] + ([b] + tail);
          assert all[0] == last.value && all[1] == b;
          assert all[1..] == [b] + tail;
          if !OutOfOrder(last.value, b) && InOrder([b] + tail) {
            forall k | 0 <= k < |all| - 1 ensures !OutOfOrder(all[k], all[k + 1]) {
              if k > 0 {
                assert all[k] == ([b] + tail)[k - 1] && all[k + 1] == ([b] + tail)[k];
              }
            }
          }
          if InOrder(all) {
            forall k | 0 <= k < |[b] + tail| - 1 ensures !OutOfOrder(([b] + tail)[k], ([b] + tail)[k + 1]) {
              assert all[k + 1] == ([b] + tail)[k] && all[k + 2] == ([b] + tail)[k + 1];
            }
          }
        }
    }
  }

  // ---------------------------------------------------------------------------
  // The comparator

  function Sign(x: int): int
  {
    if x < 0 then -1 else if x > 0 then 1 else 0
  }

  /** Ordinal, character-by-character comparison of names (see README: culture rules are not modelled). */
  function NameCompare(s: string, t: string): int
  {
    if s == [] && t == [] then 0
    else if s == [] then -1
    else if t == [] then 1
    else if s[0] < t[0] then -1
    else if s[0] > t[0] then 1
    else NameCompare(s[1..], t[1..])
  }

  lemma {:induction false} NameCompareZero(s: string, t: string)
    ensures NameCompare(s, t) == 0 <==> s == t
  {
    if s != [] && t != [] && s[0] == t[0] {
      NameCompareZero(s[1..], t[1..]);
      if s[1..] == t[1..] {
        assert s == [s[0]] + s[1..] && t == [t[0]] + t[1..];
      }
    }
  }

  lemma {:induction false} NameCompareAntisymmetric(s: string, t: string)
    ensures NameCompare(s, t) == -NameCompare(t, s)
  {
    if s != [] && t != [] && s[0] == t[0] {
      NameCompareAntisymmetric(s[1..], t[1..]);
    }
  }

  lemma {:induction false} NameCompareTransitive(s: string, t: string, u: string)
    requires NameCompare(s, t) <= 0 && NameCompare(t, u) <= 0
    ensures NameCompare(s, u) <= 0
  {
    if s != [] && t != [] && u != [] && s[0] == t[0] && t[0] == u[0] {
      NameCompareTransitive(s[1..], t[1..], u[1..]);
    }
  }

  /** The comparator handed to List.Sort: lexicographic on (placement, access, name, weight). */
  function Compare(c1: CodeBlock, c2: CodeBlock): int
  {
    if c1.placement != c2.placement then Sign(c1.placement.Ordinal() - c2.placement.Ordinal())
    else if c1.access != c2.access then Sign(c1.access.Ordinal() - c2.access.Ordinal())
    else if c1.name != c2.name then NameCompare(c1.name, c2.name)
    else Sign(c1.weight - c2.weight)
  }

  /** The comparator answers 0 only for blocks equal on all four keys. */
  lemma CompareZeroIff(c1: CodeBlock, c2: CodeBlock)
    ensures Compare(c1, c2) == 0 <==>
      c1.placement == c2.placement && c1.access == c2.access && c1.name == c2.name && c1.weight == c2.weight
  {
    PlacementOrder();
    AccessOrdinalInjective();
    NameCompareZero(c1.name, c2.name);
  }

  lemma CompareAntisymmetric(c1: CodeBlock, c2: CodeBlock)
    ensures Compare(c1, c2) == -Compare(c2, c1)
  {
    NameCompareAntisymmetric(c1.name, c2.name);
  }

  lemma CompareTransitive(c1: CodeBlock, c2: CodeBlock, c3: CodeBlock)
    requires Compare(c1, c2) <= 0 && Compare(c2, c3) <= 0
    ensures Compare(c1, c3) <= 0
  {
    PlacementOrder();
    AccessOrdinalInjective();
    if c1.placement == c2.placement == c3.placement && c1.access == c2.access == c3.access {
      if c1.name == c3.name && c1.name != c2.name {
        NameCompareAntisymmetric(c1.name, c2.name);
        NameCompareZero(c1.name, c2.name);
      } else if c1.name != c2.name && c2.name != c3.name {
        NameCompareTransitive(c1.name, c2.name, c3.name);
      }
    }
  }

  /** A pair the comparator keeps in order is never a pair the check reports. */
  lemma CompareAgreesWithCheck(c1: CodeBlock, c2: CodeBlock)
    requires Compare(c1, c2) <= 0
    ensures !OutOfOrder(c1, c2)
  {
    PlacementOrder();
    AccessOrdinalInjective();
  }

  // ---------------------------------------------------------------------------
  // Sorting a class

  /** A block together with the child element it was cut from. */
  datatype Member = Member(block: CodeBlock, element: CodeElement)

  predicate SortedMembers(ms: seq<Member>)
  {
    forall k :: 0 <= k < |ms| - 1 ==> Compare(ms[k].block, ms[k + 1].block) <= 0
  }

  function Insert(m: Member, ms: seq<Member>): (r: seq<Member>)
    requires SortedMembers(ms)
    ensures SortedMembers(r) && multiset(r) == multiset(ms) + multiset{m}
    ensures |r| == |ms| + 1 && (r[0] == m || (ms != [] && r[0] == ms[0]))
  {
    if ms == [] then [m]
    else if Compare(m.block, ms[0].block) <= 0 then [m] + ms
    else
      var rest := Insert(m, ms[1..]);
      InsertStep(m, ms, rest);
      [ms[0]] + rest
  }

  /** The recursive case of Insert: m goes after the head of ms, into the rest. */
  lemma InsertStep(m: Member, ms: seq<Member>, rest: seq<Member>)
    requires ms != [] && SortedMembers(ms) && Compare(m.block, ms[0].block) > 0
    requires SortedMembers(rest) && multiset(rest) == multiset(ms[1..]) + multiset{m}
    requires |rest| == |ms| && (rest[0] == m || (ms[1..] != [] && rest[0] == ms[1..][0]))
    ensures SortedMembers([ms[0]] + rest) && multiset([ms[0]] + rest) == multiset(ms) + multiset{m}
  {
    CompareAntisymmetric(m.block, ms[0].block);
    assert ms == [ms[0]] + ms[1..];
    PrependSorted(ms[0], rest);
  }

  lemma PrependSorted(x: Member, rest: seq<Member>)
    requires SortedMembers(rest) && (rest == [] || Compare(x.block, rest[0].block) <= 0)
    ensures SortedMembers([x] + rest)
  {
    var r := [x] + rest;
    forall k | 0 <= k < |r| - 1 ensures Compare(r[k].block, r[k + 1].block) <= 0 {
      if k > 0 {
        assert r[k] == rest[k - 1] && r[k + 1] == rest[k];
      }
    }
  }

  /** List.Sort with the comparator: the result is sorted and a permutation of its input. */
  function SortMembers(ms: seq<Member>): (r: seq<Member>)
    ensures SortedMembers(r) && multiset(r) == multiset(ms) && |r| == |ms|
  {
    if ms == [] then []
    else
      assert ms == [ms[0]] + ms[1..];
      Insert(ms[0], SortMembers(ms[1..]))
  }

  /** The members of all the children, in child order; None when one of them fails. */
  function CollectMembers(children: seq<CodeElement>): (r: Option<seq<Member>>)
    ensures r.Some? ==> |r.value| == |children|
    ensures r.Some? ==> forall k :: 0 <= k < |children| ==>
      r.value[k].element == children[k] && EvaluateBlock(children[k]) == Some(r.value[k].block)
    ensures r.None? ==> exists k :: 0 <= k < |children| && EvaluateBlock(children[k]).None?
  {
    if children == [] then Some([])
    else match EvaluateBlock(children[0])
      case None => None
      case Some(b) =>
        match CollectMembers(children[1..])
        case None => None
        case Some(ms) => Some([Member(b, children[0])] + ms)
  }

  function Elements(ms: seq<Member>): (r: seq<CodeElement>)
    ensures |r| == |ms| && forall k :: 0 <= k < |ms| ==> r[k] == ms[k].element
  {
    if ms == [] then [] else [ms[0].element] + Elements(ms[1..])
  }

  function Blocks(ms: seq<Member>): (r: seq<CodeBlock>)
    ensures |r| == |ms| && forall k :: 0 <= k < |ms| ==> r[k] == ms[k].block
  {
    if ms == [] then [] else [ms[0].block] + Blocks(ms[1..])
  }

  /** Every member's block is what its element evaluates to. */
  predicate Faithful(ms: seq<Member>)
  {
    forall k :: 0 <= k < |ms| ==> EvaluateBlock(ms[k].element) == Some(ms[k].block)
  }

  /** The text pasted back: every body, in order, each followed by a blank line. */
  function Emit(ms: seq<Member>): string
  {
    if ms == [] then "" else Emit(ms[..|ms| - 1]) + ms[|ms| - 1].block.body + NewLine + NewLine
  }

  predicate IsTypeDeclaration(k: ElementKind)
  {
    k == Class || k == Interface || k == Struct
  }

  /**
   * What SortFunctionsWithinClass does to one class:
   *  - NoBrace: no "{" was found in the class text; nothing changes;
   *  - Reverted: an exception restored the class text saved before the edit;
   *  - Rewritten: the members were cut out and pasted back sorted, and every nested
   *    class, interface or struct (in the new order) was sorted in turn.
   */
  datatype SortOutcome =
    | NoBrace
    | Reverted(restored: string)
    | Rewritten(members: seq<Member>, inserted: string, nested: seq<SortOutcome>)

  function SortClass(cls: CodeElement): SortOutcome
    decreases cls, 1
  {
    if '{' !in cls.text then NoBrace
    else match CollectMembers(cls.children)
      case None => Reverted(cls.text)
      case Some(ms) =>
        var sorted := SortMembers(ms);
        ElementsOfPermutation(cls, ms, sorted);
        Rewritten(sorted, Emit(sorted), SortNested(cls, sorted))
  }

  function SortNested(cls: CodeElement, ms: seq<Member>): seq<SortOutcome>
    requires forall m :: m in ms ==> m.element in cls.children
    decreases cls, 0, |ms|
  {
    if ms == [] then []
    else
      var last := ms[|ms| - 1];
      assert last in ms;
      var before := SortNested(cls, ms[..|ms| - 1]);
      if IsTypeDeclaration(last.element.kind) then before + [SortClass(last.element)] else before
  }

  lemma ElementsOfPermutation(cls: CodeElement, ms: seq<Member>, sorted: seq<Member>)
    requires CollectMembers(cls.children) == Some(ms)
    requires multiset(sorted) == multiset(ms)
    ensures forall m :: m in sorted ==> m.element in cls.children
    ensures Faithful(sorted)
  {
    forall m | m in sorted ensures m.element in cls.children && EvaluateBlock(m.element) == Some(m.block) {
      assert m in multiset(ms);
      var k :| 0 <= k < |ms| && ms[k] == m;
    }
  }

  /**
   * SortFunctionsWithinClass: saves the class text, cuts every member out in turn,
   * sorts the blocks, pastes their bodies back in the new order and then sorts each
   * nested type. An exception on any member restores the saved text.
   */
  method SortFunctionsWithinClass(cls: CodeElement) returns (r: SortOutcome)
    ensures r == SortClass(cls)
    decreases cls, 1
  {
    var classBackup := cls.text;
    if '{' !in cls.text {
      return NoBrace;
    }
    var blocks := CutMembers(cls.children);
    if blocks.None? {
      return Reverted(classBackup);
    }
    var sorted := SortMembers(blocks.value);
    ElementsOfPermutation(cls, blocks.value, sorted);
    var inserted := EmitBodies(sorted);
    var nested := SortNestedTypes(cls, sorted);
    r := Rewritten(sorted, inserted, nested);
  }

  /** The loop over the sorted members that sorts every nested class, interface or struct. */
  method SortNestedTypes(cls: CodeElement, sorted: seq<Member>) returns (nested: seq<SortOutcome>)
    requires forall m :: m in sorted ==> m.element in cls.children
    ensures nested == SortNested(cls, sorted)
    decreases cls, 0
  {
    nested := [];
    for k := 0 to |sorted|
      invariant nested == SortNested(cls, sorted[..k])
    {
      assert sorted[..k + 1][..k] == sorted[..k];
      assert sorted[k] in sorted;
      var element := sorted[k].element;
      assert SortNested(cls, sorted[..k + 1]) ==
        if IsTypeDeclaration(element.kind) then SortNested(cls, sorted[..k]) + [SortClass(element)]
        else SortNested(cls, sorted[..k]);
      if IsTypeDeclaration(element.kind) {
        var outcome := SortFunctionsWithinClass(element);
        nested := nested + [outcome];
      }
    }
    assert sorted[..|sorted|] == sorted;
  }

  /** The cutting loop: evaluates every child in turn; the first failure aborts it. */
  method CutMembers(children: seq<CodeElement>) returns (blocks: Option<seq<Member>>)
    ensures blocks == CollectMembers(children)
  {
    var cut: seq<Member> := [];
    var i := 0;
    assert children[i..] == children;
    assert CollectMembers(children).Some? ==> cut + CollectMembers(children).value == CollectMembers(children).value;
    while i < |children|
      invariant 0 <= i <= |children|
      invariant CollectMembers(children) == Join(cut, CollectMembers(children[i..]))
    {
      CollectStep(children, i);
      var block := EvaluateBlock(children[i]);
      if block.None? {
        return None;
      }
      JoinAppend(cut, Member(block.value, children[i]), CollectMembers(children[i + 1..]));
      cut := cut + [Member(block.value, children[i])];
      i := i + 1;
    }
    assert cut + [] == cut;
    return Some(cut);
  }

  function Join(prefix: seq<Member>, rest: Option<seq<Member>>): Option<seq<Member>>
  {
    if rest.None? then None else Some(prefix + rest.value)
  }

  lemma CollectStep(children: seq<CodeElement>, i: nat)
    requires i < |children|
    ensures CollectMembers(children[i..]) ==
      match EvaluateBlock(children[i])
      case None => None
      case Some(b) => Join([Member(b, children[i])], CollectMembers(children[i + 1..]))
  {
    assert children[i..][0] == children[i] && children[i..][1..] == children[i + 1..];
  }

  lemma JoinAppend(cut: seq<Member>, m: Member, rest: Option<seq<Member>>)
    ensures Join(cut, Join([m], rest)) == Join(cut + [m], rest)
  {
    if rest.Some? {
      assert cut + ([m] + rest.value) == (cut + [m]) + rest.value;
    }
  }

  /** The pasting loop: each body in turn, followed by a blank line. */
  method EmitBodies(sorted: seq<Member>) returns (inserted: string)
    ensures inserted == Emit(sorted)
  {
    inserted := "";
    for k := 0 to |sorted|
      invariant inserted == Emit(sorted[..k])
    {
      assert sorted[..k + 1][..k] == sorted[..k];
      inserted := inserted + sorted[k].block.body + NewLine + NewLine;
    }
    assert sorted[..|sorted|] == sorted;
  }

  /** Scanning the elements of faithful members yields exactly their blocks. */
  lemma {:induction false} ScanOfFaithful(ms: seq<Member>)
    requires Faithful(ms)
    ensures Scan(Elements(ms)) == Blocks(ms)
  {
    if ms != [] {
      assert Faithful(ms[1..]) by {
        forall k | 0 <= k < |ms[1..]| ensures EvaluateBlock(ms[1..][k].element) == Some(ms[1..][k].block) {
          assert ms[1..][k] == ms[k + 1];
        }
      }
      ScanOfFaithful(ms[1..]);
      assert Elements(ms)[1..] == Elements(ms[1..]);
      assert Blocks(ms) == [ms[0].block] + Blocks(ms[1..]);
    }
  }

  /**
   * The main ordering result: after a rewrite, the class whose children are the members
   * in their new order passes the sortedness check, and its members are a permutation
   * of those collected from the original class.
   */
  lemma SortedClassPassesCheck(cls: CodeElement)
    requires SortClass(cls).Rewritten?
    ensures CollectMembers(cls.children).Some?
    ensures multiset(SortClass(cls).members) == multiset(CollectMembers(cls.children).value)
    ensures ClassIsSorted(cls.(children := Elements(SortClass(cls).members)))
  {
    var ms := CollectMembers(cls.children).value;
    var sorted := SortMembers(ms);
    ElementsOfPermutation(cls, ms, sorted);
    ScanOfFaithful(sorted);
    forall k | 0 <= k < |sorted| - 1 ensures !OutOfOrder(Blocks(sorted)[k], Blocks(sorted)[k + 1]) {
      CompareAgreesWithCheck(sorted[k].block, sorted[k + 1].block);
    }
    CheckIsInOrder(Elements(sorted), None);
  }

  /** A class with a member whose kind has no placement is always restored, never rewritten. */
  lemma UnrecognisedMemberReverts(cls: CodeElement, k: nat)
    requires '{' in cls.text && k < |cls.children| && cls.children[k].kind !in CodeElementBlockTypes
    ensures SortClass(cls) == Reverted(cls.text)
  {
    assert EvaluateBlock(cls.children[k]).None?;
  }

  // ---------------------------------------------------------------------------
  // The task

  /** CheckForPreprocessorDirectives: some line of the document, untrimmed, begins with '#'. */
  method CheckForPreprocessorDirectives(lines: seq<string>) returns (found: bool)
    ensures found <==> exists i :: 0 <= i < |lines| && StartsWith(lines[i], "#")
  {
    var line := 0;
    while line < |lines|
      invariant 0 <= line <= |lines|
      invariant forall i :: 0 <= i < line ==> !StartsWith(lines[i], "#")
    {
      if StartsWith(lines[line], "#") {
        return true;
      }
      line := line + 1;
    }
    return false;
  }

  predicate HasDirectives(lines: seq<string>)
  {
    exists i :: 0 <= i < |lines| && StartsWith(lines[i], "#")
  }

  /** One class the task had to sort, and what sorting did to it. */
  datatype ClassSort = ClassSort(cls: CodeElement, outcome: SortOutcome)

  /** The classes, interfaces and structs among a namespace's children that fail the check, sorted. */
  function SortNamespace(children: seq<CodeElement>): seq<ClassSort>
  {
    if children == [] then []
    else
      var c := children[0];
      (if IsTypeDeclaration(c.kind) && !ClassIsSorted(c) then [ClassSort(c, SortClass(c))] else [])
      + SortNamespace(children[1..])
  }

  /** The sorts of one pass over the top-level namespaces of a file. */
  function SortPass(file: seq<CodeElement>): seq<ClassSort>
  {
    if file == [] then []
    else (if file[0].kind == Namespace then SortNamespace(file[0].children) else []) + SortPass(file[1..])
  }

  /** Only types that fail the check are sorted, and each is sorted as SortClass says. */
  lemma {:induction false} SortNamespaceOnlyUnsorted(children: seq<CodeElement>)
    ensures forall s :: s in SortNamespace(children) ==>
      s.cls in children && IsTypeDeclaration(s.cls.kind) && !ClassIsSorted(s.cls) && s.outcome == SortClass(s.cls)
  {
    if children != [] {
      SortNamespaceOnlyUnsorted(children[1..]);
    }
  }

  lemma {:induction false} SortPassOnlyUnsorted(file: seq<CodeElement>)
    ensures forall s :: s in SortPass(file) ==>
      (exists i :: 0 <= i < |file| && file[i].kind == Namespace && s.cls in file[i].children) &&
      IsTypeDeclaration(s.cls.kind) && !ClassIsSorted(s.cls) && s.outcome == SortClass(s.cls)
  {
    if file != [] {
      SortPassOnlyUnsorted(file[1..]);
      SortNamespaceOnlyUnsorted(file[0].children);
      forall s | s in SortPass(file)
        ensures exists i :: 0 <= i < |file| && file[i].kind == Namespace && s.cls in file[i].children
      {
        var here := if file[0].kind == Namespace then SortNamespace(file[0].children) else [];
        assert SortPass(file) == here + SortPass(file[1..]);
        if s !in here {
          assert s in SortPass(file[1..]);
          var i :| 0 <= i < |file[1..]| && file[1..][i].kind == Namespace && s.cls in file[1..][i].children;
          assert file[i + 1] == file[1..][i];
        }
      }
    }
  }

  /** The inner loop of DoWork: checks each type among a namespace's children and sorts it when it fails. */
  method SortNamespaceTypes(children: seq<CodeElement>) returns (sorts: seq<ClassSort>)
    ensures sorts == SortNamespace(children)
  {
    sorts := [];
    var j := 0;
    while j < |children|
      invariant 0 <= j <= |children|
      invariant SortNamespace(children) == sorts + SortNamespace(children[j..])
    {
      assert children[j..][1..] == children[j + 1..];
      var child := children[j];
      if IsTypeDeclaration(child.kind) {
        var isSorted := EvaluateElementsWithinClassSorted(child);
        if !isSorted {
          var outcome := SortFunctionsWithinClass(child);
          sorts := sorts + [ClassSort(child, outcome)];
        }
      }
      j := j + 1;
    }
  }

  /** The task object: its per-pass flag is only ever cleared, so it never blocks the work. */
  class SortElementsWithinClassTask {
    var isTemporarilyDisabled: bool

    constructor ()
      ensures !isTemporarilyDisabled
    {
      isTemporarilyDisabled := false;
    }

    /** Reset: clears the per-pass flag. */
    method Reset()
      modifies this
      ensures !isTemporarilyDisabled
    {
      isTemporarilyDisabled := false;
    }

    /**
     * DoWork: on a .cs item whose flag is clear, and unless the user declines after
     * preprocessor directives were found, sorts every type directly inside a top-level
     * namespace that fails the check.
     */
    method DoWork(itemName: string, file: seq<CodeElement>, lines: seq<string>, continueDespiteDirectives: bool)
      returns (sorts: seq<ClassSort>)
      ensures sorts ==
        if EndsWith(itemName, ".cs") && !isTemporarilyDisabled && (!HasDirectives(lines) || continueDespiteDirectives)
        then SortPass(file) else []
    {
      sorts := [];
      if EndsWith(itemName, ".cs") && !isTemporarilyDisabled {
        var directives := CheckForPreprocessorDirectives(lines);
        if directives && !continueDespiteDirectives {
          return;
        }
        var i := 0;
        while i < |file|
          invariant 0 <= i <= |file|
          invariant SortPass(file) == sorts + SortPass(file[i..])
        {
          assert file[i..][1..] == file[i + 1..];
          var element := file[i];
          if element.kind == Namespace {
            var found := SortNamespaceTypes(element.children);
            sorts := sorts + found;
          }
          i := i + 1;
        }
      }
    }
  }
}
