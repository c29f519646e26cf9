/**
 * The lookup tables every style task shares, the placement order used to sort class
 * members, and the enable gate in front of each task's work.
 */
module StyleTaskBase {
  import opened CodeModel

  /** CodeAccessKeywords: the C# keyword for each access level the table knows. */
  const CodeAccessKeywords: map<Access, string> :=
    map[Public := "public", Protected := "protected", Private := "private", Project := "internal"]

  /**
   * ElementType: the placement of a member inside a class. The enumerators keep the
   * source's names; Ordinal is their declaration order, which is the sort order.
   */
  datatype ElementType =
    | FIELD | CONSTRUCTOR | FINALIZER | DELEGATE | EVENT | ENUM
    | INTERFACE | PROPERTY | METHOD | STRUCT | CLASS
  {
    function Ordinal(): nat
    {
      match this
      case FIELD => 0
      case CONSTRUCTOR => 1
      case FINALIZER => 2
      case DELEGATE => 3
      case EVENT => 4
      case ENUM => 5
      case INTERFACE => 6
      case PROPERTY => 7
      case METHOD => 8
      case STRUCT => 9
      case CLASS => 10
    }
  }

  /** CodeElementBlockTypes: the placement of each element kind that forms a block. */
  const CodeElementBlockTypes: map<ElementKind, ElementType> :=
    map[
      Class := ElementType.CLASS, Delegate := ElementType.DELEGATE, Enum := ElementType.ENUM,
      Event := ElementType.EVENT, Function := ElementType.METHOD, Property := ElementType.PROPERTY,
      Struct := ElementType.STRUCT, Variable := ElementType.FIELD, Interface := ElementType.INTERFACE]

  /** The nine kinds both element tables have keys for. */
  const BlockKinds: set<ElementKind> :=
    {Class, Delegate, Enum, Event, Function, Property, Struct, Variable, Interface}

  /** The code-model interfaces reflection is invoked on. */
  datatype HostType =
    | CodeClass | CodeDelegate | CodeEnum | CodeEvent | CodeFunction
    | CodeProperty | CodeStruct | CodeVariable | CodeInterface

  /** CodeElementTypes: the code-model interface behind each element kind. */
  const CodeElementTypes: map<ElementKind, HostType> :=
    map[
      Class := CodeClass, Delegate := CodeDelegate, Enum := CodeEnum, Event := CodeEvent,
      Function := CodeFunction, Property := CodeProperty, Struct := CodeStruct,
      Variable := CodeVariable, Interface := CodeInterface]

  /** The four access levels have distinct keywords, and no other level has one. */
  lemma AccessKeywordsInjective()
    ensures CodeAccessKeywords.Keys == {Public, Protected, Private, Project}
    ensures forall a, b ::
      (a in CodeAccessKeywords && b in CodeAccessKeywords && CodeAccessKeywords[a] == CodeAccessKeywords[b]) ==> a == b
    ensures CodeAccessKeywords[Project] == "internal"
  {
  }

  /** Both element tables cover the same nine kinds; a namespace is not among them. */
  lemma BlockTablesAgree()
    ensures CodeElementBlockTypes.Keys == CodeElementTypes.Keys == BlockKinds
    ensures Namespace !in CodeElementBlockTypes && ImportStmt !in CodeElementBlockTypes
  {
  }

  /** No two kinds share a placement, and the table never yields CONSTRUCTOR or FINALIZER. */
  lemma BlockTypesInjective()
    ensures forall k1, k2 ::
      (k1 in CodeElementBlockTypes && k2 in CodeElementBlockTypes && CodeElementBlockTypes[k1] == CodeElementBlockTypes[k2])
      ==> k1 == k2
    ensures forall k :: k in CodeElementBlockTypes ==>
      CodeElementBlockTypes[k] != ElementType.CONSTRUCTOR && CodeElementBlockTypes[k] != ElementType.FINALIZER
  {
  }

  /** The placements form one strict chain, FIELD first and CLASS last. */
  lemma PlacementOrder()
    ensures ElementType.FIELD.Ordinal() < ElementType.CONSTRUCTOR.Ordinal() < ElementType.FINALIZER.Ordinal()
      < ElementType.DELEGATE.Ordinal() < ElementType.EVENT.Ordinal() < ElementType.ENUM.Ordinal()
      < ElementType.INTERFACE.Ordinal() < ElementType.PROPERTY.Ordinal() < ElementType.METHOD.Ordinal()
      < ElementType.STRUCT.Ordinal() < ElementType.CLASS.Ordinal()
    ensures forall t1: ElementType, t2: ElementType :: t1.Ordinal() == t2.Ordinal() ==> t1 == t2
  {
  }

  /**
   * PerformStyleTask: a task's work runs exactly when the task is enabled; a disabled
   * task leaves whatever the work would change as it was.
   */
  function PerformStyleTask<S>(isEnabled: bool, doWork: S -> S, before: S): (after: S)
    ensures isEnabled ==> after == doWork(before)
    ensures !isEnabled ==> after == before
  {
    if isEnabled then doWork(before) else before
  }
}
