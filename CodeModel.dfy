/**
 * The part of the IDE's code model (EnvDTE / EnvDTE80) that the style tasks read,
 * written as plain values. A file's code model is a forest of code elements; every
 * host property a task reads is a field of the element, and a property the host may
 * fail to provide is an Option.
 */
module CodeModel {

  datatype Option<+T> = None | Some(value: T)

  /** vsCMAccess: the four levels the tasks' tables know, and the others the host can report. */
  datatype Access =
    | Public | Protected | Private | Project
    | ProjectOrProtected | AccessDefault | AssemblyOrFamily | WithEvents

  /** vsCMElement: the kinds the tasks distinguish; OtherKind stands for every remaining kind. */
  datatype ElementKind =
    | Namespace | Class | Interface | Struct | Function | Property | Variable
    | Event | Delegate | Enum | ImportStmt | Attribute | OtherKind

  /** vsCMFunction, as far as the tasks test it. */
  datatype FunctionKind = Constructor | Destructor | OtherFunction

  /** vsCMParameterKind */
  datatype ParameterKind = NoKind | In | Ref | Out | Optional | ParamArray

  datatype Parameter = Parameter(typeName: string, fullName: string, kind: ParameterKind)

  /**
   * One code element.
   *  - access: the Access property; None when the element's type offers no readable Access.
   *  - functionKind, isShared: CodeFunction2.FunctionKind and CodeFunction2.IsShared.
   *  - flags: the boolean properties reachable by reflection, keyed by their property path
   *    ("IsShared", "IsConstant", "Getter.IsShared", "Setter.IsShared"); a missing key is a
   *    property the element's type does not have.
   *  - attributeCount: the number of attributes (for properties, variables and events).
   *  - headerLine, startLine, afterAttributesLine: the text from the header start point, from
   *    the start point, and from the end of the attributes, each up to the end of that line.
   *  - text: the element's text from its start point to its end point.
   *  - blockText: the trimmed text of the element together with the comments above it, as the
   *    member sort cuts it out of its class.
   */
  datatype CodeElement = CodeElement(
    kind: ElementKind,
    name: string,
    access: Option<Access>,
    functionKind: FunctionKind,
    isShared: bool,
    flags: map<string, bool>,
    parameters: seq<Parameter>,
    attributeCount: nat,
    headerLine: string,
    startLine: string,
    afterAttributesLine: string,
    text: string,
    blockText: string,
    children: seq<CodeElement>)

  /** The element reached from a forest of elements by a path of child indices. */
  function ElementAt(forest: seq<CodeElement>, path: seq<nat>): Option<CodeElement>
    decreases path
  {
    if path == [] || path[0] >= |forest| then None
    else if |path| == 1 then Some(forest[path[0]])
    else ElementAt(forest[path[0]].children, path[1..])
  }

  /** The forest with the Access property of the element at the given path set to a. */
  function SetAccessAt(forest: seq<CodeElement>, path: seq<nat>, a: Access): (r: seq<CodeElement>)
    ensures |r| == |forest|
    decreases path
  {
    if path == [] || path[0] >= |forest| then forest
    else
      var e := forest[path[0]];
      var e' :=
        if |path| == 1 then e.(access := Some(a))
        else e.(children := SetAccessAt(e.children, path[1..], a));
      forest[path[0] := e']
  }

  /** Setting an element's Access to the value it already has leaves the forest as it was. */
  lemma {:induction false} SetAccessToCurrentIsIdentity(forest: seq<CodeElement>, path: seq<nat>, a: Access)
    requires ElementAt(forest, path).Some? && ElementAt(forest, path).value.access == Some(a)
    ensures SetAccessAt(forest, path, a) == forest
    decreases path
  {
    if |path| > 1 {
      SetAccessToCurrentIsIdentity(forest[path[0]].children, path[1..], a);
    }
  }

  predicate StartsWith(s: string, prefix: string)
  {
    |prefix| <= |s| && s[..|prefix|] == prefix
  }

  predicate EndsWith(s: string, suffix: string)
  {
    |suffix| <= |s| && s[|s| - |suffix|..] == suffix
  }

  /** The line break that StringBuilder.AppendLine and the tasks' literal inserts use. */
  const NewLine: string := "\r\n"

  /** The lines joined, each followed by the line break AppendLine writes. */
  function Unlines(lines: seq<string>): string
  {
    if lines == [] then "" else lines[0] + NewLine + Unlines(lines[1..])
  }

  lemma {:induction false} UnlinesSnoc(lines: seq<string>, line: string)
    ensures Unlines(lines + [line]) == Unlines(lines) + line + NewLine
  {
    if lines != [] {
      assert (lines + [line])[1..] == lines[1..] + [line];
      UnlinesSnoc(lines[1..], line);
    }
  }

  /** The offset of the first occurrence of pattern in s (FindPattern with match case). */
  function IndexOf(s: string, pattern: string): (r: Option<nat>)
    ensures r.Some? ==> r.value + |pattern| <= |s| && StartsWith(s[r.value..], pattern)
    ensures r.Some? ==> forall k :: 0 <= k < r.value ==> !StartsWith(s[k..], pattern)
    ensures r.None? ==> forall k :: 0 <= k <= |s| ==> !StartsWith(s[k..], pattern)
  {
    if |s| < |pattern| then None
    else if StartsWith(s, pattern) then Some(0)
    else match IndexOf(s[1..], pattern)
      case None =>
        assert forall k :: 1 <= k <= |s| ==> s[k..] == s[1..][k - 1..];
        None
      case Some(i) =>
        assert forall k :: 1 <= k <= i + 1 ==> s[k..] == s[1..][k - 1..];
        Some(i + 1)
  }
}
