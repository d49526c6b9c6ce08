/**
  The registry that picks the docblock generator for a syntax node: the
  first registered generator that accepts the node, else the default
  generator if it accepts the node, else none. What each generator
  accepts is abstract: `isAllowed(g, node)` stands for `g.isAllowed(node)`.
 */
module KindsRegistry {
  import opened Results

  datatype Generator =
    | OasGenerator
    | ReactHooksGenerator
    | FunctionGenerator
    | SourceFileGenerator
    | DtoPropertyGenerator
    | DefaultGenerator

  /** The registered generators, in the order the registry tries them. */
  const KindInstances: seq<Generator> :=
    [OasGenerator, ReactHooksGenerator, FunctionGenerator, SourceFileGenerator, DtoPropertyGenerator]

  /** `gens.findIndex(g => isAllowed(g, node))`, as an optional index. */
  function FindIndex<N>(gens: seq<Generator>, isAllowed: (Generator, N) -> bool, node: N): (r: Option<nat>)
    ensures r.Some? ==>
              && r.value < |gens|
              && isAllowed(gens[r.value], node)
              && forall j :: 0 <= j < r.value ==> !isAllowed(gens[j], node)
    ensures r.None? ==> forall j :: 0 <= j < |gens| ==> !isAllowed(gens[j], node)
  {
    if gens == [] then None
    else if isAllowed(gens[0], node) then Some(0)
    else
      match FindIndex(gens[1..], isAllowed, node)
      case None => None
      case Some(i) => Some(i + 1)
  }

  /** `getKindGenerator`. */
  function GetKindGenerator<N>(isAllowed: (Generator, N) -> bool, node: N): (r: Option<Generator>)
    ensures r.Some? ==> isAllowed(r.value, node)
    ensures forall i :: 0 <= i < |KindInstances| && isAllowed(KindInstances[i], node) ==>
              && r.Some?
              && r.value in KindInstances
              && forall j :: i < j < |KindInstances| ==> r.value != KindInstances[j]
    ensures r.Some? && r.value in KindInstances ==>
              forall j :: 0 <= j < |KindInstances| && KindInstances[j] == r.value ==>
                forall i :: 0 <= i < j ==> !isAllowed(KindInstances[i], node)
    ensures (forall g :: g in KindInstances ==> !isAllowed(g, node)) ==>
              r == (if isAllowed(DefaultGenerator, node) then Some(DefaultGenerator) else None)
  {
    match FindIndex(KindInstances, isAllowed, node)
    case Some(i) => Some(KindInstances[i])
    case None => if isAllowed(DefaultGenerator, node) then Some(DefaultGenerator) else None
  }

  /** `hasGenerator`: some registered or the default generator accepts the node. */
  function HasGenerator<N>(isAllowed: (Generator, N) -> bool, node: N): (r: bool)
    ensures r <==> GetKindGenerator(isAllowed, node).Some?
    ensures r <==> exists g :: g in KindInstances + [DefaultGenerator] && isAllowed(g, node)
  {
    var found := GetKindGenerator(isAllowed, node);
    assert found.Some? ==> found.value in KindInstances + [DefaultGenerator];
    found.Some?
  }
}
