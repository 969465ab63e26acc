/**
 * The earlier set of relationship records. Their validators reject a record
 * exactly when a simple equality between its fields fails.
 */
module Models {
  import opened Wrappers

  datatype Thing = Thing(name: string)

  datatype Material = Material(name: string)

  datatype System = System(name: string)

  /** A record of things and a list of integers the source does not use; it has no validator. */
  datatype Domain = Domain(things: seq<Thing>, materialisation: seq<int>)

  /** It has no validator. */
  datatype Embodiment = Embodiment(thing: Thing, material: Material)

  datatype Composition = Composition(ofThing: Thing, byThing: Thing)

  /** `thing` is acted upon by `actor`. */
  datatype Provenance = Provenance(thing: Thing, actor: Thing)

  /** `thing` acts upon `acted`. */
  datatype Operation = Operation(thing: Thing, acted: Thing)

  /** `system` lets `of` influence `on` through `operations`. */
  datatype Influence = Influence(system: System, of: Thing, on: Thing, operations: seq<Operation>)

  /** The `ValueError`s raised by the validators. */
  datatype ValidationError =
    | CompositionLoop        // a thing composed of itself
    | ProvenanceLoop         // a thing acted upon by itself
    | OperationLoop          // a thing acting upon itself
    | InfluenceOperationMismatch  // an operation's thing differs from the influencing thing

  /** A composition, rejected exactly when `byThing == ofThing`. */
  function NewComposition(ofThing: Thing, byThing: Thing): (r: Result<Composition, ValidationError>)
    ensures r.Failure? <==> byThing == ofThing
    ensures r.Failure? ==> r.error == CompositionLoop
    ensures r.Success? ==> r.value.ofThing == ofThing && r.value.byThing == byThing
  {
    if byThing == ofThing then Failure(CompositionLoop) else Success(Composition(ofThing, byThing))
  }

  /** A provenance, rejected exactly when `actor == thing`. */
  function NewProvenance(thing: Thing, actor: Thing): (r: Result<Provenance, ValidationError>)
    ensures r.Failure? <==> actor == thing
    ensures r.Failure? ==> r.error == ProvenanceLoop
    ensures r.Success? ==> r.value.thing == thing && r.value.actor == actor
  {
    if actor == thing then Failure(ProvenanceLoop) else Success(Provenance(thing, actor))
  }

  /** An operation, rejected exactly when `acted == thing`. */
  function NewOperation(thing: Thing, acted: Thing): (r: Result<Operation, ValidationError>)
    ensures r.Failure? <==> acted == thing
    ensures r.Failure? ==> r.error == OperationLoop
    ensures r.Success? ==> r.value.thing == thing && r.value.acted == acted
  {
    if acted == thing then Failure(OperationLoop) else Success(Operation(thing, acted))
  }

  /** Whether every operation in `ops` is carried out by `of` (the validator's loop). */
  function AllCarriedOutBy(ops: seq<Operation>, of: Thing): (r: bool)
    ensures r <==> forall i :: 0 <= i < |ops| ==> ops[i].thing == of
  {
    if ops == [] then true
    else if !(ops[0].thing == of) then false
    else AllCarriedOutBy(ops[1..], of)
  }

  /** An influence, rejected exactly when some operation's thing is not `of`. */
  function NewInfluence(system: System, of: Thing, on: Thing, operations: seq<Operation>)
    : (r: Result<Influence, ValidationError>)
    ensures r.Failure? <==> exists i :: 0 <= i < |operations| && operations[i].thing != of
    ensures r.Failure? ==> r.error == InfluenceOperationMismatch
    ensures r.Success? ==> r.value == Influence(system, of, on, operations)
  {
    if AllCarriedOutBy(operations, of) then Success(Influence(system, of, on, operations))
    else Failure(InfluenceOperationMismatch)
  }
}
