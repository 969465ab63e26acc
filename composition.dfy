/**
 * The thing/material composition domain: nodes (things, materials, systems)
 * and the relationships between them, collected in a `Domain` record.
 * Each operation returns a new record built by appending: most append one
 * element to one sequence, `embodyThing` appends to both `embodiments` and
 * `materialisation`, and every rebuild except `addNode` also empties
 * `correspondances`. A failed guard returns the record as it was, and a
 * rejected record gives `Failure`.
 */
module Compositions {
  import opened Wrappers

  // ---------------------------------------------------------------------------
  // Nodes and relationships
  // ---------------------------------------------------------------------------

  /** The basic element from which everything else is composed. */
  datatype Thing = Thing(name: string)

  /** What a thing is made of when it cannot be decomposed further. */
  datatype Material = Material(name: string)

  datatype System = System(name: string)

  /** `of` is composed (in part) of `by`. */
  datatype Composition = Composition(ofThing: Thing, byThing: Thing)

  /** The thing `of` is embodied by the material `by`. */
  datatype Embodiment = Embodiment(ofThing: Thing, byMaterial: Material)

  /** `of` (a good, say) is acted upon by `by` (a truck, say). */
  datatype Provenance = Provenance(ofThing: Thing, byThing: Thing)

  /** `of` (a truck, say) operates by means of `by` (fuel, say). */
  datatype Operation = Operation(ofThing: Thing, byThing: Thing)

  datatype ProvOpCorrespondance = ProvOpCorrespondance(provenance: Provenance, operation: Operation)

  datatype Passivity = Passivity(ofThing: Thing, byThing: Thing)

  datatype Activity = Activity(ofThing: Thing, byThing: Thing, operations: seq<Operation>)

  /** The two kinds an influence can contain, told apart by their `influence_type` tag. */
  datatype Influencing = Active(activity: Activity) | Passive(passivity: Passivity)

  datatype Influence = Influence(system: System, containing: Influencing)
  {
    /** The influencing thing of the contained activity or passivity. */
    function Of(): (t: Thing)
      ensures containing.Active? ==> t == containing.activity.ofThing
      ensures containing.Passive? ==> t == containing.passivity.ofThing
    {
      match containing
      case Active(a) => a.ofThing
      case Passive(p) => p.ofThing
    }

    /** The influenced thing of the contained activity or passivity. */
    function By(): (t: Thing)
      ensures containing.Active? ==> t == containing.activity.byThing
      ensures containing.Passive? ==> t == containing.passivity.byThing
    {
      match containing
      case Active(a) => a.byThing
      case Passive(p) => p.byThing
    }
  }

  /** The `ValueError`s raised by the record validators. */
  datatype ValidationError =
    | CompositionLoop          // a thing composed of itself
    | ProvenanceLoop           // a thing acted upon by itself
    | OperationLoop            // a thing acting upon itself
    | CorrespondanceMismatch   // provenance by-thing differs from operation of-thing
    | ActivityOperationMismatch  // an operation's of-thing differs from the activity's

  // ---------------------------------------------------------------------------
  // Validating constructors
  // ---------------------------------------------------------------------------

  /** A composition, rejected when a thing would be composed of itself. */
  function NewComposition(ofThing: Thing, byThing: Thing): (r: Result<Composition, ValidationError>)
    ensures r.Failure? <==> ofThing == byThing
    ensures r.Failure? ==> r.error == CompositionLoop
    ensures r.Success? ==> r.value.ofThing == ofThing && r.value.byThing == byThing
  {
    if byThing == ofThing then Failure(CompositionLoop) else Success(Composition(ofThing, byThing))
  }

  function NewProvenance(ofThing: Thing, byThing: Thing): (r: Result<Provenance, ValidationError>)
    ensures r.Failure? <==> ofThing == byThing
    ensures r.Failure? ==> r.error == ProvenanceLoop
    ensures r.Success? ==> r.value.ofThing == ofThing && r.value.byThing == byThing
  {
    if ofThing == byThing then Failure(ProvenanceLoop) else Success(Provenance(ofThing, byThing))
  }

  function NewOperation(ofThing: Thing, byThing: Thing): (r: Result<Operation, ValidationError>)
    ensures r.Failure? <==> ofThing == byThing
    ensures r.Failure? ==> r.error == OperationLoop
    ensures r.Success? ==> r.value.ofThing == ofThing && r.value.byThing == byThing
  {
    if ofThing == byThing then Failure(OperationLoop) else Success(Operation(ofThing, byThing))
  }

  /** A correspondance, rejected unless the provenance's actor is the operation's operator. */
  function NewProvOpCorrespondance(provenance: Provenance, operation: Operation)
    : (r: Result<ProvOpCorrespondance, ValidationError>)
    ensures r.Failure? <==> provenance.byThing != operation.ofThing
    ensures r.Failure? ==> r.error == CorrespondanceMismatch
    ensures r.Success? ==> r.value.provenance == provenance && r.value.operation == operation
  {
    if !(provenance.byThing == operation.ofThing) then Failure(CorrespondanceMismatch)
    else Success(ProvOpCorrespondance(provenance, operation))
  }

  /** Whether every operation in `ops` is operated by `of` (the validator's loop). */
  function AllOperatedBy(ops: seq<Operation>, ofThing: Thing): (r: bool)
    ensures r <==> forall i :: 0 <= i < |ops| ==> ops[i].ofThing == ofThing
  {
    if ops == [] then true
    else if !(ops[0].ofThing == ofThing) then false
    else AllOperatedBy(ops[1..], ofThing)
  }

  /** An activity, rejected when one of its operations is operated by another thing. */
  function NewActivity(ofThing: Thing, byThing: Thing, operations: seq<Operation>): (r: Result<Activity, ValidationError>)
    ensures r.Failure? <==> exists i :: 0 <= i < |operations| && operations[i].ofThing != ofThing
    ensures r.Failure? ==> r.error == ActivityOperationMismatch
    ensures r.Success? ==> r.value.ofThing == ofThing && r.value.byThing == byThing && r.value.operations == operations
  {
    if AllOperatedBy(operations, ofThing) then Success(Activity(ofThing, byThing, operations))
    else Failure(ActivityOperationMismatch)
  }

  // ---------------------------------------------------------------------------
  // The domain
  // ---------------------------------------------------------------------------

  /** Every node and relationship of one domain, in the order they were added. */
  datatype Domain = Domain(
    things: seq<Thing>,
    materials: seq<Material>,
    embodiments: seq<Embodiment>,
    materialisation: seq<Thing>,
    compositions: seq<Composition>,
    systems: seq<System>,
    provenances: seq<Provenance>,
    operations: seq<Operation>,
    correspondances: seq<ProvOpCorrespondance>,
    influences: seq<Influence>,
    activities: seq<Activity>,
    passivities: seq<Passivity>)

  /**
   * Compositions form a single-parent relation over the domain's things:
   * no thing is composed of itself, both ends are things of the domain, and
   * no thing is the `by` of two compositions.
   */
  ghost predicate WellComposed(d: Domain) {
    && (forall i :: 0 <= i < |d.compositions| ==>
          && d.compositions[i].ofThing != d.compositions[i].byThing
          && d.compositions[i].ofThing in d.things
          && d.compositions[i].byThing in d.things)
    && (forall i, j :: 0 <= i < j < |d.compositions| ==> d.compositions[i].byThing != d.compositions[j].byThing)
  }

  /**
   * Embodiments tie things of the domain to materials of the domain, each
   * thing at most once, and `materialisation` lists the embodied things in
   * step with `embodiments`.
   */
  ghost predicate EmbodimentsConsistent(d: Domain) {
    && |d.materialisation| == |d.embodiments|
    && (forall i :: 0 <= i < |d.embodiments| ==>
          && d.materialisation[i] == d.embodiments[i].ofThing
          && d.embodiments[i].ofThing in d.things
          && d.embodiments[i].byMaterial in d.materials)
    && (forall i, j :: 0 <= i < j < |d.embodiments| ==> d.embodiments[i].ofThing != d.embodiments[j].ofThing)
  }

  /**
   * Every stored relationship passed its record's validator: no provenance or
   * operation joins a thing to itself, and every operation of an active
   * influence is operated by the influence's `of`.
   */
  ghost predicate RelationshipsValid(d: Domain) {
    && (forall i :: 0 <= i < |d.provenances| ==> d.provenances[i].ofThing != d.provenances[i].byThing)
    && (forall i :: 0 <= i < |d.operations| ==> d.operations[i].ofThing != d.operations[i].byThing)
    && (forall i :: 0 <= i < |d.influences| && d.influences[i].containing.Active? ==>
          forall k :: 0 <= k < |d.influences[i].containing.activity.operations| ==>
            d.influences[i].containing.activity.operations[k].ofThing == d.influences[i].Of())
  }

  ghost predicate Coherent(d: Domain) {
    WellComposed(d) && EmbodimentsConsistent(d) && RelationshipsValid(d)
  }

  /** The empty domain. */
  function NewDomain(): (d: Domain)
    ensures d.things == [] && d.materials == [] && d.systems == []
    ensures d.compositions == [] && d.embodiments == [] && d.materialisation == []
    ensures d.provenances == [] && d.operations == [] && d.correspondances == []
    ensures d.influences == [] && d.activities == [] && d.passivities == []
    ensures Coherent(d)
  {
    Domain([], [], [], [], [], [], [], [], [], [], [], [])
  }

  // ---------------------------------------------------------------------------
  // Nodes
  // ---------------------------------------------------------------------------

  /** The node kinds `addNode` accepts. */
  datatype NodeKind = ThingNode | MaterialNode | SystemNode

  /**
   * Appends one node called `name` to the sequence of its kind. The rebuild
   * goes through the record's own field names, so every other field, the
   * correspondances included, is carried over.
   */
  function AddNode(d: Domain, kind: NodeKind, name: string): (r: Domain)
    ensures kind == ThingNode ==>
      |r.things| == |d.things| + 1 && r.things[..|d.things|] == d.things &&
      r.things[|d.things|].name == name && r.(things := d.things) == d
    ensures kind == MaterialNode ==>
      |r.materials| == |d.materials| + 1 && r.materials[..|d.materials|] == d.materials &&
      r.materials[|d.materials|].name == name && r.(materials := d.materials) == d
    ensures kind == SystemNode ==>
      |r.systems| == |d.systems| + 1 && r.systems[..|d.systems|] == d.systems &&
      r.systems[|d.systems|].name == name && r.(systems := d.systems) == d
  {
    match kind
    case ThingNode => d.(things := d.things + [Thing(name)])
    case MaterialNode => d.(materials := d.materials + [Material(name)])
    case SystemNode => d.(systems := d.systems + [System(name)])
  }

  function AddThing(d: Domain, name: string): (r: Domain)
    ensures r.things == d.things + [Thing(name)]
    ensures r.(things := d.things) == d
  {
    AddNode(d, ThingNode, name)
  }

  function AddMaterial(d: Domain, name: string): (r: Domain)
    ensures r.materials == d.materials + [Material(name)]
    ensures r.(materials := d.materials) == d
  {
    AddNode(d, MaterialNode, name)
  }

  function AddSystem(d: Domain, name: string): (r: Domain)
    ensures r.systems == d.systems + [System(name)]
    ensures r.(systems := d.systems) == d
  {
    AddNode(d, SystemNode, name)
  }

  /** Adding a node keeps compositions and embodiments coherent. */
  lemma AddNodePreservesCoherent(d: Domain, kind: NodeKind, name: string)
    requires Coherent(d)
    ensures Coherent(AddNode(d, kind, name))
  {
  }

  // ---------------------------------------------------------------------------
  // Relationships without membership checks
  //
  // These rebuild the domain passing the correspondances under a misspelled
  // keyword, which the record ignores, so the result has no correspondances.
  // ---------------------------------------------------------------------------

  /** Appends a provenance; fails when `of == by`. */
  function AddProvenance(d: Domain, ofThing: Thing, byThing: Thing): (r: Result<Domain, ValidationError>)
    ensures r.Failure? <==> ofThing == byThing
    ensures r.Failure? ==> r.error == ProvenanceLoop
    ensures r.Success? ==>
      && r.value.provenances == d.provenances + [Provenance(ofThing, byThing)]
      && r.value.correspondances == []
      && r.value.(provenances := d.provenances, correspondances := d.correspondances) == d
  {
    match NewProvenance(ofThing, byThing)
    case Failure(e) => Failure(e)
    case Success(p) => Success(d.(provenances := d.provenances + [p], correspondances := []))
  }

  /** Appends an operation; fails when `of == by`. */
  function AddOperation(d: Domain, ofThing: Thing, byThing: Thing): (r: Result<Domain, ValidationError>)
    ensures r.Failure? <==> ofThing == byThing
    ensures r.Failure? ==> r.error == OperationLoop
    ensures r.Success? ==>
      && r.value.operations == d.operations + [Operation(ofThing, byThing)]
      && r.value.correspondances == []
      && r.value.(operations := d.operations, correspondances := d.correspondances) == d
  {
    match NewOperation(ofThing, byThing)
    case Failure(e) => Failure(e)
    case Success(o) => Success(d.(operations := d.operations + [o], correspondances := []))
  }

  /**
   * Appends an influence of `system` holding a passivity from `of` to `by`.
   * Only `influences` grows; `passivities` does not.
   */
  function AddPassiveInfluence(d: Domain, system: System, ofThing: Thing, byThing: Thing): (r: Domain)
    ensures |r.influences| == |d.influences| + 1 && r.influences[..|d.influences|] == d.influences
    ensures var added := r.influences[|d.influences|];
      added.system == system && added.containing.Passive? && added.Of() == ofThing && added.By() == byThing
    ensures r.correspondances == []
    ensures r.(influences := d.influences, correspondances := d.correspondances) == d
  {
    d.(influences := d.influences + [Influence(system, Passive(Passivity(ofThing, byThing)))], correspondances := [])
  }

  /**
   * Appends an influence of `system` holding an activity from `of` to `by`
   * carried out by `operations`; fails when an operation is operated by a
   * thing other than `of`. Only `influences` grows; `activities` does not.
   */
  function AddActiveInfluence(d: Domain, system: System, ofThing: Thing, byThing: Thing, operations: seq<Operation>)
    : (r: Result<Domain, ValidationError>)
    ensures r.Failure? <==> exists i :: 0 <= i < |operations| && operations[i].ofThing != ofThing
    ensures r.Failure? ==> r.error == ActivityOperationMismatch
    ensures r.Success? ==>
      && |r.value.influences| == |d.influences| + 1
      && r.value.influences[..|d.influences|] == d.influences
      && r.value.influences[|d.influences|] == Influence(system, Active(Activity(ofThing, byThing, operations)))
      && r.value.influences[|d.influences|].Of() == ofThing
      && r.value.influences[|d.influences|].By() == byThing
      && r.value.correspondances == []
      && r.value.(influences := d.influences, correspondances := d.correspondances) == d
  {
    match NewActivity(ofThing, byThing, operations)
    case Failure(e) => Failure(e)
    case Success(a) => Success(d.(influences := d.influences + [Influence(system, Active(a))], correspondances := []))
  }

  /**
   * The validated relationship adds keep the domain coherent: what they store
   * passed its validator, and compositions and embodiments are untouched.
   */
  lemma AddProvenancePreservesCoherent(d: Domain, ofThing: Thing, byThing: Thing)
    requires Coherent(d)
    ensures AddProvenance(d, ofThing, byThing).Success? ==> Coherent(AddProvenance(d, ofThing, byThing).value)
  {
  }

  lemma AddOperationPreservesCoherent(d: Domain, ofThing: Thing, byThing: Thing)
    requires Coherent(d)
    ensures AddOperation(d, ofThing, byThing).Success? ==> Coherent(AddOperation(d, ofThing, byThing).value)
  {
  }

  lemma AddInfluencesPreserveCoherent(d: Domain, system: System, ofThing: Thing, byThing: Thing, operations: seq<Operation>)
    requires Coherent(d)
    ensures Coherent(AddPassiveInfluence(d, system, ofThing, byThing))
    ensures AddActiveInfluence(d, system, ofThing, byThing, operations).Success? ==>
      Coherent(AddActiveInfluence(d, system, ofThing, byThing, operations).value)
  {
  }

  // ---------------------------------------------------------------------------
  // Composition
  // ---------------------------------------------------------------------------

  /** Whether `by` is already the `by` of some composition (the early-exit loop). */
  function HasComposer(compositions: seq<Composition>, byThing: Thing): (r: bool)
    ensures r <==> exists i :: 0 <= i < |compositions| && compositions[i].byThing == byThing
  {
    if compositions == [] then false
    else if byThing == compositions[0].byThing then true
    else HasComposer(compositions[1..], byThing)
  }

  /**
   * Composes `of` of `by`. Leaves the domain as it is when either thing is
   * not in the domain, when they are the same thing, or when `by` already
   * belongs to a composition as its `by`.
   */
  function ComposeThing(d: Domain, ofThing: Thing, byThing: Thing): (r: Domain)
    ensures (|| ofThing !in d.things || byThing !in d.things || ofThing == byThing
             || exists i :: 0 <= i < |d.compositions| && d.compositions[i].byThing == byThing) ==> r == d
    ensures ofThing in d.things && byThing in d.things && ofThing != byThing &&
            (forall i :: 0 <= i < |d.compositions| ==> d.compositions[i].byThing != byThing) ==>
      && r.compositions == d.compositions + [Composition(ofThing, byThing)]
      && r.correspondances == []
      && r.(compositions := d.compositions, correspondances := d.correspondances) == d
  {
    if ofThing !in d.things then d
    else if byThing !in d.things then d
    else if ofThing == byThing then d
    else if HasComposer(d.compositions, byThing) then d
    else d.(compositions := d.compositions + [Composition(ofThing, byThing)], correspondances := [])
  }

  /** Composing keeps the single-parent, no-self-loop structure. */
  lemma ComposePreservesCoherent(d: Domain, ofThing: Thing, byThing: Thing)
    requires Coherent(d)
    ensures Coherent(ComposeThing(d, ofThing, byThing))
  {
  }

  /**
   * Single parent is all composing enforces: two things can be composed of
   * each other.
   */
  lemma ComposeAcceptsCycle()
    ensures var d := AddThing(AddThing(NewDomain(), "a"), "b");
      var a, b := Thing("a"), Thing("b");
      ComposeThing(ComposeThing(d, a, b), b, a).compositions == [Composition(a, b), Composition(b, a)]
  {
  }

  // ---------------------------------------------------------------------------
  // Embodiment
  // ---------------------------------------------------------------------------

  /**
   * Embodiment as the source writes it: the guard looks for `of` in
   * `materialisation`, but what is appended there is the material `by`, held
   * as a thing of the same name.
   */
  function EmbodyThingAsWritten(d: Domain, ofThing: Thing, byMaterial: Material): (r: Domain)
    ensures ofThing in d.materialisation || ofThing !in d.things || byMaterial !in d.materials ==> r == d
    ensures ofThing !in d.materialisation && ofThing in d.things && byMaterial in d.materials ==>
      && r.embodiments == d.embodiments + [Embodiment(ofThing, byMaterial)]
      && r.materialisation == d.materialisation + [Thing(byMaterial.name)]
      && r.correspondances == []
      && r.(embodiments := d.embodiments, materialisation := d.materialisation,
            correspondances := d.correspondances) == d
  {
    if ofThing in d.materialisation then d
    else if ofThing !in d.things then d
    else if byMaterial !in d.materials then d
    else d.(embodiments := d.embodiments + [Embodiment(ofThing, byMaterial)],
            materialisation := d.materialisation + [Thing(byMaterial.name)],
            correspondances := [])
  }

  /** As written, the same thing can be embodied twice. */
  lemma EmbodyAsWrittenEmbodiesTwice()
    ensures var d := AddMaterial(AddThing(NewDomain(), "cup"), "clay");
      var twice := EmbodyThingAsWritten(EmbodyThingAsWritten(d, Thing("cup"), Material("clay")),
                                        Thing("cup"), Material("clay"));
      && twice.embodiments == [Embodiment(Thing("cup"), Material("clay")), Embodiment(Thing("cup"), Material("clay"))]
      && !EmbodimentsConsistent(twice)
  {
    var d := AddMaterial(AddThing(NewDomain(), "cup"), "clay");
    assert d.things == [Thing("cup")] && d.materials == [Material("clay")];
    var once := EmbodyThingAsWritten(d, Thing("cup"), Material("clay"));
    assert once.materialisation == [Thing("clay")];
    var twice := EmbodyThingAsWritten(once, Thing("cup"), Material("clay"));
    assert twice.embodiments[0].ofThing == twice.embodiments[1].ofThing;
  }

  /**
   * Embodies `of` by `by`, recording `of` as materialised. Leaves the domain
   * as it is when `of` is already materialised, `of` is not a thing of the
   * domain or `by` is not a material of the domain.
   */
  function EmbodyThing(d: Domain, ofThing: Thing, byMaterial: Material): (r: Domain)
    ensures ofThing in d.materialisation || ofThing !in d.things || byMaterial !in d.materials ==> r == d
    ensures ofThing !in d.materialisation && ofThing in d.things && byMaterial in d.materials ==>
      && r.embodiments == d.embodiments + [Embodiment(ofThing, byMaterial)]
      && r.materialisation == d.materialisation + [ofThing]
      && r.correspondances == []
      && r.(embodiments := d.embodiments, materialisation := d.materialisation,
            correspondances := d.correspondances) == d
  {
    if ofThing in d.materialisation then d
    else if ofThing !in d.things then d
    else if byMaterial !in d.materials then d
    else d.(embodiments := d.embodiments + [Embodiment(ofThing, byMaterial)],
            materialisation := d.materialisation + [ofThing],
            correspondances := [])
  }

  /** Embodying keeps every thing embodied at most once. */
  lemma EmbodyPreservesCoherent(d: Domain, ofThing: Thing, byMaterial: Material)
    requires Coherent(d)
    ensures Coherent(EmbodyThing(d, ofThing, byMaterial))
  {
  }

  /** Once a thing has been embodied, embodying it again changes nothing. */
  lemma EmbodyIsOncePerThing(d: Domain, ofThing: Thing, first: Material, second: Material)
    requires EmbodyThing(d, ofThing, first) != d
    ensures EmbodyThing(EmbodyThing(d, ofThing, first), ofThing, second) == EmbodyThing(d, ofThing, first)
  {
  }
}
