# Taxonomies, classifiers and the composition domain in Dafny

This project models the value-oriented core of the `simulation` library. It has three parts:

- **Taxonomy and exclusive classifier** (`src/taxonomy.py`, module `Taxonomies`, file `taxonomy.dfy`).
  - A taxonomy is a head plus an append-only sequence of items.
  - Each item hangs either under the head (first tier) or under an earlier item (subsequent tier).
  - Four parallel sequences record the tiers: the 1-based positions `firstTier` and `subsequentTiers`, and the bind records `firstTierBinds` and `subsequentTierBinds`.
  - `Valid` is the structural invariant, which every add keeps:
    - the counts add up;
    - each position points into `items`, and each position is in exactly one tier;
    - positions are recorded in insertion order, and each bind names the item at its position;
    - a parent occurs before its child.
  - An `ExclusiveClassifier<T>` binds each instance of `T` at most once to the 0-based index of the first matching item.
- **Composition domain** (`src/composition.py`, module `Compositions`, file `composition.dfy`).
  - A `Domain` record holds things, materials, systems and their relationships.
  - Each operation returns a new record built by appending:
    - most operations append one element to one sequence;
    - `embodyThing` appends to both `embodiments` and `materialisation`;
    - every rebuild except `addNode` also empties `correspondances`;
    - a failed guard returns the record as it was, and a rejected record gives `Failure`.
  - The record validators become validating constructors that return `Failure(...)` where the source raises `ValueError`.
  - `Coherent` is the domain invariant:
    - compositions are single-parent and free of self-loops, and join things of the domain;
    - each thing is embodied at most once, by a material of the domain, with `materialisation` in step with `embodiments`;
    - no stored provenance or operation joins a thing to itself, and every operation of an active influence is operated by the influence's `of`.
  - Every operation is proved to keep `Coherent`, except the source's `embodyThing` as written. That one breaks `Coherent` on its first success (see "## Findings"). Only the corrected `EmbodyThing` keeps it.
- **Earlier relationship records** (`src/models.py`, module `Models`, file `models.dfy`): validators that reject a record exactly when one equality between its fields fails.

Items, things, materials and systems are records compared by value, so two of them are equal exactly when their names are. `in` and `tuple.index` are therefore value lookups; `IndexOf` returns the first match. The optional parent is an `Option`. The Python test `if parent` is the same as "not None", because pydantic records are always truthy.

Behaviour modelled as the code has it, where a reader might expect otherwise:

- **Classifying against a missing item fails.** `ExclusiveClassifier.classify` looks the item up with `tuple.index`. That raises `ValueError`, but the handler only catches `IndexError`. So `Classify` returns `Failure(ItemNotInTaxonomy)` rather than the unchanged classifier.
- **Correspondances are dropped.** Every rebuild in `composition.py` except `addNode` passes the correspondances under the misspelled keyword `correspondences`. The record ignores unknown keywords, so the result has no correspondances. `addNode` rebuilds from `Domain.dict()`, which uses the real field name, so it keeps them.
- **Influences are stored only in `influences`.** `addPassiveInfluence` and `addActiveInfluence` append to `influences` alone; `activities` and `passivities` stay as they were.
- **Composition does not prevent cycles.** `composeThing` enforces single-parent and no-self-loop only; composing a of b and then b of a is accepted (`ComposeAcceptsCycle`).

Behaviour modelled as the code evidently intends rather than as it runs:

- **`get_children` follows the bodies of its two overloads.** Both definitions of `Taxonomy.get_children` are decorated `@overload`, so a call as written reaches the typing stub and raises `NotImplementedError` (see "## Left out"). The body of the no-argument overload returns `first_tier`, the 1-based positions of the first-tier items rather than the items themselves; `FirstTierChildren` models that intended body, and `Children` models the body of the one-argument overload.

## Model

| member | source | states |
|---|---|---|
| `Taxonomies.Taxonomy.Name` | src/taxonomy.py:32-33 | the taxonomy's name is its head's name; `CreateTaxonomy` proves it is set to the given name and `AddKeepsName` that every add keeps it |
| `Taxonomies.AddKeepsName` | src/taxonomy.py:73-75 | every add keeps the taxonomy's name, since the new head is rebuilt from it |
| `Taxonomies.IndexOf` | src/taxonomy.py:112 | the result is the index of the first occurrence of the item in the sequence |
| `Taxonomies.CreateTaxonomy` | src/taxonomy.py:52-62 | the new taxonomy has the given head name and no items, tier positions or binds, and satisfies the structural invariant |
| `Taxonomies.AddTaxonomicItem` | src/taxonomy.py:65-89 | a parent that is not an item returns the taxonomy unchanged; otherwise exactly one item with the given name is appended after the untouched earlier items, the head is kept, and the tier's position (old item count + 1) and bind (head or parent, new item) are appended to that tier alone |
| `Taxonomies.AddPreservesValid` | src/taxonomy.py:65-89 | every add keeps the count equalities, position bounds, one-tier-per-position, insertion order, bind/position agreement and parent-before-child |
| `Taxonomies.AddFirstTierPreservesValid` | src/taxonomy.py:76-82 | an add without a parent keeps the structural invariant |
| `Taxonomies.AddUnderParentPreservesValid` | src/taxonomy.py:83-88 | an add under an existing parent keeps the structural invariant; the new parent occurs before the new child |
| `Taxonomies.ChildrenIn` | src/taxonomy.py:44-47 | an item is in the result exactly when some bind has the target as parent and that item as child |
| `Taxonomies.ChildrenInAppend` | src/taxonomy.py:44-47 | the children filter distributes over concatenation of binds, so children come out in bind order |
| `Taxonomies.Children` | src/taxonomy.py:40-48 | a target that is not an item has no children; otherwise the children are exactly the children of the binds whose parent is the target |
| `Taxonomies.FirstTierChildren` | src/taxonomy.py:36-37 | in a valid taxonomy the head's children are positions, one per first-tier bind, each naming the item of that bind |
| `Taxonomies.ChildrenAreItems` | src/taxonomy.py:40-48 | in a valid taxonomy every child of an item is an item |
| `Taxonomies.ChildrenAfterAdd` | src/taxonomy.py:83-88 | adding under an existing parent appends the new item to that parent's children and leaves every other item's children unchanged |
| `Taxonomies.ChildrenAfterFirstTierAdd` | src/taxonomy.py:76-82 | adding at the first tier leaves the children of every existing item unchanged |
| `Taxonomies.LifeFloraRose` | tests/test_taxonomy.py:13-64 | the test scenario: "Flora" at the first tier and "Rose" under it give the tier counts the tests check, "Rose" as Flora's only child, and first tier `[1]` |
| `Taxonomies.ExclusiveClassifier.Classify` | src/taxonomy.py:106-120 | an instance that is already classified leaves the classifier unchanged; an item that is not in the taxonomy fails; otherwise the instance and the index of the first matching item are appended, and the taxonomy is kept |
| `Taxonomies.NewExclusiveClassification` | src/taxonomy.py:122-128 | the new classifier is over the given taxonomy, is empty, and satisfies the classifier invariant |
| `Taxonomies.ClassifyPreservesValid` | src/taxonomy.py:109-118 | classification keeps instances and classifications aligned, instances duplicate-free and every index below the item count |
| `Taxonomies.ClassifyIsExclusive` | src/taxonomy.py:109-110 | after a successful classification, classifying the same instance again, against any item, changes nothing |
| `Compositions.NewComposition` | src/composition.py:70-84 | a composition is rejected exactly when of == by, and otherwise has the given ends |
| `Compositions.NewProvenance` | src/composition.py:92-101 | a provenance is rejected exactly when of == by |
| `Compositions.NewOperation` | src/composition.py:104-112 | an operation is rejected exactly when of == by |
| `Compositions.NewProvOpCorrespondance` | src/composition.py:115-123 | a correspondance is rejected exactly when the provenance's by differs from the operation's of |
| `Compositions.AllOperatedBy` | src/composition.py:145-147 | true exactly when every operation's of is the given thing |
| `Compositions.NewActivity` | src/composition.py:137-148 | an activity is rejected exactly when some operation's of differs from the activity's of |
| `Compositions.NewDomain` | src/composition.py:196-211 | every sequence of the new domain is empty, and the domain is coherent |
| `Compositions.AddNode` | src/composition.py:224-234 | exactly one node with the given name is appended to the sequence of its kind; every other field, correspondances included, is unchanged |
| `Compositions.AddThing` | src/composition.py:237-238 | one thing is appended to things; nothing else changes |
| `Compositions.AddMaterial` | src/composition.py:241-242 | one material is appended to materials; nothing else changes |
| `Compositions.AddSystem` | src/composition.py:245-246 | one system is appended to systems; nothing else changes |
| `Compositions.AddNodePreservesCoherent` | src/composition.py:224-234 | adding a node keeps compositions and embodiments coherent |
| `Compositions.AddProvenance` | src/composition.py:249-266 | fails exactly when of == by; otherwise appends the provenance without any membership check, drops the correspondances and changes nothing else |
| `Compositions.AddOperation` | src/composition.py:269-286 | fails exactly when of == by; otherwise appends the operation, drops the correspondances and changes nothing else |
| `Compositions.AddPassiveInfluence` | src/composition.py:289-310 | appends one passive influence of the system whose of and by are the given things; drops the correspondances; passivities and the rest are unchanged |
| `Compositions.AddActiveInfluence` | src/composition.py:313-335 | fails exactly when some operation's of differs from the activity's of; otherwise appends one active influence whose of and by are the given things; drops the correspondances; activities and the rest are unchanged |
| `Compositions.AddProvenancePreservesCoherent` | src/composition.py:249-266 | a successful provenance add keeps the domain coherent: the stored provenance has of != by |
| `Compositions.AddOperationPreservesCoherent` | src/composition.py:269-286 | a successful operation add keeps the domain coherent: the stored operation has of != by |
| `Compositions.AddInfluencesPreserveCoherent` | src/composition.py:289-335 | both influence adds keep the domain coherent: every operation of a stored active influence is operated by the influence's of |
| `Compositions.Influence.Of` | src/composition.py:156-158 | an influence's of is the of of the activity or passivity it contains; `AddPassiveInfluence` and `AddActiveInfluence` tie it to their inputs, and `RelationshipsValid`, kept by `AddInfluencesPreserveCoherent`, requires every operation of an active influence to be operated by it |
| `Compositions.Influence.By` | src/composition.py:160-162 | an influence's by is the by of the activity or passivity it contains; `AddPassiveInfluence` and `AddActiveInfluence` tie it to their inputs |
| `Compositions.HasComposer` | src/composition.py:349-352 | true exactly when the thing is already the by of some composition |
| `Compositions.ComposeThing` | src/composition.py:338-369 | unchanged when of or by is not a thing of the domain, when of == by, or when by is already the by of a composition; otherwise appends Composition(of, by) at the end, drops the correspondances and changes nothing else |
| `Compositions.ComposePreservesCoherent` | src/composition.py:338-369 | composing keeps "no composition has of == by", "both ends are things" and "each thing is the by of at most one composition" |
| `Compositions.ComposeAcceptsCycle` | src/composition.py:338-369 | composing a of b and then b of a is accepted: single parent does not rule out cycles |
| `Compositions.EmbodyThingAsWritten` | src/composition.py:372-395 | unchanged when of is in materialisation, of is not a thing or by is not a material; otherwise appends Embodiment(of, by) and appends the material (held as a thing of its name) to materialisation |
| `Compositions.EmbodyAsWrittenEmbodiesTwice` | src/composition.py:373-386 | as written, embodying the same thing twice records two embodiments of it, breaking the one-embodiment-per-thing invariant |
| `Compositions.EmbodyThing` | src/composition.py:372-395 | the same guards as written; on success appends Embodiment(of, by) and appends the thing of to materialisation |
| `Compositions.EmbodyPreservesCoherent` | src/composition.py:372-395 | the corrected `EmbodyThing` keeps every thing embodied at most once, by a material of the domain, with materialisation in step with embodiments; the source as written does not (see "## Findings") |
| `Compositions.EmbodyIsOncePerThing` | src/composition.py:373-374 | for the corrected `EmbodyThing`, once a thing has been embodied, embodying it again, by any material, changes nothing; the source as written embodies it again (see "## Findings") |
| `Models.NewComposition` | src/models.py:14-22 | a composition is rejected exactly when by == of |
| `Models.NewProvenance` | src/models.py:43-51 | a provenance is rejected exactly when actor == thing |
| `Models.NewOperation` | src/models.py:53-61 | an operation is rejected exactly when acted == thing |
| `Models.AllCarriedOutBy` | src/models.py:74-77 | true exactly when every operation's thing is the given thing |
| `Models.NewInfluence` | src/models.py:67-78 | an influence is rejected exactly when some operation's thing differs from of |

## Left out

- `print(item)` in `add_taxonomic_item` (src/taxonomy.py:71): console output.
- The classifier's runtime `target_type` and its `isinstance` checks (src/taxonomy.py:93, :99-108): the classifier is generic over `T`, so the type-mismatch branch of `classify` and the `type_match` validator cannot fail and are not modelled.
- `Taxonomy.get_children` exactly as written (src/taxonomy.py:35-48). Both definitions are under `@overload`, so a call reaches the typing stub. The body also reads a misspelled attribute and calls `list.add`. `Children` and `FirstTierChildren` model the evident intent of the two overloads.
- Checks on taxonomies built directly from the record rather than by `create_taxonomy`/`add_taxonomic_item`: the source validates nothing there, and the model states the invariant only for values the operations build.
- `Domain.get_children`, `Domain.get_decendents` (src/composition.py:182-193): they name undefined identifiers and missing attributes, and the `Optional` annotation makes the module fail at import.
- `Domain.get_element_container` (src/composition.py:179-180): attribute lookup by reflection.
- The `GRAPH` flag enumeration and its helpers (src/composition.py:6-52):
  - the values 1..11 are not powers of two, so membership in `NODES` depends on the enumeration library's internals;
  - `AddNode` takes only the three node kinds, so its "not a node" branch is not modelled;
  - `createNode` is folded into `AddNode`.
- Pydantic mechanics: the dictionary round trip in `addNode` and the validation of values already constructed. Validation failing on an earlier field (a `KeyError` inside a validator) is also not modelled.
- The material placed in `materialisation` by `embodyThing`: pydantic turns it into a thing of the same name. `EmbodyThingAsWritten` appends `Thing(name)` for it, and equality with a thing of that name is what the guard then sees.
- Acyclicity of compositions: the source does not enforce it (see `ComposeAcceptsCycle`).
- The records `Domain`, `Material`, `Embodiment`, `System` of `src/models.py` have no validators. They appear as plain datatypes, and no operation of that file builds them.
- Two assertions of tests/test_taxonomy.py contradict the code and are not reproduced:
  - :38 compares the bound method `name` with a string;
  - :54 expects `()` where `first_tier` is `(1,)`.

## Findings

| source | as written | input that shows it | evidently intended | confidence | as-written member | corrected member |
|---|---|---|---|---|---|---|
| src/composition.py:386 | `embodyThing` appends the material `by` to `materialisation`, but its guard at :373 checks whether the thing `of` is in `materialisation`; the field is documented as "the things which are embodied" | a domain with thing `cup` and material `clay`; `embodyThing(cup, clay)` twice records two embodiments of `cup` | append `of`, so a thing is embodied at most once | high (not executed) | `Compositions.EmbodyAsWrittenEmbodiesTwice` | `Compositions.EmbodyPreservesCoherent` |
