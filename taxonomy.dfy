/**
 * A two-tier taxonomy tree of named items and an exclusive classifier that
 * binds instances to the items of one taxonomy.
 *
 * Every operation returns a new value built by appending to the sequences of
 * the old one; nothing is updated in place.
 */
module Taxonomies {
  import opened Wrappers

  /** The named root of a taxonomy. */
  datatype TaxonomyHead = TaxonomyHead(name: string)

  /** A node of a taxonomy. Two items are equal exactly when their names are. */
  datatype TaxonomicItem = TaxonomicItem(name: string)

  /** Records that `child` hangs directly under the head. */
  datatype FirstTierBind = FirstTierBind(taxonomy: TaxonomyHead, child: TaxonomicItem)

  /** Records that `child` hangs under the item `parent`. */
  datatype SubsequentTierBind = SubsequentTierBind(parent: TaxonomicItem, child: TaxonomicItem)

  /**
   * `items` holds every item in insertion order. `firstTier` and
   * `subsequentTiers` hold 1-based positions into `items`, kept in step with
   * the bind sequences of the same tier.
   */
  datatype Taxonomy = Taxonomy(
    taxonomyHead: TaxonomyHead,
    items: seq<TaxonomicItem>,
    firstTier: seq<int>,
    firstTierBinds: seq<FirstTierBind>,
    subsequentTiers: seq<int>,
    subsequentTierBinds: seq<SubsequentTierBind>)
  {
    /** The name of the head. */
    function Name(): (n: string)
      ensures n == taxonomyHead.name
    {
      taxonomyHead.name
    }
  }

  // ---------------------------------------------------------------------------
  // Structural invariant
  // ---------------------------------------------------------------------------

  ghost predicate Increasing(s: seq<int>) {
    forall i, j :: 0 <= i < j < |s| ==> s[i] < s[j]
  }

  /** `x` occurs in `items` at some index below `pos`. */
  ghost predicate OccursBefore(items: seq<TaxonomicItem>, x: TaxonomicItem, pos: int) {
    exists i :: 0 <= i < pos && i < |items| && items[i] == x
  }

  /**
   * The bookkeeping every taxonomy built by `CreateTaxonomy` and
   * `AddTaxonomicItem` keeps: the tier counts add up, every tier position
   * points into `items`, each position is in exactly one tier, positions are
   * recorded in insertion order, each bind names the item at its position, and
   * a parent always occurs before its child.
   */
  ghost predicate Valid(t: Taxonomy) {
    && |t.firstTier| == |t.firstTierBinds|
    && |t.subsequentTiers| == |t.subsequentTierBinds|
    && |t.items| == |t.firstTier| + |t.subsequentTiers|
    && (forall j :: 0 <= j < |t.firstTier| ==> 1 <= t.firstTier[j] <= |t.items|)
    && (forall j :: 0 <= j < |t.subsequentTiers| ==> 1 <= t.subsequentTiers[j] <= |t.items|)
    && Increasing(t.firstTier)
    && Increasing(t.subsequentTiers)
    && (forall k :: 1 <= k <= |t.items| ==> (k in t.firstTier <==> k !in t.subsequentTiers))
    && (forall j :: 0 <= j < |t.firstTierBinds| ==>
          t.firstTierBinds[j] == FirstTierBind(t.taxonomyHead, t.items[t.firstTier[j] - 1]))
    && (forall j :: 0 <= j < |t.subsequentTierBinds| ==>
          && t.subsequentTierBinds[j].child == t.items[t.subsequentTiers[j] - 1]
          && OccursBefore(t.items, t.subsequentTierBinds[j].parent, t.subsequentTiers[j] - 1))
  }

  // ---------------------------------------------------------------------------
  // Lookup
  // ---------------------------------------------------------------------------

  /** The index of the first occurrence of `x` in `s` (Python's `tuple.index`). */
  function IndexOf<X(==)>(s: seq<X>, x: X): (i: nat)
    requires x in s
    ensures i < |s| && s[i] == x
    ensures forall j :: 0 <= j < i ==> s[j] != x
  {
    if s[0] == x then 0 else 1 + IndexOf(s[1..], x)
  }

  // ---------------------------------------------------------------------------
  // Construction
  // ---------------------------------------------------------------------------

  /** An empty taxonomy whose head is called `name`. */
  function CreateTaxonomy(name: string): (t: Taxonomy)
    ensures t.Name() == name
    ensures t.items == [] && t.firstTier == [] && t.firstTierBinds == []
    ensures t.subsequentTiers == [] && t.subsequentTierBinds == []
    ensures Valid(t)
  {
    Taxonomy(TaxonomyHead(name), [], [], [], [], [])
  }

  /**
   * Appends an item called `name`: under the head when `parent` is absent,
   * under `parent` otherwise. A parent that is not an item of `t` leaves `t`
   * as it is.
   */
  function AddTaxonomicItem(t: Taxonomy, name: string, parent: Option<TaxonomicItem>): (r: Taxonomy)
    ensures parent.Some? && parent.value !in t.items ==> r == t
    ensures parent.None? || parent.value in t.items ==>
      && r.taxonomyHead == t.taxonomyHead
      && |r.items| == |t.items| + 1
      && r.items[..|t.items|] == t.items
      && r.items[|t.items|].name == name
    ensures parent.None? ==>
      && r.firstTier == t.firstTier + [|r.items|]
      && r.firstTierBinds == t.firstTierBinds + [FirstTierBind(t.taxonomyHead, r.items[|t.items|])]
      && r.subsequentTiers == t.subsequentTiers
      && r.subsequentTierBinds == t.subsequentTierBinds
    ensures parent.Some? && parent.value in t.items ==>
      && r.firstTier == t.firstTier
      && r.firstTierBinds == t.firstTierBinds
      && r.subsequentTiers == t.subsequentTiers + [|r.items|]
      && r.subsequentTierBinds == t.subsequentTierBinds + [SubsequentTierBind(parent.value, r.items[|t.items|])]
  {
    if parent.Some? && parent.value !in t.items then
      t
    else
      var item := TaxonomicItem(name);
      Taxonomy(
        TaxonomyHead(t.Name()),
        t.items + [item],
        if parent.Some? then t.firstTier else t.firstTier + [|t.items| + 1],
        if parent.Some? then t.firstTierBinds else t.firstTierBinds + [FirstTierBind(t.taxonomyHead, item)],
        if parent.None? then t.subsequentTiers else t.subsequentTiers + [|t.items| + 1],
        if parent.None? then t.subsequentTierBinds
        else t.subsequentTierBinds + [SubsequentTierBind(parent.value, item)])
  }

  /** Every add keeps the structural invariant. */
  lemma AddPreservesValid(t: Taxonomy, name: string, parent: Option<TaxonomicItem>)
    requires Valid(t)
    ensures Valid(AddTaxonomicItem(t, name, parent))
  {
    if parent.None? {
      AddFirstTierPreservesValid(t, name);
    } else if parent.value in t.items {
      AddUnderParentPreservesValid(t, name, parent.value);
    }
  }

  lemma AddFirstTierPreservesValid(t: Taxonomy, name: string)
    requires Valid(t)
    ensures Valid(AddTaxonomicItem(t, name, None))
  {
    var r := AddTaxonomicItem(t, name, None);
    var n := |t.items|;
    assert r.items == t.items + [TaxonomicItem(name)];
    assert r.firstTier == t.firstTier + [n + 1];
    assert r.subsequentTiers == t.subsequentTiers;
    assert r.subsequentTierBinds == t.subsequentTierBinds;
    forall k | 1 <= k <= n + 1
      ensures k in r.firstTier <==> k !in r.subsequentTiers
    {
      if k == n + 1 {
        assert r.firstTier[|t.firstTier|] == k;
      } else {
        assert k in r.firstTier <==> k in t.firstTier;
      }
    }
    forall j | 0 <= j < |r.subsequentTierBinds|
      ensures OccursBefore(r.items, r.subsequentTierBinds[j].parent, r.subsequentTiers[j] - 1)
    {
      assert OccursBefore(t.items, t.subsequentTierBinds[j].parent, t.subsequentTiers[j] - 1);
      var w :| 0 <= w < t.subsequentTiers[j] - 1 && w < n && t.items[w] == t.subsequentTierBinds[j].parent;
      assert r.items[w] == t.items[w];
    }
  }

  lemma AddUnderParentPreservesValid(t: Taxonomy, name: string, p: TaxonomicItem)
    requires Valid(t) && p in t.items
    ensures Valid(AddTaxonomicItem(t, name, Some(p)))
  {
    var r := AddTaxonomicItem(t, name, Some(p));
    var n := |t.items|;
    assert r.items == t.items + [TaxonomicItem(name)];
    assert r.firstTier == t.firstTier;
    assert r.subsequentTiers == t.subsequentTiers + [n + 1];
    assert r.subsequentTierBinds == t.subsequentTierBinds + [SubsequentTierBind(p, TaxonomicItem(name))];
    var i :| 0 <= i < n && t.items[i] == p;
    assert r.items[i] == p;
    assert OccursBefore(r.items, p, n);
    forall k | 1 <= k <= n + 1
      ensures k in r.firstTier <==> k !in r.subsequentTiers
    {
      if k == n + 1 {
        assert r.subsequentTiers[|t.subsequentTiers|] == k;
      } else {
        assert k in r.subsequentTiers <==> k in t.subsequentTiers;
      }
    }
    forall j | 0 <= j < |t.subsequentTierBinds|
      ensures OccursBefore(r.items, r.subsequentTierBinds[j].parent, r.subsequentTiers[j] - 1)
    {
      assert OccursBefore(t.items, t.subsequentTierBinds[j].parent, t.subsequentTiers[j] - 1);
      var w :| 0 <= w < t.subsequentTiers[j] - 1 && w < n && t.items[w] == t.subsequentTierBinds[j].parent;
      assert r.items[w] == t.items[w];
    }
  }

  /** Every add keeps the taxonomy's name, the head being rebuilt from it. */
  lemma AddKeepsName(t: Taxonomy, name: string, parent: Option<TaxonomicItem>)
    ensures AddTaxonomicItem(t, name, parent).Name() == t.Name()
  {
  }

  // ---------------------------------------------------------------------------
  // Children
  // ---------------------------------------------------------------------------

  /** The children recorded under `target` in `binds`, in bind order. */
  function ChildrenIn(binds: seq<SubsequentTierBind>, target: TaxonomicItem): (r: seq<TaxonomicItem>)
    ensures |r| <= |binds|
    ensures forall x :: x in r <==>
      exists j :: 0 <= j < |binds| && binds[j].parent == target && binds[j].child == x
  {
    if binds == [] then
      []
    else
      var rest := ChildrenIn(binds[1..], target);
      assert forall x :: x in rest <==>
        exists j :: 1 <= j < |binds| && binds[j].parent == target && binds[j].child == x
      by {
        forall x | x in rest
          ensures exists j :: 1 <= j < |binds| && binds[j].parent == target && binds[j].child == x
        {
          var j' :| 0 <= j' < |binds[1..]| && binds[1..][j'].parent == target && binds[1..][j'].child == x;
          assert binds[j' + 1] == binds[1..][j'];
        }
        forall x, j | 1 <= j < |binds| && binds[j].parent == target && binds[j].child == x
          ensures x in rest
        {
          assert binds[1..][j - 1] == binds[j];
        }
      }
      (if binds[0].parent == target then [binds[0].child] else []) + rest
  }

  /** Filtering binds distributes over concatenation: the children keep bind order. */
  lemma {:induction false} ChildrenInAppend(a: seq<SubsequentTierBind>, b: seq<SubsequentTierBind>, target: TaxonomicItem)
    ensures ChildrenIn(a + b, target) == ChildrenIn(a, target) + ChildrenIn(b, target)
  {
    if a == [] {
      assert a + b == b;
    } else {
      assert (a + b)[1..] == a[1..] + b;
      ChildrenInAppend(a[1..], b, target);
    }
  }

  /**
   * The children of `target`: the child of every subsequent-tier bind whose
   * parent is `target`, in bind order; nothing when `target` is not an item.
   */
  function Children(t: Taxonomy, target: TaxonomicItem): (r: seq<TaxonomicItem>)
    ensures target !in t.items ==> r == []
    ensures target in t.items ==> forall x :: x in r <==>
      exists j :: 0 <= j < |t.subsequentTierBinds| &&
        t.subsequentTierBinds[j].parent == target && t.subsequentTierBinds[j].child == x
  {
    if target in t.items then ChildrenIn(t.subsequentTierBinds, target) else []
  }

  /** The children of the head, given as the 1-based positions of the first tier. */
  function FirstTierChildren(t: Taxonomy): (r: seq<int>)
    ensures Valid(t) ==> |r| == |t.firstTierBinds|
    ensures Valid(t) ==> forall j :: 0 <= j < |r| ==>
      1 <= r[j] <= |t.items| && t.items[r[j] - 1] == t.firstTierBinds[j].child
  {
    t.firstTier
  }

  /** In a valid taxonomy every child of an item is itself an item. */
  lemma ChildrenAreItems(t: Taxonomy, target: TaxonomicItem)
    requires Valid(t)
    ensures forall x :: x in Children(t, target) ==> x in t.items
  {
  }

  /**
   * Adding under `p` appends the new item to the children of `p` and leaves the
   * children of every other item as they were.
   */
  lemma ChildrenAfterAdd(t: Taxonomy, name: string, p: TaxonomicItem)
    requires p in t.items
    ensures Children(AddTaxonomicItem(t, name, Some(p)), p) == Children(t, p) + [TaxonomicItem(name)]
    ensures forall q :: q in t.items && q != p ==>
      Children(AddTaxonomicItem(t, name, Some(p)), q) == Children(t, q)
  {
    var r := AddTaxonomicItem(t, name, Some(p));
    var added := SubsequentTierBind(p, TaxonomicItem(name));
    assert r.items == t.items + [TaxonomicItem(name)];
    assert r.subsequentTierBinds == t.subsequentTierBinds + [added];
    forall q | q in t.items
      ensures Children(r, q) == Children(t, q) + (if q == p then [TaxonomicItem(name)] else [])
    {
      ChildrenInAppend(t.subsequentTierBinds, [added], q);
      assert [added][1..] == [];
    }
  }

  /** Adding at the first tier leaves the children of every existing item unchanged. */
  lemma ChildrenAfterFirstTierAdd(t: Taxonomy, name: string, q: TaxonomicItem)
    requires q in t.items
    ensures Children(AddTaxonomicItem(t, name, None), q) == Children(t, q)
  {
  }

  /** The unit-test scenario: "Life" with "Flora" at the first tier and "Rose" under it. */
  lemma LifeFloraRose()
    ensures var t1 := CreateTaxonomy("Life");
      var t2 := AddTaxonomicItem(t1, "Flora", None);
      var t3 := AddTaxonomicItem(t2, "Rose", Some(t2.items[0]));
      && t2.items == [TaxonomicItem("Flora")]
      && |t2.firstTier| == 1 && |t2.subsequentTiers| == 0
      && t3.items == [TaxonomicItem("Flora"), TaxonomicItem("Rose")]
      && |t3.firstTier| == 1 && |t3.firstTierBinds| == 1
      && |t3.subsequentTiers| == 1 && |t3.subsequentTierBinds| == 1
      && Children(t3, t3.items[0]) == [t3.items[1]]
      && FirstTierChildren(t3) == [1]
  {
  }

  // ---------------------------------------------------------------------------
  // Exclusive classifier
  // ---------------------------------------------------------------------------

  /** Raised by `Classify` when the item is not in the classifier's taxonomy. */
  datatype ClassifyError = ItemNotInTaxonomy

  /**
   * Binds instances of `T` to 0-based indices of `taxonomy.items`;
   * `classifiedInstances[i]` is bound to `classifications[i]`.
   */
  datatype ExclusiveClassifier<T(==)> = ExclusiveClassifier(
    taxonomy: Taxonomy,
    classifiedInstances: seq<T>,
    classifications: seq<int>)
  {
    /**
     * Binds `instance` to the first item of the taxonomy equal to `item`.
     * An instance that is already bound leaves the classifier as it is; an
     * item that is not in the taxonomy fails.
     */
    function Classify(item: TaxonomicItem, instance: T): (r: Result<ExclusiveClassifier<T>, ClassifyError>)
      ensures instance in classifiedInstances ==> r == Success(this)
      ensures instance !in classifiedInstances && item !in taxonomy.items ==>
        r == Failure(ItemNotInTaxonomy)
      ensures instance !in classifiedInstances && item in taxonomy.items ==>
        && r.Success?
        && r.value.taxonomy == taxonomy
        && r.value.classifiedInstances == classifiedInstances + [instance]
        && |r.value.classifications| == |classifications| + 1
        && r.value.classifications[..|classifications|] == classifications
        && var k := r.value.classifications[|classifications|];
           && 0 <= k < |taxonomy.items|
           && taxonomy.items[k] == item
           && forall j :: 0 <= j < k ==> taxonomy.items[j] != item
    {
      if instance in classifiedInstances then
        Success(this)
      else if item !in taxonomy.items then
        Failure(ItemNotInTaxonomy)
      else
        Success(ExclusiveClassifier(
          taxonomy,
          classifiedInstances + [instance],
          classifications + [IndexOf(taxonomy.items, item)]))
    }
  }

  /**
   * The classifier invariant: instances and classifications stay aligned, no
   * instance is bound twice, and every classification indexes an item.
   */
  ghost predicate ClassifierValid<T>(c: ExclusiveClassifier<T>) {
    && |c.classifiedInstances| == |c.classifications|
    && (forall i, j :: 0 <= i < j < |c.classifiedInstances| ==>
          c.classifiedInstances[i] != c.classifiedInstances[j])
    && (forall i :: 0 <= i < |c.classifications| ==> 0 <= c.classifications[i] < |c.taxonomy.items|)
  }

  /** An empty classifier over `taxonomy`. */
  function NewExclusiveClassification<T>(taxonomy: Taxonomy): (c: ExclusiveClassifier<T>)
    ensures c.taxonomy == taxonomy
    ensures c.classifiedInstances == [] && c.classifications == []
    ensures ClassifierValid(c)
  {
    ExclusiveClassifier(taxonomy, [], [])
  }

  /** Every successful classification keeps the classifier invariant. */
  lemma ClassifyPreservesValid<T>(c: ExclusiveClassifier<T>, item: TaxonomicItem, instance: T)
    requires ClassifierValid(c)
    ensures c.Classify(item, instance).Success? ==> ClassifierValid(c.Classify(item, instance).value)
  {
  }

  /**
   * Exclusivity: once an instance is bound, classifying it again, against any
   * item, changes nothing.
   */
  lemma ClassifyIsExclusive<T>(c: ExclusiveClassifier<T>, first: TaxonomicItem, second: TaxonomicItem, instance: T)
    requires c.Classify(first, instance).Success?
    ensures c.Classify(first, instance).value.Classify(second, instance) == c.Classify(first, instance)
  {
  }
}
