/** The hard discriminator guard (`_attribute_conflict` in `app/advisory/product_suggestions.py`): an explicit
    conflicting family, edition, duration, license model or capacity rejects a candidate outright. */
module AttributeGuard {

  /** What a text states explicitly. A unit without counts states only the metric. */
  datatype Discriminators = Discriminators(
    family: set<string>,
    edition: set<string>,
    duration: set<string>,
    licenseModel: set<string>,
    capacity: map<string, set<int>>)

  /** Both sides state the attribute and state it differently. */
  predicate Differ<T(==)>(mine: set<T>, theirs: set<T>) {
    mine != {} && theirs != {} && mine != theirs
  }

  predicate CapacityConflict(mine: map<string, set<int>>, theirs: map<string, set<int>>) {
    && mine != map[] && theirs != map[]
    && (var shared := mine.Keys * theirs.Keys;
        shared == {} || exists unit :: unit in shared && Differ(mine[unit], theirs[unit]))
  }

  predicate AttributeConflict(left: Discriminators, right: Discriminators) {
    || Differ(left.family, right.family)
    || Differ(left.edition, right.edition)
    || Differ(left.duration, right.duration)
    || Differ(left.licenseModel, right.licenseModel)
    || CapacityConflict(left.capacity, right.capacity)
  }

  /** One side is silent about the attribute, or both say the same. */
  predicate Agree<T(==)>(mine: set<T>, theirs: set<T>) {
    mine == {} || theirs == {} || mine == theirs
  }

  /** One side states no capacity, or some metric is stated by both and every such metric agrees. */
  ghost predicate CapacityAgrees(mine: map<string, set<int>>, theirs: map<string, set<int>>) {
    || mine == map[] || theirs == map[]
    || (&& (exists unit :: unit in mine && unit in theirs)
        && (forall unit :: unit in mine && unit in theirs ==> Agree(mine[unit], theirs[unit])))
  }

  /** The guard fires exactly when some attribute stated by both differs. */
  lemma ConflictExactly(left: Discriminators, right: Discriminators)
    ensures !AttributeConflict(left, right) <==>
      && Agree(left.family, right.family) && Agree(left.edition, right.edition) && Agree(left.duration, right.duration)
      && Agree(left.licenseModel, right.licenseModel) && CapacityAgrees(left.capacity, right.capacity)
  {
    var shared := left.capacity.Keys * right.capacity.Keys;
    assert shared == {} <==> !exists unit :: unit in left.capacity && unit in right.capacity by {
      if unit :| unit in left.capacity && unit in right.capacity {
        assert unit in shared;
      }
    }
  }

  /** It does not matter which side is the line and which the product. */
  lemma ConflictSymmetric(left: Discriminators, right: Discriminators)
    ensures AttributeConflict(left, right) == AttributeConflict(right, left)
  {
    ConflictExactly(left, right);
    ConflictExactly(right, left);
  }

  /** A text never conflicts with itself, nor with one that states nothing. */
  lemma NeverSelfConflict(d: Discriminators)
    ensures !AttributeConflict(d, d)
    ensures !AttributeConflict(d, Discriminators({}, {}, {}, {}, map[]))
  {
    ConflictExactly(d, d);
    if d.capacity != map[] {
      var unit :| unit in d.capacity;
    }
  }
}
