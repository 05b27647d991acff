/** The kinds of value a column can hold, and how the kinds of its values combine into one. */
module ColumnKinds {

  datatype Kind = Unknown | Boolean | Integer | Number | Date | DateTime | Text | Json | Mixed

  function Merge(a: Kind, b: Kind): Kind {
    match (a, b)
    case (Unknown, value) => value
    case (value, Unknown) => value
    case (left, right) =>
      if left == right then left
      else if (left == Integer && right == Number) || (left == Number && right == Integer) then Number
      else if (left == Date && right == DateTime) || (left == DateTime && right == Date) then DateTime
      else Mixed
  }

  /** Unknown says least, Mixed most; a number covers integers, a date-time covers dates. */
  predicate CoveredBy(a: Kind, b: Kind) {
    a == b || a == Unknown || b == Mixed || (a == Integer && b == Number) || (a == Date && b == DateTime)
  }

  lemma CoveredByIsAnOrder(a: Kind, b: Kind, c: Kind)
    ensures CoveredBy(a, a) && CoveredBy(Unknown, a) && CoveredBy(a, Mixed)
    ensures CoveredBy(a, b) && CoveredBy(b, a) ==> a == b
    ensures CoveredBy(a, b) && CoveredBy(b, c) ==> CoveredBy(a, c)
  {
  }

  /** Merging gives the least kind that covers both. */
  lemma MergeIsJoin(a: Kind, b: Kind, c: Kind)
    ensures CoveredBy(Merge(a, b), c) <==> CoveredBy(a, c) && CoveredBy(b, c)
  {
  }

  /** The kind of a column after its values have been observed one by one. */
  function KindOf(kinds: seq<Kind>): Kind {
    if kinds == [] then Unknown else Merge(KindOf(kinds[..|kinds| - 1]), kinds[|kinds| - 1])
  }

  /** It is the least kind that covers all of them. */
  lemma {:induction false} KindOfIsLeast(kinds: seq<Kind>, c: Kind)
    ensures CoveredBy(KindOf(kinds), c) <==> forall k <- kinds :: CoveredBy(k, c)
  {
    hide CoveredBy, Merge;
    if kinds == [] {
      CoveredByIsAnOrder(c, c, c);
    } else {
      var front, last := kinds[..|kinds| - 1], kinds[|kinds| - 1];
      assert kinds == front + [last];
      KindOfIsLeast(front, c);
      MergeIsJoin(KindOf(front), last, c);
    }
  }

  /** So it depends on neither the order of the values nor how often each kind occurs. */
  lemma KindDependsOnSet(a: seq<Kind>, b: seq<Kind>)
    requires forall k :: k in a <==> k in b
    ensures KindOf(a) == KindOf(b)
  {
    KindOfIsLeast(a, KindOf(a));
    KindOfIsLeast(a, KindOf(b));
    KindOfIsLeast(b, KindOf(a));
    KindOfIsLeast(b, KindOf(b));
    CoveredByIsAnOrder(KindOf(a), KindOf(b), KindOf(a));
  }
}
