/**
 Range queries over range fields.  A range column is indexed as seven sub-fields; a query range is
 compiled to a tree of term and range queries over them.  The trees mean what their names say of the
 ranges as sets of values.
 */
module RangeQuery {
  import opened Wrappers

  // ---------------------------------------------------------------------------------------------
  // Values, bounds and ranges
  // ---------------------------------------------------------------------------------------------

  datatype Kind = Integer | Date | Dense {
    /** Every value has a next one. */
    predicate Discrete() { !Dense? }
  }

  /** Dates are whole days; dense values stand for every ordered type without a successor. */
  datatype Value = I64(n: int) | Day(n: int) | F64(x: real) {
    function Num(): real { if F64? then x else n as real }
    function KindOf(): Kind { match this case I64(_) => Integer case Day(_) => Date case F64(_) => Dense }

    /** The next value: for a date, a day's nanoseconds are added to its own. */
    function Next(): Value
      requires !F64?
    { if I64? then I64(n + 1) else Day(n + 1) }

    predicate IsLast() {
      match this
      case I64(n) => n >= I64_MAX
      case Day(n) => (n + 1) * ONE_DAY_NANOS > I64_MAX
      case F64(_) => false
    }
  }

  const I64_MAX: int := 0x7FFF_FFFF_FFFF_FFFF
  const ONE_DAY_NANOS: int := 86_400_000_000_000

  datatype Bound = Included(v: Value) | Excluded(v: Value) | Unbounded {
    predicate IsOf(k: Kind) { Unbounded? || v.KindOf() == k }
  }

  predicate AboveLower(p: Value, b: Bound) {
    match b
    case Included(v) => v.Num() <= p.Num()
    case Excluded(v) => v.Num() < p.Num()
    case Unbounded => true
  }

  predicate BelowUpper(p: Value, b: Bound) {
    match b
    case Included(v) => p.Num() <= v.Num()
    case Excluded(v) => p.Num() < v.Num()
    case Unbounded => true
  }

  /** A Postgres range value. */
  datatype PgRange = EmptyRange | Range(lower: Bound, upper: Bound) {
    /** The values in the range. */
    predicate Has(p: Value) {
      Range? && AboveLower(p, lower) && BelowUpper(p, upper)
    }

    /** What Postgres stores: an empty range is `EmptyRange`, ranges of integers and of dates are half open. */
    ghost predicate Stored(k: Kind) {
      Range? ==> lower.IsOf(k) && upper.IsOf(k) && Canonical(k, lower, upper) && Crosses(lower, upper)
    }
  }

  predicate Canonical(k: Kind, lower: Bound, upper: Bound) {
    k.Discrete() ==> !lower.Excluded? && !upper.Included?
  }

  /** There is room between the bounds. */
  predicate Crosses(lower: Bound, upper: Bound) {
    if lower.Unbounded? || upper.Unbounded? then true
    else lower.v.Num() < upper.v.Num()
         || (lower.v.Num() == upper.v.Num() && lower.Included? && upper.Included?)
  }

  ghost predicate Nonempty(k: Kind, r: PgRange) {
    exists p: Value :: p.KindOf() == k && r.Has(p)
  }

  ghost predicate Subset(k: Kind, a: PgRange, b: PgRange) {
    forall p: Value :: p.KindOf() == k && a.Has(p) ==> b.Has(p)
  }

  ghost predicate Meet(k: Kind, a: PgRange, b: PgRange) {
    exists p: Value :: p.KindOf() == k && a.Has(p) && b.Has(p)
  }

  // ---------------------------------------------------------------------------------------------
  // The indexed form of a range
  // ---------------------------------------------------------------------------------------------

  datatype TantivyRange = TantivyRange(
    lower: Option<Value>, upper: Option<Value>, empty: bool,
    lowerInclusive: bool, upperInclusive: bool, lowerUnbounded: bool, upperUnbounded: bool)

  datatype TantivyRangeBuilder = TantivyRangeBuilder(
    lower: Option<Value>, upper: Option<Value>, empty: Option<bool>,
    lowerInclusive: Option<bool>, upperInclusive: Option<bool>,
    lowerUnbounded: Option<bool>, upperUnbounded: Option<bool>)
  {
    static function New(): TantivyRangeBuilder {
      TantivyRangeBuilder(None, None, None, None, None, None, None)
    }

    function Build(): TantivyRange {
      TantivyRange(lower, upper,
                   UnwrapOr(empty, false),
                   UnwrapOr(lowerInclusive, true), UnwrapOr(upperInclusive, false),
                   UnwrapOr(lowerUnbounded, false), UnwrapOr(upperUnbounded, false))
    }
  }

  function UnwrapOr(b: Option<bool>, default: bool): bool {
    if b.Some? then b.value else default
  }

  function BoundValue(b: Bound): Option<Value> {
    if b.Unbounded? then None else Some(b.v)
  }

  function FromRange(r: PgRange): TantivyRange {
    match r
    case EmptyRange => TantivyRangeBuilder.New().(empty := Some(true)).Build()
    case Range(lower, upper) =>
      TantivyRangeBuilder.New().(
        lower := BoundValue(lower), upper := BoundValue(upper),
        lowerInclusive := Some(lower.Included?), upperInclusive := Some(upper.Included?),
        lowerUnbounded := Some(lower.Unbounded?), upperUnbounded := Some(upper.Unbounded?)).Build()
  }

  // ---------------------------------------------------------------------------------------------
  // Queries
  // ---------------------------------------------------------------------------------------------

  datatype Key = Lower | Upper
  datatype Flag = Empty | LowerInclusive | UpperInclusive | LowerUnbounded | UpperUnbounded
  datatype Comparison = LessThan | LessThanOrEqual | GreaterThan | GreaterThanOrEqual
  datatype Occur = Must | Should
  datatype Clause = Clause(occur: Occur, query: Query)

  datatype Query =
    | EmptyQuery
    | Exists
    | TermQuery(flag: Flag, val: bool)
    | RangeQuery(key: Key, from: Bound, to: Bound)
    | BooleanQuery(clauses: seq<Clause>)

  function FlagOf(doc: TantivyRange, flag: Flag): bool {
    match flag
    case Empty => doc.empty
    case LowerInclusive => doc.lowerInclusive
    case UpperInclusive => doc.upperInclusive
    case LowerUnbounded => doc.lowerUnbounded
    case UpperUnbounded => doc.upperUnbounded
  }

  /** Whether a document matches; `None` is a document without a range. */
  ghost predicate Matches(q: Query, doc: Option<TantivyRange>)
    decreases q
  {
    match q
    case EmptyQuery => false
    case Exists => doc.Some?
    case TermQuery(flag, val) => doc.Some? && FlagOf(doc.value, flag) == val
    case RangeQuery(key, from, to) =>
      && doc.Some?
      && var field := if key == Lower then doc.value.lower else doc.value.upper;
      && field.Some? && AboveLower(field.value, from) && BelowUpper(field.value, to)
    case BooleanQuery(clauses) =>
      && (forall i :: 0 <= i < |clauses| ==> clauses[i].occur == Must ==> Matches(clauses[i].query, doc))
      && ((forall i :: 0 <= i < |clauses| ==> clauses[i].occur == Should) ==>
            exists i :: 0 <= i < |clauses| && Matches(clauses[i].query, doc))
  }

  function AllOf(a: Query, b: Query): Query {
    BooleanQuery([Clause(Must, a), Clause(Must, b)])
  }

  function AnyOf(a: Query, b: Query): Query {
    BooleanQuery([Clause(Should, a), Clause(Should, b)])
  }

  lemma MatchesAllOf(a: Query, b: Query, doc: Option<TantivyRange>)
    ensures Matches(AllOf(a, b), doc) <==> Matches(a, doc) && Matches(b, doc)
  {
    var clauses := AllOf(a, b).clauses;
    assert clauses[0].query == a && clauses[1].query == b;
  }

  lemma MatchesAnyOf(a: Query, b: Query, doc: Option<TantivyRange>)
    ensures Matches(AnyOf(a, b), doc) <==> Matches(a, doc) || Matches(b, doc)
  {
    var clauses := AnyOf(a, b).clauses;
    assert clauses[0].query == a && clauses[1].query == b;
  }

  lemma MatchesOne(c: Clause, doc: Option<TantivyRange>)
    ensures Matches(BooleanQuery([c]), doc) <==> Matches(c.query, doc)
  {
    assert [c][0].query == c.query;
  }

  lemma MatchesThree(a: Query, b: Query, c: Query, doc: Option<TantivyRange>)
    ensures Matches(BooleanQuery([Clause(Must, a), Clause(Must, b), Clause(Must, c)]), doc)
            <==> Matches(a, doc) && Matches(b, doc) && Matches(c, doc)
  {
    var clauses := [Clause(Must, a), Clause(Must, b), Clause(Must, c)];
    assert clauses[0].query == a && clauses[1].query == b && clauses[2].query == c;
  }

  lemma MatchesNothing(doc: Option<TantivyRange>)
    ensures !Matches(BooleanQuery([]), doc)
  {}

  /** A document without a range matches no query. */
  lemma {:induction false} NullNeverMatches(q: Query)
    ensures !Matches(q, None)
    decreases q
  {
    if q.BooleanQuery? {
      forall i | 0 <= i < |q.clauses| ensures !Matches(q.clauses[i].query, None) {
        NullNeverMatches(q.clauses[i].query);
      }
    }
  }

  /** `compare_lower_bound` and `compare_upper_bound`: how `v` compares with the stored bound. */
  function Compare(key: Key, v: Value, c: Comparison): Query {
    match c
    case LessThan => RangeQuery(key, Excluded(v), Unbounded)
    case LessThanOrEqual => RangeQuery(key, Included(v), Unbounded)
    case GreaterThan => RangeQuery(key, Unbounded, Excluded(v))
    case GreaterThanOrEqual => RangeQuery(key, Unbounded, Included(v))
  }

  /** Two comparisons, chosen by whether the stored bound is inclusive. */
  function ByInclusive(key: Key, v: Value, ifInclusive: Comparison, ifExclusive: Comparison): Query {
    var flag := if key == Lower then LowerInclusive else UpperInclusive;
    AnyOf(AllOf(Compare(key, v, ifInclusive), TermQuery(flag, true)),
          AllOf(Compare(key, v, ifExclusive), TermQuery(flag, false)))
  }

  predicate Compares(field: Option<Value>, v: Value, c: Comparison) {
    && field.Some?
    && match c
       case LessThan => v.Num() < field.value.Num()
       case LessThanOrEqual => v.Num() <= field.value.Num()
       case GreaterThan => v.Num() > field.value.Num()
       case GreaterThanOrEqual => v.Num() >= field.value.Num()
  }

  lemma MatchesByInclusive(key: Key, v: Value, ifInclusive: Comparison, ifExclusive: Comparison,
                           doc: TantivyRange)
    ensures var field := if key == Lower then doc.lower else doc.upper;
            var inclusive := if key == Lower then doc.lowerInclusive else doc.upperInclusive;
            Matches(ByInclusive(key, v, ifInclusive, ifExclusive), Some(doc))
            <==> Compares(field, v, if inclusive then ifInclusive else ifExclusive)
  {
    var flag := if key == Lower then LowerInclusive else UpperInclusive;
    var a := AllOf(Compare(key, v, ifInclusive), TermQuery(flag, true));
    var b := AllOf(Compare(key, v, ifExclusive), TermQuery(flag, false));
    MatchesAnyOf(a, b, Some(doc));
    MatchesAllOf(Compare(key, v, ifInclusive), TermQuery(flag, true), Some(doc));
    MatchesAllOf(Compare(key, v, ifExclusive), TermQuery(flag, false), Some(doc));
  }

  // ---------------------------------------------------------------------------------------------
  // Compilation
  // ---------------------------------------------------------------------------------------------

  /** `check_range_bounds`: bounds of integers and of dates become half open; `None` is an overflow. */
  function CheckRangeBounds(lower: Bound, upper: Bound): (r: Option<(Bound, Bound)>)
    ensures r.Some? ==> forall k ::
      lower.IsOf(k) && upper.IsOf(k) ==>
        r.value.0.IsOf(k) && r.value.1.IsOf(k) && Canonical(k, r.value.0, r.value.1)
  {
    if (lower.Excluded? && lower.v.IsLast()) || (upper.Included? && upper.v.IsLast()) then None
    else
      Some((if lower.Excluded? && !lower.v.F64? then Included(lower.v.Next()) else lower,
            if upper.Included? && !upper.v.F64? then Excluded(upper.v.Next()) else upper))
  }

  function Only(q: Query): Query {
    BooleanQuery([Clause(Must, q)])
  }

  function ContainsLower(lower: Bound): Query {
    var satisfied := match lower
      case Included(v) => Clause(Must, Only(Compare(Lower, v, LessThanOrEqual)))
      case Excluded(v) => Clause(Must, ByInclusive(Lower, v, LessThan, LessThanOrEqual))
      case Unbounded => Clause(Should, Exists);
    AnyOf(TermQuery(Empty, true), BooleanQuery([satisfied]))
  }

  function ContainsUpper(upper: Bound): Query {
    var satisfied := match upper
      case Included(v) => Clause(Must, Only(Compare(Upper, v, GreaterThanOrEqual)))
      case Excluded(v) => Clause(Must, ByInclusive(Upper, v, GreaterThan, GreaterThanOrEqual))
      case Unbounded => Clause(Should, Exists);
    AnyOf(TermQuery(Empty, true), BooleanQuery([satisfied]))
  }

  function RangeContains(lower: Bound, upper: Bound): Query {
    AllOf(ContainsLower(lower), ContainsUpper(upper))
  }

  /** The test for a normalised empty query range. */
  predicate IsEmptyQueryRange(lower: Bound, upper: Bound) {
    lower.Included? && upper.Excluded? && lower.v == upper.v
  }

  function IntersectsLower(lower: Bound): Query {
    var satisfied := match lower
      case Excluded(v) => Clause(Must, Only(Compare(Upper, v, LessThan)))
      case Included(v) => Clause(Must, ByInclusive(Upper, v, LessThanOrEqual, LessThan))
      case Unbounded => Clause(Should, Exists);
    AnyOf(TermQuery(UpperUnbounded, true), BooleanQuery([satisfied]))
  }

  function IntersectsUpper(upper: Bound): Query {
    var satisfied := match upper
      case Excluded(v) => Clause(Must, Only(Compare(Lower, v, GreaterThan)))
      case Included(v) => Clause(Must, ByInclusive(Lower, v, GreaterThanOrEqual, GreaterThan))
      case Unbounded => Clause(Should, Exists);
    AnyOf(TermQuery(LowerUnbounded, true), BooleanQuery([satisfied]))
  }

  function RangeIntersects(lower: Bound, upper: Bound): Query {
    if IsEmptyQueryRange(lower, upper) then EmptyQuery
    else
      BooleanQuery([Clause(Must, IntersectsLower(lower)), Clause(Must, IntersectsUpper(upper)),
                    Clause(Must, TermQuery(Empty, false))])
  }

  function WithinLower(lower: Bound): Query {
    var satisfied := match lower
      case Excluded(v) => [Clause(Must, Only(Compare(Lower, v, GreaterThanOrEqual)))]
      case Included(v) => [Clause(Must, ByInclusive(Lower, v, GreaterThanOrEqual, GreaterThan))]
      case Unbounded => [];
    AnyOf(TermQuery(LowerUnbounded, true), BooleanQuery(satisfied))
  }

  function WithinUpper(upper: Bound): Query {
    var satisfied := match upper
      case Excluded(v) => [Clause(Must, Only(Compare(Upper, v, LessThanOrEqual)))]
      case Included(v) => [Clause(Must, ByInclusive(Upper, v, LessThanOrEqual, LessThan))]
      case Unbounded => [];
    AnyOf(TermQuery(UpperUnbounded, true), BooleanQuery(satisfied))
  }

  function RangeWithin(lower: Bound, upper: Bound): Query {
    if IsEmptyQueryRange(lower, upper) then Exists
    else AllOf(WithinLower(lower), WithinUpper(upper))
  }

  function RangeTerm(v: Value): Query {
    AllOf(AnyOf(TermQuery(LowerUnbounded, true),
                ByInclusive(Lower, v, GreaterThanOrEqual, GreaterThan)),
          AnyOf(TermQuery(UpperUnbounded, true),
                ByInclusive(Upper, v, LessThanOrEqual, LessThan)))
  }

  // ---------------------------------------------------------------------------------------------
  // Set relations, by bounds
  // ---------------------------------------------------------------------------------------------

  /** As lower bounds, `a` lets in everything `b` does. */
  predicate LowerLe(a: Bound, b: Bound) {
    if a.Unbounded? then true
    else if b.Unbounded? then false
    else a.v.Num() < b.v.Num() || (a.v.Num() == b.v.Num() && (a.Included? || b.Excluded?))
  }

  /** As upper bounds, `a` lets in everything `b` does. */
  predicate UpperGe(a: Bound, b: Bound) {
    if a.Unbounded? then true
    else if b.Unbounded? then false
    else a.v.Num() > b.v.Num() || (a.v.Num() == b.v.Num() && (a.Included? || b.Excluded?))
  }

  /** A query range of kind `k`, as the compiler sees it. */
  ghost predicate Proper(k: Kind, lower: Bound, upper: Bound) {
    lower.IsOf(k) && upper.IsOf(k) && Canonical(k, lower, upper)
  }

  function Plus(v: Value, d: int): Value {
    match v case I64(n) => I64(n + d) case Day(n) => Day(n + d) case F64(x) => F64(x + d as real)
  }

  function Midpoint(a: Value, b: Value): Value {
    F64((a.Num() + b.Num()) / 2.0)
  }

  /** Some value between bounds that leave room. */
  function Between(k: Kind, lower: Bound, upper: Bound): (p: Value)
    requires lower.IsOf(k) && upper.IsOf(k) && Canonical(k, lower, upper) && Crosses(lower, upper)
    ensures p.KindOf() == k && Range(lower, upper).Has(p)
  {
    if lower.Unbounded? && upper.Unbounded? then
      (match k case Integer => I64(0) case Date => Day(0) case Dense => F64(0.0))
    else if lower.Unbounded? then Plus(upper.v, -1)
    else if upper.Unbounded? then Plus(lower.v, 1)
    else if lower.Included? then lower.v
    else if upper.Included? then upper.v
    else Midpoint(lower.v, upper.v)
  }

  lemma NonemptyIffCrosses(k: Kind, lower: Bound, upper: Bound)
    requires Proper(k, lower, upper)
    ensures Nonempty(k, Range(lower, upper)) <==> Crosses(lower, upper)
  {
    if Crosses(lower, upper) {
      var p := Between(k, lower, upper);
      assert Range(lower, upper).Has(p);
    }
  }

  function TighterLower(a: Bound, b: Bound): Bound { if LowerLe(a, b) then b else a }
  function TighterUpper(a: Bound, b: Bound): Bound { if UpperGe(a, b) then b else a }

  /** Two nonempty ranges meet iff each starts before the other ends. */
  lemma MeetIffCross(k: Kind, a: PgRange, b: PgRange)
    requires a.Range? && b.Range? && Proper(k, a.lower, a.upper) && Proper(k, b.lower, b.upper)
    requires Crosses(a.lower, a.upper) && Crosses(b.lower, b.upper)
    ensures Meet(k, a, b) <==> Crosses(a.lower, b.upper) && Crosses(b.lower, a.upper)
  {
    if Crosses(a.lower, b.upper) && Crosses(b.lower, a.upper) {
      var p := Between(k, TighterLower(a.lower, b.lower), TighterUpper(a.upper, b.upper));
      assert a.Has(p) && b.Has(p);
    }
  }

  /** A value of a nonempty range below a lower bound that is tighter than the range's. */
  lemma EscapesBelow(k: Kind, r: PgRange, bound: Bound) returns (p: Value)
    requires r.Range? && Proper(k, r.lower, r.upper) && Crosses(r.lower, r.upper)
    requires bound.IsOf(k) && (k.Discrete() ==> !bound.Excluded?) && !LowerLe(bound, r.lower)
    ensures p.KindOf() == k && r.Has(p) && !AboveLower(p, bound)
  {
    // below the bound, and inside the range
    var upper := if bound.Included? then Excluded(bound.v) else Included(bound.v);
    p := Between(k, r.lower, TighterUpper(r.upper, upper));
  }

  lemma EscapesAbove(k: Kind, r: PgRange, bound: Bound) returns (p: Value)
    requires r.Range? && Proper(k, r.lower, r.upper) && Crosses(r.lower, r.upper)
    requires bound.IsOf(k) && (k.Discrete() ==> !bound.Included?) && !UpperGe(bound, r.upper)
    ensures p.KindOf() == k && r.Has(p) && !BelowUpper(p, bound)
  {
    var lower := if bound.Included? then Excluded(bound.v) else Included(bound.v);
    p := Between(k, TighterLower(r.lower, lower), r.upper);
  }

  /** A nonempty range is a subset of another iff its bounds are the tighter ones. */
  lemma SubsetIffBounds(k: Kind, a: PgRange, b: PgRange)
    requires a.Range? && b.Range? && Proper(k, a.lower, a.upper) && Proper(k, b.lower, b.upper)
    requires Crosses(a.lower, a.upper)
    ensures Subset(k, a, b) <==> LowerLe(b.lower, a.lower) && UpperGe(b.upper, a.upper)
  {
    if !LowerLe(b.lower, a.lower) {
      var p := EscapesBelow(k, a, b.lower);
      assert a.Has(p) && !b.Has(p);
    } else if !UpperGe(b.upper, a.upper) {
      var p := EscapesAbove(k, a, b.upper);
      assert a.Has(p) && !b.Has(p);
    }
  }

  // ---------------------------------------------------------------------------------------------
  // Compiled trees, by bounds
  // ---------------------------------------------------------------------------------------------

  /** A side that is `flag`, or satisfies its one clause. */
  lemma MatchesSide(flag: Flag, c: Clause, doc: Option<TantivyRange>)
    ensures Matches(AnyOf(TermQuery(flag, true), BooleanQuery([c])), doc)
            <==> Matches(TermQuery(flag, true), doc) || Matches(c.query, doc)
  {
    MatchesAnyOf(TermQuery(flag, true), BooleanQuery([c]), doc);
    MatchesOne(c, doc);
  }

  lemma MatchesComparison(flag: Flag, key: Key, v: Value, c: Comparison, doc: TantivyRange)
    ensures var field := if key == Lower then doc.lower else doc.upper;
            Matches(AnyOf(TermQuery(flag, true), BooleanQuery([Clause(Must, Only(Compare(key, v, c)))])), Some(doc))
            <==> FlagOf(doc, flag) || Compares(field, v, c)
  {
    MatchesSide(flag, Clause(Must, Only(Compare(key, v, c))), Some(doc));
    MatchesOne(Clause(Must, Compare(key, v, c)), Some(doc));
  }

  lemma MatchesChoice(flag: Flag, key: Key, v: Value, ifInclusive: Comparison, ifExclusive: Comparison,
                      doc: TantivyRange)
    ensures var field := if key == Lower then doc.lower else doc.upper;
            var inclusive := if key == Lower then doc.lowerInclusive else doc.upperInclusive;
            var satisfied := Clause(Must, ByInclusive(key, v, ifInclusive, ifExclusive));
            Matches(AnyOf(TermQuery(flag, true), BooleanQuery([satisfied])), Some(doc))
            <==> FlagOf(doc, flag) || Compares(field, v, if inclusive then ifInclusive else ifExclusive)
  {
    MatchesSide(flag, Clause(Must, ByInclusive(key, v, ifInclusive, ifExclusive)), Some(doc));
    MatchesByInclusive(key, v, ifInclusive, ifExclusive, doc);
  }

  lemma MatchesContains(lower: Bound, upper: Bound, r: PgRange)
    ensures Matches(RangeContains(lower, upper), Some(FromRange(r)))
            <==> r.EmptyRange? || (LowerLe(lower, r.lower) && UpperGe(upper, r.upper))
  {
    hide Matches;
    var doc := FromRange(r);
    MatchesAllOf(ContainsLower(lower), ContainsUpper(upper), Some(doc));
    match lower {
      case Included(v) => MatchesComparison(Empty, Lower, v, LessThanOrEqual, doc);
      case Excluded(v) => MatchesChoice(Empty, Lower, v, LessThan, LessThanOrEqual, doc);
      case Unbounded => MatchesExists(Empty, doc);
    }
    match upper {
      case Included(v) => MatchesComparison(Empty, Upper, v, GreaterThanOrEqual, doc);
      case Excluded(v) => MatchesChoice(Empty, Upper, v, GreaterThan, GreaterThanOrEqual, doc);
      case Unbounded => MatchesExists(Empty, doc);
    }
  }

  lemma MatchesExists(flag: Flag, doc: TantivyRange)
    ensures Matches(AnyOf(TermQuery(flag, true), BooleanQuery([Clause(Should, Exists)])), Some(doc))
  {
    MatchesSide(flag, Clause(Should, Exists), Some(doc));
  }

  lemma MatchesFlagOnly(flag: Flag, doc: TantivyRange)
    ensures Matches(AnyOf(TermQuery(flag, true), BooleanQuery([])), Some(doc)) <==> FlagOf(doc, flag)
  {
    MatchesAnyOf(TermQuery(flag, true), BooleanQuery([]), Some(doc));
    MatchesNothing(Some(doc));
  }

  lemma MatchesIntersects(lower: Bound, upper: Bound, r: PgRange)
    requires !IsEmptyQueryRange(lower, upper)
    ensures Matches(RangeIntersects(lower, upper), Some(FromRange(r)))
            <==> r.Range? && Crosses(lower, r.upper) && Crosses(r.lower, upper)
  {
    var doc := FromRange(r);
    MatchesThree(IntersectsLower(lower), IntersectsUpper(upper), TermQuery(Empty, false), Some(doc));
    IntersectsSides(lower, upper, r);
  }

  lemma IntersectsSides(lower: Bound, upper: Bound, r: PgRange)
    ensures r.Range? ==> (Matches(IntersectsLower(lower), Some(FromRange(r))) <==> Crosses(lower, r.upper))
    ensures r.Range? ==> (Matches(IntersectsUpper(upper), Some(FromRange(r))) <==> Crosses(r.lower, upper))
  {
    hide Matches;
    var doc := FromRange(r);
    match lower {
      case Excluded(v) => MatchesComparison(UpperUnbounded, Upper, v, LessThan, doc);
      case Included(v) => MatchesChoice(UpperUnbounded, Upper, v, LessThanOrEqual, LessThan, doc);
      case Unbounded => MatchesExists(UpperUnbounded, doc);
    }
    match upper {
      case Excluded(v) => MatchesComparison(LowerUnbounded, Lower, v, GreaterThan, doc);
      case Included(v) => MatchesChoice(LowerUnbounded, Lower, v, GreaterThanOrEqual, GreaterThan, doc);
      case Unbounded => MatchesExists(LowerUnbounded, doc);
    }
  }

  lemma MatchesWithin(lower: Bound, upper: Bound, r: PgRange)
    requires !IsEmptyQueryRange(lower, upper)
    ensures Matches(RangeWithin(lower, upper), Some(FromRange(r)))
            <==> r.Range? && LowerLe(r.lower, lower) && UpperGe(r.upper, upper)
  {
    hide Matches;
    var doc := FromRange(r);
    MatchesAllOf(WithinLower(lower), WithinUpper(upper), Some(doc));
    match lower {
      case Excluded(v) => MatchesComparison(LowerUnbounded, Lower, v, GreaterThanOrEqual, doc);
      case Included(v) => MatchesChoice(LowerUnbounded, Lower, v, GreaterThanOrEqual, GreaterThan, doc);
      case Unbounded => MatchesFlagOnly(LowerUnbounded, doc);
    }
    match upper {
      case Excluded(v) => MatchesComparison(UpperUnbounded, Upper, v, LessThanOrEqual, doc);
      case Included(v) => MatchesChoice(UpperUnbounded, Upper, v, LessThanOrEqual, LessThan, doc);
      case Unbounded => MatchesFlagOnly(UpperUnbounded, doc);
    }
  }

  // ---------------------------------------------------------------------------------------------
  // Compiled trees, by sets
  // ---------------------------------------------------------------------------------------------

  /** There is no next value that the field can hold: dates are nanoseconds of 64 bits. */
  predicate Overflows(v: Value) {
    match v
    case I64(n) => n + 1 > I64_MAX
    case Day(n) => (n + 1) * ONE_DAY_NANOS > I64_MAX
    case F64(_) => false
  }

  /** Making bounds half open fails exactly when a bound has to move to a next value that is none. */
  lemma CheckFailsIff(lower: Bound, upper: Bound)
    ensures CheckRangeBounds(lower, upper).None? <==>
            (lower.Excluded? && Overflows(lower.v)) || (upper.Included? && Overflows(upper.v))
  {}

  /** Else it changes neither bound of integers or of dates, as to the values on its right side, and no bound of
      other values at all. */
  lemma CheckKeepsBounds(k: Kind, lower: Bound, upper: Bound, p: Value)
    requires lower.IsOf(k) && upper.IsOf(k) && p.KindOf() == k
    requires CheckRangeBounds(lower, upper).Some?
    ensures var (l, u) := CheckRangeBounds(lower, upper).value;
            && (AboveLower(p, l) <==> AboveLower(p, lower)) && (BelowUpper(p, u) <==> BelowUpper(p, upper))
            && (!k.Discrete() ==> l == lower && u == upper)
            && l.Unbounded? == lower.Unbounded? && u.Unbounded? == upper.Unbounded?
  {
    if k.Discrete() {
      DiscreteOrder(p, lower);
      DiscreteOrder(p, upper);
    }
  }

  lemma CheckKeepsTheSet(k: Kind, lower: Bound, upper: Bound, p: Value)
    requires lower.IsOf(k) && upper.IsOf(k) && p.KindOf() == k
    requires CheckRangeBounds(lower, upper).Some?
    ensures var (l, u) := CheckRangeBounds(lower, upper).value;
            Range(l, u).Has(p) <==> Range(lower, upper).Has(p)
  {
    CheckKeepsBounds(k, lower, upper, p);
  }

  /** Integer bounds of a query on a range field of another numeric type are made half open too: that changes
      the set of values exactly when a bound moves and the query range is not empty. */
  lemma CheckKeepsDenseIff(lower: Bound, upper: Bound)
    requires lower.IsOf(Integer) && upper.IsOf(Integer) && CheckRangeBounds(lower, upper).Some?
    ensures var (l, u) := CheckRangeBounds(lower, upper).value;
            (forall p: Value :: p.F64? ==> (Range(l, u).Has(p) <==> Range(lower, upper).Has(p)))
            <==> (!lower.Excluded? && !upper.Included?) || !Nonempty(Dense, Range(lower, upper))
  {
    var (l, u) := CheckRangeBounds(lower, upper).value;
    if lower.Excluded? && !BelowUpper(F64(lower.v.n as real + 0.5), upper) {
      NoneAbove(lower, upper);
    } else if lower.Excluded? {
      var p := F64(lower.v.n as real + 0.5);
      assert Range(lower, upper).Has(p) && !Range(l, u).Has(p);
    } else if upper.Included? && !AboveLower(F64(upper.v.n as real), lower) {
      NoneBelow(lower, upper);
    } else if upper.Included? {
      var p, q := F64(upper.v.n as real), F64(upper.v.n as real + 0.5);
      assert Range(lower, upper).Has(p);
      assert Range(l, u).Has(q) && !Range(lower, upper).Has(q);
    }
  }

  lemma NoneAbove(lower: Bound, upper: Bound)
    requires lower.Excluded? && lower.v.I64? && upper.IsOf(Integer) && CheckRangeBounds(lower, upper).Some?
    requires !BelowUpper(F64(lower.v.n as real + 0.5), upper)
    ensures var (l, u) := CheckRangeBounds(lower, upper).value;
            forall p: Value :: !Range(l, u).Has(p) && !Range(lower, upper).Has(p)
  {
    assert upper.v.n <= lower.v.n;
  }

  lemma NoneBelow(lower: Bound, upper: Bound)
    requires upper.Included? && upper.v.I64? && !lower.Excluded? && lower.IsOf(Integer)
    requires CheckRangeBounds(lower, upper).Some? && !AboveLower(F64(upper.v.n as real), lower)
    ensures var (l, u) := CheckRangeBounds(lower, upper).value;
            forall p: Value :: !Range(l, u).Has(p) && !Range(lower, upper).Has(p)
  {
    assert upper.v.n < lower.v.n;
  }

  lemma DiscreteOrder(p: Value, b: Bound)
    requires !p.F64? && b.IsOf(p.KindOf())
    ensures b.Excluded? ==> (AboveLower(p, b) <==> AboveLower(p, Included(b.v.Next())))
    ensures b.Included? ==> (BelowUpper(p, b) <==> BelowUpper(p, Excluded(b.v.Next())))
  {
    if !b.Unbounded? {
      RealOrder(b.v.n, p.n);
      RealOrder(p.n, b.v.n);
      RealOrder(p.n, b.v.n + 1);
      RealOrder(b.v.n + 1, p.n);
    }
  }

  lemma RealOrder(m: int, n: int)
    ensures (m as real < n as real) <==> m < n
    ensures (m as real <= n as real) <==> m <= n
  {}

  /** The query range asked for, and the document's range. */
  ghost predicate Asked(k: Kind, lower: Bound, upper: Bound) {
    lower.IsOf(k) && upper.IsOf(k) && CheckRangeBounds(lower, upper).Some?
  }

  ghost function Compiled(compile: (Bound, Bound) -> Query, lower: Bound, upper: Bound): Query
    requires CheckRangeBounds(lower, upper).Some?
  {
    var (l, u) := CheckRangeBounds(lower, upper).value;
    compile(l, u)
  }

  /** `Contains` matches exactly the stored subsets of the query range, whatever that range is. */
  lemma ContainsMeansSubset(k: Kind, lower: Bound, upper: Bound, r: PgRange)
    requires Asked(k, lower, upper) && r.Stored(k)
    ensures Matches(Compiled(RangeContains, lower, upper), Some(FromRange(r)))
            <==> Subset(k, r, Range(lower, upper))
  {
    var (l, u) := CheckRangeBounds(lower, upper).value;
    MatchesContains(l, u, r);
    forall p: Value | p.KindOf() == k ensures Range(l, u).Has(p) <==> Range(lower, upper).Has(p) {
      CheckKeepsTheSet(k, lower, upper, p);
    }
    if r.Range? {
      SubsetIffBounds(k, r, Range(l, u));
    }
  }

  lemma CheckKeepsEverySet(k: Kind, lower: Bound, upper: Bound, r: PgRange)
    requires Asked(k, lower, upper)
    ensures var (l, u) := CheckRangeBounds(lower, upper).value;
            && (Subset(k, r, Range(l, u)) <==> Subset(k, r, Range(lower, upper)))
            && (Subset(k, Range(l, u), r) <==> Subset(k, Range(lower, upper), r))
            && (Meet(k, r, Range(l, u)) <==> Meet(k, r, Range(lower, upper)))
            && (Nonempty(k, Range(l, u)) <==> Nonempty(k, Range(lower, upper)))
  {
    var (l, u) := CheckRangeBounds(lower, upper).value;
    forall p: Value | p.KindOf() == k ensures Range(l, u).Has(p) <==> Range(lower, upper).Has(p) {
      CheckKeepsTheSet(k, lower, upper, p);
    }
  }

  /** The query ranges `Intersects` and `Within` are right about: they have no bound on one side, or do not end
      before the first value they could start with. */
  predicate Supported(lower: Bound, upper: Bound) {
    if lower.Unbounded? || upper.Unbounded? then true
    else if lower.v.F64? || upper.v.F64? then
      lower.v.Num() < upper.v.Num() || (lower.v.Num() == upper.v.Num() && lower.Included?)
    else First(lower) <= End(upper)
  }

  function First(lower: Bound): int
    requires !lower.Unbounded? && !lower.v.F64?
  {
    if lower.Excluded? then lower.v.n + 1 else lower.v.n
  }

  function End(upper: Bound): int
    requires !upper.Unbounded? && !upper.v.F64?
  {
    if upper.Included? then upper.v.n + 1 else upper.v.n
  }

  lemma SupportedIff(k: Kind, lower: Bound, upper: Bound)
    requires Asked(k, lower, upper)
    ensures var (l, u) := CheckRangeBounds(lower, upper).value;
            Supported(lower, upper) <==> Crosses(l, u) || IsEmptyQueryRange(l, u)
  {
    if !lower.Unbounded? && !upper.Unbounded? && !lower.v.F64? {
      RealOrder(First(lower), End(upper));
    }
  }

  /** Every query range with a value in it is supported. */
  lemma NonemptyIsSupported(k: Kind, lower: Bound, upper: Bound)
    requires Asked(k, lower, upper) && Nonempty(k, Range(lower, upper))
    ensures Supported(lower, upper)
  {
    SupportedIff(k, lower, upper);
    var (l, u) := CheckRangeBounds(lower, upper).value;
    CheckKeepsEverySet(k, lower, upper, EmptyRange);
    NonemptyIffCrosses(k, l, u);
  }

  lemma EmptyQueryRangeIsEmpty(k: Kind, lower: Bound, upper: Bound)
    requires IsEmptyQueryRange(lower, upper)
    ensures !Nonempty(k, Range(lower, upper))
  {}

  lemma IntersectsMeansMeet(k: Kind, lower: Bound, upper: Bound, r: PgRange)
    requires Asked(k, lower, upper) && r.Stored(k) && Supported(lower, upper)
    ensures Matches(Compiled(RangeIntersects, lower, upper), Some(FromRange(r)))
            <==> Meet(k, r, Range(lower, upper))
  {
    SupportedIff(k, lower, upper);
    hide Matches, FromRange, RangeIntersects;
    var (l, u) := CheckRangeBounds(lower, upper).value;
    CheckKeepsEverySet(k, lower, upper, r);
    if IsEmptyQueryRange(l, u) {
      EmptyQueryRangeIsEmpty(k, l, u);
      EmptyNeverMatches(l, u, r);
    } else {
      NonemptyIffCrosses(k, l, u);
      MatchesIntersects(l, u, r);
      if r.Range? {
        MeetIffCross(k, r, Range(l, u));
      }
    }
  }

  lemma EmptyNeverMatches(lower: Bound, upper: Bound, r: PgRange)
    requires IsEmptyQueryRange(lower, upper)
    ensures !Matches(RangeIntersects(lower, upper), Some(FromRange(r)))
    ensures Matches(RangeWithin(lower, upper), Some(FromRange(r)))
  {}

  /** An empty range of Postgres comes to the compiler as [v, v): it meets nothing, and is within everything. */
  lemma EmptyQueryRangeMatches(v: Value, r: PgRange)
    ensures !Matches(RangeIntersects(Included(v), Excluded(v)), Some(FromRange(r)))
    ensures Matches(RangeWithin(Included(v), Excluded(v)), Some(FromRange(r)))
  {
    EmptyNeverMatches(Included(v), Excluded(v), r);
  }

  lemma WithinMeansSuperset(k: Kind, lower: Bound, upper: Bound, r: PgRange)
    requires Asked(k, lower, upper) && r.Stored(k) && Supported(lower, upper)
    ensures Matches(Compiled(RangeWithin, lower, upper), Some(FromRange(r)))
            <==> Subset(k, Range(lower, upper), r)
  {
    SupportedIff(k, lower, upper);
    hide Matches, FromRange, RangeWithin;
    var (l, u) := CheckRangeBounds(lower, upper).value;
    CheckKeepsEverySet(k, lower, upper, r);
    if IsEmptyQueryRange(l, u) {
      EmptyQueryRangeIsEmpty(k, l, u);
      EmptyNeverMatches(l, u, r);
    } else {
      NonemptyIffCrosses(k, l, u);
      MatchesWithin(l, u, r);
      if r.Range? {
        SubsetIffBounds(k, Range(l, u), r);
      }
    }
  }

  /** `Intersects` is right about every stored range exactly when the query range is supported. */
  lemma IntersectsIsExact(k: Kind, lower: Bound, upper: Bound)
    requires Asked(k, lower, upper)
    ensures Supported(lower, upper) <==>
            forall r: PgRange :: r.Stored(k) ==>
              (Matches(Compiled(RangeIntersects, lower, upper), Some(FromRange(r)))
               <==> Meet(k, r, Range(lower, upper)))
  {
    SupportedIff(k, lower, upper);
    hide Matches, FromRange, RangeIntersects;
    if Supported(lower, upper) {
      forall r: PgRange | r.Stored(k)
        ensures Matches(Compiled(RangeIntersects, lower, upper), Some(FromRange(r)))
                <==> Meet(k, r, Range(lower, upper))
      {
        IntersectsMeansMeet(k, lower, upper, r);
      }
    } else {
      // the range without bounds matches, and meets nothing
      var (l, u) := CheckRangeBounds(lower, upper).value;
      var all := Range(Unbounded, Unbounded);
      CheckKeepsEverySet(k, lower, upper, all);
      NonemptyIffCrosses(k, l, u);
      MatchesIntersects(l, u, all);
      assert all.Stored(k) && !Meet(k, all, Range(lower, upper));
    }
  }

  /** `Within` is right about every stored range exactly when the query range is supported. */
  lemma WithinIsExact(k: Kind, lower: Bound, upper: Bound)
    requires Asked(k, lower, upper)
    ensures Supported(lower, upper) <==>
            forall r: PgRange :: r.Stored(k) ==>
              (Matches(Compiled(RangeWithin, lower, upper), Some(FromRange(r)))
               <==> Subset(k, Range(lower, upper), r))
  {
    SupportedIff(k, lower, upper);
    hide Matches, FromRange, RangeWithin;
    if Supported(lower, upper) {
      forall r: PgRange | r.Stored(k)
        ensures Matches(Compiled(RangeWithin, lower, upper), Some(FromRange(r)))
                <==> Subset(k, Range(lower, upper), r)
      {
        WithinMeansSuperset(k, lower, upper, r);
      }
    } else {
      // the empty range is a superset of an empty query range, and does not match
      var (l, u) := CheckRangeBounds(lower, upper).value;
      CheckKeepsEverySet(k, lower, upper, EmptyRange);
      NonemptyIffCrosses(k, l, u);
      MatchesWithin(l, u, EmptyRange);
      assert EmptyRange.Stored(k) && Subset(k, Range(lower, upper), EmptyRange);
    }
  }

  /** (5, 5) is empty, yet `Intersects` lets it meet every range that surrounds 5. */
  lemma UnsupportedQueryRange()
    ensures var five := F64(5.0);
            && !Nonempty(Dense, Range(Excluded(five), Excluded(five)))
            && Matches(Compiled(RangeIntersects, Excluded(five), Excluded(five)),
                       Some(FromRange(Range(Included(F64(1.0)), Included(F64(10.0))))))
  {
    var five := F64(5.0);
    MatchesIntersects(Excluded(five), Excluded(five), Range(Included(F64(1.0)), Included(F64(10.0))));
  }

  /** `range_term` with a single value matches exactly the ranges that have the value. */
  lemma TermMeansMember(k: Kind, v: Value, r: PgRange)
    requires v.KindOf() == k && r.Stored(k)
    ensures Matches(RangeTerm(v), Some(FromRange(r))) <==> r.Has(v)
  {
    hide Matches;
    var doc := FromRange(r);
    var lower := AnyOf(TermQuery(LowerUnbounded, true), ByInclusive(Lower, v, GreaterThanOrEqual, GreaterThan));
    var upper := AnyOf(TermQuery(UpperUnbounded, true), ByInclusive(Upper, v, LessThanOrEqual, LessThan));
    MatchesAllOf(lower, upper, Some(doc));
    MatchesAnyOf(TermQuery(LowerUnbounded, true), ByInclusive(Lower, v, GreaterThanOrEqual, GreaterThan), Some(doc));
    MatchesAnyOf(TermQuery(UpperUnbounded, true), ByInclusive(Upper, v, LessThanOrEqual, LessThan), Some(doc));
    MatchesByInclusive(Lower, v, GreaterThanOrEqual, GreaterThan, doc);
    MatchesByInclusive(Upper, v, LessThanOrEqual, LessThan, doc);
    MatchesTerm(LowerUnbounded, doc);
    MatchesTerm(UpperUnbounded, doc);
  }

  lemma MatchesTerm(flag: Flag, doc: TantivyRange)
    ensures Matches(TermQuery(flag, true), Some(doc)) <==> FlagOf(doc, flag)
  {}
}
