/**
 * ElasticFilter: compiles a flat Jasny-DB-style filter, such as
 * `'start_date(min)' => '2017-01-01T00:00:00'`, into an Elasticsearch `bool`
 * query. Every entry is parsed into a field and an operator, the operator
 * selects one of seven handlers, and the handler appends one clause to the
 * `must` or the `must_not` list of the query being built.
 *
 * The PHP query is a nested array passed by reference to the handlers; PHP
 * arrays are values, so here it is a `Query` value that each handler method
 * takes and gives back updated.
 */
module FilterCompiler {
  import opened KeySyntax

  /** A scalar filter value (string, integer or boolean). The compiler only
      copies it into the query. */
  datatype Scalar = Str(s: string) | Int(i: int) | Bool(b: bool)

  /** The three value shapes the handlers tell apart: is_null, is_array and
      anything else. */
  datatype Value = Null | One(scalar: Scalar) | Arr(items: seq<Scalar>)

  /** One `key => value` pair of the filter. */
  datatype Entry = Entry(key: string, value: Value)

  /** The seven operators, one per handler method `filter<Name>`. */
  datatype Op = Default | Not | Min | Max | Any | None | All

  /** One Elasticsearch clause about one field:
      `term`, `terms`, `range` with `gte` or `lte`, and `missing`. */
  datatype Clause =
    | Term(field: string, value: Value)
    | Terms(field: string, value: Value)
    | RangeGte(field: string, value: Value)
    | RangeLte(field: string, value: Value)
    | Missing(field: string)

  /** The two lists of the `bool` query a clause can go to. */
  datatype BucketTag = Must | MustNot

  function Other(tag: BucketTag): BucketTag {
    match tag
    case Must => MustNot
    case MustNot => Must
  }

  /** A `must` or `must_not` list; `Absent` is a key the PHP array does not
      have, which is not the same as an empty list. */
  datatype Bucket = Absent | Present(clauses: seq<Clause>) {
    function Clauses(): seq<Clause> {
      if Present? then clauses else []
    }

    /** `$list[] = c`: PHP creates the list on the first append. */
    function Push(c: Clause): Bucket {
      Present(Clauses() + [c])
    }

    /** Push every clause of cs, in order. */
    function PushAll(cs: seq<Clause>): Bucket {
      if cs == [] then this else Present(Clauses() + cs)
    }
  }

  /** The compiled query. It has a `bool` key exactly when one of its
      buckets is present. */
  datatype Query = Query(must: Bucket, mustNot: Bucket) {
    predicate HasBool() {
      must.Present? || mustNot.Present?
    }

    function Get(tag: BucketTag): Bucket {
      match tag
      case Must => must
      case MustNot => mustNot
    }

    /** `$query['bool'][tag][] = c`: the named bucket gains c at its end and
        the other bucket is left alone. */
    function Add(tag: BucketTag, c: Clause): (q: Query)
      ensures q.Get(tag).Present? && q.Get(tag).Clauses() == Get(tag).Clauses() + [c]
      ensures q.Get(Other(tag)) == Get(Other(tag))
      ensures q.HasBool()
    {
      match tag
      case Must => Query(must.Push(c), mustNot)
      case MustNot => Query(must, mustNot.Push(c))
    }
  }

  /** `$query = []`: no `bool` key at all. */
  const EmptyQuery: Query := Query(Absent, Absent)

  /** The exception transform() throws for an unknown operator. */
  datatype FilterError = UnknownOperator(key: string, operator: string)

  datatype Result<T> = Ok(value: T) | Err(error: FilterError)

  /** The exception's message. */
  function Message(e: FilterError): string {
    "Invalid filter key '" + e.key + "'. Unknown operator '" + e.operator + "'."
  }

  /** The operator's name as written in a key; `filter_<name>` camel-cased
      is the name of its handler. */
  function Name(op: Op): string {
    match op
    case Default => "default"
    case Not => "not"
    case Min => "min"
    case Max => "max"
    case Any => "any"
    case None => "none"
    case All => "all"
  }

  /** The handler lookup: it succeeds exactly when operator names one of the
      seven handlers, and then it finds the operator of that name; otherwise
      the error carries the raw key and the operator. */
  function Lookup(key: string, operator: string): (r: Result<Op>)
    ensures r.Ok? ==> Name(r.value) == operator
    ensures r.Err? ==> r.error == UnknownOperator(key, operator)
    ensures r.Err? <==> forall op: Op :: Name(op) != operator
  {
    if operator == "default" then Ok(Default)
    else if operator == "not" then Ok(Not)
    else if operator == "min" then Ok(Min)
    else if operator == "max" then Ok(Max)
    else if operator == "any" then Ok(Any)
    else if operator == "none" then Ok(None)
    else if operator == "all" then Ok(All)
    else Err(UnknownOperator(key, operator))
  }

  /** Every operator is found under its own name. */
  lemma LookupName(key: string, op: Op)
    ensures Lookup(key, Name(op)) == Ok(op)
  {
  }

  /** The clause a handler adds and the bucket it adds it to. */
  datatype Fragment = Fragment(bucket: BucketTag, clause: Clause)

  /** The operator table, as a reference for the handler methods below. */
  function Rule(op: Op, field: string, value: Value): Fragment {
    match op
    case Default => Fragment(Must, ByShape(field, value))
    case Not => Fragment(MustNot, ByShape(field, value))
    case Min => Fragment(Must, RangeGte(field, value))
    case Max => Fragment(Must, RangeLte(field, value))
    case Any => Fragment(Must, Terms(field, value))
    case None => Fragment(MustNot, Term(field, value))
    case All => Fragment(Must, Term(field, value))
  }

  /** The clause `default` and `not` choose by the value's shape. */
  function ByShape(field: string, value: Value): Clause {
    match value
    case Null => Missing(field)
    case Arr(_) => Terms(field, value)
    case One(_) => Term(field, value)
  }

  /** Only `not` and `none` go to `must_not`. */
  lemma RuleBucket(op: Op, field: string, value: Value)
    ensures Rule(op, field, value).bucket == MustNot <==> op == Not || op == None
  {
  }

  /** Every clause is about the entry's field, and every clause but `missing`
      carries the value unchanged; `missing` comes only from a null value
      under `default` or `not`. */
  lemma RuleKeepsFieldAndValue(op: Op, field: string, value: Value)
    ensures Rule(op, field, value).clause.field == field
    ensures Rule(op, field, value).clause.Missing? <==> (op == Default || op == Not) && value.Null?
    ensures !Rule(op, field, value).clause.Missing? ==> Rule(op, field, value).clause.value == value
  {
  }

  /** `min`, `max`, `any`, `none` and `all` do not look at the value's shape:
      two values give the same kind of clause in the same bucket. */
  lemma RuleIgnoresShape(op: Op, field: string, v1: Value, v2: Value)
    requires op != Default && op != Not
    ensures Rule(op, field, v1).bucket == Rule(op, field, v2).bucket
    ensures Rule(op, field, v1).clause == Rule(op, field, v2).clause.(value := v1)
  {
  }

  /** One iteration of transform() on one entry: parse the key, look up the
      operator, and give the fragment its handler adds, or the error. */
  function Handle(e: Entry): Result<Fragment> {
    var p := ParseKey(e.key);
    match Lookup(e.key, p.operator)
    case Err(err) => Err(err)
    case Ok(op) => Ok(Rule(op, p.field, e.value))
  }

  /** The key `field(name)` that selects operator op for field. */
  function KeyOf(field: string, op: Op): string {
    field + "(" + Name(op) + ")"
  }

  /** A key `field(name)` with a clean field dispatches to the handler of
      the operator called name. */
  lemma HandleKeyWithOperator(field: string, op: Op, value: Value)
    requires IsTrimmed(field) && '(' !in field && ')' !in field
    ensures Handle(Entry(KeyOf(field, op), value)) == Ok(Rule(op, field, value))
  {
    var name := Name(op);
    assert IsTrimmed(name) && '(' !in name && ')' !in name by {
      match op
      case Default => case Not => case Min => case Max =>
      case Any => case None => case All =>
    }
    assert [] + field + [] + "(" + [] + name + [] + ")" == field + "(" + name + ")";
    ParseKeyRoundTrip(field, name, [], [], [], []);
    LookupName(field + "(" + name + ")", op);
  }

  /** A key that is a clean field alone dispatches to `default`. */
  lemma HandleKeyWithoutOperator(field: string, value: Value)
    requires IsTrimmed(field) && '(' !in field && ')' !in field
    ensures Handle(Entry(field, value)) == Ok(Rule(Default, field, value))
  {
    assert [] + field + [] == field;
    ParseKeyDefaultRoundTrip(field, [], []);
  }

  /** An entry whose key names a known operator. */
  predicate Known(e: Entry) {
    Handle(e).Ok?
  }

  predicate AllKnown(entries: seq<Entry>) {
    forall i :: 0 <= i < |entries| ==> Known(entries[i])
  }

  /** The per-entry outcomes, in entry order. */
  function Handles(entries: seq<Entry>): (rs: seq<Result<Fragment>>)
    ensures |rs| == |entries|
    ensures forall i :: 0 <= i < |entries| ==> rs[i] == Handle(entries[i])
  {
    seq(|entries|, i requires 0 <= i < |entries| => Handle(entries[i]))
  }

  /** Adds the fragments to the query from first to last; the first error
      aborts with that error and no query. */
  function Accumulate(query: Query, rs: seq<Result<Fragment>>): Result<Query>
    decreases |rs|
  {
    if rs == [] then Ok(query)
    else
      match rs[0]
      case Err(err) => Err(err)
      case Ok(f) => Accumulate(query.Add(f.bucket, f.clause), rs[1..])
  }

  /** The specification of transform(). */
  function Compile(entries: seq<Entry>): Result<Query> {
    Accumulate(EmptyQuery, Handles(entries))
  }

  predicate AllOk(rs: seq<Result<Fragment>>) {
    forall i :: 0 <= i < |rs| ==> rs[i].Ok?
  }

  /** The clauses the fragments send to one bucket, in order. */
  function Routed(rs: seq<Result<Fragment>>, tag: BucketTag): seq<Clause>
    requires AllOk(rs)
  {
    if rs == [] then []
    else
      var f := rs[0].value;
      (if f.bucket == tag then [f.clause] else []) + Routed(rs[1..], tag)
  }

  /** The bucket holding exactly cs: absent when cs is empty. */
  function BucketOf(cs: seq<Clause>): Bucket {
    if cs == [] then Absent else Present(cs)
  }

  lemma PushAllAbsent(cs: seq<Clause>)
    ensures Absent.PushAll(cs) == BucketOf(cs)
  {
    assert [] + cs == cs;
  }

  lemma PushThenPushAll(b: Bucket, c: Clause, cs: seq<Clause>)
    ensures b.Push(c).PushAll(cs) == b.PushAll([c] + cs)
  {
    assert b.Clauses() + [c] + cs == b.Clauses() + ([c] + cs);
  }

  lemma AllOkTail(rs: seq<Result<Fragment>>)
    requires rs != []
    ensures AllOk(rs) <==> rs[0].Ok? && AllOk(rs[1..])
  {
    assert forall i :: 0 <= i < |rs| - 1 ==> rs[1..][i] == rs[i + 1];
    if rs[0].Ok? && AllOk(rs[1..]) {
      forall i | 0 <= i < |rs|
        ensures rs[i].Ok?
      {
        if i > 0 {
          assert rs[i] == rs[1..][i - 1];
        }
      }
    }
  }

  /** Routing a fragment in front of others routes its clause first. */
  lemma RoutedCons(f: Fragment, rest: seq<Result<Fragment>>, tag: BucketTag)
    requires AllOk(rest)
    ensures AllOk([Ok(f)] + rest)
    ensures Routed([Ok(f)] + rest, tag) == (if f.bucket == tag then [f.clause] else []) + Routed(rest, tag)
  {
    var rs := [Ok(f)] + rest;
    assert rs[1..] == rest;
    assert forall i :: 0 < i < |rs| ==> rs[i] == rest[i - 1];
  }

  /** Accumulating from any starting query succeeds exactly when no fragment
      is an error, and then each bucket has gained the clauses routed to it,
      in order. */
  lemma {:induction false} AccumulateSucceeds(query: Query, rs: seq<Result<Fragment>>)
    ensures Accumulate(query, rs).Ok? <==> AllOk(rs)
    ensures AllOk(rs) ==>
      Accumulate(query, rs).value ==
        Query(query.must.PushAll(Routed(rs, Must)), query.mustNot.PushAll(Routed(rs, MustNot)))
    decreases |rs|
  {
    if rs != [] {
      AllOkTail(rs);
      var rest := rs[1..];
      if rs[0].Ok? {
        var f := rs[0].value;
        var next := query.Add(f.bucket, f.clause);
        AccumulateSucceeds(next, rest);
        if AllOk(rs) {
          match f.bucket
          case Must =>
            assert Routed(rs, Must) == [f.clause] + Routed(rest, Must);
            assert Routed(rs, MustNot) == Routed(rest, MustNot);
            PushThenPushAll(query.must, f.clause, Routed(rest, Must));
          case MustNot =>
            assert Routed(rs, Must) == Routed(rest, Must);
            assert Routed(rs, MustNot) == [f.clause] + Routed(rest, MustNot);
            PushThenPushAll(query.mustNot, f.clause, Routed(rest, MustNot));
        }
      }
    }
  }

  /** Accumulating fails with the error of the first erroneous fragment. */
  lemma {:induction false} AccumulateFails(query: Query, rs: seq<Result<Fragment>>, k: nat)
    requires k < |rs| && rs[k].Err?
    requires forall j :: 0 <= j < k ==> rs[j].Ok?
    ensures Accumulate(query, rs) == Err(rs[k].error)
    decreases k
  {
    if k > 0 {
      var f := rs[0].value;
      var rest := rs[1..];
      assert forall j :: 0 <= j < k - 1 ==> rest[j] == rs[j + 1];
      assert rest[k - 1] == rs[k];
      AccumulateFails(query.Add(f.bucket, f.clause), rest, k - 1);
    }
  }

  /** Each fragment goes to exactly one bucket. */
  lemma {:induction false} RoutedCount(rs: seq<Result<Fragment>>)
    requires AllOk(rs)
    ensures |Routed(rs, Must)| + |Routed(rs, MustNot)| == |rs|
  {
    if rs != [] {
      AllOkTail(rs);
      RoutedCount(rs[1..]);
    }
  }

  /** A bucket receives clauses exactly when some fragment is routed to it. */
  lemma {:induction false} RoutedNonEmpty(rs: seq<Result<Fragment>>, tag: BucketTag)
    requires AllOk(rs)
    ensures Routed(rs, tag) != [] <==> exists i :: 0 <= i < |rs| && rs[i].value.bucket == tag
  {
    if rs != [] {
      AllOkTail(rs);
      var rest := rs[1..];
      RoutedNonEmpty(rest, tag);
      if exists i :: 0 <= i < |rest| && rest[i].value.bucket == tag {
        var i :| 0 <= i < |rest| && rest[i].value.bucket == tag;
        assert rest[i] == rs[i + 1];
      }
      if exists i :: 0 <= i < |rs| && rs[i].value.bucket == tag {
        var i :| 0 <= i < |rs| && rs[i].value.bucket == tag;
        if i > 0 {
          assert rs[i] == rest[i - 1];
        }
      }
    }
  }

  /** Order is kept: in each bucket the clauses of earlier entries come before
      those of later ones. */
  lemma {:induction false} RoutedAppend(a: seq<Result<Fragment>>, b: seq<Result<Fragment>>, tag: BucketTag)
    requires AllOk(a) && AllOk(b)
    ensures AllOk(a + b)
    ensures Routed(a + b, tag) == Routed(a, tag) + Routed(b, tag)
  {
    forall i | 0 <= i < |a + b|
      ensures (a + b)[i].Ok?
    {
      if i < |a| {
        assert (a + b)[i] == a[i];
      } else {
        assert (a + b)[i] == b[i - |a|];
      }
    }
    if a == [] {
      assert a + b == b;
    } else {
      AllOkTail(a);
      assert (a + b)[0] == a[0] && (a + b)[1..] == a[1..] + b;
      RoutedAppend(a[1..], b, tag);
    }
  }

  lemma AllKnownHandles(entries: seq<Entry>)
    ensures AllKnown(entries) <==> AllOk(Handles(entries))
  {
  }

  /** transform() fails exactly at the first entry with an unknown operator,
      with that entry's raw key and parsed operator. */
  lemma CompileFails(entries: seq<Entry>, k: nat)
    requires k < |entries| && !Known(entries[k])
    requires forall j :: 0 <= j < k ==> Known(entries[j])
    ensures Compile(entries) == Err(UnknownOperator(entries[k].key, ParseKey(entries[k].key).operator))
  {
    AccumulateFails(EmptyQuery, Handles(entries), k);
  }

  /** transform() succeeds exactly when every operator is known, and then
      `must` and `must_not` hold exactly the clauses routed to them, in entry
      order, each bucket being absent when nothing was routed to it. */
  lemma CompileSucceeds(entries: seq<Entry>)
    ensures Compile(entries).Ok? <==> AllKnown(entries)
    ensures AllKnown(entries) ==>
      var rs := Handles(entries);
      Compile(entries).value == Query(BucketOf(Routed(rs, Must)), BucketOf(Routed(rs, MustNot)))
  {
    var rs := Handles(entries);
    AllKnownHandles(entries);
    AccumulateSucceeds(EmptyQuery, rs);
    if AllOk(rs) {
      PushAllAbsent(Routed(rs, Must));
      PushAllAbsent(Routed(rs, MustNot));
      assert EmptyQuery.must == Absent && EmptyQuery.mustNot == Absent;
    }
  }

  /** On success there is one clause per entry, and the query has a `bool`
      key exactly when the filter is not empty. */
  lemma CompileCount(entries: seq<Entry>)
    requires AllKnown(entries)
    ensures Compile(entries).Ok?
    ensures var q := Compile(entries).value;
      && |q.must.Clauses()| + |q.mustNot.Clauses()| == |entries|
      && (q.HasBool() <==> entries != [])
  {
    var rs := Handles(entries);
    CompileSucceeds(entries);
    AllKnownHandles(entries);
    RoutedCount(rs);
  }

  /** On success a bucket is present exactly when some entry went to it. */
  lemma CompileBucketPresent(entries: seq<Entry>, tag: BucketTag)
    requires AllKnown(entries)
    ensures Compile(entries).Ok?
    ensures Compile(entries).value.Get(tag).Present? <==>
      exists i :: 0 <= i < |entries| && Handle(entries[i]).value.bucket == tag
  {
    var rs := Handles(entries);
    CompileSucceeds(entries);
    AllKnownHandles(entries);
    RoutedNonEmpty(rs, tag);
    var q := Compile(entries).value;
    assert q.Get(tag) == BucketOf(Routed(rs, tag));
    if exists i :: 0 <= i < |entries| && Handle(entries[i]).value.bucket == tag {
      var i :| 0 <= i < |entries| && Handle(entries[i]).value.bucket == tag;
      assert rs[i].value.bucket == tag;
    }
    if exists i :: 0 <= i < |rs| && rs[i].value.bucket == tag {
      var i :| 0 <= i < |rs| && rs[i].value.bucket == tag;
      assert Handle(entries[i]).value.bucket == tag;
    }
  }

  /** An empty filter compiles to the query with no `bool` key. */
  lemma CompileEmpty()
    ensures Compile([]) == Ok(EmptyQuery) && !EmptyQuery.HasBool()
  {
  }

  /** The filter object: it holds the entries in insertion order. */
  class ElasticFilter {
    var filter: seq<Entry>

    constructor (filter: seq<Entry>)
      ensures this.filter == filter
    {
      this.filter := filter;
    }

    /** Compiles the filter: the loop runs the handler of each entry in turn
        and stops with the error of the first unknown operator. */
    method Transform() returns (r: Result<Query>)
      ensures r == Compile(filter)
      ensures r.Ok? <==> AllKnown(filter)
      ensures r.Ok? ==> |r.value.must.Clauses()| + |r.value.mustNot.Clauses()| == |filter|
    {
      CompileSucceeds(filter);
      if AllKnown(filter) {
        CompileCount(filter);
      }
      var query := EmptyQuery;
      var i := 0;
      while i < |filter|
        invariant 0 <= i <= |filter|
        invariant Accumulate(query, Handles(filter)[i..]) == Compile(filter)
      {
        var key, value := filter[i].key, filter[i].value;
        ghost var rs := Handles(filter)[i..];
        assert rs[0] == Handle(filter[i]) && rs[1..] == Handles(filter)[i + 1..];
        var parsed := ParseKey(key);
        var field := parsed.field;
        var found := Lookup(key, parsed.operator);
        if found.Err? {
          return Err(found.error);
        }
        match found.value {
          case Default => query := FilterDefault(field, value, query);
          case Not => query := FilterNot(field, value, query);
          case Min => query := FilterMin(field, value, query);
          case Max => query := FilterMax(field, value, query);
          case Any => query := FilterAny(field, value, query);
          case None => query := FilterNone(field, value, query);
          case All => query := FilterAll(field, value, query);
        }
        i := i + 1;
      }
      assert Handles(filter)[i..] == [];
      return Ok(query);
    }

    /** `field => value`: `missing` for null, `terms` for an array, `term`
        otherwise, in `must`. */
    method FilterDefault(field: string, value: Value, query: Query) returns (q: Query)
      ensures value.Null? ==> q == query.Add(Must, Missing(field))
      ensures value.Arr? ==> q == query.Add(Must, Terms(field, value))
      ensures value.One? ==> q == query.Add(Must, Term(field, value))
      ensures q == query.Add(Rule(Default, field, value).bucket, Rule(Default, field, value).clause)
    {
      if value.Null? {
        q := query.Add(Must, Missing(field));
      } else if value.Arr? {
        q := query.Add(Must, Terms(field, value));
      } else {
        q := query.Add(Must, Term(field, value));
      }
    }

    /** `field(not) => value`: as `default`, but in `must_not`. */
    method FilterNot(field: string, value: Value, query: Query) returns (q: Query)
      ensures value.Null? ==> q == query.Add(MustNot, Missing(field))
      ensures value.Arr? ==> q == query.Add(MustNot, Terms(field, value))
      ensures value.One? ==> q == query.Add(MustNot, Term(field, value))
      ensures q == query.Add(Rule(Not, field, value).bucket, Rule(Not, field, value).clause)
    {
      if value.Null? {
        q := query.Add(MustNot, Missing(field));
      } else if value.Arr? {
        q := query.Add(MustNot, Terms(field, value));
      } else {
        q := query.Add(MustNot, Term(field, value));
      }
    }

    /** `field(min) => value`: `range` with `gte` in `must`, whatever the value. */
    method FilterMin(field: string, value: Value, query: Query) returns (q: Query)
      ensures q == query.Add(Must, RangeGte(field, value))
      ensures q == query.Add(Rule(Min, field, value).bucket, Rule(Min, field, value).clause)
    {
      q := query.Add(Must, RangeGte(field, value));
    }

    /** `field(max) => value`: `range` with `lte` in `must`, whatever the value. */
    method FilterMax(field: string, value: Value, query: Query) returns (q: Query)
      ensures q == query.Add(Must, RangeLte(field, value))
      ensures q == query.Add(Rule(Max, field, value).bucket, Rule(Max, field, value).clause)
    {
      q := query.Add(Must, RangeLte(field, value));
    }

    /** `field(any) => value`: `terms` in `must`, whatever the value. */
    method FilterAny(field: string, value: Value, query: Query) returns (q: Query)
      ensures q == query.Add(Must, Terms(field, value))
      ensures q == query.Add(Rule(Any, field, value).bucket, Rule(Any, field, value).clause)
    {
      q := query.Add(Must, Terms(field, value));
    }

    /** `field(none) => value`: a singular `term` in `must_not`, even for an
        array. */
    method FilterNone(field: string, value: Value, query: Query) returns (q: Query)
      ensures q == query.Add(MustNot, Term(field, value))
      ensures q == query.Add(Rule(None, field, value).bucket, Rule(None, field, value).clause)
    {
      q := query.Add(MustNot, Term(field, value));
    }

    /** `field(all) => value`: a singular `term` in `must`, even for an array. */
    method FilterAll(field: string, value: Value, query: Query) returns (q: Query)
      ensures q == query.Add(Must, Term(field, value))
      ensures q == query.Add(Rule(All, field, value).bucket, Rule(All, field, value).clause)
    {
      q := query.Add(Must, Term(field, value));
    }
  }
}
