/**
 * The unit tests of ElasticFilter, stated about the model. The transform
 * test is proved for any field names that need no trimming and hold no
 * parenthesis and for any values of the shapes the test uses, and is then
 * applied to the test's own names and values.
 */
module FilterExamples {
  import opened KeySyntax
  import opened FilterCompiler

  function Text(s: string): Value {
    One(Str(s))
  }

  /** The field names the transform test uses. */
  datatype Names = Names(id: string, authors: string, deleted: string, startDate: string, endDate: string, age: string, tags: string, published: string, colors: string, category: string)

  /** The values the transform test gives its entries; the two entries that
      test for a missing field have the value null. */
  datatype Values = Values(id: Value, authors: Value, startDate: Value, endDate: Value, age: Value, tags: Value, colorsAny: Value, colorsNone: Value, category: Value)

  /** A field name that needs no trimming and holds no parenthesis. */
  predicate Plain(field: string) {
    IsTrimmed(field) && '(' !in field && ')' !in field
  }

  predicate AllPlain(n: Names) {
    Plain(n.id) && Plain(n.authors) && Plain(n.deleted) && Plain(n.startDate) && Plain(n.endDate) && Plain(n.age) && Plain(n.tags) && Plain(n.published) && Plain(n.colors) && Plain(n.category)
  }

  /** The shapes the `default` and `not` entries depend on: a scalar id, and
      lists of authors and of tags. */
  predicate Shaped(v: Values) {
    v.id.One? && v.authors.Arr? && v.tags.Arr?
  }

  /** The names as the test writes them. */
  function TestNames(): Names {
    Names("id", "authors", "deleted", "start_date", "end_date", "age", "tags", "published", "colors", "category")
  }

  /** The values as the test writes them. */
  function TestValues(): Values {
    Values(
      Text("0001"),
      Arr([Str("John"), Str("Jane")]),
      Text("2017-01-01T00:00:00"),
      Text("2018-01-01T00:00:00"),
      One(Int(25)),
      Arr([Str("foo"), Str("bar")]),
      Arr([Str("blue"), Str("green")]),
      Arr([Str("red")]),
      Arr([Str("A"), Str("B"), Str("C")]))
  }

  /** The filter of the transform test, in insertion order. */
  function TransformFilter(n: Names, v: Values): seq<Entry> {
    [ Entry(n.id, v.id),
      Entry(n.authors, v.authors),
      Entry(n.deleted, Null),
      Entry(KeyOf(n.startDate, Min), v.startDate),
      Entry(KeyOf(n.endDate, Max), v.endDate),
      Entry(KeyOf(n.age, Min), v.age),
      Entry(KeyOf(n.tags, Not), v.tags),
      Entry(KeyOf(n.published, Not), Null),
      Entry(KeyOf(n.colors, Any), v.colorsAny),
      Entry(KeyOf(n.colors, None), v.colorsNone),
      Entry(KeyOf(n.category, All), v.category) ]
  }

  /** What the entries of that filter are handled into, in the same order,
      in four groups. */
  function TransformFragments(n: Names, v: Values): seq<Result<Fragment>> {
    DefaultFragments(n, v) + RangeFragments(n, v) + NotFragments(n, v) + SetFragments(n, v)
  }

  /** The fragments of the entries without an operator. */
  function DefaultFragments(n: Names, v: Values): seq<Result<Fragment>> {
    [ Ok(Fragment(Must, Term(n.id, v.id))),
      Ok(Fragment(Must, Terms(n.authors, v.authors))),
      Ok(Fragment(Must, Missing(n.deleted))) ]
  }

  /** The fragments of the `min` and `max` entries. */
  function RangeFragments(n: Names, v: Values): seq<Result<Fragment>> {
    [ Ok(Fragment(Must, RangeGte(n.startDate, v.startDate))),
      Ok(Fragment(Must, RangeLte(n.endDate, v.endDate))),
      Ok(Fragment(Must, RangeGte(n.age, v.age))) ]
  }

  /** The fragments of the `not` entries. */
  function NotFragments(n: Names, v: Values): seq<Result<Fragment>> {
    [ Ok(Fragment(MustNot, Terms(n.tags, v.tags))),
      Ok(Fragment(MustNot, Missing(n.published))) ]
  }

  /** The fragments of the `any`, `none` and `all` entries. */
  function SetFragments(n: Names, v: Values): seq<Result<Fragment>> {
    [ Ok(Fragment(Must, Terms(n.colors, v.colorsAny))),
      Ok(Fragment(MustNot, Term(n.colors, v.colorsNone))),
      Ok(Fragment(Must, Term(n.category, v.category))) ]
  }

  /** The query the transform test expects. */
  function TransformQuery(n: Names, v: Values): Query {
    Query(
      Present([
        Term(n.id, v.id),
        Terms(n.authors, v.authors),
        Missing(n.deleted),
        RangeGte(n.startDate, v.startDate),
        RangeLte(n.endDate, v.endDate),
        RangeGte(n.age, v.age),
        Terms(n.colors, v.colorsAny),
        Term(n.category, v.category)
      ]),
      Present([
        Terms(n.tags, v.tags),
        Missing(n.published),
        Term(n.colors, v.colorsNone)
      ]))
  }

  /** Each entry of the filter dispatches to the handler its key names. */
  lemma IdEntry(n: Names, v: Values)
    requires Plain(n.id) && v.id.One?
    ensures Handle(TransformFilter(n, v)[0]) == TransformFragments(n, v)[0]
  {
    assert TransformFilter(n, v)[0] == Entry(n.id, v.id);
    assert TransformFragments(n, v)[0] == Ok(Fragment(Must, Term(n.id, v.id)));
    HandleKeyWithoutOperator(n.id, v.id);
  }

  lemma AuthorsEntry(n: Names, v: Values)
    requires Plain(n.authors) && v.authors.Arr?
    ensures Handle(TransformFilter(n, v)[1]) == TransformFragments(n, v)[1]
  {
    assert TransformFilter(n, v)[1] == Entry(n.authors, v.authors);
    assert TransformFragments(n, v)[1] == Ok(Fragment(Must, Terms(n.authors, v.authors)));
    HandleKeyWithoutOperator(n.authors, v.authors);
  }

  lemma DeletedEntry(n: Names, v: Values)
    requires Plain(n.deleted)
    ensures Handle(TransformFilter(n, v)[2]) == TransformFragments(n, v)[2]
  {
    assert TransformFilter(n, v)[2] == Entry(n.deleted, Null);
    assert TransformFragments(n, v)[2] == Ok(Fragment(Must, Missing(n.deleted)));
    HandleKeyWithoutOperator(n.deleted, Null);
  }

  lemma StartDateEntry(n: Names, v: Values)
    requires Plain(n.startDate)
    ensures Handle(TransformFilter(n, v)[3]) == TransformFragments(n, v)[3]
  {
    assert TransformFilter(n, v)[3] == Entry(KeyOf(n.startDate, Min), v.startDate);
    assert TransformFragments(n, v)[3] == Ok(Fragment(Must, RangeGte(n.startDate, v.startDate)));
    HandleKeyWithOperator(n.startDate, Min, v.startDate);
  }

  lemma EndDateEntry(n: Names, v: Values)
    requires Plain(n.endDate)
    ensures Handle(TransformFilter(n, v)[4]) == TransformFragments(n, v)[4]
  {
    assert TransformFilter(n, v)[4] == Entry(KeyOf(n.endDate, Max), v.endDate);
    assert TransformFragments(n, v)[4] == Ok(Fragment(Must, RangeLte(n.endDate, v.endDate)));
    HandleKeyWithOperator(n.endDate, Max, v.endDate);
  }

  lemma AgeEntry(n: Names, v: Values)
    requires Plain(n.age)
    ensures Handle(TransformFilter(n, v)[5]) == TransformFragments(n, v)[5]
  {
    assert TransformFilter(n, v)[5] == Entry(KeyOf(n.age, Min), v.age);
    assert TransformFragments(n, v)[5] == Ok(Fragment(Must, RangeGte(n.age, v.age)));
    HandleKeyWithOperator(n.age, Min, v.age);
  }

  lemma TagsEntry(n: Names, v: Values)
    requires Plain(n.tags) && v.tags.Arr?
    ensures Handle(TransformFilter(n, v)[6]) == TransformFragments(n, v)[6]
  {
    assert TransformFilter(n, v)[6] == Entry(KeyOf(n.tags, Not), v.tags);
    assert TransformFragments(n, v)[6] == Ok(Fragment(MustNot, Terms(n.tags, v.tags)));
    HandleKeyWithOperator(n.tags, Not, v.tags);
  }

  lemma PublishedEntry(n: Names, v: Values)
    requires Plain(n.published)
    ensures Handle(TransformFilter(n, v)[7]) == TransformFragments(n, v)[7]
  {
    assert TransformFilter(n, v)[7] == Entry(KeyOf(n.published, Not), Null);
    assert TransformFragments(n, v)[7] == Ok(Fragment(MustNot, Missing(n.published)));
    HandleKeyWithOperator(n.published, Not, Null);
  }

  lemma ColorsAnyEntry(n: Names, v: Values)
    requires Plain(n.colors)
    ensures Handle(TransformFilter(n, v)[8]) == TransformFragments(n, v)[8]
  {
    assert TransformFilter(n, v)[8] == Entry(KeyOf(n.colors, Any), v.colorsAny);
    assert TransformFragments(n, v)[8] == Ok(Fragment(Must, Terms(n.colors, v.colorsAny)));
    HandleKeyWithOperator(n.colors, Any, v.colorsAny);
  }

  lemma ColorsNoneEntry(n: Names, v: Values)
    requires Plain(n.colors)
    ensures Handle(TransformFilter(n, v)[9]) == TransformFragments(n, v)[9]
  {
    assert TransformFilter(n, v)[9] == Entry(KeyOf(n.colors, None), v.colorsNone);
    assert TransformFragments(n, v)[9] == Ok(Fragment(MustNot, Term(n.colors, v.colorsNone)));
    HandleKeyWithOperator(n.colors, None, v.colorsNone);
  }

  lemma CategoryEntry(n: Names, v: Values)
    requires Plain(n.category)
    ensures Handle(TransformFilter(n, v)[10]) == TransformFragments(n, v)[10]
  {
    assert TransformFilter(n, v)[10] == Entry(KeyOf(n.category, All), v.category);
    assert TransformFragments(n, v)[10] == Ok(Fragment(Must, Term(n.category, v.category)));
    HandleKeyWithOperator(n.category, All, v.category);
  }

  lemma TransformEntry(n: Names, v: Values, k: nat)
    requires AllPlain(n) && Shaped(v) && k < |TransformFilter(n, v)|
    ensures Handle(TransformFilter(n, v)[k]) == TransformFragments(n, v)[k]
  {
    if k == 0 {
      IdEntry(n, v);
    } else if k == 1 {
      AuthorsEntry(n, v);
    } else if k == 2 {
      DeletedEntry(n, v);
    } else if k == 3 {
      StartDateEntry(n, v);
    } else if k == 4 {
      EndDateEntry(n, v);
    } else if k == 5 {
      AgeEntry(n, v);
    } else if k == 6 {
      TagsEntry(n, v);
    } else if k == 7 {
      PublishedEntry(n, v);
    } else if k == 8 {
      ColorsAnyEntry(n, v);
    } else if k == 9 {
      ColorsNoneEntry(n, v);
    } else {
      CategoryEntry(n, v);
    }
  }

  /** The whole filter is handled into TransformFragments, entry by entry. */
  lemma TransformHandles(n: Names, v: Values)
    requires AllPlain(n) && Shaped(v)
    ensures Handles(TransformFilter(n, v)) == TransformFragments(n, v)
  {
    forall k | 0 <= k < |TransformFilter(n, v)|
      ensures Handles(TransformFilter(n, v))[k] == TransformFragments(n, v)[k]
    {
      TransformEntry(n, v, k);
    }
  }

  /** The clauses the entries without an operator route to each bucket. */
  lemma DefaultRouted(n: Names, v: Values)
    ensures AllOk(DefaultFragments(n, v))
    ensures Routed(DefaultFragments(n, v), Must) == [ Term(n.id, v.id),
      Terms(n.authors, v.authors),
      Missing(n.deleted) ]
    ensures Routed(DefaultFragments(n, v), MustNot) == []
  {
    var r3: seq<Result<Fragment>> := [];
    var r2 := [Ok(Fragment(Must, Missing(n.deleted)))] + r3;
    var r1 := [Ok(Fragment(Must, Terms(n.authors, v.authors)))] + r2;
    var r0 := [Ok(Fragment(Must, Term(n.id, v.id)))] + r1;
    RoutedCons(Fragment(Must, Missing(n.deleted)), r3, Must);
    RoutedCons(Fragment(Must, Terms(n.authors, v.authors)), r2, Must);
    RoutedCons(Fragment(Must, Term(n.id, v.id)), r1, Must);
    RoutedCons(Fragment(Must, Missing(n.deleted)), r3, MustNot);
    RoutedCons(Fragment(Must, Terms(n.authors, v.authors)), r2, MustNot);
    RoutedCons(Fragment(Must, Term(n.id, v.id)), r1, MustNot);
    assert DefaultFragments(n, v) == r0;
  }

  /** The clauses the `min` and `max` entries route to each bucket. */
  lemma RangeRouted(n: Names, v: Values)
    ensures AllOk(RangeFragments(n, v))
    ensures Routed(RangeFragments(n, v), Must) == [ RangeGte(n.startDate, v.startDate),
      RangeLte(n.endDate, v.endDate),
      RangeGte(n.age, v.age) ]
    ensures Routed(RangeFragments(n, v), MustNot) == []
  {
    var r3: seq<Result<Fragment>> := [];
    var r2 := [Ok(Fragment(Must, RangeGte(n.age, v.age)))] + r3;
    var r1 := [Ok(Fragment(Must, RangeLte(n.endDate, v.endDate)))] + r2;
    var r0 := [Ok(Fragment(Must, RangeGte(n.startDate, v.startDate)))] + r1;
    RoutedCons(Fragment(Must, RangeGte(n.age, v.age)), r3, Must);
    RoutedCons(Fragment(Must, RangeLte(n.endDate, v.endDate)), r2, Must);
    RoutedCons(Fragment(Must, RangeGte(n.startDate, v.startDate)), r1, Must);
    RoutedCons(Fragment(Must, RangeGte(n.age, v.age)), r3, MustNot);
    RoutedCons(Fragment(Must, RangeLte(n.endDate, v.endDate)), r2, MustNot);
    RoutedCons(Fragment(Must, RangeGte(n.startDate, v.startDate)), r1, MustNot);
    assert RangeFragments(n, v) == r0;
  }

  /** The clauses the `not` entries route to each bucket. */
  lemma NotRouted(n: Names, v: Values)
    ensures AllOk(NotFragments(n, v))
    ensures Routed(NotFragments(n, v), Must) == []
    ensures Routed(NotFragments(n, v), MustNot) == [ Terms(n.tags, v.tags),
      Missing(n.published) ]
  {
    var r2: seq<Result<Fragment>> := [];
    var r1 := [Ok(Fragment(MustNot, Missing(n.published)))] + r2;
    var r0 := [Ok(Fragment(MustNot, Terms(n.tags, v.tags)))] + r1;
    RoutedCons(Fragment(MustNot, Missing(n.published)), r2, Must);
    RoutedCons(Fragment(MustNot, Terms(n.tags, v.tags)), r1, Must);
    RoutedCons(Fragment(MustNot, Missing(n.published)), r2, MustNot);
    RoutedCons(Fragment(MustNot, Terms(n.tags, v.tags)), r1, MustNot);
    assert NotFragments(n, v) == r0;
  }

  /** The clauses the `any`, `none` and `all` entries route to each bucket. */
  lemma SetRouted(n: Names, v: Values)
    ensures AllOk(SetFragments(n, v))
    ensures Routed(SetFragments(n, v), Must) == [ Terms(n.colors, v.colorsAny),
      Term(n.category, v.category) ]
    ensures Routed(SetFragments(n, v), MustNot) == [ Term(n.colors, v.colorsNone) ]
  {
    var r3: seq<Result<Fragment>> := [];
    var r2 := [Ok(Fragment(Must, Term(n.category, v.category)))] + r3;
    var r1 := [Ok(Fragment(MustNot, Term(n.colors, v.colorsNone)))] + r2;
    var r0 := [Ok(Fragment(Must, Terms(n.colors, v.colorsAny)))] + r1;
    RoutedCons(Fragment(Must, Term(n.category, v.category)), r3, Must);
    RoutedCons(Fragment(MustNot, Term(n.colors, v.colorsNone)), r2, Must);
    RoutedCons(Fragment(Must, Terms(n.colors, v.colorsAny)), r1, Must);
    RoutedCons(Fragment(Must, Term(n.category, v.category)), r3, MustNot);
    RoutedCons(Fragment(MustNot, Term(n.colors, v.colorsNone)), r2, MustNot);
    RoutedCons(Fragment(Must, Terms(n.colors, v.colorsAny)), r1, MustNot);
    assert SetFragments(n, v) == r0;
  }

  /** The clauses the fragments route to each bucket, group after group. */
  lemma TransformRouted(n: Names, v: Values, tag: BucketTag)
    ensures AllOk(TransformFragments(n, v))
    ensures Routed(TransformFragments(n, v), tag) ==
      Routed(DefaultFragments(n, v), tag) + Routed(RangeFragments(n, v), tag) + Routed(NotFragments(n, v), tag) + Routed(SetFragments(n, v), tag)
  {
    DefaultRouted(n, v);
    RangeRouted(n, v);
    NotRouted(n, v);
    SetRouted(n, v);
    var d, r, x, s := DefaultFragments(n, v), RangeFragments(n, v), NotFragments(n, v), SetFragments(n, v);
    RoutedAppend(d, r, tag);
    RoutedAppend(d + r, x, tag);
    RoutedAppend(d + r + x, s, tag);
  }

  /** The fragments, added in order to the empty query, give the query the
      test expects. */
  lemma TransformAccumulate(n: Names, v: Values)
    ensures Accumulate(EmptyQuery, TransformFragments(n, v)) == Ok(TransformQuery(n, v))
  {
    var rs := TransformFragments(n, v);
    DefaultRouted(n, v);
    RangeRouted(n, v);
    NotRouted(n, v);
    SetRouted(n, v);
    TransformRouted(n, v, Must);
    TransformRouted(n, v, MustNot);
    assert Routed(rs, Must) == [
      Term(n.id, v.id),
      Terms(n.authors, v.authors),
      Missing(n.deleted),
      RangeGte(n.startDate, v.startDate),
      RangeLte(n.endDate, v.endDate),
      RangeGte(n.age, v.age),
      Terms(n.colors, v.colorsAny),
      Term(n.category, v.category) ];
    assert Routed(rs, MustNot) == [
      Terms(n.tags, v.tags),
      Missing(n.published),
      Term(n.colors, v.colorsNone) ];
    AccumulateSucceeds(EmptyQuery, rs);
    PushAllAbsent(Routed(rs, Must));
    PushAllAbsent(Routed(rs, MustNot));
  }

  /** The transform test, for any plain names and values of its shapes: the
      filter compiles to the query the test expects. */
  lemma CompileTransform(n: Names, v: Values)
    requires AllPlain(n) && Shaped(v)
    ensures Compile(TransformFilter(n, v)) == Ok(TransformQuery(n, v))
  {
    TransformHandles(n, v);
    TransformAccumulate(n, v);
  }

  /** The test's keys, as KeyOf builds them, are the keys the test writes. */
  lemma TestKeys()
    ensures KeyOf("start_date", Min) == "start_date(min)"
    ensures KeyOf("end_date", Max) == "end_date(max)"
    ensures KeyOf("age", Min) == "age(min)"
    ensures KeyOf("tags", Not) == "tags(not)"
    ensures KeyOf("published", Not) == "published(not)"
    ensures KeyOf("colors", Any) == "colors(any)"
    ensures KeyOf("colors", None) == "colors(none)"
    ensures KeyOf("category", All) == "category(all)"
  {
  }

  /** A name written in lower-case letters and underscores is plain. */
  lemma WordPlain(s: string)
    requires forall i :: 0 <= i < |s| ==> 'a' <= s[i] <= 'z' || s[i] == '_'
    ensures Plain(s)
  {
  }

  /** The test's names are plain and its values have the shapes it needs. */
  lemma TestInputsFit()
    ensures AllPlain(TestNames()) && Shaped(TestValues())
  {
    WordPlain("id");
    WordPlain("authors");
    WordPlain("deleted");
    WordPlain("start_date");
    WordPlain("end_date");
    WordPlain("age");
    WordPlain("tags");
    WordPlain("published");
    WordPlain("colors");
    WordPlain("category");
  }

  /** The transform test: its filter compiles to the query it expects. */
  lemma CompileTransformTest()
    ensures Compile(TransformFilter(TestNames(), TestValues())) == Ok(TransformQuery(TestNames(), TestValues()))
  {
    TestInputsFit();
    CompileTransform(TestNames(), TestValues());
  }

  /** A single entry `field(operator)` whose operator names no handler fails
      with its raw key and that operator. */
  lemma UnknownKeyFails(field: string, operator: string, value: Value)
    requires Plain(field) && Plain(operator)
    requires forall op: Op :: Name(op) != operator
    ensures Compile([Entry(field + "(" + operator + ")", value)]) ==
      Err(UnknownOperator(field + "(" + operator + ")", operator))
  {
    assert [] + field + [] + "(" + [] + operator + [] + ")" == field + "(" + operator + ")";
    ParseKeyRoundTrip(field, operator, [], [], [], []);
    CompileFails([Entry(field + "(" + operator + ")", value)], 0);
  }

  /** The unknown-operator test: the key `id(foo)` names no handler, so the
      filter fails with that key and that operator. */
  lemma UnknownOperatorTest()
    ensures Compile([Entry("id(foo)", Text("0001"))]) == Err(UnknownOperator("id(foo)", "foo"))
  {
    WordPlain("id");
    WordPlain("foo");
    assert "id" + "(" + "foo" + ")" == "id(foo)";
    UnknownKeyFails("id", "foo", Text("0001"));
  }

  /** The message of that test's exception. */
  lemma UnknownOperatorMessage()
    ensures Message(UnknownOperator("id(foo)", "foo")) == "Invalid filter key 'id(foo)'. Unknown operator 'foo'."
  {
  }
}
