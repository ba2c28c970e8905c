# ElasticFilter filter compiler, in Dafny

ElasticFilter turns a flat filter into an Elasticsearch `bool` query. A
filter is an ordered map from keys to values. A key is `field` or
`field(operator)`. `transform()` walks the filter in insertion order and
parses each key into a field and an operator name. The operator defaults to
`default` when the key has no `(`. The name selects one of seven handlers,
`filterDefault`, `filterNot`, `filterMin`, `filterMax`, `filterAny`,
`filterNone` and `filterAll`. An unknown name aborts the whole transform
with the exception "Invalid filter key '<key>'. Unknown operator '<op>'.".
Each handler appends one clause (`term`, `terms`, `range` with `gte` or
`lte`, or `missing`) to the query's `bool.must` or `bool.must_not` list.

The project has three modules:

- `KeySyntax` (key_syntax.dfy) covers the key parse of
  src/ElasticFilter.php line 48. It models the PHP primitives it is built
  from:
  - `trim` as `Trim`, with PHP's six default trim characters;
  - `str_replace(')', '', $key)` as `RemoveAll`;
  - `explode('(')` as `Split`, with `implode` as its inverse `Join`;
  - the array union `+ [1 => 'default']` as the fallback to
    `DefaultOperator`.

  Its lemmas characterise `Trim` by its result, make `Split` and `Join`
  inverses of each other, and prove that well-formed keys round-trip.
- `FilterCompiler` (filter_compiler.dfy) holds:
  - the data model: values, entries, clauses, the query with its two
    buckets;
  - the operator lookup and its error;
  - the operator table `Rule`, as a reference for the handlers;
  - the specification `Compile` of `transform()`, with its theorems;
  - the class `ElasticFilter`, whose `Transform` method is the source's
    loop, proved equal to `Compile`, and whose seven handler methods are
    the source's handlers.

  PHP arrays are values, and the handlers receive `&$query` by reference.
  Each handler method therefore takes the query and returns the updated
  query. A bucket is `Absent` until its first clause arrives, because PHP
  creates `$query['bool']['must']` on the first append. So the query holds
  a `bool` key only when some bucket is present.
- `FilterExamples` (filter_examples.dfy) covers the unit tests of
  tests/unit/ElasticFilterTest.php. The transform test is proved for any
  plain field names and any values of the test's shapes, and then applied
  to the test's own literals. The unknown-operator test is proved the same
  way.

## Model

| member | source | states |
|---|---|---|
| KeySyntax.TrimPadded | src/ElasticFilter.php:48 | trim(s) is exactly t whenever s is a trimmed t padded on both sides with trim characters (space, tab, LF, CR, NUL, vertical tab) |
| KeySyntax.Trim | src/ElasticFilter.php:48 | trim's result neither starts nor ends with a trim character and is no longer than its input |
| KeySyntax.TrimIdempotent | src/ElasticFilter.php:48 | trimming twice is trimming once |
| KeySyntax.TrimKeeps | src/ElasticFilter.php:48 | trim adds no character that was not in its input |
| KeySyntax.RemoveAll | src/ElasticFilter.php:48 | str_replace(')', '', key) leaves no `)` and keeps the count of every other character |
| KeySyntax.SplitPieces | src/ElasticFilter.php:48 | no piece of explode('(', s) contains `(` |
| KeySyntax.JoinSplit | src/ElasticFilter.php:48 | implode of explode gives back the exploded string |
| KeySyntax.SplitJoin | src/ElasticFilter.php:48 | explode of implode gives back the parts, when no part holds the separator |
| KeySyntax.ParseKeyClean | src/ElasticFilter.php:48 | the parsed field and operator hold no parenthesis and are trimmed |
| KeySyntax.ParseKeyNoOperator | src/ElasticFilter.php:48 | a key without `(` has operator "default", and its field is the key without `)`, trimmed |
| KeySyntax.ParseKeyPieces | src/ElasticFilter.php:48 | the field is the trimmed text before the first `(`; the operator is the trimmed text up to the next `(` or the end, so later pieces are ignored |
| KeySyntax.SplitAround | src/ElasticFilter.php:48 | the first two pieces of explode are the text before the first separator and the text from there to the next one |
| KeySyntax.ParseKeyRoundTrip | src/ElasticFilter.php:48 | `field(operator)`, with trim characters around the field and inside the parentheses, parses to exactly that field and operator |
| KeySyntax.ParseKeyDefaultRoundTrip | src/ElasticFilter.php:48 | a padded bare field parses to that field and "default" |
| FilterCompiler.Query.Add | src/ElasticFilter.php:76 | `$query['bool'][tag][] = c` makes that bucket present with c at its end and leaves the other bucket alone |
| FilterCompiler.Lookup | src/ElasticFilter.php:50-54 | the lookup fails exactly when no handler has the operator's name; on success it gives the operator of that name; the error carries the raw key and the operator |
| FilterCompiler.LookupName | src/ElasticFilter.php:50-52 | each of the seven operator names finds its own handler |
| FilterCompiler.RuleBucket | src/ElasticFilter.php:73-192 | only `not` and `none` write to `must_not` |
| FilterCompiler.RuleKeepsFieldAndValue | src/ElasticFilter.php:73-192 | every clause names the entry's field and carries its value unchanged, except `missing`, which arises exactly from a null value under `default` or `not` |
| FilterCompiler.RuleIgnoresShape | src/ElasticFilter.php:119-192 | `min`, `max`, `any`, `none` and `all` give the same clause kind and bucket whatever the value's shape |
| FilterCompiler.HandleKeyWithOperator | src/ElasticFilter.php:48-56 | an entry keyed `field(name)` with a clean field runs the handler of the operator called name on that field |
| FilterCompiler.HandleKeyWithoutOperator | src/ElasticFilter.php:48-56 | an entry keyed by a clean bare field runs `filterDefault` on it |
| FilterCompiler.AccumulateSucceeds | src/ElasticFilter.php:47-57 | running the handlers from any query succeeds exactly when no entry errs, and each bucket then gains exactly the clauses routed to it, in order |
| FilterCompiler.AccumulateFails | src/ElasticFilter.php:52-54 | the run stops with the error of the first erroneous entry |
| FilterCompiler.RoutedCount | src/ElasticFilter.php:73-192 | each fragment lands in exactly one bucket |
| FilterCompiler.RoutedNonEmpty | src/ElasticFilter.php:73-192 | a bucket receives clauses exactly when some fragment is routed to it |
| FilterCompiler.RoutedAppend | src/ElasticFilter.php:47-57 | routing keeps order: the clauses of earlier entries precede those of later ones in each bucket |
| FilterCompiler.RoutedCons | src/ElasticFilter.php:47-57 | routing a fragment in front of others puts its clause first in its bucket |
| FilterCompiler.AllKnownHandles | src/ElasticFilter.php:50-54 | every entry names a known operator exactly when no outcome is an error |
| FilterCompiler.CompileFails | src/ElasticFilter.php:50-54 | transform throws at the first entry with an unknown operator, carrying that entry's raw key and parsed operator |
| FilterCompiler.CompileSucceeds | src/ElasticFilter.php:43-60 | transform succeeds exactly when every operator is known; `must` and `must_not` then hold exactly the clauses routed to them, in entry order, and a bucket that received nothing is absent |
| FilterCompiler.CompileCount | src/ElasticFilter.php:43-60 | on success there is one clause per entry, and the query has a `bool` key exactly when the filter is not empty |
| FilterCompiler.CompileBucketPresent | src/ElasticFilter.php:43-60 | on success a bucket is present exactly when some entry was routed to it |
| FilterCompiler.CompileEmpty | src/ElasticFilter.php:45 | an empty filter gives the empty query, with no `bool` key |
| FilterCompiler.ElasticFilter.constructor | src/ElasticFilter.php:25-28 | the object keeps the filter it is given |
| FilterCompiler.ElasticFilter.Transform | src/ElasticFilter.php:43-60 | the loop returns Compile(filter): it succeeds exactly when every operator is known, with one clause per entry |
| FilterCompiler.ElasticFilter.FilterDefault | src/ElasticFilter.php:73-84 | null adds `missing`, an array adds `terms` and anything else adds `term`, all to `must`; the result is the query with the fragment of the `Rule` table for `default` added |
| FilterCompiler.ElasticFilter.FilterNot | src/ElasticFilter.php:96-107 | the same three cases as `default`, added to `must_not`; the result is the query with the fragment of the `Rule` table for `not` added |
| FilterCompiler.ElasticFilter.FilterMin | src/ElasticFilter.php:119-124 | adds `range` with `gte` to `must`; the result is the query with the fragment of the `Rule` table for `min` added |
| FilterCompiler.ElasticFilter.FilterMax | src/ElasticFilter.php:136-141 | adds `range` with `lte` to `must`; the result is the query with the fragment of the `Rule` table for `max` added |
| FilterCompiler.ElasticFilter.FilterAny | src/ElasticFilter.php:153-158 | adds `terms` to `must`; the result is the query with the fragment of the `Rule` table for `any` added |
| FilterCompiler.ElasticFilter.FilterNone | src/ElasticFilter.php:170-175 | adds a singular `term` to `must_not`, even for an array value; the result is the query with the fragment of the `Rule` table for `none` added |
| FilterCompiler.ElasticFilter.FilterAll | src/ElasticFilter.php:187-192 | adds a singular `term` to `must`, even for an array value; the result is the query with the fragment of the `Rule` table for `all` added |
| FilterExamples.CompileTransform | tests/unit/ElasticFilterTest.php:24-62 | for any plain names and values of the test's shapes, the test's eleven-entry filter compiles to its eight `must` and three `must_not` clauses, in order |
| FilterExamples.TransformHandles | tests/unit/ElasticFilterTest.php:26-38 | each entry of that filter dispatches to the handler its key names |
| FilterExamples.TestKeys | tests/unit/ElasticFilterTest.php:30-37 | the keys built as `field(name)` are the keys the test writes |
| FilterExamples.CompileTransformTest | tests/unit/ElasticFilterTest.php:24-62 | the test's own filter compiles to the query the test expects |
| FilterExamples.UnknownKeyFails | src/ElasticFilter.php:50-54 | a single entry `field(operator)` naming no handler fails with its raw key and that operator |
| FilterExamples.UnknownOperatorTest | tests/unit/ElasticFilterTest.php:65-77 | the filter `id(foo) => '0001'` fails with key `id(foo)` and operator `foo` |
| FilterExamples.UnknownOperatorMessage | tests/unit/ElasticFilterTest.php:67 | that error's message is the one the test expects |

## Left out

- FilterCompiler.Lookup: the PHP code finds the handler with `camelcase("filter_$operator")` and `method_exists`. That lookup ignores case and camel-cases word separators, so `NOT` or `Min` would also select a handler. The model accepts exactly the seven lower-case names. Jasny's `camelcase` is not part of this model.
- The `(array)` cast in the constructor is not modelled. The model takes the filter as a list of entries with string keys. PHP's integer keys and objects cast to arrays are not modelled.
- The model does not require the keys to be distinct, as a PHP array's are. It only allows more inputs.
- Values are null, a scalar (string, integer or boolean) or a flat list of scalars. Two PHP array shapes cannot be written: a list holding `null` items, and an associative array such as `['x' => 1]`. `is_array` sends both to `terms` as well. Floats, nested arrays and objects are not modelled either. No handler behaviour is lost, because apart from the null and array tests the handlers only copy the value.
- The order of the `must` and `must_not` keys inside `bool` is not modelled. In PHP it follows which bucket received a clause first. The model keeps the order of the clauses within each bucket.
- The handlers' `return $this` is not modelled, because `transform()` ignores it. The by-reference `$field` and `$value` parameters are not modelled either, because no handler changes them.
- The exception is modelled as an error value that carries the key and the operator; `Message` gives its text. PHP's exception machinery is not modelled.
- ElasticSort and the Elasticsearch client (src/Elasticsearch.php: connection, search, index) do I/O and are not part of this model.
