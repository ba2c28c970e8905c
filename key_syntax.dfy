/**
 * The filter-key syntax of ElasticFilter::transform: a key is `field` or
 * `field(operator)`. The parser is one PHP expression built from three
 * library primitives, each modelled here on `string` (a `seq<char>`):
 *   str_replace(')', '', key)   -> RemoveAll
 *   explode('(', ...)           -> Split   (its inverse, implode, is Join)
 *   array_map('trim', ...)      -> Trim
 * followed by the array union `+ [1 => 'default']`, which supplies the
 * operator when there is no second piece.
 */
module KeySyntax {

  /** The characters PHP's trim() strips when given no character list:
      space, tab, line feed, carriage return, NUL and vertical tab. */
  predicate IsTrimChar(c: char) {
    c == ' ' || c == '\t' || c == '\n' || c == '\r' || c == '\0' || c == '\U{B}'
  }

  predicate AllTrimChars(s: string) {
    forall i :: 0 <= i < |s| ==> IsTrimChar(s[i])
  }

  /** s neither starts nor ends with a character that trim() strips. */
  predicate IsTrimmed(s: string) {
    s == [] || (!IsTrimChar(s[0]) && !IsTrimChar(s[|s| - 1]))
  }

  /** PHP's ltrim(): drops the longest prefix of trim characters. */
  function TrimLeft(s: string): (r: string)
    ensures |r| <= |s|
    ensures forall i :: 0 <= i < |s| - |r| ==> IsTrimChar(s[i])
  {
    if s != [] && IsTrimChar(s[0]) then TrimLeft(s[1..]) else s
  }

  /** PHP's rtrim(): drops the longest suffix of trim characters. */
  function TrimRight(s: string): (r: string)
    ensures |r| <= |s|
    ensures forall i :: |r| <= i < |s| ==> IsTrimChar(s[i])
  {
    if s != [] && IsTrimChar(s[|s| - 1]) then TrimRight(s[..|s| - 1]) else s
  }

  /** PHP's trim(): strips trim characters from both ends. */
  function Trim(s: string): (r: string)
    ensures IsTrimmed(r)
    ensures |r| <= |s|
  {
    var l := TrimLeft(s);
    TrimLeftStart(s);
    TrimRightPrefix(l);
    TrimRightEnd(l);
    TrimRight(l)
  }

  /** ltrim() leaves no trim character at the start. */
  lemma {:induction false} TrimLeftStart(s: string)
    ensures TrimLeft(s) == [] || !IsTrimChar(TrimLeft(s)[0])
  {
    if s != [] && IsTrimChar(s[0]) {
      TrimLeftStart(s[1..]);
    }
  }

  /** rtrim() leaves no trim character at the end. */
  lemma {:induction false} TrimRightEnd(s: string)
    ensures TrimRight(s) == [] || !IsTrimChar(TrimRight(s)[|TrimRight(s)| - 1])
  {
    if s != [] && IsTrimChar(s[|s| - 1]) {
      TrimRightEnd(s[..|s| - 1]);
    }
  }

  /** ltrim() keeps a suffix of s. */
  lemma {:induction false} TrimLeftSuffix(s: string)
    ensures TrimLeft(s) == s[|s| - |TrimLeft(s)|..]
  {
    if s != [] && IsTrimChar(s[0]) {
      TrimLeftSuffix(s[1..]);
    }
  }

  /** rtrim() keeps a prefix of s. */
  lemma {:induction false} TrimRightPrefix(s: string)
    ensures TrimRight(s) == s[..|TrimRight(s)|]
  {
    if s != [] && IsTrimChar(s[|s| - 1]) {
      TrimRightPrefix(s[..|s| - 1]);
    }
  }

  /** trim() keeps a contiguous piece of s, so it adds no character. */
  lemma TrimKeeps(s: string)
    ensures forall c :: c in Trim(s) ==> c in s
  {
    var l := TrimLeft(s);
    TrimLeftSuffix(s);
    TrimRightPrefix(l);
    assert forall c :: c in Trim(s) ==> c in l;
    assert forall c :: c in l ==> c in s;
  }

  lemma {:induction false} TrimLeftSkips(pre: string, u: string)
    requires AllTrimChars(pre)
    requires u == [] || !IsTrimChar(u[0])
    ensures TrimLeft(pre + u) == u
  {
    if pre != [] {
      assert (pre + u)[1..] == pre[1..] + u;
      TrimLeftSkips(pre[1..], u);
    }
  }

  lemma {:induction false} TrimRightSkips(u: string, post: string)
    requires AllTrimChars(post)
    requires u == [] || !IsTrimChar(u[|u| - 1])
    ensures TrimRight(u + post) == u
  {
    if post != [] {
      var n := |post| - 1;
      assert (u + post)[..|u + post| - 1] == u + post[..n];
      TrimRightSkips(u, post[..n]);
    }
  }

  /** trim() is characterised by its result: whenever s is a trimmed string
      t padded on both sides with trim characters, trim(s) is exactly t. */
  lemma TrimPadded(pre: string, t: string, post: string)
    requires AllTrimChars(pre) && AllTrimChars(post) && IsTrimmed(t)
    ensures Trim(pre + t + post) == t
  {
    if t == [] {
      assert pre + t + post == (pre + post) + [];
      TrimLeftSkips(pre + post, []);
    } else {
      assert pre + t + post == pre + (t + post);
      TrimLeftSkips(pre, t + post);
      TrimRightSkips(t, post);
    }
  }

  /** trim() is idempotent. */
  lemma TrimIdempotent(s: string)
    ensures Trim(Trim(s)) == Trim(s)
  {
    assert [] + Trim(s) + [] == Trim(s);
    TrimPadded([], Trim(s), []);
  }

  /** PHP's str_replace(c, '', s): every occurrence of c is deleted and every
      other character is kept, in order. */
  function RemoveAll(s: string, c: char): (r: string)
    ensures c !in r
    ensures |r| <= |s|
    ensures forall d :: d != c ==> multiset(r)[d] == multiset(s)[d]
  {
    if s == [] then []
    else
      var rest := RemoveAll(s[1..], c);
      assert s == [s[0]] + s[1..];
      if s[0] == c then rest else [s[0]] + rest
  }

  lemma {:induction false} RemoveAllAbsent(s: string, c: char)
    requires c !in s
    ensures RemoveAll(s, c) == s
  {
    if s != [] {
      RemoveAllAbsent(s[1..], c);
    }
  }

  lemma {:induction false} RemoveAllKeeps(s: string, c: char, d: char)
    requires d != c
    ensures d in RemoveAll(s, c) <==> d in s
  {
    if s != [] {
      RemoveAllKeeps(s[1..], c, d);
      assert s == [s[0]] + s[1..];
    }
  }

  lemma {:induction false} RemoveAllAppend(a: string, b: string, c: char)
    ensures RemoveAll(a + b, c) == RemoveAll(a, c) + RemoveAll(b, c)
  {
    if a == [] {
      assert a + b == b;
    } else {
      assert (a + b)[0] == a[0] && (a + b)[1..] == a[1..] + b;
      RemoveAllAppend(a[1..], b, c);
    }
  }

  /** PHP's implode(sep, parts), the inverse of Split. */
  function Join(parts: seq<string>, sep: char): string
  {
    if |parts| == 0 then []
    else if |parts| == 1 then parts[0]
    else parts[0] + [sep] + Join(parts[1..], sep)
  }

  /** PHP's explode(sep, s): the pieces of s between occurrences of sep.
      There is always at least one piece (explode('(', '') is ['']). */
  function Split(s: string, sep: char): (parts: seq<string>)
    ensures |parts| >= 1
  {
    if s == [] then [[]]
    else
      var rest := Split(s[1..], sep);
      if s[0] == sep then [[]] + rest
      else [[s[0]] + rest[0]] + rest[1..]
  }

  /** No piece of explode(sep, s) contains sep. */
  lemma {:induction false} SplitPieces(s: string, sep: char)
    ensures forall i :: 0 <= i < |Split(s, sep)| ==> sep !in Split(s, sep)[i]
  {
    if s != [] {
      var rest := Split(s[1..], sep);
      SplitPieces(s[1..], sep);
      var parts := Split(s, sep);
      if s[0] == sep {
        assert forall i :: 1 <= i < |parts| ==> parts[i] == rest[i - 1];
      } else {
        assert forall i :: 1 <= i < |parts| ==> parts[i] == rest[i];
      }
    }
  }

  /** implode(sep, explode(sep, s)) == s. */
  lemma {:induction false} JoinSplit(s: string, sep: char)
    ensures Join(Split(s, sep), sep) == s
  {
    if s != [] {
      var rest := Split(s[1..], sep);
      JoinSplit(s[1..], sep);
      var parts := Split(s, sep);
      if s[0] == sep {
        assert parts[1..] == rest;
      } else {
        assert parts[1..] == rest[1..];
        assert |rest| >= 2 ==> Join(rest, sep) == rest[0] + [sep] + Join(rest[1..], sep);
      }
      assert s == [s[0]] + s[1..];
    }
  }

  lemma {:induction false} SplitPrefix(a: string, t: string, sep: char)
    requires sep !in a
    ensures Split(a + t, sep) == [a + Split(t, sep)[0]] + Split(t, sep)[1..]
  {
    if a == [] {
      var parts := Split(t, sep);
      assert a + t == t && a + parts[0] == parts[0];
      assert parts == [parts[0]] + parts[1..];
    } else {
      assert (a + t)[0] == a[0] && (a + t)[1..] == a[1..] + t;
      SplitPrefix(a[1..], t, sep);
      assert [a[0]] + (a[1..] + Split(t, sep)[0]) == a + Split(t, sep)[0];
    }
  }

  /** The first piece of explode(sep, u) is the text before the first sep. */
  lemma SplitFirst(u: string, j: nat, sep: char)
    requires j <= |u| && sep !in u[..j]
    requires j == |u| || u[j] == sep
    ensures Split(u, sep)[0] == u[..j]
  {
    assert u == u[..j] + u[j..];
    SplitPrefix(u[..j], u[j..], sep);
    if j < |u| {
      assert u[j..] == [sep] + u[j + 1..];
      SplitAtSep(u[j + 1..], sep);
    }
    assert u[..j] + [] == u[..j];
  }

  /** Every character of every piece occurs in the joined string. */
  lemma {:induction false} JoinHolds(parts: seq<string>, sep: char, i: nat)
    requires i < |parts|
    ensures forall c :: c in parts[i] ==> c in Join(parts, sep)
  {
    if i > 0 {
      JoinHolds(parts[1..], sep, i - 1);
    }
  }

  lemma SplitNoSep(s: string, sep: char)
    requires sep !in s
    ensures Split(s, sep) == [s]
  {
    SplitPrefix(s, [], sep);
    assert s + [] == s;
  }

  lemma SplitAtSep(t: string, sep: char)
    ensures Split([sep] + t, sep) == [[]] + Split(t, sep)
  {
    assert ([sep] + t)[1..] == t;
  }

  /** Split undoes Join: explode(sep, implode(sep, parts)) == parts whenever
      no part contains sep. */
  lemma {:induction false} SplitJoin(parts: seq<string>, sep: char)
    requires |parts| >= 1
    requires forall i :: 0 <= i < |parts| ==> sep !in parts[i]
    ensures Split(Join(parts, sep), sep) == parts
  {
    if |parts| == 1 {
      SplitPrefix(parts[0], [], sep);
      assert parts[0] + [] == parts[0];
    } else {
      var tail := Join(parts[1..], sep);
      SplitJoin(parts[1..], sep);
      assert parts[0] + [sep] + tail == parts[0] + ([sep] + tail);
      SplitPrefix(parts[0], [sep] + tail, sep);
      SplitAtSep(tail, sep);
      assert parts[0] + [] == parts[0];
      assert parts == [parts[0]] + parts[1..];
    }
  }

  /** The field and operator named by a filter key. */
  datatype ParsedKey = ParsedKey(field: string, operator: string)

  /** The operator used when a key has no `(`. */
  const DefaultOperator: string := "default"

  /** The key parse of transform(): delete every `)`, explode on `(`, trim
      the pieces, take the first as the field and the second (or "default"
      when there is none) as the operator. Pieces after the second are
      ignored. */
  function ParseKey(key: string): ParsedKey
  {
    var pieces := Split(RemoveAll(key, ')'), '(');
    var field := Trim(pieces[0]);
    var operator := if |pieces| >= 2 then Trim(pieces[1]) else DefaultOperator;
    ParsedKey(field, operator)
  }

  /** The field and operator never hold a parenthesis and never start or end
      with a trim character. */
  lemma ParseKeyClean(key: string)
    ensures var p := ParseKey(key);
      && '(' !in p.field && ')' !in p.field
      && '(' !in p.operator && ')' !in p.operator
      && IsTrimmed(p.field) && IsTrimmed(p.operator)
  {
    var pieces := Split(RemoveAll(key, ')'), '(');
    assert IsTrimmed(DefaultOperator) && '(' !in DefaultOperator && ')' !in DefaultOperator;
    SplitPieces(RemoveAll(key, ')'), '(');
    JoinSplit(RemoveAll(key, ')'), '(');
    JoinHolds(pieces, '(', 0);
    TrimKeeps(pieces[0]);
    if |pieces| >= 2 {
      JoinHolds(pieces, '(', 1);
      TrimKeeps(pieces[1]);
      assert ParseKey(key).operator == Trim(pieces[1]);
    } else {
      assert ParseKey(key).operator == DefaultOperator;
    }
  }

  /** A key with no `(` has operator "default" and, as its field, the whole
      key with its `)` deleted, trimmed. */
  lemma ParseKeyNoOperator(key: string)
    requires '(' !in key
    ensures ParseKey(key) == ParsedKey(Trim(RemoveAll(key, ')')), DefaultOperator)
  {
    RemoveAllKeeps(key, ')', '(');
    SplitNoSep(RemoveAll(key, ')'), '(');
  }

  /** When the key (with its `)` deleted) has its first `(` at index i and the
      next `(` at index j, or no further one and j is its length, the field is
      the trimmed text before i and the operator the trimmed text between i
      and j. */
  lemma ParseKeyPieces(key: string, s: string, i: nat, j: nat)
    requires s == RemoveAll(key, ')')
    requires i < j <= |s| && s[i] == '('
    requires '(' !in s[..i] && '(' !in s[i + 1..j]
    requires j == |s| || s[j] == '('
    ensures ParseKey(key) == ParsedKey(Trim(s[..i]), Trim(s[i + 1..j]))
  {
    SplitAround(s, i, j, '(');
  }

  /** With its first sep at i and the next at j (or none, j = |s|), the first
      two pieces of explode(sep, s) are s[..i] and s[i + 1..j]. */
  lemma SplitAround(s: string, i: nat, j: nat, sep: char)
    requires i < j <= |s| && s[i] == sep
    requires sep !in s[..i] && sep !in s[i + 1..j]
    requires j == |s| || s[j] == sep
    ensures var pieces := Split(s, sep);
      |pieces| >= 2 && pieces[0] == s[..i] && pieces[1] == s[i + 1..j]
  {
    var u := s[i + 1..];
    assert s == s[..i] + ([s[i]] + u);
    SplitPrefix(s[..i], [s[i]] + u, sep);
    SplitAtSep(u, sep);
    assert s[..i] + [] == s[..i];
    assert Split(s, sep) == [s[..i]] + Split(u, sep);
    assert u[..j - i - 1] == s[i + 1..j];
    assert j < |s| ==> u[j - i - 1] == s[j];
    SplitFirst(u, j - i - 1, sep);
  }

  /** Deleting `)` from `left(right)` leaves `left(right`. */
  lemma RemoveCloseOfKey(left: string, right: string)
    requires ')' !in left && ')' !in right
    ensures RemoveAll(left + "(" + right + ")", ')') == left + "(" + right
  {
    var open := "(" + right;
    assert RemoveAll(open, ')') == open by {
      RemoveAllAbsent(open, ')');
    }
    assert RemoveAll(left + open, ')') == left + open by {
      RemoveAllAppend(left, open, ')');
      RemoveAllAbsent(left, ')');
    }
    assert RemoveAll(")", ')') == [];
    assert left + "(" + right == left + open;
    RemoveAllAppend(left + open, ")", ')');
    assert left + open + [] == left + open;
  }

  /** A well-formed key round-trips: `field(operator)` padded with trim
      characters around the field and inside the parentheses parses back to
      exactly that field and operator. */
  lemma ParseKeyRoundTrip(field: string, operator: string, w1: string, w2: string, w3: string, w4: string)
    requires IsTrimmed(field) && IsTrimmed(operator)
    requires '(' !in field && ')' !in field && '(' !in operator && ')' !in operator
    requires AllTrimChars(w1) && AllTrimChars(w2) && AllTrimChars(w3) && AllTrimChars(w4)
    ensures ParseKey(w1 + field + w2 + "(" + w3 + operator + w4 + ")") == ParsedKey(field, operator)
  {
    var left, right := w1 + field + w2, w3 + operator + w4;
    var key := left + "(" + right + ")";
    assert w1 + field + w2 + "(" + w3 + operator + w4 + ")" == key;
    assert '(' !in left && ')' !in left && '(' !in right && ')' !in right by {
      assert !IsTrimChar('(') && !IsTrimChar(')');
    }
    RemoveCloseOfKey(left, right);
    var s := left + "(" + right;
    assert s[..|left|] == left && s[|left|] == '(' && s[|left| + 1..|s|] == right;
    ParseKeyPieces(key, s, |left|, |s|);
    TrimPadded(w1, field, w2);
    TrimPadded(w3, operator, w4);
  }

  /** A key without parentheses round-trips to that field and "default". */
  lemma ParseKeyDefaultRoundTrip(field: string, w1: string, w2: string)
    requires IsTrimmed(field) && '(' !in field && ')' !in field
    requires AllTrimChars(w1) && AllTrimChars(w2)
    ensures ParseKey(w1 + field + w2) == ParsedKey(field, DefaultOperator)
  {
    var key := w1 + field + w2;
    assert '(' !in key && ')' !in key by {
      assert !IsTrimChar('(') && !IsTrimChar(')');
    }
    RemoveAllAbsent(key, ')');
    SplitNoSep(key, '(');
    TrimPadded(w1, field, w2);
  }
}
