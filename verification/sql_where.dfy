/** SQL text assembled from optional filters: each active filter contributes
    one condition with `?` placeholders and the values bound to them, and
    the conditions are joined into a `WHERE` clause.  A condition is kept as
    the literal pieces between its placeholders, so the number of `?` in the
    rendered text can be counted without looking inside the literals. */
module SqlWhere {
  import opened Common

  /** The text `pieces[0] ? pieces[1] ? … ? pieces[n]` with `params` bound,
      in order, to its placeholders. */
  datatype Condition = Condition(pieces: seq<string>, params: seq<string>)

  /** One more piece than placeholders, and no `?` inside a piece. */
  predicate WellFormed(c: Condition)
  {
    |c.pieces| == |c.params| + 1 && forall i :: 0 <= i < |c.pieces| ==> '?' !in c.pieces[i]
  }

  predicate AllWellFormed(conds: seq<Condition>)
  {
    forall i :: 0 <= i < |conds| ==> WellFormed(conds[i])
  }

  function Text(c: Condition): string
  {
    Join(c.pieces, "?")
  }

  /** A filter query string counts as given when it is present and
      non-empty (JavaScript truthiness of a string). */
  predicate Given(o: Option<string>)
  {
    o.Some? && o.value != ""
  }

  /** What the route hands to the driver: the WHERE clause (possibly empty)
      and the values for its placeholders. */
  datatype Fragment = Fragment(whereSql: string, params: seq<string>)

  function Texts(conds: seq<Condition>): (r: seq<string>)
    ensures |r| == |conds|
    ensures forall i :: 0 <= i < |conds| ==> r[i] == Text(conds[i])
  {
    seq(|conds|, i requires 0 <= i < |conds| => Text(conds[i]))
  }

  function AllParams(conds: seq<Condition>): seq<string>
  {
    if |conds| == 0 then [] else conds[0].params + AllParams(conds[1..])
  }

  const Separator := " AND "
  const WherePrefix := "WHERE "

  /** `where.length ? 'WHERE ' + where.join(' AND ') : ''`. */
  function Where(conds: seq<Condition>): (f: Fragment)
    requires AllWellFormed(conds)
    ensures CountChar(f.whereSql, '?') == |f.params|
    ensures f.params == AllParams(conds)
    ensures |conds| == 0 <==> f.whereSql == ""
    ensures |conds| == 0 ==> f.params == []
    ensures |conds| > 0 ==> f.whereSql == WherePrefix + Join(Texts(conds), Separator)
  {
    if |conds| == 0 then Fragment("", [])
    else
      var body := Join(Texts(conds), Separator);
      assert '?' !in Separator && '?' !in WherePrefix;
      CountCharAbsent(Separator, '?');
      CountCharAbsent(WherePrefix, '?');
      CountCharJoin(Texts(conds), Separator, '?');
      TextsPlaceholders(conds);
      CountCharAppend(WherePrefix, body, '?');
      Fragment(WherePrefix + body, AllParams(conds))
  }

  /** Total occurrences of `c` over the parts. */
  function CountAll(parts: seq<string>, c: char): nat
  {
    if |parts| == 0 then 0 else CountChar(parts[0], c) + CountAll(parts[1..], c)
  }

  /** Joining adds the separator's occurrences once between neighbours. */
  lemma {:induction false} CountCharJoin(parts: seq<string>, sep: string, c: char)
    ensures |parts| > 0 ==>
      CountChar(Join(parts, sep), c) == CountAll(parts, c) + (|parts| - 1) * CountChar(sep, c)
  {
    if |parts| > 1 {
      CountCharJoin(parts[1..], sep, c);
      CountCharAppend(parts[0], sep, c);
      CountCharAppend(parts[0] + sep, Join(parts[1..], sep), c);
    }
  }

  /** A well-formed condition renders with exactly one `?` per value. */
  lemma TextPlaceholders(c: Condition)
    requires WellFormed(c)
    ensures CountChar(Text(c), '?') == |c.params|
  {
    CountCharJoin(c.pieces, "?", '?');
    NoneInPieces(c.pieces);
  }

  lemma {:induction false} NoneInPieces(pieces: seq<string>)
    requires forall i :: 0 <= i < |pieces| ==> '?' !in pieces[i]
    ensures CountAll(pieces, '?') == 0
  {
    if |pieces| > 0 {
      CountCharAbsent(pieces[0], '?');
      NoneInPieces(pieces[1..]);
    }
  }

  lemma {:induction false} TextsPlaceholders(conds: seq<Condition>)
    requires AllWellFormed(conds)
    ensures CountAll(Texts(conds), '?') == |AllParams(conds)|
  {
    if |conds| > 0 {
      TextPlaceholders(conds[0]);
      TextsPlaceholders(conds[1..]);
      assert Texts(conds)[1..] == Texts(conds[1..]);
    }
  }

  /** `if (given) where.push(c)`: the condition's text and values when its
      filter is given, nothing otherwise. */
  function When(given: bool, c: Condition): (r: seq<Condition>)
    ensures WellFormed(c) ==> AllWellFormed(r)
    ensures Texts(r) == if given then [Text(c)] else []
    ensures AllParams(r) == if given then c.params else []
  {
    if given then
      assert AllParams([c]) == c.params + AllParams([]);
      [c]
    else []
  }

  /** A one-placeholder condition `column ?` bound to the filter's value. */
  function Compare(column: string, v: Option<string>): (c: Condition)
    ensures WellFormed(c) <==> '?' !in column
    ensures Text(c) == column + "?"
    ensures c.params == [OrEmpty(v)]
  {
    var c := Condition([column, ""], [OrEmpty(v)]);
    assert Join(c.pieces, "?") == column + "?" + Join([""], "?");
    c
  }

  /** The value list of one optional single-value filter. */
  function ParamOf(v: Option<string>): (r: seq<string>)
    ensures Given(v) ==> r == [v.value]
    ensures !Given(v) ==> r == []
  {
    if Given(v) then [v.value] else []
  }

  /** The condition text `column ?` of one optional filter. */
  function TextOf(v: Option<string>, column: string): (r: seq<string>)
    ensures Given(v) ==> r == [column + "?"]
    ensures !Given(v) ==> r == []
  {
    if Given(v) then [column + "?"] else []
  }

  /** `if (v) where.push('column ?')`: renders as `column ?` and binds `v`. */
  function Optional(v: Option<string>, column: string): (r: seq<Condition>)
    requires '?' !in column
    ensures AllWellFormed(r)
    ensures Texts(r) == TextOf(v, column)
    ensures AllParams(r) == ParamOf(v)
  {
    When(Given(v), Compare(column, v))
  }

  /** Pushing the conditions of `b` after those of `a`. */
  lemma Append(a: seq<Condition>, b: seq<Condition>)
    requires AllWellFormed(a) && AllWellFormed(b)
    ensures AllWellFormed(a + b)
    ensures Texts(a + b) == Texts(a) + Texts(b)
    ensures AllParams(a + b) == AllParams(a) + AllParams(b)
  {
    TextsAppend(a, b);
    AllParamsAppend(a, b);
  }

  lemma TextsAppend(a: seq<Condition>, b: seq<Condition>)
    ensures Texts(a + b) == Texts(a) + Texts(b)
  {
  }

  lemma {:induction false} AllParamsAppend(a: seq<Condition>, b: seq<Condition>)
    ensures AllParams(a + b) == AllParams(a) + AllParams(b)
  {
    if |a| > 0 {
      assert (a + b)[1..] == a[1..] + b;
      AllParamsAppend(a[1..], b);
    } else {
      assert a + b == b;
    }
  }
}
