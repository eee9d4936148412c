/** Shared vocabulary of the warehouse model: optional values, the host
    services the browser and the server lean on (case mapping, the `\s`
    class, number parsing), and the handful of sequence and string
    operations every view repeats (`filter`, `includes`, `trim`, `reduce`). */
module Common {

  datatype Option<T> = None | Some(value: T)

  /** A value or the error the source throws or answers instead. */
  datatype Result<T, E> = Ok(value: T) | Err(error: E)

  /** `s || ''` for an optional text field. */
  function OrEmpty(s: Option<string>): (r: string)
    ensures s.None? ==> r == ""
    ensures s.Some? ==> r == s.value
  {
    if s.Some? then s.value else ""
  }

  /** Services of the JavaScript host that the model keeps abstract:
      Unicode case mapping (`toLowerCase`/`toUpperCase`), the regular
      expression class `\s` (also used by `trim`), and `parseInt` /
      `parseFloat`, where `None` stands for `NaN`. */
  datatype Env = Env(
    lower: char -> char,
    upper: char -> char,
    isSpace: char -> bool,
    parseInt: string -> Option<int>,
    parseFloat: string -> Option<real>)

  // ---------------------------------------------------------------------
  // Sequences

  /** `a` can be obtained from `b` by deleting elements. */
  ghost predicate SubseqOf<T>(a: seq<T>, b: seq<T>)
    decreases |b|
  {
    if |a| == 0 then true
    else if |b| == 0 then false
    else (a[0] == b[0] && SubseqOf(a[1..], b[1..])) || SubseqOf(a, b[1..])
  }

  /** Every list is a subsequence of itself. */
  lemma {:induction false} SubseqRefl<T>(s: seq<T>)
    ensures SubseqOf(s, s)
  {
    if |s| > 0 {
      SubseqRefl(s[1..]);
    }
  }

  /** `Array.prototype.filter`: keeps, in order, the elements satisfying `p`. */
  function Filter<T(!new)>(s: seq<T>, p: T -> bool): (r: seq<T>)
    ensures |r| <= |s|
    ensures SubseqOf(r, s)
    ensures forall i :: 0 <= i < |r| ==> p(r[i])
    ensures forall x :: x in r <==> x in s && p(x)
    ensures (forall x :: x in s ==> p(x)) ==> r == s
  {
    if |s| == 0 then []
    else if p(s[0]) then [s[0]] + Filter(s[1..], p)
    else Filter(s[1..], p)
  }

  lemma {:induction false} FilterAppend<T(!new)>(a: seq<T>, b: seq<T>, p: T -> bool)
    ensures Filter(a + b, p) == Filter(a, p) + Filter(b, p)
  {
    if |a| == 0 {
      assert a + b == b;
    } else {
      assert (a + b)[1..] == a[1..] + b;
      FilterAppend(a[1..], b, p);
    }
  }

  /** Filtering depends only on which elements the predicate accepts. */
  lemma {:induction false} FilterSamePredicate<T(!new)>(s: seq<T>, p: T -> bool, q: T -> bool)
    requires forall x :: x in s ==> p(x) == q(x)
    ensures Filter(s, p) == Filter(s, q)
  {
    if |s| > 0 {
      FilterSamePredicate(s[1..], p, q);
    }
  }

  /** Filtering out a single position shortens the list by one. */
  lemma {:induction false} FilterDropsOne<T(!new)>(s: seq<T>, k: nat, p: T -> bool)
    requires k < |s| && !p(s[k])
    requires forall i :: 0 <= i < |s| && i != k ==> p(s[i])
    ensures |Filter(s, p)| == |s| - 1
  {
    if k == 0 {
      assert forall x :: x in s[1..] ==> p(x);
    } else {
      FilterDropsOne(s[1..], k - 1, p);
    }
  }

  /** SQL `DISTINCT`: each element once, at its first occurrence; a list
      without repeats is left as it is. */
  function Distinct<T(==,!new)>(s: seq<T>): (r: seq<T>)
    ensures |r| <= |s|
    ensures forall x :: x in r <==> x in s
    ensures forall i, j :: 0 <= i < j < |r| ==> r[i] != r[j]
    ensures (forall i, j :: 0 <= i < j < |s| ==> s[i] != s[j]) ==> r == s
    decreases |s|
  {
    if |s| == 0 then []
    else
      var init := s[..|s| - 1];
      var last := s[|s| - 1];
      assert s == init + [last];
      var d := Distinct(init);
      if last in d then d else d + [last]
  }

  /** `filter(p).length`. */
  function Count<T(!new)>(s: seq<T>, p: T -> bool): (n: nat)
    ensures n <= |s|
    ensures n == 0 <==> forall x :: x in s ==> !p(x)
  {
    |Filter(s, p)|
  }

  /** `reduce((sum, x) => sum + f(x), 0)`. */
  function SumOf<T>(s: seq<T>, f: T -> int): int
  {
    if |s| == 0 then 0 else f(s[0]) + SumOf(s[1..], f)
  }

  lemma {:induction false} SumOfAppend<T>(a: seq<T>, b: seq<T>, f: T -> int)
    ensures SumOf(a + b, f) == SumOf(a, f) + SumOf(b, f)
  {
    if |a| == 0 {
      assert a + b == b;
    } else {
      assert (a + b)[1..] == a[1..] + b;
      SumOfAppend(a[1..], b, f);
    }
  }

  lemma {:induction false} SumOfNonNegative<T>(s: seq<T>, f: T -> int)
    requires forall x :: x in s ==> f(x) >= 0
    ensures SumOf(s, f) >= 0
  {
    if |s| > 0 {
      SumOfNonNegative(s[1..], f);
    }
  }

  /** `findIndex`: the first position whose element satisfies `p`. */
  function FindIndex<T>(s: seq<T>, p: T -> bool): (r: Option<nat>)
    ensures r.None? <==> forall i :: 0 <= i < |s| ==> !p(s[i])
    ensures r.Some? ==> r.value < |s| && p(s[r.value])
    ensures r.Some? ==> forall i :: 0 <= i < r.value ==> !p(s[i])
  {
    if |s| == 0 then None
    else if p(s[0]) then Some(0)
    else match FindIndex(s[1..], p)
      case None => None
      case Some(i) => Some(i + 1)
  }

  /** `Array.prototype.map`. */
  function Map<A, B>(s: seq<A>, f: A -> B): (r: seq<B>)
    ensures |r| == |s|
    ensures forall i :: 0 <= i < |s| ==> r[i] == f(s[i])
  {
    seq(|s|, i requires 0 <= i < |s| => f(s[i]))
  }

  /** `splice(i, 1)`. */
  function RemoveAt<T>(s: seq<T>, i: nat): (r: seq<T>)
    requires i < |s|
    ensures |r| == |s| - 1
    ensures forall k :: 0 <= k < i ==> r[k] == s[k]
    ensures forall k :: i <= k < |r| ==> r[k] == s[k + 1]
  {
    s[..i] + s[i + 1..]
  }

  /** The largest of `xs` and `floor`: `Math.max(...xs, floor)`. */
  function MaxOr(xs: seq<int>, floor: int): (m: int)
    ensures m >= floor
    ensures forall i :: 0 <= i < |xs| ==> xs[i] <= m
    ensures m == floor || exists i :: 0 <= i < |xs| && xs[i] == m
  {
    if |xs| == 0 then floor
    else
      var rest := MaxOr(xs[1..], floor);
      assert forall i :: 1 <= i < |xs| ==> xs[i] == xs[1..][i - 1];
      if xs[0] > rest then xs[0] else rest
  }

  // ---------------------------------------------------------------------
  // Strings

  /** `table[key] || key`: the label or translation a table gives a key,
      the key itself when the entry is missing or empty. */
  function LabelOf(table: map<string, string>, key: string): (r: string)
    ensures key !in table ==> r == key
    ensures key in table && table[key] != "" ==> r == table[key]
    ensures key in table && table[key] == "" ==> r == key
  {
    if key in table && table[key] != "" then table[key] else key
  }

  predicate HasPrefix(s: string, p: string)
  {
    |p| <= |s| && s[..|p|] == p
  }

  /** `String.prototype.includes`. */
  predicate Contains(s: string, sub: string)
    decreases |s|
  {
    HasPrefix(s, sub) || (|s| > 0 && Contains(s[1..], sub))
  }

  lemma {:induction false} ContainsEmpty(s: string)
    ensures Contains(s, "")
  {
  }

  /** `toLowerCase`, character by character through the host's mapping. */
  function Lower(env: Env, s: string): (r: string)
    ensures |r| == |s|
    ensures forall i :: 0 <= i < |s| ==> r[i] == env.lower(s[i])
  {
    seq(|s|, i requires 0 <= i < |s| => env.lower(s[i]))
  }

  /** `toUpperCase`. */
  function Upper(env: Env, s: string): (r: string)
    ensures |r| == |s|
    ensures forall i :: 0 <= i < |s| ==> r[i] == env.upper(s[i])
  {
    seq(|s|, i requires 0 <= i < |s| => env.upper(s[i]))
  }

  function TrimStart(env: Env, s: string): (r: string)
    ensures |r| <= |s|
    ensures |r| > 0 ==> !env.isSpace(r[0])
    ensures r == s[|s| - |r|..]
    ensures forall i :: 0 <= i < |s| - |r| ==> env.isSpace(s[i])
  {
    if |s| > 0 && env.isSpace(s[0]) then TrimStart(env, s[1..]) else s
  }

  function TrimEnd(env: Env, s: string): (r: string)
    ensures |r| <= |s|
    ensures |r| > 0 ==> !env.isSpace(r[|r| - 1])
    ensures r == s[..|r|]
    ensures forall i :: |r| <= i < |s| ==> env.isSpace(s[i])
  {
    if |s| > 0 && env.isSpace(s[|s| - 1]) then TrimEnd(env, s[..|s| - 1]) else s
  }

  /** `String.prototype.trim`. */
  function Trim(env: Env, s: string): string
  {
    TrimEnd(env, TrimStart(env, s))
  }

  /** A string whose `trim()` is empty: every character is white space. */
  lemma TrimEmptyIffBlank(env: Env, s: string)
    ensures Trim(env, s) == "" <==> forall i :: 0 <= i < |s| ==> env.isSpace(s[i])
  {
    var t := TrimStart(env, s);
    if Trim(env, s) == "" {
      // TrimStart leaves a non-space first character, so TrimEnd had nothing
      assert |t| == 0;
    } else {
      var r := Trim(env, s);
      assert r[0] == t[0];
      assert t[0] == s[|s| - |t|];
    }
  }

  /** A string that neither starts nor ends with white space is its own
      `trim()`. */
  lemma TrimKeepsInner(env: Env, s: string)
    requires |s| > 0 ==> !env.isSpace(s[0]) && !env.isSpace(s[|s| - 1])
    ensures Trim(env, s) == s
  {
  }

  /** `arr.join(sep)`. */
  function Join(parts: seq<string>, sep: string): string
  {
    if |parts| == 0 then ""
    else if |parts| == 1 then parts[0]
    else parts[0] + sep + Join(parts[1..], sep)
  }

  /** `s.split(sep)` for a one-character separator: the pieces between
      separators, always at least one. */
  function Split(s: string, sep: char): (r: seq<string>)
    ensures |r| >= 1
    ensures forall i :: 0 <= i < |r| ==> sep !in r[i]
  {
    if |s| == 0 then [""]
    else
      var rest := Split(s[1..], sep);
      if s[0] == sep then [""] + rest
      else [[s[0]] + rest[0]] + rest[1..]
  }

  /** Joining the pieces of a split with the separator gives back the text. */
  lemma {:induction false} JoinSplit(s: string, sep: char)
    ensures Join(Split(s, sep), [sep]) == s
  {
    if |s| > 0 {
      var rest := Split(s[1..], sep);
      JoinSplit(s[1..], sep);
      if s[0] == sep {
        assert ([""] + rest)[1..] == rest;
        assert s == [sep] + s[1..];
      } else if |rest| == 1 {
        assert s == [s[0]] + s[1..];
      } else {
        var r := Split(s, sep);
        assert r[1..] == rest[1..];
        assert Join(rest, [sep]) == rest[0] + [sep] + Join(rest[1..], [sep]);
        assert s == [s[0]] + s[1..];
      }
    }
  }

  /** Splitting text free of the separator yields the text alone. */
  lemma {:induction false} SplitNoSeparator(s: string, sep: char)
    requires sep !in s
    ensures Split(s, sep) == [s]
  {
    if |s| > 0 {
      SplitNoSeparator(s[1..], sep);
      assert s == [s[0]] + s[1..];
    }
  }

  /** A separator-free prefix followed by the separator splits off as one
      piece. */
  lemma {:induction false} SplitAfterPiece(a: string, b: string, sep: char)
    requires sep !in a
    ensures Split(a + [sep] + b, sep) == [a] + Split(b, sep)
  {
    if |a| == 0 {
      assert a + [sep] + b == [sep] + b;
      assert ([sep] + b)[1..] == b;
    } else {
      assert (a + [sep] + b)[1..] == a[1..] + [sep] + b;
      SplitAfterPiece(a[1..], b, sep);
      assert a == [a[0]] + a[1..];
    }
  }

  /** Splitting the join of separator-free pieces recovers the pieces. */
  lemma {:induction false} SplitJoin(parts: seq<string>, sep: char)
    requires |parts| >= 1
    requires forall i :: 0 <= i < |parts| ==> sep !in parts[i]
    ensures Split(Join(parts, [sep]), sep) == parts
  {
    if |parts| == 1 {
      SplitNoSeparator(parts[0], sep);
    } else {
      SplitJoin(parts[1..], sep);
      SplitAfterPiece(parts[0], Join(parts[1..], [sep]), sep);
      assert parts == [parts[0]] + parts[1..];
    }
  }

  /** Number of occurrences of `c` in `s`. */
  function CountChar(s: string, c: char): nat
  {
    if |s| == 0 then 0 else (if s[0] == c then 1 else 0) + CountChar(s[1..], c)
  }

  lemma {:induction false} CountCharAppend(a: string, b: string, c: char)
    ensures CountChar(a + b, c) == CountChar(a, c) + CountChar(b, c)
  {
    if |a| == 0 {
      assert a + b == b;
    } else {
      assert (a + b)[1..] == a[1..] + b;
      CountCharAppend(a[1..], b, c);
    }
  }

  lemma {:induction false} CountCharAbsent(s: string, c: char)
    requires c !in s
    ensures CountChar(s, c) == 0
  {
    if |s| > 0 {
      CountCharAbsent(s[1..], c);
    }
  }

  predicate IsDigit(c: char) { '0' <= c <= '9' }

  /** Decimal rendering of a natural number, as template literals print it. */
  function NatToString(n: nat): (r: string)
    ensures |r| >= 1
    ensures forall i :: 0 <= i < |r| ==> IsDigit(r[i])
  {
    var d := ['0', '1', '2', '3', '4', '5', '6', '7', '8', '9'][n % 10];
    if n < 10 then [d] else NatToString(n / 10) + [d]
  }

  /** Decimal rendering of an integer, with a leading '-' when negative. */
  function IntToString(n: int): (r: string)
    ensures |r| >= 1
    ensures forall i :: 0 <= i < |r| ==> IsDigit(r[i]) || r[i] == '-'
  {
    if n < 0 then "-" + NatToString(-n) else NatToString(n)
  }
}
