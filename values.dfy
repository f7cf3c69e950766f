/** Values the employee system passes around: Java objects held in attribute maps and
    bound to statements, and the string operations the code applies to them. */
module Values {

  datatype Option<T> = None | Some(value: T)

  /** A Java value stored in a dynamic attribute map. The type is closed: `Str` is a
      `String`, `Int` an `Integer`, `Dec` a `Double` (identified by its canonical
      `toString` text, so no floating-point arithmetic is modelled), `Bool` a `Boolean`,
      `Null` is Java `null` and `Other` any other object, identified by its `toString`. */
  datatype Value = Str(s: string) | Int(i: int) | Dec(text: string) | Bool(b: bool) | Null | Other(text: string)

  /** The text Java's `String.valueOf` gives for a value. */
  function ValueText(v: Value): string {
    match v
    case Str(s) => s
    case Int(i) => IntText(i)
    case Dec(t) => t
    case Bool(b) => if b then "true" else "false"
    case Null => "null"
    case Other(t) => t
  }

  function DigitChar(d: int): (c: char)
    requires 0 <= d < 10
    ensures '0' <= c <= '9'
  {
    "0123456789"[d]
  }

  /** Decimal digits of a natural number, most significant first. */
  function NatText(n: nat): (r: string)
    ensures |r| > 0
    ensures forall k :: 0 <= k < |r| ==> '0' <= r[k] <= '9'
    decreases n
  {
    if n < 10 then [DigitChar(n)] else NatText(n / 10) + [DigitChar(n % 10)]
  }

  /** Java's `Integer.toString`: a minus sign before the digits of a negative number. */
  function IntText(i: int): string {
    if i < 0 then "-" + NatText(-i) else NatText(i)
  }

  function UpperChar(c: char): char {
    if 'a' <= c <= 'z' then (c as int - 32) as char else c
  }

  function LowerChar(c: char): char {
    if 'A' <= c <= 'Z' then (c as int + 32) as char else c
  }

  /** `String.toUpperCase` restricted to ASCII letters. */
  function Upper(s: string): (r: string)
    ensures |r| == |s|
    ensures forall k :: 0 <= k < |s| ==> r[k] == UpperChar(s[k])
  {
    seq(|s|, k requires 0 <= k < |s| => UpperChar(s[k]))
  }

  /** `String.toLowerCase` restricted to ASCII letters. */
  function Lower(s: string): (r: string)
    ensures |r| == |s|
    ensures forall k :: 0 <= k < |s| ==> r[k] == LowerChar(s[k])
  {
    seq(|s|, k requires 0 <= k < |s| => LowerChar(s[k]))
  }

  /** t occurs in s starting at index k. */
  predicate OccursAt(s: string, t: string, k: int) {
    0 <= k && k + |t| <= |s| && s[k..k + |t|] == t
  }

  /** `s.contains(t)`: t occurs in s at some position. */
  predicate Contains(s: string, t: string) {
    exists k :: 0 <= k <= |s| && OccursAt(s, t, k)
  }

  /** An occurrence in a string is still one after text is appended. */
  lemma OccursAtAppend(a: string, b: string, t: string, k: int)
    requires OccursAt(a, t, k)
    ensures OccursAt(a + b, t, k)
  {
    assert (a + b)[k..k + |t|] == a[k..k + |t|];
  }

  /** An occurrence in a string is still one, shifted, after text is prepended. */
  lemma OccursAtPrepend(a: string, b: string, t: string, k: int)
    requires OccursAt(b, t, k)
    ensures OccursAt(a + b, t, |a| + k)
  {
    assert (a + b)[|a| + k..|a| + k + |t|] == b[k..k + |t|];
  }

  /** The last part of a concatenation occurs in it. */
  lemma OccursAtEnd(a: string, t: string)
    ensures OccursAt(a + t, t, |a|)
  {
    assert (a + t)[|a|..|a| + |t|] == t;
  }

  /** `s.indexOf(c, from)`: the first index at or after `from` (a negative `from` counts
      as 0) holding c, or -1 when there is none. */
  function IndexOfFrom(s: string, c: char, from: int): (r: int)
    ensures -1 <= r < |s|
    ensures r >= 0 ==> r >= from && s[r] == c && forall k :: 0 <= k && from <= k < r ==> s[k] != c
    ensures r == -1 ==> forall k :: from <= k < |s| && 0 <= k ==> s[k] != c
    decreases |s| - from
  {
    if from < 0 then IndexOfFrom(s, c, 0)
    else if from >= |s| then -1
    else if s[from] == c then from
    else IndexOfFrom(s, c, from + 1)
  }

  /** `s.lastIndexOf(c)`: the last index holding c, or -1 when there is none. */
  function LastIndexOf(s: string, c: char): (r: int)
    ensures -1 <= r < |s|
    ensures r >= 0 ==> s[r] == c
    ensures forall k :: r < k < |s| ==> s[k] != c
  {
    if |s| == 0 then -1
    else if s[|s| - 1] == c then |s| - 1
    else LastIndexOf(s[..|s| - 1], c)
  }

  /** Number of occurrences of c in s. */
  function CountChar(s: string, c: char): nat {
    if |s| == 0 then 0 else (if s[0] == c then 1 else 0) + CountChar(s[1..], c)
  }

  lemma {:induction false} CountCharAppend(a: string, b: string, c: char)
    ensures CountChar(a + b, c) == CountChar(a, c) + CountChar(b, c)
  {
    if |a| == 0 {
      assert a + b == b;
    } else {
      assert (a + b)[1..] == a[1..] + b;
      CountCharAppend(a[1..], b, c);
    }
  }

  lemma {:induction false} CountCharAbsent(s: string, c: char)
    requires c !in s
    ensures CountChar(s, c) == 0
  {
    if |s| > 0 {
      assert s[0] != c;
      assert forall k :: 0 <= k < |s[1..]| ==> s[1..][k] == s[k + 1];
      CountCharAbsent(s[1..], c);
    }
  }

  /** The parts separated by `sep`, as a loop that appends a separator before every
      part but the first produces. */
  function Join(parts: seq<string>, sep: string): string {
    if |parts| == 0 then ""
    else if |parts| == 1 then parts[0]
    else Join(parts[..|parts| - 1], sep) + sep + parts[|parts| - 1]
  }

  /** Joining two non-empty lists puts exactly one separator between them: the result
      has no leading or trailing separator and every part appears once, in order. */
  lemma {:induction false} JoinAppend(a: seq<string>, b: seq<string>, sep: string)
    requires |a| > 0 && |b| > 0
    ensures Join(a + b, sep) == Join(a, sep) + sep + Join(b, sep)
    decreases |b|
  {
    var ab := a + b;
    if |b| == 1 {
      assert ab[..|ab| - 1] == a;
    } else {
      var b' := b[..|b| - 1];
      assert ab[..|ab| - 1] == a + b';
      assert b'[..|b'|] == b';
      JoinAppend(a, b', sep);
      assert b[..|b| - 1] == b';
    }
  }

  /** The pieces of s between occurrences of c (n occurrences give n + 1 pieces). */
  function SplitOn(s: string, c: char): (pieces: seq<string>)
    ensures |pieces| > 0
  {
    if |s| == 0 then [""]
    else if s[|s| - 1] == c then SplitOn(s[..|s| - 1], c) + [""]
    else
      var r := SplitOn(s[..|s| - 1], c);
      r[..|r| - 1] + [r[|r| - 1] + [s[|s| - 1]]]
  }

  /** A string without c is one piece. */
  lemma {:induction false} SplitWithout(s: string, c: char)
    requires c !in s
    ensures SplitOn(s, c) == [s]
  {
    if |s| > 0 {
      var init := s[..|s| - 1];
      assert s[|s| - 1] in s;
      assert forall x :: x in init ==> x in s;
      SplitWithout(init, c);
      assert init + [s[|s| - 1]] == s;
    }
  }

  /** Appending c and then a piece without c adds that piece. */
  lemma {:induction false} SplitAfter(x: string, a: string, c: char)
    requires c !in a
    ensures SplitOn(x + [c] + a, c) == SplitOn(x, c) + [a]
    decreases |a|
  {
    var s := x + [c] + a;
    if |a| == 0 {
      assert s == x + [c];
      assert s[..|s| - 1] == x;
    } else {
      var a' := a[..|a| - 1];
      assert forall y :: y in a' ==> y in a;
      assert a[|a| - 1] in a;
      SplitAfter(x, a', c);
      assert s[..|s| - 1] == x + [c] + a';
      assert a' + [a[|a| - 1]] == a;
    }
  }

  /** `order` lists every key of `keys` exactly once: how a Java map's entry set is
      visited by a loop, in whatever order its hash table gives. */
  predicate Enumerates<T(==)>(order: seq<T>, keys: set<T>) {
    && (forall k :: k in keys ==> k in order)
    && (forall i :: 0 <= i < |order| ==> order[i] in keys)
    && (forall i, j :: 0 <= i < j < |order| ==> order[i] != order[j])
  }
}
