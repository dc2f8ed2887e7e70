/**
 * The JavaScript string operations the core relies on, stated over `string`
 * (a sequence of Unicode scalar values): the whitespace class shared by `\s`
 * and `trim`, `trim`/`trimStart`/`trimEnd`, `indexOf`, `includes`,
 * `startsWith`, `slice` with its clamping, `join`, a first-match `replace`
 * and `toUpperCase` restricted to Latin-1.
 */
module JsText {

  /** The characters JavaScript's `\s` and `String.prototype.trim` treat as white space. */
  predicate IsWhitespace(c: char) {
    c == '\t' || c == '\n' || c == '\U{B}' || c == '\U{C}' || c == '\r' || c == ' '
    || c == '\U{A0}' || c == '\U{1680}' || ('\U{2000}' <= c <= '\U{200A}')
    || c == '\U{2028}' || c == '\U{2029}' || c == '\U{202F}' || c == '\U{205F}'
    || c == '\U{3000}' || c == '\U{FEFF}'
  }

  /** The line terminators: the characters `.` does not match and `^` (multiline) follows. */
  predicate IsLineTerminator(c: char) {
    c == '\n' || c == '\r' || c == '\U{2028}' || c == '\U{2029}'
  }

  predicate NoWhitespace(s: string) {
    forall i :: 0 <= i < |s| ==> !IsWhitespace(s[i])
  }

  function TrimStart(s: string): (r: string)
    ensures |r| <= |s| && r == s[|s| - |r|..]
    ensures r == [] || !IsWhitespace(r[0])
    ensures forall i :: 0 <= i < |s| - |r| ==> IsWhitespace(s[i])
  {
    if |s| > 0 && IsWhitespace(s[0]) then TrimStart(s[1..]) else s
  }

  function TrimEnd(s: string): (r: string)
    ensures |r| <= |s| && r == s[..|r|]
    ensures r == [] || !IsWhitespace(r[|r| - 1])
    ensures forall i :: |r| <= i < |s| ==> IsWhitespace(s[i])
  {
    if |s| > 0 && IsWhitespace(s[|s| - 1]) then TrimEnd(s[..|s| - 1]) else s
  }

  /** `s.trim()`: white space removed from both ends. */
  function Trim(s: string): (r: string)
    ensures r == [] || (!IsWhitespace(r[0]) && !IsWhitespace(r[|r| - 1]))
    ensures |r| <= |s|
  {
    TrimEnd(TrimStart(s))
  }

  /**
   * What `trim` keeps: the slice of `s` from `a` to `b`, where everything
   * before `a` and from `b` on is white space. Together with the ends of the
   * result not being white space, this fixes `Trim(s)` for every `s`.
   */
  lemma TrimIsSlice(s: string)
    ensures exists a, b :: 0 <= a <= b <= |s| && Trim(s) == s[a..b]
              && (forall i :: 0 <= i < a ==> IsWhitespace(s[i]))
              && (forall i :: b <= i < |s| ==> IsWhitespace(s[i]))
  {
    var t := TrimStart(s);
    var r := TrimEnd(t);
    var a, b := |s| - |t|, |s| - |t| + |r|;
    assert forall i :: b <= i < |s| ==> s[i] == t[i - a];
    assert Trim(s) == s[a..b];
  }

  /** Leading white space followed by more text: `trimStart` skips it all. */
  lemma {:induction false} TrimStartWhite(w: string, v: string)
    requires forall i :: 0 <= i < |w| ==> IsWhitespace(w[i])
    ensures TrimStart(w + v) == TrimStart(v)
    decreases |w|
  {
    if w == [] {
      assert w + v == v;
    } else {
      assert (w + v)[1..] == w[1..] + v;
      TrimStartWhite(w[1..], v);
    }
  }

  /** When `u` holds something other than white space, `trimStart` stops inside it. */
  lemma {:induction false} TrimStartAppend(u: string, v: string)
    requires TrimStart(u) != []
    ensures TrimStart(u + v) == TrimStart(u) + v
    decreases |u|
  {
    if IsWhitespace(u[0]) {
      assert (u + v)[1..] == u[1..] + v;
      TrimStartAppend(u[1..], v);
    }
  }

  lemma {:induction false} TrimStartOfUntrimmed(s: string)
    requires s == [] || !IsWhitespace(s[0])
    ensures TrimStart(s) == s
  {
  }

  lemma {:induction false} TrimEndOfUntrimmed(s: string)
    requires s == [] || !IsWhitespace(s[|s| - 1])
    ensures TrimEnd(s) == s
  {
  }

  /** Trimming an already trimmed string changes nothing. */
  lemma TrimIdempotent(s: string)
    ensures Trim(Trim(s)) == Trim(s)
  {
    var r := Trim(s);
    TrimStartOfUntrimmed(r);
    TrimEndOfUntrimmed(r);
  }

  /** `s.trim()` is empty exactly when every character of `s` is white space. */
  lemma {:induction false} TrimEmptyIff(s: string)
    ensures Trim(s) == [] <==> forall i :: 0 <= i < |s| ==> IsWhitespace(s[i])
  {
    TrimIsSlice(s);
    if Trim(s) != [] {
      var a, b :| 0 <= a <= b <= |s| && Trim(s) == s[a..b]
                 && (forall i :: 0 <= i < a ==> IsWhitespace(s[i]));
      assert !IsWhitespace(Trim(s)[0]) && Trim(s)[0] == s[a];
    }
  }

  /** `s.startsWith(p)` */
  predicate StartsWith(s: string, p: string) {
    |p| <= |s| && s[..|p|] == p
  }

  predicate EndsWith(s: string, p: string) {
    |p| <= |s| && s[|s| - |p|..] == p
  }

  /** `p` occurs in `s` at position `i`. */
  predicate OccursAt(s: string, p: string, i: int) {
    0 <= i && i + |p| <= |s| && s[i..i + |p|] == p
  }

  /** `s.indexOf(p, from)`: the first position at or after `from` where `p` occurs, or -1. */
  function IndexOfFrom(s: string, p: string, from: nat): (r: int)
    ensures r == -1 || (from <= r && OccursAt(s, p, r))
    ensures forall j :: from <= j && (r == -1 || j < r) ==> !OccursAt(s, p, j)
    decreases |s| - from
  {
    if from + |p| > |s| then -1
    else if s[from..from + |p|] == p then from
    else IndexOfFrom(s, p, from + 1)
  }

  /** `s.indexOf(p)` */
  function IndexOf(s: string, p: string): (r: int)
    ensures r == -1 || OccursAt(s, p, r)
    ensures forall j :: 0 <= j && (r == -1 || j < r) ==> !OccursAt(s, p, j)
  {
    IndexOfFrom(s, p, 0)
  }

  /** `s.includes(p)` */
  predicate Contains(s: string, p: string) {
    IndexOf(s, p) >= 0
  }

  lemma ContainsIff(s: string, p: string)
    ensures Contains(s, p) <==> exists i :: OccursAt(s, p, i)
  {
  }

  lemma OccursAtAppend(a: string, b: string, p: string, i: int)
    requires OccursAt(a, p, i)
    ensures OccursAt(a + b, p, i) && OccursAt(b + a, p, |b| + i)
  {
    assert (a + b)[i..i + |p|] == a[i..i + |p|];
    assert (b + a)[|b| + i..|b| + i + |p|] == a[i..i + |p|];
  }

  /** What a string contains, it still contains with text added before or after it. */
  lemma ContainsAppend(a: string, b: string, p: string)
    requires Contains(a, p)
    ensures Contains(a + b, p) && Contains(b + a, p)
  {
    var i := IndexOf(a, p);
    OccursAtAppend(a, b, p, i);
  }

  lemma StartsWithOccurs(s: string, p: string)
    requires StartsWith(s, p)
    ensures OccursAt(s, p, 0) && Contains(s, p)
  {
  }

  /**
   * `s.slice(start, end)` for non-negative arguments: both ends are clamped
   * to the length, and an end before the start gives "".
   */
  function Slice(s: string, start: nat, end: nat): (r: string)
    ensures start <= end <= |s| ==> r == s[start..end]
    ensures |r| == if Min(end, |s|) <= start then 0 else Min(end, |s|) - start
  {
    var e := Min(end, |s|);
    if e <= start then [] else s[start..e]
  }

  function Min(a: int, b: int): int {
    if a <= b then a else b
  }

  /** `parts.join(sep)` */
  function Join(parts: seq<string>, sep: string): string
  {
    if |parts| == 0 then ""
    else if |parts| == 1 then parts[0]
    else parts[0] + sep + Join(parts[1..], sep)
  }

  /** Regrouping a concatenation, for proofs that would otherwise search for it. */
  lemma AppendAssoc<T>(a: seq<T>, b: seq<T>, c: seq<T>)
    ensures (a + b) + c == a + (b + c)
  {
  }

  lemma AppendAssoc3<T>(a: seq<T>, b: seq<T>, c: seq<T>, d: seq<T>)
    ensures ((a + b) + c) + d == a + ((b + c) + d)
  {
  }

  /** A sequence is its part before `i`, its element at `i` and its part after. */
  lemma SplitAround<T>(s: seq<T>, i: int)
    requires 0 <= i < |s|
    ensures s == s[..i] + [s[i]] + s[i + 1..]
  {
    assert s == s[..i] + s[i..];
    assert s[i..] == [s[i]] + s[i + 1..];
  }

  /** `parts.join("")` */
  function Concat(parts: seq<string>): string
  {
    if |parts| == 0 then "" else parts[0] + Concat(parts[1..])
  }

  lemma {:induction false} ConcatAppend(a: seq<string>, b: seq<string>)
    ensures Concat(a + b) == Concat(a) + Concat(b)
  {
    if |a| == 0 {
      assert a + b == b;
    } else {
      assert (a + b)[1..] == a[1..] + b;
      ConcatAppend(a[1..], b);
    }
  }

  /** `s.replace(p, q)` with a string pattern: only the first occurrence is replaced. */
  function ReplaceFirst(s: string, p: string, q: string): string
  {
    var i := IndexOf(s, p);
    if i < 0 then s else s[..i] + q + s[i + |p|..]
  }

  /**
   * The upper-case form of one character under `toUpperCase`, for the ASCII
   * and Latin-1 letters; every other character is returned unchanged.
   */
  function UpperChar(c: char): string {
    if 'a' <= c <= 'z' then [(c as int - 32) as char]
    else if ('\U{E0}' <= c <= '\U{FE}') && c != '\U{F7}' then [(c as int - 32) as char]
    else if c == '\U{DF}' then "SS"
    else if c == '\U{FF}' then "\U{178}"
    else if c == '\U{B5}' then "\U{39C}"
    else [c]
  }

  /** `s.toUpperCase()` over ASCII and Latin-1. */
  function ToUpper(s: string): string
  {
    if s == [] then [] else UpperChar(s[0]) + ToUpper(s[1..])
  }

  lemma {:induction false} ToUpperAppend(a: string, b: string)
    ensures ToUpper(a + b) == ToUpper(a) + ToUpper(b)
  {
    if a == [] {
      assert a + b == b;
    } else {
      assert (a + b)[1..] == a[1..] + b;
      ToUpperAppend(a[1..], b);
    }
  }

  /** Every character of `s` is `c`-free. */
  predicate Lacks(s: string, c: char) {
    forall i :: 0 <= i < |s| ==> s[i] != c
  }

  /** `xs.filter((x) => x !== v)` */
  function Without(xs: seq<string>, v: string): (r: seq<string>)
    ensures |r| <= |xs|
  {
    if xs == [] then [] else (if xs[0] == v then [] else [xs[0]]) + Without(xs[1..], v)
  }

  /** The filter drops exactly the occurrences of `v`. */
  lemma {:induction false} WithoutMembers(xs: seq<string>, v: string)
    ensures v !in Without(xs, v)
    ensures forall x :: x in xs && x != v ==> x in Without(xs, v)
    ensures forall x :: x in Without(xs, v) ==> x in xs
  {
    if xs != [] {
      WithoutMembers(xs[1..], v);
    }
  }

  lemma {:induction false} WithoutAppend(a: seq<string>, b: seq<string>, v: string)
    ensures Without(a + b, v) == Without(a, v) + Without(b, v)
  {
    if a == [] {
      assert a + b == b;
    } else {
      var head := if a[0] == v then [] else [a[0]];
      assert (a + b)[0] == a[0] && (a + b)[1..] == a[1..] + b;
      assert Without(a + b, v) == head + Without(a[1..] + b, v);
      WithoutAppend(a[1..], b, v);
      assert Without(a, v) == head + Without(a[1..], v);
    }
  }

  /** Filtering out a value that does not occur changes nothing. */
  lemma {:induction false} WithoutAbsent(xs: seq<string>, v: string)
    requires v !in xs
    ensures Without(xs, v) == xs
  {
    if xs != [] {
      WithoutAbsent(xs[1..], v);
    }
  }
}
