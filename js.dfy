/**
 * The few JavaScript values and built-ins the conformance checks rely on:
 * optional values (what `?.` and a missing JSON member give), the
 * three-way value handed to `report`, and the string and array methods
 * the checks call (`trim`, the `\s` class, `startsWith`, `includes`, `some`).
 */
module Js {

  /** A JSON member that may be missing. Where a member is read through
      `?.`, `!= null` or `===` against a string, JSON `null` behaves as a
      missing member and is `None` as well. */
  datatype Option<T> = None | Some(value: T)

  /** A value, or the error a `throw` would raise instead. */
  datatype Result<T, E> = Ok(value: T) | Err(error: E)

  /** The JavaScript value passed to `report` as a status. */
  datatype JsValue =
    | Undefined
    | Null
    | Boolean(b: bool)
    | Number(n: int)
    | Text(s: string)
    | Object

  /** The characters of the regular-expression class `\s`, which are also
      the characters `String.prototype.trim` removes: WhiteSpace (tab,
      vertical tab, form feed, space, no-break space, byte order mark and
      the Unicode space separators) and LineTerminator. */
  predicate IsSpace(c: char) {
    var n := c as int;
    n == 0x09 || n == 0x0A || n == 0x0B || n == 0x0C || n == 0x0D ||
    n == 0x20 || n == 0xA0 || n == 0x1680 || (0x2000 <= n <= 0x200A) ||
    n == 0x2028 || n == 0x2029 || n == 0x202F || n == 0x205F ||
    n == 0x3000 || n == 0xFEFF
  }

  predicate AllSpaces(s: string) {
    forall k :: 0 <= k < |s| ==> IsSpace(s[k])
  }

  /** `s.trimStart()`, and what `\s*` consumes at the start of `s`. */
  function TrimStart(s: string): (r: string)
    ensures |r| <= |s|
  {
    if s != [] && IsSpace(s[0]) then TrimStart(s[1..]) else s
  }

  /** `TrimStart` keeps a suffix of `s`, removes only spaces, and leaves no
      space at the front. */
  lemma {:induction false} TrimStartSpec(s: string)
    ensures TrimStart(s) == s[|s| - |TrimStart(s)|..]
    ensures AllSpaces(s[..|s| - |TrimStart(s)|])
    ensures TrimStart(s) == [] || !IsSpace(TrimStart(s)[0])
  {
    if s != [] && IsSpace(s[0]) {
      TrimStartSpec(s[1..]);
      assert s[..|s| - |TrimStart(s)|] == [s[0]] + s[1..][..|s| - 1 - |TrimStart(s)|];
    }
  }

  /** `s.trimEnd()`. */
  function TrimEnd(s: string): (r: string)
    ensures |r| <= |s|
  {
    if s != [] && IsSpace(s[|s| - 1]) then TrimEnd(s[..|s| - 1]) else s
  }

  /** `TrimEnd` keeps a prefix of `s`, removes only spaces, and leaves no
      space at the back. */
  lemma {:induction false} TrimEndSpec(s: string)
    ensures TrimEnd(s) == s[..|TrimEnd(s)|]
    ensures AllSpaces(s[|TrimEnd(s)|..])
    ensures TrimEnd(s) == [] || !IsSpace(TrimEnd(s)[|TrimEnd(s)| - 1])
  {
    if s != [] && IsSpace(s[|s| - 1]) {
      var t := s[..|s| - 1];
      TrimEndSpec(t);
      assert s[|TrimEnd(s)|..] == t[|TrimEnd(t)|..] + [s[|s| - 1]];
    }
  }

  /** `s.trim()`. */
  function Trim(s: string): string {
    TrimEnd(TrimStart(s))
  }

  /** Leading spaces are exactly what `TrimStart` removes. */
  lemma {:induction false} TrimStartPadded(w: string, s: string)
    requires AllSpaces(w)
    requires s == [] || !IsSpace(s[0])
    ensures TrimStart(w + s) == s
  {
    if w != [] {
      assert (w + s)[1..] == w[1..] + s;
      TrimStartPadded(w[1..], s);
    }
  }

  /** Trailing spaces are exactly what `TrimEnd` removes. */
  lemma {:induction false} TrimEndPadded(s: string, w: string)
    requires AllSpaces(w)
    requires s == [] || !IsSpace(s[|s| - 1])
    ensures TrimEnd(s + w) == s
  {
    if w != [] {
      assert (s + w)[..|s + w| - 1] == s + w[..|w| - 1];
      TrimEndPadded(s, w[..|w| - 1]);
    } else {
      assert s + w == s;
    }
  }

  /** `trim` gives back the text between surrounding runs of spaces. */
  lemma TrimPadded(w1: string, s: string, w2: string)
    requires AllSpaces(w1) && AllSpaces(w2)
    requires s != [] && !IsSpace(s[0]) && !IsSpace(s[|s| - 1])
    ensures Trim(w1 + s + w2) == s
  {
    assert w1 + s + w2 == w1 + (s + w2);
    TrimStartPadded(w1, s + w2);
    TrimEndPadded(s, w2);
  }

  /** Text that neither starts nor ends with a space is its own `trim`. */
  lemma TrimUnpadded(s: string)
    requires s != [] && !IsSpace(s[0]) && !IsSpace(s[|s| - 1])
    ensures Trim(s) == s
  {
    assert TrimStart(s) == s;
  }

  /** The position of the first `c` in `s`, or `|s|` when there is none. */
  function IndexOf(s: string, c: char): (i: nat)
    ensures i <= |s|
  {
    if s == [] then 0
    else if s[0] == c then 0
    else 1 + IndexOf(s[1..], c)
  }

  /** `IndexOf` finds the first `c`: none comes before it, and it is a `c`
      unless it is the length. */
  lemma {:induction false} IndexOfSpec(s: string, c: char)
    ensures c !in s[..IndexOf(s, c)]
    ensures IndexOf(s, c) < |s| ==> s[IndexOf(s, c)] == c
  {
    if s != [] && s[0] != c {
      IndexOfSpec(s[1..], c);
      assert s[..IndexOf(s, c)] == [s[0]] + s[1..][..IndexOf(s[1..], c)];
    }
  }

  /** The facts `IndexOfSpec` states determine the position. */
  lemma {:induction false} IndexOfIs(s: string, c: char, i: nat)
    requires i <= |s| && c !in s[..i]
    requires i < |s| ==> s[i] == c
    ensures IndexOf(s, c) == i
  {
    if s != [] && i > 0 {
      assert s[0] in s[..i];
      assert s[1..][..i - 1] == s[..i][1..];
      IndexOfIs(s[1..], c, i - 1);
    }
  }

  /** `s.startsWith(prefix)`, comparing position by position. */
  function StartsWith(s: string, prefix: string): (b: bool)
    ensures b <==> prefix <= s
  {
    if prefix == [] then true
    else if s == [] then false
    else s[0] == prefix[0] && StartsWith(s[1..], prefix[1..])
  }

  /** `xs.includes(x)` for an array of strings (strict equality). */
  function Includes(xs: seq<string>, x: string): (b: bool)
    ensures b <==> x in xs
  {
    if xs == [] then false else xs[0] == x || Includes(xs[1..], x)
  }

  /** `xs.some(alg => options.includes(alg))`. */
  function SomeIn(xs: seq<string>, options: seq<string>): (b: bool)
    ensures b <==> exists k :: 0 <= k < |xs| && xs[k] in options
  {
    if xs == [] then false
    else
      assert forall k :: 1 <= k < |xs| ==> xs[k] == xs[1..][k - 1];
      Includes(options, xs[0]) || SomeIn(xs[1..], options)
  }

  /** `xs.map(f)`. */
  function Map<A, B>(xs: seq<A>, f: A -> B): (ys: seq<B>)
    ensures |ys| == |xs|
  {
    if xs == [] then [] else [f(xs[0])] + Map(xs[1..], f)
  }

  /** `map` applies `f` to every element and keeps the order. */
  lemma {:induction false} MapEach<A, B>(xs: seq<A>, f: A -> B)
    ensures forall k :: 0 <= k < |xs| ==> Map(xs, f)[k] == f(xs[k])
  {
    if xs != [] {
      MapEach(xs[1..], f);
      assert forall k :: 1 <= k < |xs| ==> Map(xs, f)[k] == Map(xs[1..], f)[k - 1];
    }
  }

  /** `obj?.method(...)`: `undefined` when the member is missing, otherwise
      the boolean the method returns. */
  function Chain<T>(member: Option<T>, test: T -> bool): JsValue {
    match member
    case None => Undefined
    case Some(v) => Boolean(test(v))
  }

  /** The decimal text JavaScript gives an integral number in a template. */
  function NumberText(n: int): string {
    if n < 0 then "-" + Digits(-n) else Digits(n)
  }

  function Digits(n: nat): string
    decreases n
  {
    var d := "0123456789"[n % 10];
    if n < 10 then [d] else Digits(n / 10) + [d]
  }

  /** How a claim that may be missing is written into a template literal. */
  function OptionalNumberText(n: Option<int>): string {
    match n
    case None => "undefined"
    case Some(v) => NumberText(v)
  }
}
