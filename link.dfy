/**
 * `Link.parse`: one value of an HTTP `Link` response header read as a
 * target URI and a parameter dictionary, in the source's simplified way
 * (a much looser reading than section 3 of RFC 8288), together with the
 * split of a whole header into such values that the WebID check performs.
 */
module LinkHeader {
  import opened Js

  /** The relation type of a Solid OIDC issuer. */
  const OidcIssuerRel := "http://www.w3.org/ns/solid/terms#oidcIssuer"

  /** A parsed link: the target URI and the recorded parameters. */
  datatype Link = Link(uri: string, params: map<string, string>) {
    /** The `rel` getter: `params['rel']`, `undefined` when not recorded. */
    function Rel(): Option<string> {
      if "rel" in params then Some(params["rel"]) else None
    }
  }

  /** `value.split` at a `;` and the spaces after it, with limit 2: the
      text before the first `;` and, when there is a `;`, the text after it
      and its spaces up to the next `;`. */
  function SplitParams(value: string): (parts: seq<string>)
    ensures 1 <= |parts| <= 2
  {
    var i := IndexOf(value, ';');
    if i == |value| then [value]
    else
      var rest := TrimStart(value[i + 1..]);
      [value[..i], rest[..IndexOf(rest, ';')]]
  }

  /** `x.split('=', 2)`: the text before the first `=`, and, when there is
      one, the text after it up to the next `=`. */
  function SplitAssignment(x: string): (parts: seq<string>)
    ensures 1 <= |parts| <= 2
  {
    var i := IndexOf(x, '=');
    if i == |x| then [x]
    else
      var rest := x[i + 1..];
      [x[..i], rest[..IndexOf(rest, '=')]]
  }

  /** `s.replace(/^open/, '').replace(/close$/, '')`: at most one `open`
      removed from the front, then at most one `close` from the back. */
  function Unwrap(s: string, open: char, close: char): string {
    var t := if s != [] && s[0] == open then s[1..] else s;
    if t != [] && t[|t| - 1] == close then t[..|t| - 1] else t
  }

  /** `fragments.map(x => x.split('=', 2)).filter(x => x.length === 2)`. */
  function Assignments(fragments: seq<string>): (pairs: seq<(string, string)>)
    ensures |pairs| <= |fragments|
  {
    if fragments == [] then []
    else
      var x := SplitAssignment(fragments[0]);
      (if |x| == 2 then [(x[0], x[1])] else []) + Assignments(fragments[1..])
  }

  /** One step of the `forEach`: `params[x[0]] = x[1]` with one quote
      stripped from each end of the value. On a plain object, assigning a
      string to the key `__proto__` leaves the object as it was. */
  function Assign(params: map<string, string>, pair: (string, string)): map<string, string> {
    if pair.0 == "__proto__" then params
    else params[pair.0 := Unwrap(pair.1, '"', '"')]
  }

  /** The dictionary after the `forEach` has run over `pairs`, from `{}`. */
  function Record(pairs: seq<(string, string)>): map<string, string>
    decreases |pairs|
  {
    if pairs == [] then map[]
    else Assign(Record(pairs[..|pairs| - 1]), pairs[|pairs| - 1])
  }

  /** `Link.parse(value)` as a value. */
  function Parse(value: string): Link {
    var parts := SplitParams(value);
    Link(Unwrap(Trim(parts[0]), '<', '>'), Record(Assignments(parts[1..])))
  }

  /** `Link.parse` as the source writes it: the dictionary is filled in
      place by a `forEach` over the accepted assignments. */
  method ParseLink(value: string) returns (link: Link)
    ensures link == Parse(value)
  {
    var parts := SplitParams(value);
    var uri := Unwrap(Trim(parts[0]), '<', '>');
    var pairs := Assignments(parts[1..]);
    var params: map<string, string> := map[];
    for k := 0 to |pairs|
      invariant params == Record(pairs[..k])
    {
      assert pairs[..k + 1][..k] == pairs[..k];
      params := Assign(params, pairs[k]);
    }
    assert pairs[..|pairs|] == pairs;
    link := Link(uri, params);
  }

  // ---------------------------------------------------------------------
  // What `Link.parse` does with the URI part

  lemma HeadIsBeforeSemicolon(head: string, rest: string)
    requires ';' !in head
    ensures IndexOf(head + ";" + rest, ';') == |head|
  {
    var v := head + ";" + rest;
    assert v[..|head|] == head;
    IndexOfIs(v, ';', |head|);
  }

  /** A value without `;` has no parameters, so `rel` is `undefined`, and
      its URI is the whole value, trimmed and unbracketed. */
  lemma ParseWithoutSemicolon(value: string)
    requires ';' !in value
    ensures Parse(value) == Link(Unwrap(Trim(value), '<', '>'), map[])
    ensures Parse(value).Rel() == None
  {
    assert value[..|value|] == value;
    IndexOfIs(value, ';', |value|);
  }

  /** The URI is taken from the text before the first `;` alone. */
  lemma ParseUriIsHead(head: string, rest: string)
    requires ';' !in head
    ensures Parse(head + ";" + rest).uri == Unwrap(Trim(head), '<', '>')
  {
    var v := head + ";" + rest;
    HeadIsBeforeSemicolon(head, rest);
    assert v[..|head|] == head;
  }

  /** `Unwrap` removes one `open` and one `close` around any text. */
  lemma UnwrapWrapped(x: string, open: char, close: char)
    ensures Unwrap([open] + x + [close], open, close) == x
  {
    var s := [open] + x + [close];
    assert s[1..] == x + [close];
    assert (x + [close])[..|x|] == x;
  }

  /** Spaces around the URI part are trimmed and one pair of angle
      brackets is removed; `<<u>>` therefore keeps one pair. */
  lemma ParseBracketedUri(w1: string, u: string, w2: string, rest: string)
    requires AllSpaces(w1) && AllSpaces(w2)
    requires ';' !in u
    ensures Parse(w1 + "<" + u + ">" + w2 + ";" + rest).uri == u
  {
    var core := ['<'] + u + ['>'];
    var head := w1 + core + w2;
    assert w1 + "<" + u + ">" + w2 + ";" + rest == head + ";" + rest;
    assert Parse(head + ";" + rest).uri == Unwrap(Trim(head), '<', '>') by {
      assert ';' !in head by {
        assert !IsSpace(';');
        assert ';' !in core;
      }
      ParseUriIsHead(head, rest);
    }
    assert Trim(head) == core by {
      TrimPadded(w1, core, w2);
    }
    UnwrapWrapped(u, '<', '>');
  }

  /** A value that lost its `<` to the header split still yields its URI:
      the leading `<` is optional, and the trailing `>` is removed alone. */
  lemma ParseUnopenedUri(u: string, rest: string)
    requires ';' !in u
    requires u != [] && u[0] != '<' && !IsSpace(u[0])
    ensures Parse(u + ">" + ";" + rest).uri == u
  {
    var head := u + ">";
    assert ';' !in head && head[0] == u[0] && head[|head| - 1] == '>';
    ParseTrimmedHead(head, rest);
    UnwrapUnopened(u);
  }

  /** A head that needs no trimming is unbracketed as it stands. */
  lemma ParseTrimmedHead(head: string, rest: string)
    requires ';' !in head
    requires head != [] && !IsSpace(head[0]) && !IsSpace(head[|head| - 1])
    ensures Parse(head + ";" + rest).uri == Unwrap(head, '<', '>')
  {
    ParseUriIsHead(head, rest);
    TrimUnpadded(head);
  }

  lemma UnwrapUnopened(u: string)
    requires u != [] && u[0] != '<'
    ensures Unwrap(u + ">", '<', '>') == u
  {
    assert (u + ">")[0] == u[0];
    assert (u + ">")[..|u|] == u;
  }

  // ---------------------------------------------------------------------
  // What `Link.parse` does with the parameters

  /** The limited split at `;` on a value with a first parameter `frag`: the
      spaces after the first `;` go with the separator and whatever comes
      from a second `;` on is dropped. */
  lemma SplitParamsOf(head: string, w: string, frag: string, tail: string)
    requires ';' !in head && ';' !in frag
    requires AllSpaces(w) && (frag == [] || !IsSpace(frag[0]))
    requires tail == [] || tail[0] == ';'
    ensures SplitParams(head + ";" + w + frag + tail) == [head, frag]
  {
    var rest := frag + tail;
    var v := head + ";" + (w + rest);
    Regroup(head, w, frag, tail);
    HeadIsBeforeSemicolon(head, w + rest);
    SemicolonSplit(head, w + rest);
    TrimStartPadded(w, rest);
    FragmentBeforeSemicolon(frag, tail);
    SplitParamsAt(v, |head|, rest, |frag|);
  }

  lemma Regroup(head: string, w: string, frag: string, tail: string)
    ensures head + ";" + w + frag + tail == head + ";" + (w + (frag + tail))
  {
  }

  /** The two sides of the first `;` of `head + ";" + rest`. */
  lemma SemicolonSplit(head: string, rest: string)
    ensures (head + ";" + rest)[..|head|] == head
    ensures (head + ";" + rest)[|head| + 1..] == rest
  {
  }

  /** The first parameter fragment ends at the next `;`. */
  lemma FragmentBeforeSemicolon(frag: string, tail: string)
    requires ';' !in frag
    requires tail == [] || tail[0] == ';'
    ensures IndexOf(frag + tail, ';') == |frag| && (frag + tail)[..|frag|] == frag
  {
    assert (frag + tail)[..|frag|] == frag;
    IndexOfIs(frag + tail, ';', |frag|);
  }

  /** `SplitParams` once the positions of its two cuts are known. */
  lemma SplitParamsAt(v: string, i: nat, rest: string, j: nat)
    requires i < |v| && IndexOf(v, ';') == i
    requires TrimStart(v[i + 1..]) == rest && IndexOf(rest, ';') == j
    ensures SplitParams(v) == [v[..i], rest[..j]]
  {
  }

  /** `split('=', 2)` on `key=val` followed by nothing or by a second `=`. */
  lemma SplitAssignmentOf(key: string, val: string, rest: string)
    requires '=' !in key && '=' !in val
    requires rest == [] || rest[0] == '='
    ensures SplitAssignment(key + "=" + val + rest) == [key, val]
  {
    var x := key + "=" + val + rest;
    assert x[..|key|] == key;
    IndexOfIs(x, '=', |key|);
    var r := x[|key| + 1..];
    assert r == val + rest;
    assert r[..|val|] == val;
    IndexOfIs(r, '=', |val|);
  }

  /** With a first parameter `frag`, the dictionary is what the
      `forEach` makes of that one fragment. */
  lemma ParamsOfFirst(head: string, w: string, frag: string, tail: string)
    requires ';' !in head && ';' !in frag
    requires AllSpaces(w) && (frag == [] || !IsSpace(frag[0]))
    requires tail == [] || tail[0] == ';'
    ensures Parse(head + ";" + w + frag + tail).params == Record(Assignments([frag]))
  {
    SplitParamsOf(head, w, frag, tail);
    assert [head, frag][1..] == [frag];
  }

  /** The one parameter `Link.parse` records: the name is the text before
      the first `=` (not trimmed), the value is cut at a second `=` and
      loses one `"` at each end, and anything after a second `;` is
      ignored. */
  lemma ParseOneParam(head: string, w: string, key: string, val: string, rest: string, tail: string)
    requires ';' !in head && ';' !in key && ';' !in val && ';' !in rest
    requires AllSpaces(w) && (key == [] || !IsSpace(key[0]))
    requires '=' !in key && '=' !in val
    requires rest == [] || rest[0] == '='
    requires tail == [] || tail[0] == ';'
    requires key != "__proto__"
    ensures Parse(head + ";" + w + key + "=" + val + rest + tail).params
            == map[key := Unwrap(val, '"', '"')]
  {
    var frag := key + "=" + val + rest;
    assert frag == [] || !IsSpace(frag[0]) by {
      if key == [] {
        assert frag[0] == '=';
      } else {
        assert frag[0] == key[0];
      }
    }
    assert head + ";" + w + key + "=" + val + rest + tail == head + ";" + w + frag + tail;
    ParamsOfFirst(head, w, frag, tail);
    assert Assignments([frag]) == [(key, val)] by {
      SplitAssignmentOf(key, val, rest);
      assert [frag][1..] == [];
    }
    assert [(key, val)][..0] == [];
  }

  /** A first parameter without `=` is dropped, and `rel` is `undefined`. */
  lemma ParseParamWithoutAssignment(head: string, w: string, frag: string, tail: string)
    requires ';' !in head && ';' !in frag && '=' !in frag
    requires AllSpaces(w) && (frag == [] || !IsSpace(frag[0]))
    requires tail == [] || tail[0] == ';'
    ensures Parse(head + ";" + w + frag + tail).params == map[]
    ensures Parse(head + ";" + w + frag + tail).Rel() == None
  {
    ParamsOfFirst(head, w, frag, tail);
    assert Assignments([frag]) == [] by {
      assert frag[..|frag|] == frag;
      IndexOfIs(frag, '=', |frag|);
      assert [frag][1..] == [];
    }
  }

  /** However many `;` the value holds, at most one parameter is recorded. */
  lemma ParseRecordsAtMostOneParam(value: string)
    ensures |Parse(value).params| <= 1
  {
    var parts := SplitParams(value);
    var pairs := Assignments(parts[1..]);
    assert |pairs| <= 1;
    if |pairs| == 1 {
      assert pairs[..0] == [];
      var p := pairs[0];
      if p.0 != "__proto__" {
        assert Record(pairs) == map[p.0 := Unwrap(p.1, '"', '"')];
      }
    }
  }

  /** `rel=x` and `rel="x"` both give `rel` the value `x`, when `x` holds
      no `;` or `=` and does not itself begin or end with a quote. */
  lemma QuotedAndBareRelAgree(head: string, w: string, x: string)
    requires ';' !in head && ';' !in x && '=' !in x
    requires AllSpaces(w)
    requires x == [] || (x[0] != '"' && x[|x| - 1] != '"')
    ensures Parse(head + ";" + w + "rel=" + x).Rel() == Some(x)
    ensures Parse(head + ";" + w + "rel=\"" + x + "\"").Rel() == Some(x)
  {
    assert Unwrap(x, '"', '"') == x;
    RelParam(head, w, x);
    QuotedRel(head, w, x);
  }

  lemma QuotedRel(head: string, w: string, x: string)
    requires ';' !in head && ';' !in x && '=' !in x
    requires AllSpaces(w)
    ensures Parse(head + ";" + w + "rel=\"" + x + "\"").params == map["rel" := x]
  {
    var q := ['"'] + x + ['"'];
    var quoted := head + ";" + w + "rel=" + q;
    assert head + ";" + w + "rel=\"" + x + "\"" == quoted by {
      var p := head + ";" + w;
      assert "rel=\"" == "rel=" + ['"'];
      Associative(p, "rel=", ['"']);
      Associative(p + "rel=", ['"'], x);
      Associative(p + "rel=", ['"'] + x, ['"']);
    }
    UnwrapWrapped(x, '"', '"');
    RelParam(head, w, q);
  }

  lemma Associative(a: string, b: string, c: string)
    ensures a + (b + c) == a + b + c
  {
  }

  lemma RelParam(head: string, w: string, val: string)
    requires ';' !in head && ';' !in val && '=' !in val
    requires AllSpaces(w)
    ensures Parse(head + ";" + w + "rel=" + val).params == map["rel" := Unwrap(val, '"', '"')]
  {
    assert head + ";" + w + "rel=" + val == head + ";" + w + "rel" + "=" + val + "" + "";
    ParseOneParam(head, w, "rel", val, "", "");
  }

  /** The link value `<uri>; key="val"`, as a server writes one. */
  function Format(uri: string, key: string, val: string): string {
    "<" + uri + ">; " + key + "=\"" + val + "\""
  }

  /** `Link.parse` reads back what `Format` writes, when the URI, the
      name and the value hold none of the characters it splits on. */
  lemma ParseFormat(uri: string, key: string, val: string)
    requires ';' !in uri
    requires ';' !in key && '=' !in key && key != [] && !IsSpace(key[0]) && key != "__proto__"
    requires ';' !in val && '=' !in val
    ensures Parse(Format(uri, key, val)) == Link(uri, map[key := val])
  {
    FormatUri(uri, key, val, Format(uri, key, val));
    FormatParams(uri, key, val, Format(uri, key, val));
  }

  lemma FormatUri(uri: string, key: string, val: string, v: string)
    requires ';' !in uri && v == Format(uri, key, val)
    ensures Parse(v).uri == uri
  {
    var rest := " " + key + "=\"" + val + "\"";
    assert v == "" + "<" + uri + ">" + "" + ";" + rest;
    ParseBracketedUri("", uri, "", rest);
  }

  lemma FormatParams(uri: string, key: string, val: string, v: string)
    requires ';' !in uri
    requires ';' !in key && '=' !in key && key != [] && !IsSpace(key[0]) && key != "__proto__"
    requires ';' !in val && '=' !in val
    requires v == Format(uri, key, val)
    ensures Parse(v).params == map[key := val]
  {
    var head := "<" + uri + ">";
    var q := ['"'] + val + ['"'];
    assert v == head + ";" + " " + key + "=" + q + "" + "" by {
      assert ">; " == ">" + ";" + " ";
      assert "=\"" == "=" + ['"'];
    }
    assert AllSpaces(" ");
    ParseOneParam(head, " ", key, q, "", "");
    UnwrapWrapped(val, '"', '"');
  }

  /** A formatted value without a comma is one value of a header. */
  lemma SplitFormatted(uri: string, key: string, val: string)
    requires ',' !in uri && ',' !in key && ',' !in val
    ensures SplitLinks(Format(uri, key, val)) == [Format(uri, key, val)]
  {
    assert ',' !in Format(uri, key, val);
    SplitLinksSingle(Format(uri, key, val));
  }

  /** The well-formed value `<https://a/b>; rel="x"`. */
  lemma ParseExample(v: string)
    requires v == "<https://a/b>; rel=\"x\""
    ensures Parse(v) == Link("https://a/b", map["rel" := "x"])
  {
    ExampleParams(v);
    ExampleUri(v);
  }

  lemma ExampleUri(v: string)
    requires v == "<https://a/b>; rel=\"x\""
    ensures Parse(v).uri == "https://a/b"
  {
    assert v == "" + "<" + "https://a/b" + ">" + "" + ";" + " rel=\"x\"";
    ParseBracketedUri("", "https://a/b", "", " rel=\"x\"");
  }

  lemma ExampleParams(v: string)
    requires v == "<https://a/b>; rel=\"x\""
    ensures Parse(v).params == map["rel" := "x"]
  {
    assert Unwrap("\"x\"", '"', '"') == "x" by {
      assert "\"x\"" == ['"'] + "x" + ['"'];
      UnwrapWrapped("x", '"', '"');
    }
    assert AllSpaces(" ");
    assert v == "<https://a/b>" + ";" + " " + "rel=" + "\"x\"";
    RelParam("<https://a/b>", " ", "\"x\"");
  }

  // ---------------------------------------------------------------------
  // Splitting a whole header into link values

  /** The length of a match of `/,\s*(?:<)/` at the start of `s`, or 0. */
  function SeparatorLength(s: string): (n: nat)
    ensures n <= |s|
    ensures n != 0 ==> n >= 2
  {
    if s != [] && s[0] == ',' then
      var t := TrimStart(s[1..]);
      if t != [] && t[0] == '<' then |s| - |t| + 1 else 0
    else 0
  }

  /** `h.split(/,\s*(?:<)/)`: the separator takes the comma, the spaces
      and the `<` of the next value with it. */
  function SplitLinks(h: string): (parts: seq<string>)
    ensures parts != []
    decreases |h|
  {
    if h == [] then [""]
    else
      var n := SeparatorLength(h);
      if n != 0 then [""] + SplitLinks(h[n..])
      else
        var r := SplitLinks(h[1..]);
        [[h[0]] + r[0]] + r[1..]
  }

  /** A header without a comma is a single value. */
  lemma {:induction false} SplitLinksSingle(h: string)
    requires ',' !in h
    ensures SplitLinks(h) == [h]
  {
    if h != [] {
      assert ',' !in h[1..];
      SplitLinksSingle(h[1..]);
      assert [h[0]] + h[1..] == h;
    }
  }

  /** A value followed by `,`, spaces and `<` is split off, and the `<`
      of the next value goes with the separator. */
  lemma {:induction false} SplitLinksCons(a: string, w: string, b: string)
    requires ',' !in a && AllSpaces(w)
    ensures SplitLinks(a + "," + w + "<" + b) == [a] + SplitLinks(b)
    decreases |a|
  {
    var h := a + "," + w + "<" + b;
    if a == [] {
      assert h == "," + (w + ("<" + b));
      assert h[1..] == w + ("<" + b);
      TrimStartPadded(w, "<" + b);
      assert SeparatorLength(h) == 2 + |w|;
      assert h[2 + |w|..] == b;
    } else {
      assert h[0] == a[0];
      assert h[1..] == a[1..] + "," + w + "<" + b;
      SplitLinksCons(a[1..], w, b);
      assert [a[0]] + a[1..] == a;
    }
  }
}
