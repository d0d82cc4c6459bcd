/**
 * The pieces of JavaScript string semantics the components rely on:
 * truthiness, the `||` fallback, template-literal interpolation,
 * `String.prototype.trim`, `Array.prototype.join` and `String.prototype.split`
 * on a one-character separator.
 */
module JsStrings {
  import opened Wrappers

  /** ECMAScript WhiteSpace and LineTerminator code points (what `trim` removes). */
  predicate IsWhiteSpace(c: char) {
    c == '\t' || c == '\n' || c == '\U{B}' || c == '\U{C}' || c == '\r' || c == ' '
    || c == '\U{A0}' || c == '\U{1680}' || ('\U{2000}' <= c <= '\U{200A}')
    || c == '\U{2028}' || c == '\U{2029}' || c == '\U{202F}' || c == '\U{205F}'
    || c == '\U{3000}' || c == '\U{FEFF}'
  }

  predicate AllWhiteSpace(s: string) {
    forall i :: 0 <= i < |s| ==> IsWhiteSpace(s[i])
  }

  /** Neither the first nor the last character is white space. */
  predicate NoOuterWhiteSpace(s: string) {
    s == [] || (!IsWhiteSpace(s[0]) && !IsWhiteSpace(s[|s| - 1]))
  }

  /** Truthiness of a string that may be `undefined`: `undefined` and `""` are falsy. */
  predicate Truthy(s: Option<string>) {
    s.Some? && s.value != ""
  }

  /** Truthiness of a boolean that may be `undefined`: only `true` is truthy. */
  predicate IsTrue(b: Option<bool>) {
    b == Some(true)
  }

  /** `a || fallback`, where `a` is a string or `undefined`. */
  function Or(a: Option<string>, fallback: string): string {
    if Truthy(a) then a.value else fallback
  }

  /** `${v}` in a template literal, where `v` is a string or `undefined`. */
  function Interpolate(v: Option<string>): string {
    match v
    case Some(s) => s
    case None => "undefined"
  }

  /** Drops the leading white space. */
  function TrimStart(s: string): (r: string)
    ensures |r| <= |s|
  {
    if s != [] && IsWhiteSpace(s[0]) then TrimStart(s[1..]) else s
  }

  /** TrimStart keeps a suffix, drops only white space, and stops at the first other character. */
  lemma {:induction false} TrimStartDropsWhiteSpace(s: string)
    ensures var r := TrimStart(s);
            r == s[|s| - |r|..] && AllWhiteSpace(s[..|s| - |r|]) && (r == [] || !IsWhiteSpace(r[0]))
  {
    if s != [] && IsWhiteSpace(s[0]) {
      TrimStartDropsWhiteSpace(s[1..]);
      var r := TrimStart(s);
      assert s[..|s| - |r|] == [s[0]] + s[1..][..|s| - 1 - |r|];
    }
  }

  /** Drops the trailing white space. */
  function TrimEnd(s: string): (r: string)
    ensures |r| <= |s|
  {
    if s != [] && IsWhiteSpace(s[|s| - 1]) then TrimEnd(s[..|s| - 1]) else s
  }

  /** TrimEnd keeps a prefix, drops only white space, and stops at the last other character. */
  lemma {:induction false} TrimEndDropsWhiteSpace(s: string)
    ensures var r := TrimEnd(s);
            r == s[..|r|] && AllWhiteSpace(s[|r|..]) && (r == [] || !IsWhiteSpace(r[|r| - 1]))
  {
    if s != [] && IsWhiteSpace(s[|s| - 1]) {
      TrimEndDropsWhiteSpace(s[..|s| - 1]);
      var r := TrimEnd(s);
      assert s[|r|..] == s[..|s| - 1][|r|..] + [s[|s| - 1]];
    }
  }

  /** `s.trim()`. */
  function Trim(s: string): (r: string)
    ensures |r| <= |s|
    ensures NoOuterWhiteSpace(r)
  {
    var t := TrimEnd(TrimStart(s));
    TrimStartDropsWhiteSpace(s);
    TrimEndDropsWhiteSpace(TrimStart(s));
    assert t != [] ==> t[0] == TrimStart(s)[0];
    t
  }

  lemma {:induction false} TrimStartSkips(p: string, s: string)
    requires AllWhiteSpace(p)
    ensures TrimStart(p + s) == TrimStart(s)
  {
    if p == [] {
      assert p + s == s;
    } else {
      assert (p + s)[1..] == p[1..] + s;
      TrimStartSkips(p[1..], s);
    }
  }

  lemma {:induction false} TrimEndSkips(s: string, q: string)
    requires AllWhiteSpace(q)
    ensures TrimEnd(s + q) == TrimEnd(s)
  {
    if q == [] {
      assert s + q == s;
    } else {
      assert (s + q)[..|s + q| - 1] == s + q[..|q| - 1];
      TrimEndSkips(s, q[..|q| - 1]);
    }
  }

  /**
   * `trim` removes exactly the surrounding white space: whatever white space
   * pads a string with no outer white space of its own, trimming gives that
   * string back. Every string is such a padded string, so this determines Trim.
   */
  lemma TrimPadded(p: string, s: string, q: string)
    requires AllWhiteSpace(p) && AllWhiteSpace(q) && NoOuterWhiteSpace(s)
    ensures Trim(p + s + q) == s
  {
    assert p + s + q == p + (s + q);
    TrimStartSkips(p, s + q);
    if s == [] {
      assert s + q == q + [];
      TrimStartSkips(q, []);
    } else {
      assert (s + q)[0] == s[0];
      assert TrimStart(s + q) == s + q;
      TrimEndSkips(s, q);
    }
  }

  /** `parts.join(sep)`. */
  function Join(parts: seq<string>, sep: string): string {
    if |parts| == 0 then ""
    else if |parts| == 1 then parts[0]
    else parts[0] + sep + Join(parts[1..], sep)
  }

  /** `s.split(sep)` for a one-character separator: never empty, no piece holds `sep`. */
  function Split(s: string, sep: char): (r: seq<string>)
    ensures |r| > 0
    ensures forall i :: 0 <= i < |r| ==> sep !in r[i]
  {
    if s == [] then [""]
    else
      var rest := Split(s[1..], sep);
      if s[0] == sep then [""] + rest
      else [[s[0]] + rest[0]] + rest[1..]
  }

  lemma {:induction false} SplitWithoutSeparator(p: string, sep: char)
    requires sep !in p
    ensures Split(p, sep) == [p]
  {
    if p != [] {
      SplitWithoutSeparator(p[1..], sep);
      assert [p[0]] + p[1..] == p;
    }
  }

  lemma {:induction false} SplitAfterPiece(p: string, sep: char, q: string)
    requires sep !in p
    ensures Split(p + [sep] + q, sep) == [p] + Split(q, sep)
  {
    var s := p + [sep] + q;
    if p == [] {
      assert s[1..] == q;
    } else {
      assert s[1..] == p[1..] + [sep] + q;
      SplitAfterPiece(p[1..], sep, q);
      assert [p[0]] + p[1..] == p;
    }
  }

  /** Splitting a join on a separator that no part contains gives the parts back. */
  lemma {:induction false} SplitJoin(parts: seq<string>, sep: char)
    requires |parts| > 0
    requires forall i :: 0 <= i < |parts| ==> sep !in parts[i]
    ensures Split(Join(parts, [sep]), sep) == parts
  {
    if |parts| == 1 {
      SplitWithoutSeparator(parts[0], sep);
    } else {
      SplitJoin(parts[1..], sep);
      assert parts[0] + [sep] + Join(parts[1..], [sep]) == Join(parts, [sep]);
      SplitAfterPiece(parts[0], sep, Join(parts[1..], [sep]));
      assert [parts[0]] + parts[1..] == parts;
    }
  }

  /** Joining the pieces of a split with the same separator gives the string back. */
  lemma {:induction false} JoinSplit(s: string, sep: char)
    ensures Join(Split(s, sep), [sep]) == s
  {
    if s != [] {
      var rest := Split(s[1..], sep);
      JoinSplit(s[1..], sep);
      if s[0] == sep {
        assert ([""] + rest)[1..] == rest;
        assert [s[0]] + s[1..] == s;
      } else {
        var r := [[s[0]] + rest[0]] + rest[1..];
        assert r[1..] == rest[1..];
        if |rest| == 1 {
          assert [s[0]] + s[1..] == s;
        } else {
          assert Join(rest, [sep]) == rest[0] + [sep] + Join(rest[1..], [sep]);
          assert [s[0]] + s[1..] == s;
        }
      }
    }
  }
}
