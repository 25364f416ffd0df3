/** String helpers shared by the navigation models: JavaScript's `split` on a
    one-character separator, `join`, `startsWith`, `includes`, ASCII
    upper-casing of one character and `Number.prototype.toString` for
    non-negative integers. */
module Strings {

  /** `s.startsWith(prefix)` */
  predicate StartsWith(s: string, prefix: string) {
    |prefix| <= |s| && s[..|prefix|] == prefix
  }

  /** `sub` occurs in `s` starting at index `i` */
  predicate OccursAt(s: string, sub: string, i: nat) {
    i + |sub| <= |s| && s[i..i + |sub|] == sub
  }

  /** `s.includes(sub)` */
  predicate Contains(s: string, sub: string) {
    exists i: nat | i <= |s| :: OccursAt(s, sub, i)
  }

  lemma ContainsSuffix(pre: string, sub: string)
    ensures Contains(pre + sub, sub)
  {
    assert (pre + sub)[|pre|..|pre| + |sub|] == sub;
    assert OccursAt(pre + sub, sub, |pre|);
  }

  lemma StartsWithAppend(prefix: string, rest: string)
    ensures StartsWith(prefix + rest, prefix)
  {
    assert (prefix + rest)[..|prefix|] == prefix;
  }

  /** `parts.join(sep)`: the empty list joins to "" */
  function Join(parts: seq<string>, sep: char): string
  {
    if |parts| == 0 then ""
    else if |parts| == 1 then parts[0]
    else parts[0] + [sep] + Join(parts[1..], sep)
  }

  /** `s.split(sep)` for a one-character separator: always at least one
      piece ("" splits to [""]), and no piece contains the separator. */
  function Split(s: string, sep: char): (r: seq<string>)
    ensures |r| >= 1
    ensures forall i :: 0 <= i < |r| ==> sep !in r[i]
    decreases |s|
  {
    if |s| == 0 then [""]
    else
      var rest := Split(s[1..], sep);
      if s[0] == sep then [""] + rest
      else [[s[0]] + rest[0]] + rest[1..]
  }

  lemma JoinGlueHead(x: string, parts: seq<string>, sep: char)
    requires |parts| >= 1
    ensures Join([x + parts[0]] + parts[1..], sep) == x + Join(parts, sep)
  {
    var glued := [x + parts[0]] + parts[1..];
    if |parts| == 1 {
      assert glued == [x + parts[0]];
    } else {
      assert glued[1..] == parts[1..];
      assert (x + parts[0]) + [sep] + Join(parts[1..], sep)
          == x + (parts[0] + [sep] + Join(parts[1..], sep));
    }
  }

  /** Joining the pieces of a split gives back the original string. */
  lemma {:induction false} JoinSplit(s: string, sep: char)
    ensures Join(Split(s, sep), sep) == s
    decreases |s|
  {
    if |s| == 0 {
    } else {
      var rest := Split(s[1..], sep);
      JoinSplit(s[1..], sep);
      if s[0] == sep {
        var r := [""] + rest;
        assert r[1..] == rest;
        assert Join(r, sep) == "" + [sep] + Join(rest, sep);
        assert [s[0]] + s[1..] == s;
      } else {
        JoinGlueHead([s[0]], rest, sep);
        assert [s[0]] + s[1..] == s;
      }
    }
  }

  lemma {:induction false} SplitGlue(x: string, t: string, sep: char)
    requires sep !in x
    ensures Split(x + t, sep) == [x + Split(t, sep)[0]] + Split(t, sep)[1..]
    decreases |x|
  {
    if |x| == 0 {
      var r := Split(t, sep);
      assert x + t == t;
      assert x + r[0] == r[0];
      assert [r[0]] + r[1..] == r;
    } else {
      var xt := x + t;
      assert xt[0] == x[0];
      assert xt[1..] == x[1..] + t;
      SplitGlue(x[1..], t, sep);
      var rest := Split(x[1..] + t, sep);
      assert rest[0] == x[1..] + Split(t, sep)[0];
      assert [x[0]] + (x[1..] + Split(t, sep)[0]) == x + Split(t, sep)[0];
    }
  }

  /** Splitting a join gives back the parts, when no part holds the separator. */
  lemma {:induction false} SplitJoin(parts: seq<string>, sep: char)
    requires |parts| >= 1
    requires forall i :: 0 <= i < |parts| ==> sep !in parts[i]
    ensures Split(Join(parts, sep), sep) == parts
    decreases |parts|
  {
    if |parts| == 1 {
      SplitGlue(parts[0], "", sep);
      assert parts[0] + "" == parts[0];
      assert parts[0] + Split("", sep)[0] == parts[0];
    } else {
      var tail := Join(parts[1..], sep);
      SplitJoin(parts[1..], sep);
      var st := [sep] + tail;
      assert Split(st, sep) == [""] + Split(tail, sep) by {
        assert st[0] == sep;
        assert st[1..] == tail;
      }
      SplitGlue(parts[0], st, sep);
      assert Join(parts, sep) == parts[0] + st;
      var r := Split(st, sep);
      assert r[0] == "" && r[1..] == parts[1..];
      assert parts[0] + r[0] == parts[0];
      assert [parts[0]] + parts[1..] == parts;
    }
  }

  /** The UTF-16 code units one character takes: a character beyond U+FFFF
      is written as a surrogate pair. */
  function CodeUnits(c: char): nat {
    if c as int > 0xFFFF then 2 else 1
  }

  /** JavaScript's `s.length`, the number the schema libraries' `min` and
      `max` compare: UTF-16 code units, so at least one and at most two per
      character, and exactly one per character when no character lies beyond
      U+FFFF. "a" followed by U+1F600, for instance, holds two characters and
      has length 3. */
  function JsLength(s: string): (n: nat)
    ensures |s| <= n <= 2 * |s|
    ensures n == |s| <==> forall i :: 0 <= i < |s| ==> s[i] as int <= 0xFFFF
    decreases |s|
  {
    if |s| == 0 then 0
    else
      var init := s[..|s| - 1];
      assert forall i :: 0 <= i < |init| ==> init[i] == s[i];
      JsLength(init) + CodeUnits(s[|s| - 1])
  }

  /** `(a + b).length` is `a.length + b.length`. */
  lemma {:induction false} JsLengthAppend(a: string, b: string)
    ensures JsLength(a + b) == JsLength(a) + JsLength(b)
    decreases |b|
  {
    if |b| == 0 {
      assert a + b == a;
    } else {
      var init := b[..|b| - 1];
      JsLengthAppend(a, init);
      assert (a + b)[..|a + b| - 1] == a + init;
    }
  }

  /** A string made only of characters beyond U+FFFF has twice as many code
      units as characters. */
  lemma {:induction false} AllAstral(s: string)
    requires forall i :: 0 <= i < |s| ==> s[i] as int > 0xFFFF
    ensures JsLength(s) == 2 * |s|
    decreases |s|
  {
    if |s| > 0 {
      var init := s[..|s| - 1];
      assert forall i :: 0 <= i < |init| ==> init[i] == s[i];
      AllAstral(init);
    }
  }

  /** ASCII `toUpperCase` of one character. */
  function UpperChar(c: char): (u: char)
    ensures 'a' <= c <= 'z' ==> 'A' <= u <= 'Z' && u as int == c as int - 32
    ensures !('a' <= c <= 'z') ==> u == c
  {
    if 'a' <= c <= 'z' then (c as int - 32) as char else c
  }

  function DigitChar(d: nat): char
    requires d < 10
  {
    ('0' as int + d) as char
  }

  /** `n.toString()` for a non-negative integer: decimal digits, no sign, no
      leading zero. */
  function NatToString(n: nat): (s: string)
    ensures |s| >= 1
    ensures forall i :: 0 <= i < |s| ==> '0' <= s[i] <= '9'
    ensures |s| > 1 ==> s[0] != '0'
    decreases n
  {
    if n < 10 then [DigitChar(n)]
    else NatToString(n / 10) + [DigitChar(n % 10)]
  }

  /** Reads a string of decimal digits back as a number. */
  function ParseDigits(s: string): nat
    requires forall i :: 0 <= i < |s| ==> '0' <= s[i] <= '9'
    decreases |s|
  {
    if |s| == 0 then 0
    else ParseDigits(s[..|s| - 1]) * 10 + (s[|s| - 1] as int - '0' as int)
  }

  /** The decimal rendering of a number reads back as the same number. */
  lemma {:induction false} ParseNatToString(n: nat)
    ensures ParseDigits(NatToString(n)) == n
    decreases n
  {
    var s := NatToString(n);
    if n < 10 {
    } else {
      ParseNatToString(n / 10);
      assert s[..|s| - 1] == NatToString(n / 10);
    }
  }
}
