/** String helpers shared by the graph writer, the doc builder and the logger:
    decimal and hexadecimal formatting (Python's `%d`, `%02d`, `%06x`), the
    "smallest free suffix" loop used to make names unique, and line joining. */
module Strings {

  predicate IsDigit(c: char) { '0' <= c <= '9' }

  /** Python 2 `\w` on byte strings: ASCII letters, digits and underscore. */
  predicate IsWordChar(c: char) {
    ('a' <= c <= 'z') || ('A' <= c <= 'Z') || IsDigit(c) || c == '_'
  }

  /** Python 2 `str.lower` on ASCII. */
  function LowerChar(c: char): (r: char)
    ensures IsWordChar(c) ==> IsWordChar(r)
    ensures !('A' <= r <= 'Z')
  {
    if 'A' <= c <= 'Z' then (c as int - 'A' as int + 'a' as int) as char else c
  }

  function DigitChar(d: nat): (c: char)
    requires d < 10
    ensures IsDigit(c) && c as int - '0' as int == d
  {
    ('0' as int + d) as char
  }

  function DigitValue(c: char): (d: nat)
    requires IsDigit(c)
    ensures d < 10
  {
    c as int - '0' as int
  }

  predicate AllDigits(s: string) {
    forall i :: 0 <= i < |s| ==> IsDigit(s[i])
  }

  /** Python's `'%d' % n` for a non-negative n. */
  function NatToString(n: nat): (s: string)
    ensures |s| >= 1 && AllDigits(s)
    ensures n >= 10 ==> |s| >= 2
    ensures n < 10 <==> |s| == 1
    decreases n
  {
    if n < 10 then [DigitChar(n)] else NatToString(n / 10) + [DigitChar(n % 10)]
  }

  /** Reads a decimal numeral back (the inverse of NatToString). */
  function ParseNat(s: string): nat
    requires AllDigits(s)
    decreases |s|
  {
    if s == [] then 0 else ParseNat(s[..|s| - 1]) * 10 + DigitValue(s[|s| - 1])
  }

  lemma {:induction false} ParseNatToString(n: nat)
    ensures ParseNat(NatToString(n)) == n
    decreases n
  {
    var s := NatToString(n);
    if n >= 10 {
      ParseNatToString(n / 10);
      assert s[..|s| - 1] == NatToString(n / 10);
    }
  }

  lemma NatToStringInjective(a: nat, b: nat)
    requires NatToString(a) == NatToString(b)
    ensures a == b
  {
    ParseNatToString(a);
    ParseNatToString(b);
  }

  /** `'%02d' % n`: at least two characters, zero padded after the sign. */
  function Pad2(n: int): (s: string)
  {
    if n < 0 then "-" + NatToString(-n)
    else if n < 10 then "0" + NatToString(n)
    else NatToString(n)
  }

  lemma {:induction false} Pad2Small(n: nat)
    requires n < 100
    ensures |Pad2(n)| == 2 && AllDigits(Pad2(n)) && ParseNat(Pad2(n)) == n
  {
    ParseNatToString(n);
    if n < 10 {
      assert Pad2(n)[..1] == "0";
      assert ParseNat("0") == 0;
    } else {
      assert n / 10 < 10;
    }
  }

  /** A lower-case hexadecimal digit. */
  predicate IsHexChar(c: char) {
    '0' <= c <= '9' || 'a' <= c <= 'f'
  }

  /** The lower-case digit of d, as in `"0123456789abcdef"[d]`. */
  function HexDigit(d: nat): (c: char)
    requires d < 16
    ensures IsHexChar(c)
  {
    if d < 10 then ('0' as int + d) as char else ('a' as int + d - 10) as char
  }

  function HexDigitValue(c: char): (d: nat)
    ensures d < 16
  {
    if '0' <= c <= '9' then c as int - '0' as int
    else if 'a' <= c <= 'f' then c as int - 'a' as int + 10
    else 0
  }

  /** The `width` lowest hexadecimal digits of v, most significant first, in
      lower case (`'%0<width>x' % v` when v < 16^width). */
  function HexFixed(v: nat, width: nat): (s: string)
    ensures |s| == width
    ensures forall i :: 0 <= i < |s| ==> IsHexChar(s[i])
    decreases width
  {
    if width == 0 then [] else HexFixed(v / 16, width - 1) + [HexDigit(v % 16)]
  }

  function ParseHex(s: string): nat
    decreases |s|
  {
    if s == [] then 0 else ParseHex(s[..|s| - 1]) * 16 + HexDigitValue(s[|s| - 1])
  }

  function Pow16(k: nat): (p: nat)
    ensures p >= 1
  {
    if k == 0 then 1 else 16 * Pow16(k - 1)
  }

  lemma {:induction false} ParseHexFixed(v: nat, width: nat)
    requires v < Pow16(width)
    ensures ParseHex(HexFixed(v, width)) == v
    decreases width
  {
    if width > 0 {
      var s := HexFixed(v, width);
      assert s[..|s| - 1] == HexFixed(v / 16, width - 1);
      ParseHexFixed(v / 16, width - 1);
      var d := v % 16;
      assert HexDigitValue(HexDigit(d)) == d;
    }
  }

  /** `base + sep + str(n)`: the n-th candidate name built from `base`. */
  function Suffixed(base: string, sep: char, n: nat): string {
    base + [sep] + NatToString(n)
  }

  lemma SuffixedInjective(base: string, sep: char, a: nat, b: nat)
    requires Suffixed(base, sep, a) == Suffixed(base, sep, b)
    ensures a == b
  {
    var k := |base| + 1;
    assert Suffixed(base, sep, a)[k..] == NatToString(a);
    assert Suffixed(base, sep, b)[k..] == NatToString(b);
    NatToStringInjective(a, b);
  }

  /** True iff `name` is what the uniquifying loop picks for `base`: the base
      when it is free, otherwise `base + sep + n` for the smallest free n >= 2. */
  ghost predicate IsUniquified(name: string, base: string, sep: char, used: set<string>) {
    if base !in used then name == base
    else exists n: nat :: n >= 2 && name == Suffixed(base, sep, n) && name !in used &&
                          forall k: nat :: 2 <= k < n ==> Suffixed(base, sep, k) in used
  }

  /** The candidate names `base + sep + k` for 2 <= k < n. */
  ghost function Candidates(base: string, sep: char, n: nat): set<string> {
    set k: nat | 2 <= k < n :: Suffixed(base, sep, k)
  }

  /** The n-th candidate is new, and adding it gives the candidates below n + 1. */
  lemma CandidatesStep(base: string, sep: char, n: nat)
    requires n >= 2
    ensures Suffixed(base, sep, n) !in Candidates(base, sep, n)
    ensures Candidates(base, sep, n + 1) == Candidates(base, sep, n) + {Suffixed(base, sep, n)}
  {
    var x := Suffixed(base, sep, n);
    if x in Candidates(base, sep, n) {
      var k: nat :| 2 <= k < n && Suffixed(base, sep, k) == x;
      SuffixedInjective(base, sep, k, n);
    }
    forall y | y in Candidates(base, sep, n + 1)
      ensures y in Candidates(base, sep, n) + {x}
    {
      var k: nat :| 2 <= k < n + 1 && Suffixed(base, sep, k) == y;
      if k < n { assert y in Candidates(base, sep, n); }
    }
    forall y | y in Candidates(base, sep, n)
      ensures y in Candidates(base, sep, n + 1)
    {
      var k: nat :| 2 <= k < n && Suffixed(base, sep, k) == y;
    }
    assert x in Candidates(base, sep, n + 1);
  }

  /** One more taken candidate leaves fewer untried names in `used`. */
  lemma CandidatesShrink(base: string, sep: char, n: nat, used: set<string>)
    requires n >= 2
    requires Candidates(base, sep, n) <= used
    requires Suffixed(base, sep, n) in used
    ensures Candidates(base, sep, n + 1) <= used
    ensures |used - Candidates(base, sep, n + 1)| < |used - Candidates(base, sep, n)|
  {
    var x := Suffixed(base, sep, n);
    CandidatesStep(base, sep, n);
    var before := used - Candidates(base, sep, n);
    assert x in before;
    assert used - Candidates(base, sep, n + 1) == before - {x};
  }

  /** The loop `if base in used: n = 2; while base-sep-n in used: n += 1`. */
  method Uniquify(base: string, sep: char, used: set<string>) returns (name: string)
    ensures name !in used
    ensures IsUniquified(name, base, sep, used)
  {
    name := base;
    if base in used {
      var n: nat := 2;
      while Suffixed(base, sep, n) in used
        invariant n >= 2
        invariant Candidates(base, sep, n) <= used
        decreases |used - Candidates(base, sep, n)|
      {
        CandidatesShrink(base, sep, n, used);
        n := n + 1;
      }
      name := Suffixed(base, sep, n);
      assert forall k: nat :: 2 <= k < n ==> Suffixed(base, sep, k) in Candidates(base, sep, n);
    }
  }

  /** `sep.join(parts)`. */
  function Join(parts: seq<string>, sep: string): (s: string)
    decreases |parts|
  {
    if parts == [] then ""
    else if |parts| == 1 then parts[0]
    else Join(parts[..|parts| - 1], sep) + sep + parts[|parts| - 1]
  }

  /** Joining from the front: the first part, a separator, the rest joined. */
  lemma {:induction false} JoinCons(x: string, rest: seq<string>, sep: string)
    requires rest != []
    ensures Join([x] + rest, sep) == x + sep + Join(rest, sep)
    decreases |rest|
  {
    var all := [x] + rest;
    if |rest| > 1 {
      assert all[..|all| - 1] == [x] + rest[..|rest| - 1];
      JoinCons(x, rest[..|rest| - 1], sep);
    }
  }

  /** `s.split(c)` for a one-character separator. */
  function Split(s: string, c: char): (parts: seq<string>)
    ensures |parts| >= 1
    ensures forall i :: 0 <= i < |parts| ==> c !in parts[i]
    decreases |s|
  {
    if s == [] then [""]
    else if s[|s| - 1] == c then Split(s[..|s| - 1], c) + [""]
    else
      var p := Split(s[..|s| - 1], c);
      p[..|p| - 1] + [p[|p| - 1] + [s[|s| - 1]]]
  }

  /** Appending a part to a non-empty list joins it after one separator. */
  lemma JoinSnoc(parts: seq<string>, x: string, sep: string)
    requires parts != []
    ensures Join(parts + [x], sep) == Join(parts, sep) + sep + x
  {
    assert (parts + [x])[..|parts|] == parts;
  }

  /** Extending the last part extends the joined string. */
  lemma JoinExtendLast(parts: seq<string>, ch: char, sep: string)
    requires parts != []
    ensures Join(parts[..|parts| - 1] + [parts[|parts| - 1] + [ch]], sep) == Join(parts, sep) + [ch]
  {
    var init := parts[..|parts| - 1];
    var last := parts[|parts| - 1];
    if init == [] {
      assert parts == [last];
    } else {
      JoinSnoc(init, last + [ch], sep);
      JoinSnoc(init, last, sep);
      assert parts == init + [last];
    }
  }

  lemma {:induction false} JoinSplit(s: string, c: char)
    ensures Join(Split(s, c), [c]) == s
    decreases |s|
  {
    if s != [] {
      var init := s[..|s| - 1];
      JoinSplit(init, c);
      var p := Split(init, c);
      if s[|s| - 1] == c {
        JoinSnoc(p, "", [c]);
      } else {
        JoinExtendLast(p, s[|s| - 1], [c]);
      }
      assert s == init + [s[|s| - 1]];
    }
  }

  /** Python's `template % args` for templates whose only directives are
      `%s`: each directive is replaced by the next argument, in order. */
  function Format(t: string, args: seq<string>): (r: string)
    decreases |t|
  {
    if t == [] then []
    else if |t| >= 2 && t[0] == '%' && t[1] == 's' && args != [] then args[0] + Format(t[2..], args[1..])
    else [t[0]] + Format(t[1..], args)
  }

  /** Text without a directive is copied unchanged. */
  lemma {:induction false} FormatPlain(t: string, args: seq<string>)
    requires '%' !in t
    ensures Format(t, args) == t
    decreases |t|
  {
    if t != [] {
      FormatPlain(t[1..], args);
    }
  }

  /** The first directive takes the first argument; the text before it is
      copied. */
  lemma {:induction false} FormatFirst(prefix: string, rest: string, x: string, args: seq<string>)
    requires '%' !in prefix
    ensures Format(prefix + "%s" + rest, [x] + args) == prefix + x + Format(rest, args)
    decreases |prefix|
  {
    var t := prefix + "%s" + rest;
    if prefix == [] {
      assert t == "%s" + rest;
      assert t[2..] == rest;
      assert ([x] + args)[1..] == args;
    } else {
      assert t[1..] == prefix[1..] + "%s" + rest;
      FormatFirst(prefix[1..], rest, x, args);
      assert t[0] == prefix[0];
      assert [prefix[0]] + prefix[1..] == prefix;
    }
  }

  /** A `%s` template given by its text between directives: the pieces with
      the arguments placed between them, in order. */
  function Interleave(pieces: seq<string>, args: seq<string>): string
    requires |pieces| == |args| + 1
    decreases |args|
  {
    if args == [] then pieces[0] else pieces[0] + args[0] + Interleave(pieces[1..], args[1..])
  }

  /** Formatting the template whose pieces are joined by `%s` places the
      arguments exactly as `Interleave` does. */
  lemma {:induction false} FormatInterleave(pieces: seq<string>, args: seq<string>)
    requires |pieces| == |args| + 1
    requires forall i :: 0 <= i < |pieces| ==> '%' !in pieces[i]
    ensures Format(Join(pieces, "%s"), args) == Interleave(pieces, args)
    decreases |args|
  {
    if args == [] {
      FormatPlain(pieces[0], args);
    } else {
      var rest := pieces[1..];
      assert pieces == [pieces[0]] + rest;
      JoinCons(pieces[0], rest, "%s");
      FormatFirst(pieces[0], Join(rest, "%s"), args[0], args[1..]);
      assert [args[0]] + args[1..] == args;
      FormatInterleave(rest, args[1..]);
    }
  }

  /** Python 2 `string.whitespace`. */
  predicate IsSpace(c: char) {
    c == ' ' || c == '\t' || c == '\n' || c == '\r' || c == '\U{b}' || c == '\U{c}'
  }

  /** `s.rstrip()`. */
  function RStrip(s: string): (r: string)
    ensures |r| <= |s| && r == s[..|r|]
    ensures r == [] || !IsSpace(r[|r| - 1])
    ensures forall i :: |r| <= i < |s| ==> IsSpace(s[i])
    decreases |s|
  {
    if s != [] && IsSpace(s[|s| - 1]) then RStrip(s[..|s| - 1]) else s
  }
}
