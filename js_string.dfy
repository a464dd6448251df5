/**
 * The JavaScript string built-ins the extension relies on, stated over
 * `seq<char>`: `trim`, `includes`, `indexOf`, `replace` with a single-character
 * pattern, `split` on one character, `parseInt` without a radix, and the
 * decimal rendering of a non-negative integer used by template literals.
 */
module JsString {

  datatype Option<T> = None | Some(value: T)

  /** ECMAScript WhiteSpace and LineTerminator code points: what `trim` removes. */
  predicate IsWs(c: char) {
    || c == ' ' || c == '\t' || c == '\n' || c == '\r'
    || c == '\U{000B}' || c == '\U{000C}' || c == '\U{00A0}' || c == '\U{1680}'
    || ('\U{2000}' <= c <= '\U{200A}')
    || c == '\U{2028}' || c == '\U{2029}' || c == '\U{202F}' || c == '\U{205F}'
    || c == '\U{3000}' || c == '\U{FEFF}'
  }

  predicate AllWs(s: string) {
    forall k :: 0 <= k < |s| ==> IsWs(s[k])
  }

  /** Neither the first nor the last character is whitespace. */
  predicate NoEdgeWs(s: string) {
    s == [] || (!IsWs(s[0]) && !IsWs(s[|s| - 1]))
  }

  /** The end of the whitespace run that starts at `i`. */
  function SkipWs(s: string, i: nat): (n: nat)
    requires i <= |s|
    ensures i <= n <= |s|
    ensures forall k :: i <= k < n ==> IsWs(s[k])
    ensures n < |s| ==> !IsWs(s[n])
    decreases |s| - i
  {
    if i < |s| && IsWs(s[i]) then SkipWs(s, i + 1) else i
  }

  /** The start of the whitespace run that ends at `j`, going back no further than `lo`. */
  function BackWs(s: string, lo: nat, j: nat): (m: nat)
    requires lo <= j <= |s|
    ensures lo <= m <= j
    ensures forall k :: m <= k < j ==> IsWs(s[k])
    ensures lo < m ==> !IsWs(s[m - 1])
    decreases j
  {
    if lo < j && IsWs(s[j - 1]) then BackWs(s, lo, j - 1) else j
  }

  /** `String.prototype.trimStart`: drops the leading whitespace run. */
  function TrimStart(s: string): (r: string)
    ensures |r| <= |s| && r == s[|s| - |r|..]
    ensures forall k :: 0 <= k < |s| - |r| ==> IsWs(s[k])
    ensures r == [] || !IsWs(r[0])
  {
    s[SkipWs(s, 0)..]
  }

  /**
   * `String.prototype.trim`: the result is the slice of `s` left after removing
   * a whitespace prefix and a whitespace suffix, and it starts and ends with a
   * non-whitespace character (or is empty).
   */
  function Trim(s: string): (r: string)
    ensures var a := SkipWs(s, 0); a + |r| <= |s| && r == s[a..a + |r|]
    ensures forall k :: 0 <= k < SkipWs(s, 0) ==> IsWs(s[k])
    ensures forall k :: SkipWs(s, 0) + |r| <= k < |s| ==> IsWs(s[k])
    ensures NoEdgeWs(r)
  {
    var a := SkipWs(s, 0);
    s[a..BackWs(s, a, |s|)]
  }

  /** Trimming a string that has no whitespace at either end changes nothing. */
  lemma TrimOfTrimmed(s: string)
    requires NoEdgeWs(s)
    ensures Trim(s) == s
  {
    assert SkipWs(s, 0) == 0;
    assert BackWs(s, 0, |s|) == |s|;
  }

  /** Going back over a whitespace run stops right after the last non-whitespace character. */
  lemma {:induction false} BackWsOverRun(s: string, lo: nat, m: nat, j: nat)
    requires lo <= m <= j <= |s|
    requires forall k :: m <= k < j ==> IsWs(s[k])
    requires lo < m ==> !IsWs(s[m - 1])
    ensures BackWs(s, lo, j) == m
    decreases j
  {
    if m < j {
      BackWsOverRun(s, lo, m, j - 1);
    }
  }

  /** Trailing whitespace after a trimmed text is exactly what `trim` removes. */
  lemma TrimPadded(core: string, pad: string)
    requires core != [] && NoEdgeWs(core) && AllWs(pad)
    ensures Trim(core + pad) == core
  {
    var s := core + pad;
    assert s[0] == core[0];
    assert SkipWs(s, 0) == 0;
    assert s[|core| - 1] == core[|core| - 1];
    assert forall k :: |core| <= k < |s| ==> s[k] == pad[k - |core|];
    BackWsOverRun(s, 0, |core|, |s|);
    assert s[..|core|] == core;
  }

  /** `trim` is idempotent. */
  lemma TrimIdempotent(s: string)
    ensures Trim(Trim(s)) == Trim(s)
  {
    TrimOfTrimmed(Trim(s));
  }

  /** `s.includes(sub)`: some suffix of `s` starts with `sub`. */
  predicate Includes(s: string, sub: string)
    decreases |s|
  {
    sub <= s || (s != [] && Includes(s[1..], sub))
  }

  /** `sub` occurs in `s` starting at position `k`. */
  predicate OccursAt(s: string, sub: string, k: int) {
    0 <= k <= |s| - |sub| && s[k..k + |sub|] == sub
  }

  /** `includes` agrees with the positional definition: `sub` occurs at some offset. */
  lemma {:induction false} IncludesAt(s: string, sub: string)
    ensures Includes(s, sub) <==> exists k :: OccursAt(s, sub, k)
    decreases |s|
  {
    if sub <= s {
      assert OccursAt(s, sub, 0);
    } else if s == [] {
      assert forall k :: !OccursAt(s, sub, k);
    } else {
      IncludesAt(s[1..], sub);
      IncludesStep(s, sub);
    }
  }

  /** Without a match at the front, `sub` occurs in `s` exactly when it occurs in `s[1..]`. */
  lemma IncludesStep(s: string, sub: string)
    requires s != [] && !(sub <= s)
    ensures (exists k :: OccursAt(s[1..], sub, k)) <==> (exists k :: OccursAt(s, sub, k))
  {
    if exists k :: OccursAt(s[1..], sub, k) {
      var k :| OccursAt(s[1..], sub, k);
      OccursShift(s, sub, k);
    }
    if exists k :: OccursAt(s, sub, k) {
      var k :| OccursAt(s, sub, k);
      if k == 0 {
        assert false;
      }
      OccursShift(s, sub, k - 1);
    }
  }

  /** An occurrence in `s[1..]` at k is an occurrence in `s` at k + 1. */
  lemma OccursShift(s: string, sub: string, k: int)
    requires s != [] && 0 <= k
    ensures OccursAt(s[1..], sub, k) <==> OccursAt(s, sub, k + 1)
  {
    if k + 1 + |sub| <= |s| {
      assert s[1..][k..k + |sub|] == s[k + 1..k + 1 + |sub|];
    }
  }

  /** `s.indexOf(c)`: the first position of `c`, or -1 when `c` does not occur. */
  function IndexOf(s: string, c: char): (i: int)
    ensures -1 <= i < |s|
    ensures 0 <= i ==> s[i] == c
    ensures forall k :: 0 <= k < (if i < 0 then |s| else i) ==> s[k] != c
  {
    if s == [] then -1
    else if s[0] == c then 0
    else
      var j := IndexOf(s[1..], c);
      assert s == [s[0]] + s[1..];
      if j < 0 then -1 else j + 1
  }

  /** `s.replace(/a/, b)`: only the first occurrence of `a` becomes `b`. */
  function ReplaceFirst(s: string, a: char, b: char): (r: string)
    ensures |r| == |s|
  {
    var i := IndexOf(s, a);
    if i < 0 then s else s[..i] + [b] + s[i + 1..]
  }

  /** Only the first `a` changes: every other character stays where it was. */
  lemma ReplaceFirstEach(s: string, a: char, b: char)
    ensures forall k :: 0 <= k < |s| ==>
      ReplaceFirst(s, a, b)[k] == (if s[k] == a && a !in s[..k] then b else s[k])
  {
    var i := IndexOf(s, a);
    if i >= 0 {
      forall k | 0 <= k < |s| && k > i ensures a in s[..k] { assert s[..k][i] == a; }
    }
  }

  /** `s.replace(/a/g, b)`: every occurrence of `a` becomes `b`. */
  function ReplaceAll(s: string, a: char, b: char): (r: string)
    ensures |r| == |s|
  {
    if s == [] then [] else [if s[0] == a then b else s[0]] + ReplaceAll(s[1..], a, b)
  }

  /** Every `a`, and only an `a`, changes, position for position. */
  lemma {:induction false} ReplaceAllEach(s: string, a: char, b: char)
    ensures forall k :: 0 <= k < |s| ==> ReplaceAll(s, a, b)[k] == (if s[k] == a then b else s[k])
    decreases |s|
  {
    if s != [] {
      ReplaceAllEach(s[1..], a, b);
    }
  }

  /** The first `a` is the one after an `a`-free prefix. */
  lemma ReplaceFirstAt(p: string, a: char, b: char, q: string)
    requires a !in p
    ensures ReplaceFirst(p + [a] + q, a, b) == p + [b] + q
  {
    IndexOfAfterFree(p, a, [a] + q);
    assert p + [a] + q == p + ([a] + q);
  }

  /** An `a`-free prefix is kept as it is when every `a` is replaced. */
  lemma {:induction false} ReplaceAllAfterFree(p: string, q: string, a: char, b: char)
    requires a !in p
    ensures ReplaceAll(p + q, a, b) == p + ReplaceAll(q, a, b)
    decreases |p|
  {
    if p != [] {
      assert (p + q)[0] == p[0] && (p + q)[1..] == p[1..] + q;
      ReplaceAllAfterFree(p[1..], q, a, b);
      assert p == [p[0]] + p[1..];
    } else {
      assert p + q == q;
    }
  }

  /** After replacing every `a` by another character, no `a` is left. */
  lemma ReplaceAllRemoves(s: string, a: char, b: char)
    requires a != b
    ensures a !in ReplaceAll(s, a, b)
  {
    ReplaceAllEach(s, a, b);
  }

  /** The first `a` after an `a`-free prefix becomes `b`, and the rest is rewritten in turn. */
  lemma ReplaceAllSep(p: string, q: string, a: char, b: char)
    requires a !in p
    ensures ReplaceAll(p + [a] + q, a, b) == p + [b] + ReplaceAll(q, a, b)
  {
    assert p + [a] + q == p + ([a] + q);
    ReplaceAllAfterFree(p, [a] + q, a, b);
    assert ([a] + q)[1..] == q;
  }

  /** `s.split(c)[0]`: the longest prefix of `s` that does not contain `c`. */
  function BeforeFirst(s: string, c: char): (r: string)
    ensures r <= s && c !in r
    ensures |r| < |s| ==> s[|r|] == c
  {
    var i := IndexOf(s, c);
    if i < 0 then s else s[..i]
  }

  /** Before the first `c` is the `c`-free prefix that precedes it. */
  lemma BeforeFirstAt(p: string, c: char, q: string)
    requires c !in p
    ensures BeforeFirst(p + [c] + q, c) == p
  {
    IndexOfAfterFree(p, c, [c] + q);
    assert p + [c] + q == p + ([c] + q);
    assert (p + [c] + q)[..|p|] == p;
  }

  /** The pieces joined with `sep` between consecutive pieces (`Array.prototype.join`). */
  function Join(pieces: seq<string>, sep: string): string
  {
    if |pieces| == 0 then ""
    else if |pieces| == 1 then pieces[0]
    else Join(pieces[..|pieces| - 1], sep) + sep + pieces[|pieces| - 1]
  }

  /** Joining one more piece at the front. */
  lemma {:induction false} JoinCons(p: string, rest: seq<string>, sep: string)
    requires rest != []
    ensures Join([p] + rest, sep) == p + sep + Join(rest, sep)
    decreases |rest|
  {
    var ps := [p] + rest;
    if |rest| == 1 {
      assert ps[..1] == [p];
    } else {
      assert ps[..|ps| - 1] == [p] + rest[..|rest| - 1];
      JoinCons(p, rest[..|rest| - 1], sep);
    }
  }

  /** The pieces concatenated in order. */
  function Concat(pieces: seq<string>): string
  {
    if pieces == [] then "" else Concat(pieces[..|pieces| - 1]) + pieces[|pieces| - 1]
  }

  /** Concatenation distributes over a split of the pieces. */
  lemma {:induction false} ConcatAppend(a: seq<string>, b: seq<string>)
    ensures Concat(a + b) == Concat(a) + Concat(b)
    decreases |b|
  {
    if b == [] {
      assert a + b == a;
    } else {
      assert (a + b)[..|a + b| - 1] == a + b[..|b| - 1];
      ConcatAppend(a, b[..|b| - 1]);
      AppendAssoc(Concat(a), Concat(b[..|b| - 1]), b[|b| - 1]);
    }
  }

  /** `xs.map(f)` for a rendering function `f`. */
  function MapStrings<T>(xs: seq<T>, f: T -> string): (r: seq<string>)
    ensures |r| == |xs|
    ensures forall k :: 0 <= k < |xs| ==> r[k] == f(xs[k])
  {
    if xs == [] then [] else MapStrings(xs[..|xs| - 1], f) + [f(xs[|xs| - 1])]
  }

  /** Mapping distributes over a split of the input. */
  lemma MapStringsAppend<T>(a: seq<T>, b: seq<T>, f: T -> string)
    ensures MapStrings(a + b, f) == MapStrings(a, f) + MapStrings(b, f)
  {
  }

  /** The rendering of the first i + 1 elements joined: the first i joined, a separator if any came before, the next one. */
  lemma JoinMapStep<T>(xs: seq<T>, i: nat, f: T -> string, sep: string)
    requires i < |xs|
    ensures Join(MapStrings(xs[..i + 1], f), sep)
      == Join(MapStrings(xs[..i], f), sep) + (if 0 < i then sep else "") + f(xs[i])
  {
    assert xs[..i + 1][..i] == xs[..i];
    var ps := MapStrings(xs[..i], f);
    assert MapStrings(xs[..i + 1], f) == ps + [f(xs[i])];
    assert (ps + [f(xs[i])])[..|ps|] == ps;
  }

  /** The rendering of the first i + 1 elements concatenated: the first i, then the next one. */
  lemma ConcatMapStep<T>(xs: seq<T>, i: nat, f: T -> string)
    requires i < |xs|
    ensures Concat(MapStrings(xs[..i + 1], f)) == Concat(MapStrings(xs[..i], f)) + f(xs[i])
  {
    assert xs[..i + 1][..i] == xs[..i];
    var ps := MapStrings(xs[..i], f);
    assert MapStrings(xs[..i + 1], f) == ps + [f(xs[i])];
    assert (ps + [f(xs[i])])[..|ps|] == ps;
  }

  /** Total length of the pieces. */
  function TotalLength(pieces: seq<string>): nat
  {
    if pieces == [] then 0 else TotalLength(pieces[..|pieces| - 1]) + |pieces[|pieces| - 1]|
  }

  /** Joining n pieces inserts exactly n - 1 separators. */
  lemma {:induction false} JoinLength(pieces: seq<string>, sep: string)
    requires pieces != []
    ensures |Join(pieces, sep)| == TotalLength(pieces) + (|pieces| - 1) * |sep|
  {
    var n := |pieces|;
    if n > 1 {
      var init := pieces[..n - 1];
      JoinLength(init, sep);
      assert Join(pieces, sep) == Join(init, sep) + sep + pieces[n - 1];
      assert TotalLength(pieces) == TotalLength(init) + |pieces[n - 1]|;
      assert (n - 1) * |sep| == (n - 2) * |sep| + |sep|;
    } else {
      assert pieces[..0] == [];
    }
  }

  /** The joined text ends with the last piece: no separator follows it. */
  lemma {:induction false} JoinEndsWithLast(pieces: seq<string>, sep: string)
    requires pieces != []
    ensures var j := Join(pieces, sep); var last := pieces[|pieces| - 1];
      |last| <= |j| && j[|j| - |last|..] == last
  {
  }

  /** `s.split(c)`: the maximal `c`-free pieces between the occurrences of `c`. */
  function Split(s: string, c: char): (r: seq<string>)
    ensures |r| >= 1
    decreases |s|
  {
    var i := IndexOf(s, c);
    if i < 0 then [s] else [s[..i]] + Split(s[i + 1..], c)
  }

  /** No piece of a split contains the split character. */
  lemma {:induction false} SplitPiecesFree(s: string, c: char)
    ensures forall k :: 0 <= k < |Split(s, c)| ==> c !in Split(s, c)[k]
    decreases |s|
  {
    var i := IndexOf(s, c);
    if i >= 0 {
      SplitPiecesFree(s[i + 1..], c);
    }
  }

  /**
   * The first piece of a split is the text before the first `c`; when there is a
   * `c`, the remaining pieces are the split of the text after it.
   */
  lemma SplitFront(s: string, c: char)
    ensures Split(s, c)[0] == BeforeFirst(s, c)
    ensures c in s ==>
      |Split(s, c)| >= 2 && Split(s, c)[1..] == Split(s[|BeforeFirst(s, c)| + 1..], c)
  {
    var i := IndexOf(s, c);
    if i >= 0 {
      var rest := Split(s[i + 1..], c);
      SplitAt(s, c, i);
      assert ([s[..i]] + rest)[1..] == rest;
    }
  }

  /** Joining the pieces of a split with the split character gives back the text. */
  lemma {:induction false} SplitJoin(s: string, c: char)
    ensures Join(Split(s, c), [c]) == s
    decreases |s|
  {
    var i := IndexOf(s, c);
    if i >= 0 {
      SplitJoin(s[i + 1..], c);
      SplitJoinStep(s, c, i);
    }
  }

  /** One step of `SplitJoin`: the piece before the first `c`, the `c`, and the rejoined rest. */
  lemma SplitJoinStep(s: string, c: char, i: nat)
    requires i < |s| && i == IndexOf(s, c)
    requires Join(Split(s[i + 1..], c), [c]) == s[i + 1..]
    ensures Join(Split(s, c), [c]) == s
  {
    var rest := Split(s[i + 1..], c);
    SplitAt(s, c, i);
    JoinCons(s[..i], rest, [c]);
    Rejoin(s, i);
  }

  /** With a `c` at position i, the first piece ends there and the rest is split after it. */
  lemma SplitAt(s: string, c: char, i: nat)
    requires i < |s| && i == IndexOf(s, c)
    ensures Split(s, c) == [s[..i]] + Split(s[i + 1..], c)
  {
  }

  /** A string is the part before position i, the character at i, and the part after. */
  lemma Rejoin(s: string, i: nat)
    requires i < |s|
    ensures s == s[..i] + [s[i]] + s[i + 1..]
  {
  }

  /** Splitting a join of `c`-free pieces recovers exactly those pieces. */
  lemma {:induction false} JoinSplit(pieces: seq<string>, c: char)
    requires pieces != []
    requires forall k :: 0 <= k < |pieces| ==> c !in pieces[k]
    ensures Split(Join(pieces, [c]), c) == pieces
    decreases |pieces|
  {
    if |pieces| == 1 {
      assert IndexOf(pieces[0], c) == -1;
    } else {
      var p, rest := pieces[0], pieces[1..];
      assert pieces == [p] + rest;
      JoinCons(p, rest, [c]);
      var s := Join(pieces, [c]);
      assert s == p + [c] + Join(rest, [c]);
      assert s == p + ([c] + Join(rest, [c]));
      IndexOfAfterFree(p, c, [c] + Join(rest, [c]));
      assert s[..|p|] == p;
      assert s[|p| + 1..] == Join(rest, [c]);
      JoinSplit(rest, c);
    }
  }

  /** A `c`-free prefix only shifts the position of the first `c`. */
  lemma {:induction false} IndexOfAfterFree(p: string, c: char, t: string)
    requires c !in p
    ensures IndexOf(p + t, c) == if IndexOf(t, c) < 0 then -1 else |p| + IndexOf(t, c)
    decreases |p|
  {
    if p == [] {
      assert p + t == t;
    } else {
      assert (p + t)[0] == p[0];
      assert (p + t)[1..] == p[1..] + t;
      IndexOfAfterFree(p[1..], c, t);
    }
  }

  /** True of the characters '0'..'9'. */
  predicate IsDecimalDigit(c: char) {
    '0' <= c <= '9'
  }

  /** The value of a digit character in radix 10 or 16, or -1 if it is not one. */
  function DigitValue(c: char, radix: nat): (v: int)
    requires radix == 10 || radix == 16
    ensures -1 <= v < radix as int
    ensures radix == 10 ==> (v >= 0 <==> IsDecimalDigit(c))
  {
    if '0' <= c <= '9' then c as int - '0' as int
    else if radix == 16 && 'a' <= c <= 'f' then c as int - 'a' as int + 10
    else if radix == 16 && 'A' <= c <= 'F' then c as int - 'A' as int + 10
    else -1
  }

  /** The longest prefix of `s` made of digits of the radix. */
  function DigitRun(s: string, radix: nat): (r: string)
    requires radix == 10 || radix == 16
    ensures r <= s
    ensures forall k :: 0 <= k < |r| ==> DigitValue(r[k], radix) >= 0
    ensures |r| < |s| ==> DigitValue(s[|r|], radix) < 0
  {
    s[..DigitEnd(s, radix, 0)]
  }

  /** The end of the run of digits of the radix that starts at `i`. */
  function DigitEnd(s: string, radix: nat, i: nat): (n: nat)
    requires radix == 10 || radix == 16
    requires i <= |s|
    ensures i <= n <= |s|
    ensures forall k :: i <= k < n ==> DigitValue(s[k], radix) >= 0
    ensures n < |s| ==> DigitValue(s[n], radix) < 0
    decreases |s| - i
  {
    if i < |s| && DigitValue(s[i], radix) >= 0 then DigitEnd(s, radix, i + 1) else i
  }

  /** The number a run of digits denotes, most significant digit first. */
  function DigitsValue(ds: string, radix: nat): (v: nat)
    requires radix == 10 || radix == 16
    requires forall k :: 0 <= k < |ds| ==> DigitValue(ds[k], radix) >= 0
  {
    if ds == [] then 0
    else DigitsValue(ds[..|ds| - 1], radix) * radix + DigitValue(ds[|ds| - 1], radix)
  }

  /**
   * The digits part of `parseInt`: radix 16 after a `0x`/`0X` prefix, radix 10
   * otherwise, stopping at the first character that is not a digit; `None` when
   * no digit is read.
   */
  function ParseUnsigned(u: string): Option<nat>
  {
    var hex := |u| >= 2 && u[0] == '0' && (u[1] == 'x' || u[1] == 'X');
    var radix := if hex then 16 else 10;
    var ds := DigitRun(if hex then u[2..] else u, radix);
    if ds == [] then None else Some(DigitsValue(ds, radix))
  }

  /**
   * `parseInt(s)` with no radix: skip leading whitespace, read an optional sign,
   * then the digits. `None` stands for `NaN`.
   */
  function ParseInt(s: string): (r: Option<int>)
    // a number is read only when a digit or a sign follows the leading whitespace
    ensures r.Some? ==> var t := TrimStart(s);
      t != [] && (IsDecimalDigit(t[0]) || t[0] == '-' || t[0] == '+')
    // only a minus sign makes the number negative
    ensures r.Some? && r.value < 0 ==> TrimStart(s)[0] == '-'
    // a leading decimal digit not followed by `x`/`X` always gives a non-negative number
    ensures var t := TrimStart(s);
      t != [] && IsDecimalDigit(t[0]) && (|t| == 1 || (t[1] != 'x' && t[1] != 'X')) ==>
        r.Some? && r.value >= 0
  {
    var t := TrimStart(s);
    var negative := t != [] && t[0] == '-';
    var u := if t != [] && (t[0] == '-' || t[0] == '+') then t[1..] else t;
    Signed(negative, ParseUnsigned(u))
  }

  /** The value read after a sign: negated after a minus. */
  function Signed(negative: bool, p: Option<nat>): (r: Option<int>)
  {
    match p
    case None => None
    case Some(v) => Some(if negative then -(v as int) else v)
  }

  function DigitChar(d: nat): (c: char)
    requires d < 10
    ensures IsDecimalDigit(c) && DigitValue(c, 10) == d
  {
    ('0' as int + d) as char
  }

  /** Decimal rendering of a non-negative integer, as a template literal prints it. */
  function NatToString(n: nat): (r: string)
    ensures r != []
    ensures forall k :: 0 <= k < |r| ==> IsDecimalDigit(r[k])
    ensures r[0] == '0' ==> r == "0"
  {
    if n < 10 then [DigitChar(n)] else NatToString(n / 10) + [DigitChar(n % 10)]
  }

  /** Reading back a decimal rendering gives the number. */
  lemma {:induction false} DigitsValueOfNatToString(n: nat)
    ensures forall k :: 0 <= k < |NatToString(n)| ==> DigitValue(NatToString(n)[k], 10) >= 0
    ensures DigitsValue(NatToString(n), 10) == n
  {
    var s := NatToString(n);
    if n >= 10 {
      DigitsValueOfNatToString(n / 10);
      assert s[..|s| - 1] == NatToString(n / 10);
    } else {
      assert s[..0] == [];
    }
  }

  /** A digit run followed by a non-digit: the run is exactly the digits. */
  lemma DigitRunOfDigits(ds: string, rest: string)
    requires forall k :: 0 <= k < |ds| ==> IsDecimalDigit(ds[k])
    requires rest == [] || !IsDecimalDigit(rest[0])
    ensures DigitRun(ds + rest, 10) == ds
  {
    var s := ds + rest;
    var r := DigitRun(s, 10);
    assert forall k :: 0 <= k < |ds| ==> s[k] == ds[k];
    assert |ds| < |s| ==> s[|ds|] == rest[0];
    assert forall k :: 0 <= k < |r| ==> r[k] == s[k];
    assert |r| == |ds|;
    assert s[..|ds|] == ds;
  }

  /**
   * What may follow a number without being read into it: nothing, or a character
   * that is neither a decimal digit nor the `x` of a hexadecimal prefix.
   */
  predicate EndsNumber(rest: string) {
    rest == [] || (!IsDecimalDigit(rest[0]) && rest[0] != 'x' && rest[0] != 'X')
  }

  /** The digits of a decimal rendering, with a non-digit after them, read back as the number. */
  lemma ParseUnsignedOfNatToString(n: nat, rest: string)
    requires EndsNumber(rest)
    ensures ParseUnsigned(NatToString(n) + rest) == Some(n)
  {
    var ds := NatToString(n);
    var u := ds + rest;
    if |u| >= 2 && u[0] == '0' {
      assert ds == "0";
      assert u[1] == rest[0];
    }
    DigitRunOfDigits(ds, rest);
    DigitsValueOfNatToString(n);
  }

  /** `parseInt` of an optional minus sign and text that starts with a digit. */
  lemma ParseIntSigned(u: string, negative: bool)
    requires u != [] && IsDecimalDigit(u[0])
    ensures ParseInt((if negative then "-" else "") + u) == Signed(negative, ParseUnsigned(u))
  {
    var s := (if negative then "-" else "") + u;
    if negative {
      assert s[0] == '-' && s[1..] == u;
    } else {
      assert s == u;
    }
    assert !IsWs(s[0]);
    assert TrimStart(s) == s;
  }

  /**
   * `parseInt` reads back what the decimal rendering wrote, also when a minus
   * sign precedes it or anything but a digit follows it.
   */
  lemma ParseIntOfNatToString(n: nat, negative: bool, rest: string)
    requires EndsNumber(rest)
    ensures ParseInt((if negative then "-" else "") + NatToString(n) + rest)
      == Some(if negative then -(n as int) else n)
  {
    var sign := if negative then "-" else "";
    var u := NatToString(n) + rest;
    AppendAssoc(sign, NatToString(n), rest);
    ParseIntSigned(u, negative);
    ParseUnsignedOfNatToString(n, rest);
    SignedSome(negative, n);
  }

  /** A number read after a minus sign is negated; otherwise it is kept. */
  lemma SignedSome(negative: bool, n: nat)
    ensures Signed(negative, Some(n)) == Some(if negative then -(n as int) else n)
  {
  }


  /** Concatenation is associative. */
  lemma AppendAssoc<T>(a: seq<T>, b: seq<T>, c: seq<T>)
    ensures a + b + c == a + (b + c)
  {
  }
}
