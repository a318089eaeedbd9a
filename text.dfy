/** The JavaScript string operations the adapters and pages rely on: `trim`, `split(',')`,
    `join`, `toLowerCase`, `includes`, `Number.prototype.toString` and `parseInt`. */
module Text {
  import opened Wrappers

  /** The whitespace `trim` and `parseInt` skip: space, tab, line feed, vertical tab, form
      feed and carriage return (the characters below U+0080 that JavaScript counts as white
      space or line terminators). */
  predicate IsSpace(c: char) {
    c == ' ' || c == '\t' || c == '\n' || c == '\U{0B}' || c == '\U{0C}' || c == '\r'
  }

  predicate AllSpace(s: string) {
    forall i :: 0 <= i < |s| ==> IsSpace(s[i])
  }

  /** Neither end is whitespace: what `trim` leaves. */
  predicate IsTrimmed(s: string) {
    s == [] || (!IsSpace(s[0]) && !IsSpace(s[|s| - 1]))
  }

  /** `s.trimStart()`: the leading whitespace of `s` cut off (`TrimStartSuffix` says that what
      is left is the rest of `s`). */
  function TrimStart(s: string): (r: string)
    ensures |r| <= |s|
    ensures forall k :: 0 <= k < |s| - |r| ==> IsSpace(s[k])
    ensures r == [] || !IsSpace(r[0])
  {
    if |s| > 0 && IsSpace(s[0]) then
      var r := TrimStart(s[1..]);
      assert forall k :: 1 <= k < |s| ==> s[k] == s[1..][k - 1];
      r
    else
      s
  }

  /** What `trimStart` leaves is the tail of `s`. */
  lemma {:induction false} TrimStartSuffix(s: string)
    ensures TrimStart(s) == s[|s| - |TrimStart(s)|..]
  {
    if |s| > 0 && IsSpace(s[0]) {
      TrimStartSuffix(s[1..]);
      assert s[1..][|s| - 1 - |TrimStart(s)|..] == s[|s| - |TrimStart(s)|..];
    }
  }

  /** `s.trimEnd()`: what is left is the head of `s` before its trailing whitespace. */
  function TrimEnd(s: string): (r: string)
    ensures |r| <= |s|
    ensures forall k :: 0 <= k < |r| ==> r[k] == s[k]
    ensures forall k :: |r| <= k < |s| ==> IsSpace(s[k])
    ensures r == [] || !IsSpace(r[|r| - 1])
  {
    if |s| > 0 && IsSpace(s[|s| - 1]) then
      var r := TrimEnd(s[..|s| - 1]);
      assert forall k :: 0 <= k < |s| - 1 ==> s[k] == s[..|s| - 1][k];
      r
    else
      s
  }

  /** `s.trim()`: the result has no surrounding whitespace (`TrimPiece` says where in `s` it
      comes from). */
  function Trim(s: string): (r: string)
    ensures |r| <= |s| && IsTrimmed(r)
  {
    var t := TrimStart(s);
    var r := TrimEnd(t);
    assert r != [] ==> r[0] == t[0];
    r
  }

  /** What `trim` leaves is the piece of `s` between its leading and its trailing whitespace. */
  lemma {:induction false} TrimPiece(s: string)
    ensures var i := |s| - |TrimStart(s)|;
      i + |Trim(s)| <= |s| && Trim(s) == s[i..i + |Trim(s)|]
  {
    var t := TrimStart(s);
    var r := TrimEnd(t);
    TrimStartSuffix(s);
    assert r == t[..|r|];
  }

  /** What `trim` cuts off at the end is whitespace, as `TrimStart` says of the start. */
  lemma {:induction false} TrimCutsBlanks(s: string)
    ensures forall k :: |s| - |TrimStart(s)| + |Trim(s)| <= k < |s| ==> IsSpace(s[k])
  {
    var t := TrimStart(s);
    var r := TrimEnd(t);
    assert Trim(s) == r;
    var i := |s| - |t|;
    TrimStartSuffix(s);
    forall k | i + |r| <= k < |s|
      ensures IsSpace(s[k])
    {
      assert s[k] == t[k - i];
      assert IsSpace(t[k - i]);
    }
  }

  /** A string that does not start with whitespace is its own `trimStart`. */
  lemma {:induction false} TrimStartNoSpace(s: string)
    requires s == [] || !IsSpace(s[0])
    ensures TrimStart(s) == s
  {
  }

  lemma {:induction false} TrimStartPadded(pad: string, x: string)
    requires AllSpace(pad)
    requires x == [] || !IsSpace(x[0])
    ensures TrimStart(pad + x) == x
  {
    if pad == [] {
      assert pad + x == x;
    } else {
      assert (pad + x)[1..] == pad[1..] + x;
      TrimStartPadded(pad[1..], x);
    }
  }

  /** Trimming whitespace followed by an already trimmed string gives that string back. */
  lemma {:induction false} TrimPadded(pad: string, x: string)
    requires AllSpace(pad) && IsTrimmed(x)
    ensures Trim(pad + x) == x
  {
    TrimStartPadded(pad, x);
  }

  /** A trimmed string is its own trim. */
  lemma {:induction false} TrimTrimmed(x: string)
    requires IsTrimmed(x)
    ensures Trim(x) == x
  {
    TrimPadded("", x);
    assert "" + x == x;
  }

  /** Trimming adds no character. */
  lemma {:induction false} TrimKeepsOut(s: string, c: char)
    requires c !in s
    ensures c !in Trim(s)
  {
    var r := Trim(s);
    var i := |s| - |TrimStart(s)|;
    TrimPiece(s);
  }

  /** `s.split(sep)`: always at least one piece, and no piece holds the separator. */
  function Split(s: string, sep: char): (r: seq<string>)
    ensures |r| >= 1
    ensures forall i :: 0 <= i < |r| ==> sep !in r[i]
  {
    if s == [] then [""]
    else
      var rest := Split(s[1..], sep);
      if s[0] == sep then [""] + rest else [[s[0]] + rest[0]] + rest[1..]
  }

  /** `xs.map(t => t.trim())`. */
  function TrimEach(xs: seq<string>): seq<string> {
    seq(|xs|, i requires 0 <= i < |xs| => Trim(xs[i]))
  }

  /** `xs.join(sep)`. */
  function Join(xs: seq<string>, sep: string): string {
    if |xs| == 0 then ""
    else if |xs| == 1 then xs[0]
    else xs[0] + sep + Join(xs[1..], sep)
  }

  lemma {:induction false} SplitNoSep(a: string, c: char)
    requires c !in a
    ensures Split(a, c) == [a]
  {
    if a != [] {
      SplitNoSep(a[1..], c);
      assert [a[0]] + a[1..] == a;
    }
  }

  /** A separator ends the last piece of what comes before it. */
  lemma {:induction false} SplitAppend(a: string, b: string, c: char)
    ensures Split(a + [c] + b, c) == Split(a, c) + Split(b, c)
  {
    if a == [] {
      assert a + [c] + b == [c] + b;
      assert ([c] + b)[1..] == b;
    } else {
      assert (a + [c] + b)[1..] == a[1..] + [c] + b;
      SplitAppend(a[1..], b, c);
    }
  }

  /** A separator-free prefix glues onto the first piece. */
  lemma {:induction false} SplitPrefix(p: string, t: string, c: char)
    requires c !in p
    ensures Split(p + t, c) == [p + Split(t, c)[0]] + Split(t, c)[1..]
  {
    if p == [] {
      assert p + t == t;
      assert p + Split(t, c)[0] == Split(t, c)[0];
      assert [Split(t, c)[0]] + Split(t, c)[1..] == Split(t, c);
    } else {
      assert (p + t)[1..] == p[1..] + t;
      SplitPrefix(p[1..], t, c);
      assert [p[0]] + (p[1..] + Split(t, c)[0]) == p + Split(t, c)[0];
    }
  }

  /** Splitting what `Join(xs, c + pad)` produced gives back the pieces, each after the first
      carrying the padding in front. */
  lemma {:induction false} SplitJoin(xs: seq<string>, pad: string, c: char)
    requires |xs| >= 1
    requires c !in pad
    requires forall i :: 0 <= i < |xs| ==> c !in xs[i]
    ensures |Split(Join(xs, [c] + pad), c)| == |xs|
    ensures Split(Join(xs, [c] + pad), c)[0] == xs[0]
    ensures forall i :: 1 <= i < |xs| ==> Split(Join(xs, [c] + pad), c)[i] == pad + xs[i]
  {
    if |xs| == 1 {
      SplitNoSep(xs[0], c);
    } else {
      var rest := Join(xs[1..], [c] + pad);
      assert Join(xs, [c] + pad) == xs[0] + [c] + (pad + rest);
      SplitAppend(xs[0], pad + rest, c);
      SplitNoSep(xs[0], c);
      SplitJoin(xs[1..], pad, c);
      SplitPrefix(pad, rest, c);
      var r := Split(Join(xs, [c] + pad), c);
      assert r == [xs[0]] + ([pad + Split(rest, c)[0]] + Split(rest, c)[1..]);
      forall i | 1 <= i < |xs|
        ensures r[i] == pad + xs[i]
      {
        if i > 1 {
          assert r[i] == Split(rest, c)[i - 1];
          assert xs[1..][i - 1] == xs[i];
        }
      }
    }
  }

  /** Joining trimmed, separator-free pieces with the separator and some whitespace, then
      splitting and trimming, gives the pieces back. */
  lemma {:induction false} SplitJoinTrimmed(xs: seq<string>, pad: string, c: char)
    requires |xs| >= 1
    requires AllSpace(pad) && c !in pad
    requires forall i :: 0 <= i < |xs| ==> c !in xs[i] && IsTrimmed(xs[i])
    ensures TrimEach(Split(Join(xs, [c] + pad), c)) == xs
  {
    SplitJoin(xs, pad, c);
    var r := TrimEach(Split(Join(xs, [c] + pad), c));
    forall i | 0 <= i < |xs|
      ensures r[i] == xs[i]
    {
      if i == 0 {
        TrimTrimmed(xs[0]);
      } else {
        TrimPadded(pad, xs[i]);
      }
    }
  }

  /** A joined list is empty only when it has no pieces or a single empty one. */
  lemma {:induction false} JoinEmpty(xs: seq<string>, sep: string)
    requires sep != ""
    ensures Join(xs, sep) == "" <==> xs == [] || xs == [""]
  {
    if |xs| >= 2 {
      assert |Join(xs, sep)| >= |sep|;
    }
  }

  /** The other direction: joining the pieces of a split with the separator restores the string. */
  lemma {:induction false} JoinSplit(s: string, c: char)
    ensures Join(Split(s, c), [c]) == s
  {
    if s != [] {
      var rest := Split(s[1..], c);
      JoinSplit(s[1..], c);
      if s[0] == c {
        JoinCons("", rest, [c]);
      } else {
        JoinExtendHead(s[0], rest, [c]);
      }
      assert [s[0]] + s[1..] == s;
    }
  }

  /** Joining a list with one more piece in front. */
  lemma {:induction false} JoinCons(x: string, xs: seq<string>, sep: string)
    requires xs != []
    ensures Join([x] + xs, sep) == x + sep + Join(xs, sep)
  {
    assert ([x] + xs)[1..] == xs;
  }

  /** Joining a list whose first piece has one more character in front. */
  lemma {:induction false} JoinExtendHead(ch: char, xs: seq<string>, sep: string)
    requires xs != []
    ensures Join([[ch] + xs[0]] + xs[1..], sep) == [ch] + Join(xs, sep)
  {
    var ys := [[ch] + xs[0]] + xs[1..];
    assert ys[1..] == xs[1..];
  }

  /** `s.toLowerCase()` on the ASCII letters. */
  function LowerChar(c: char): char {
    if 'A' <= c <= 'Z' then (c as int + 32) as char else c
  }

  function Lower(s: string): string {
    seq(|s|, i requires 0 <= i < |s| => LowerChar(s[i]))
  }

  /** `s.includes(t)`. */
  predicate Includes(s: string, t: string) {
    exists i :: 0 <= i <= |s| - |t| && OccursAt(s, t, i)
  }

  predicate OccursAt(s: string, t: string, i: int)
    requires 0 <= i <= |s| - |t|
  {
    s[i..i + |t|] == t
  }

  /** `s.toLowerCase().includes(t.toLowerCase())`. */
  predicate IncludesIgnoringCase(s: string, t: string) {
    Includes(Lower(s), Lower(t))
  }

  lemma {:induction false} IncludesEmpty(s: string)
    ensures Includes(s, "")
  {
    assert OccursAt(s, "", 0);
  }

  /** A match keeps matching after both sides are lower-cased. */
  lemma {:induction false} IncludesLower(s: string, t: string)
    requires Includes(s, t)
    ensures Includes(Lower(s), Lower(t))
  {
    var i :| 0 <= i <= |s| - |t| && OccursAt(s, t, i);
    assert Lower(s)[i..i + |t|] == Lower(t);
    assert OccursAt(Lower(s), Lower(t), i);
  }

  lemma {:induction false} LowerIdempotent(s: string)
    ensures Lower(Lower(s)) == Lower(s)
  {
  }

  predicate IsDigit(c: char) {
    '0' <= c <= '9'
  }

  predicate AllDigits(s: string) {
    forall i :: 0 <= i < |s| ==> IsDigit(s[i])
  }

  function DigitChar(d: nat): char
    requires d < 10
  {
    ('0' as int + d) as char
  }

  function DigitValue(c: char): nat
    requires IsDigit(c)
  {
    c as int - '0' as int
  }

  /** The decimal numeral of a natural number. */
  function NatToString(n: nat): (r: string)
    ensures |r| >= 1 && AllDigits(r)
  {
    if n < 10 then [DigitChar(n)] else NatToString(n / 10) + [DigitChar(n % 10)]
  }

  /** `n.toString()` for an integer. */
  function IntToString(n: int): string {
    if n < 0 then "-" + NatToString(-n) else NatToString(n)
  }

  /** The longest run of decimal digits at the start of `s`. */
  function DigitPrefix(s: string): (r: string)
    ensures |r| <= |s| && r == s[..|r|] && AllDigits(r)
    ensures |r| < |s| ==> !IsDigit(s[|r|])
  {
    if s != [] && IsDigit(s[0]) then [s[0]] + DigitPrefix(s[1..]) else []
  }

  function DigitsValue(s: string): nat
    requires AllDigits(s)
  {
    if s == [] then 0 else DigitsValue(s[..|s| - 1]) * 10 + DigitValue(s[|s| - 1])
  }

  /** `parseInt(s)` in base ten: skip leading whitespace, then read a signed numeral. */
  function ParseInt(s: string): Option<int> {
    ParseSigned(TrimStart(s))
  }

  /** An optional sign, then the longest run of digits; no digit at all is `NaN`, here
      `None`. */
  function ParseSigned(t: string): Option<int> {
    var body := if |t| > 0 && (t[0] == '-' || t[0] == '+') then t[1..] else t;
    var ds := DigitPrefix(body);
    if ds == [] then None
    else if |t| > 0 && t[0] == '-' then Some(0 - DigitsValue(ds))
    else Some(DigitsValue(ds))
  }

  lemma {:induction false} DigitPrefixAll(s: string)
    requires AllDigits(s)
    ensures DigitPrefix(s) == s
  {
    if s != [] {
      DigitPrefixAll(s[1..]);
      assert [s[0]] + s[1..] == s;
    }
  }

  lemma {:induction false} NatToStringValue(n: nat)
    ensures DigitsValue(NatToString(n)) == n
  {
    if n >= 10 {
      var a := NatToString(n / 10);
      NatToStringValue(n / 10);
      assert (a + [DigitChar(n % 10)])[..|a|] == a;
    }
  }

  /** A numeral is read as its value. */
  lemma {:induction false} ParseIntNumeral(ds: string)
    requires ds != [] && AllDigits(ds)
    ensures ParseInt(ds) == Some(DigitsValue(ds))
  {
    TrimStartNoSpace(ds);
    assert !(ds[0] == '-' || ds[0] == '+');
    DigitPrefixAll(ds);
  }

  /** A numeral after a minus sign is read as its value negated. */
  lemma {:induction false} ParseIntNegative(ds: string)
    requires ds != [] && AllDigits(ds)
    ensures ParseInt("-" + ds) == Some(0 - DigitsValue(ds))
  {
    var m := "-" + ds;
    TrimStartNoSpace(m);
    assert m[0] == '-' && m[1..] == ds;
    DigitPrefixAll(ds);
  }

  /** `parseInt` reads back what `toString` wrote, for every integer. */
  lemma {:induction false} ParseIntToString(n: int)
    ensures ParseInt(IntToString(n)) == Some(n)
  {
    var m: nat := if n < 0 then -n else n;
    NatToStringValue(m);
    if n < 0 {
      ParseIntNegative(NatToString(m));
    } else {
      ParseIntNumeral(NatToString(m));
    }
  }

  /** An empty or blank string is `NaN` to `parseInt`. */
  lemma {:induction false} ParseIntBlank(s: string)
    requires AllSpace(s)
    ensures ParseInt(s) == None
  {
    TrimStartPadded(s, "");
    assert s + "" == s;
  }
}
