// String helpers with the meaning the JavaScript standard library gives them.
// Strings are sequences of Unicode scalar values.
module Text {
  import opened Wrappers

  /** An optional string is truthy when present and non-empty. */
  predicate TruthyString(s: Option<string>)
  {
    s.Some? && s.value != ""
  }

  /** `a || b` on an optional string. */
  function OrElse(a: Option<string>, b: string): string
  {
    if TruthyString(a) then a.value else b
  }

  // ---------------------------------------------------------------- characters

  predicate IsAsciiUpper(c: char) { 'A' <= c <= 'Z' }
  predicate IsAsciiLower(c: char) { 'a' <= c <= 'z' }
  predicate IsAsciiLetter(c: char) { IsAsciiUpper(c) || IsAsciiLower(c) }
  predicate IsDigit(c: char) { '0' <= c <= '9' }

  /** The regular-expression class `\w` without the `u` flag. */
  predicate IsWordChar(c: char) { IsAsciiLetter(c) || IsDigit(c) || c == '_' }

  /** The regular-expression class `\s`; `String.prototype.trim` strips the same set. */
  predicate IsSpace(c: char)
  {
    var n := c as int;
    (9 <= n <= 13) || n == 0x20 || n == 0xA0 || n == 0x1680 || (0x2000 <= n <= 0x200A)
    || n == 0x2028 || n == 0x2029 || n == 0x202F || n == 0x205F || n == 0x3000 || n == 0xFEFF
  }

  /** `toLowerCase` on the ASCII range. */
  function LowerChar(c: char): (d: char)
    ensures !IsAsciiUpper(d)
    ensures IsAsciiUpper(c) || d == c
  {
    if IsAsciiUpper(c) then (c as int + 32) as char else c
  }

  function Lower(s: string): (r: string)
    ensures |r| == |s|
    ensures forall i :: 0 <= i < |s| ==> r[i] == LowerChar(s[i])
  {
    seq(|s|, i requires 0 <= i < |s| => LowerChar(s[i]))
  }

  lemma LowerIdempotent(s: string)
    ensures Lower(Lower(s)) == Lower(s)
  {
    assert forall i :: 0 <= i < |s| ==> LowerChar(LowerChar(s[i])) == LowerChar(s[i]);
  }

  lemma LowerOfLower(s: string)
    requires forall i :: 0 <= i < |s| ==> !IsAsciiUpper(s[i])
    ensures Lower(s) == s
  {
  }

  lemma LowerAppend(a: string, b: string)
    ensures Lower(a + b) == Lower(a) + Lower(b)
  {
  }

  // ---------------------------------------------------------------- trimming

  function TrimStart(s: string): (r: string)
    ensures |r| <= |s| && r == s[|s| - |r|..]
    ensures forall i :: 0 <= i < |s| - |r| ==> IsSpace(s[i])
    ensures |r| > 0 ==> !IsSpace(r[0])
  {
    if |s| > 0 && IsSpace(s[0]) then TrimStart(s[1..]) else s
  }

  function TrimEnd(s: string): (r: string)
    ensures |r| <= |s| && r == s[..|r|]
    ensures forall i :: |r| <= i < |s| ==> IsSpace(s[i])
    ensures |r| > 0 ==> !IsSpace(r[|r| - 1])
  {
    if |s| > 0 && IsSpace(s[|s| - 1]) then TrimEnd(s[..|s| - 1]) else s
  }

  /** `String.prototype.trim`. */
  function Trim(s: string): string
  {
    TrimEnd(TrimStart(s))
  }

  /** The number of leading white-space characters `trim` removes. */
  function TrimOffset(s: string): nat
  {
    |s| - |TrimStart(s)|
  }

  /** Trimming keeps one contiguous piece and removes only white space around it. */
  lemma TrimIsInnerPiece(s: string)
    ensures TrimOffset(s) + |Trim(s)| <= |s|
    ensures Trim(s) == s[TrimOffset(s)..TrimOffset(s) + |Trim(s)|]
    ensures forall i :: 0 <= i < TrimOffset(s) ==> IsSpace(s[i])
    ensures forall i :: TrimOffset(s) + |Trim(s)| <= i < |s| ==> IsSpace(s[i])
    ensures |Trim(s)| > 0 ==> !IsSpace(Trim(s)[0]) && !IsSpace(Trim(s)[|Trim(s)| - 1])
  {
    var u := TrimStart(s);
    var t := TrimEnd(u);
    if |t| > 0 {
      assert t[0] == u[0];
    }
  }

  lemma TrimOfNoSpace(s: string)
    requires forall i :: 0 <= i < |s| ==> !IsSpace(s[i])
    ensures Trim(s) == s
  {
  }

  lemma TrimStartOf(pre: string, rest: string)
    requires forall i :: 0 <= i < |pre| ==> IsSpace(pre[i])
    requires |rest| > 0 && !IsSpace(rest[0])
    ensures TrimStart(pre + rest) == rest
  {
    var s := pre + rest;
    var r := TrimStart(s);
    assert forall k :: 0 <= k < |pre| ==> s[k] == pre[k];
    assert s[|pre|] == rest[0];
    assert |r| == |rest|;
    assert s[|pre|..] == rest;
  }

  lemma TrimEndOf(rest: string, post: string)
    requires forall i :: 0 <= i < |post| ==> IsSpace(post[i])
    requires |rest| > 0 && !IsSpace(rest[|rest| - 1])
    ensures TrimEnd(rest + post) == rest
  {
    var s := rest + post;
    var r := TrimEnd(s);
    assert forall k :: |rest| <= k < |s| ==> s[k] == post[k - |rest|];
    assert s[|rest| - 1] == rest[|rest| - 1];
    assert |r| == |rest|;
    assert s[..|rest|] == rest;
  }

  /** Trimming removes exactly the white space around a piece that starts and ends with other characters. */
  lemma TrimAround(pre: string, core: string, post: string)
    requires forall i :: 0 <= i < |pre| ==> IsSpace(pre[i])
    requires forall i :: 0 <= i < |post| ==> IsSpace(post[i])
    requires |core| > 0 && !IsSpace(core[0]) && !IsSpace(core[|core| - 1])
    ensures Trim(pre + core + post) == core
  {
    assert pre + core + post == pre + (core + post);
    TrimStartOf(pre, core + post);
    TrimEndOf(core, post);
  }

  lemma TrimIdempotent(s: string)
    ensures Trim(Trim(s)) == Trim(s)
  {
    TrimIsInnerPiece(s);
    var t := Trim(s);
    if |t| > 0 {
      assert TrimStart(t) == t;
      assert TrimEnd(t) == t;
    }
  }

  // ---------------------------------------------------------------- searching

  predicate StartsWith(s: string, p: string) { |p| <= |s| && s[..|p|] == p }
  predicate EndsWith(s: string, p: string) { |p| <= |s| && s[|s| - |p|..] == p }

  predicate OccursAt(s: string, p: string, i: nat) { i + |p| <= |s| && s[i..i + |p|] == p }

  /** `s.indexOf(p, from)`: the first occurrence at or after `from`, or -1. */
  function IndexOfFrom(s: string, p: string, from: nat): (r: int)
    requires from <= |s|
    ensures r == -1 || (from <= r <= |s| && OccursAt(s, p, r))
    decreases |s| - from
  {
    if OccursAt(s, p, from) then from
    else if from == |s| then -1
    else IndexOfFrom(s, p, from + 1)
  }

  /** The search finds the first occurrence, and -1 means there is none. */
  lemma {:induction false} IndexOfFromFirst(s: string, p: string, from: nat)
    requires from <= |s|
    ensures IndexOfFrom(s, p, from) == -1 ==> forall i :: from <= i <= |s| ==> !OccursAt(s, p, i)
    ensures IndexOfFrom(s, p, from) >= 0 ==> forall i :: from <= i < IndexOfFrom(s, p, from) ==> !OccursAt(s, p, i)
    decreases |s| - from
  {
    if !OccursAt(s, p, from) && from < |s| {
      IndexOfFromFirst(s, p, from + 1);
    }
  }

  function IndexOf(s: string, p: string): int { IndexOfFrom(s, p, 0) }

  /** `s.includes(p)`. */
  predicate Includes(s: string, p: string) { IndexOf(s, p) >= 0 }

  lemma IncludesIff(s: string, p: string)
    ensures Includes(s, p) <==> exists i :: 0 <= i <= |s| && OccursAt(s, p, i)
  {
    IndexOfFromFirst(s, p, 0);
  }

  lemma IncludesAt(s: string, p: string, i: nat)
    requires OccursAt(s, p, i)
    ensures Includes(s, p)
  {
    IndexOfFromFirst(s, p, 0);
  }

  /** An occurrence inside a piece of a string is an occurrence in the string. */
  lemma IncludesWithin(a: string, s: string, b: string, p: string)
    requires Includes(s, p)
    ensures Includes(a + s + b, p)
  {
    var i := IndexOf(s, p);
    var w := a + s + b;
    assert w[|a| + i..|a| + i + |p|] == s[i..i + |p|];
    IncludesAt(w, p, |a| + i);
  }

  /** At position `i`, the characters `a` or `b` of `p` do not match `s`. */
  predicate MismatchAt(s: string, p: string, i: nat, a: nat, b: nat)
    requires a < |p| && b < |p| && i + |p| <= |s|
  {
    s[i + a] != p[a] || s[i + b] != p[b]
  }

  /** A pattern is absent when at every candidate position one of two of its characters differs. */
  lemma NotIncludesByTwoChars(s: string, p: string, a: nat, b: nat)
    requires a < |p| && b < |p|
    requires forall i :: 0 <= i <= |s| - |p| ==> MismatchAt(s, p, i, a, b)
    ensures !Includes(s, p)
  {
    IndexOfFromFirst(s, p, 0);
    forall i | 0 <= i <= |s| ensures !OccursAt(s, p, i) {
      if i + |p| <= |s| {
        assert MismatchAt(s, p, i, a, b);
        assert s[i..i + |p|][a] == s[i + a] && s[i..i + |p|][b] == s[i + b];
      }
    }
  }

  lemma IncludesSelf(s: string)
    ensures Includes(s, s)
  {
    IncludesAt(s, s, 0);
  }

  /** Every string contains the empty string. */
  lemma IncludesEmpty(s: string)
    ensures Includes(s, "")
  {
    IncludesAt(s, "", 0);
  }

  /** An occurrence of a two-character pattern in a concatenation lies in one piece or straddles the join. */
  lemma IncludesPairSplit(a: string, b: string, p: string)
    requires |p| == 2 && Includes(a + b, p)
    ensures Includes(a, p) || Includes(b, p) || (|a| > 0 && |b| > 0 && a[|a| - 1] == p[0] && b[0] == p[1])
  {
    var s := a + b;
    var i := IndexOf(s, p);
    if i + 2 <= |a| {
      assert a[i..i + 2] == s[i..i + 2];
      IncludesAt(a, p, i);
    } else if i >= |a| {
      assert b[i - |a|..i - |a| + 2] == s[i..i + 2];
      IncludesAt(b, p, i - |a|);
    } else {
      assert s[i] == p[0] && s[i + 1] == p[1];
    }
  }

  /** If `q` occurs in `p` and `p` occurs in `s`, then `q` occurs in `s`. */
  lemma IncludesTrans(s: string, p: string, q: string)
    requires Includes(s, p) && Includes(p, q)
    ensures Includes(s, q)
  {
    var i := IndexOf(s, p);
    var j := IndexOf(p, q);
    assert OccursAt(s, p, i) && OccursAt(p, q, j);
    assert forall k :: 0 <= k < |q| ==> s[i + j + k] == s[i..i + |p|][j + k] == p[j + k] == q[k];
    assert s[i + j..i + j + |q|] == q;
    IncludesAt(s, q, i + j);
  }

  // ---------------------------------------------------------------- joining and splitting

  /** `xs.join(sep)`. */
  function Join(xs: seq<string>, sep: string): string
  {
    if |xs| == 0 then "" else if |xs| == 1 then xs[0] else xs[0] + sep + Join(xs[1..], sep)
  }

  function TotalLength(xs: seq<string>): nat
  {
    if |xs| == 0 then 0 else |xs[0]| + TotalLength(xs[1..])
  }

  lemma {:induction false} JoinLength(xs: seq<string>, sep: string)
    requires |xs| > 0
    ensures |Join(xs, sep)| == TotalLength(xs) + (|xs| - 1) * |sep|
  {
    if |xs| > 1 {
      JoinLength(xs[1..], sep);
    }
  }

  lemma {:induction false} JoinSnoc(xs: seq<string>, x: string, sep: string)
    requires |xs| > 0
    ensures Join(xs + [x], sep) == Join(xs, sep) + sep + x
  {
    if |xs| == 1 {
      assert (xs + [x])[1..] == [x];
    } else {
      assert (xs + [x])[1..] == xs[1..] + [x];
      JoinSnoc(xs[1..], x, sep);
    }
  }

  lemma JoinStartsWithFirst(xs: seq<string>, sep: string)
    requires |xs| > 0
    ensures StartsWith(Join(xs, sep), xs[0])
  {
  }

  /** Every joined element occurs in the joined string. */
  lemma {:induction false} JoinIncludesElement(xs: seq<string>, sep: string, k: nat)
    requires k < |xs|
    ensures Includes(Join(xs, sep), xs[k])
  {
    if k == 0 {
      IncludesSelf(xs[0]);
      if |xs| == 1 {
      } else {
        IncludesWithin("", xs[0], sep + Join(xs[1..], sep), xs[0]);
        assert "" + xs[0] + (sep + Join(xs[1..], sep)) == Join(xs, sep);
      }
    } else {
      JoinIncludesElement(xs[1..], sep, k - 1);
      IncludesWithin(xs[0] + sep, Join(xs[1..], sep), "", xs[k]);
      assert xs[0] + sep + Join(xs[1..], sep) + "" == Join(xs, sep);
    }
  }

  function IndexOfChar(s: string, c: char): (r: int)
    ensures -1 <= r < |s|
    ensures r >= 0 ==> s[r] == c
  {
    if |s| == 0 then -1
    else if s[0] == c then 0
    else
      var k := IndexOfChar(s[1..], c);
      if k == -1 then -1 else k + 1
  }

  /** `indexOf` finds the first occurrence, and -1 exactly when there is none. */
  lemma {:induction false} IndexOfCharFirst(s: string, c: char)
    ensures IndexOfChar(s, c) == -1 <==> c !in s
    ensures IndexOfChar(s, c) >= 0 ==> forall j :: 0 <= j < IndexOfChar(s, c) ==> s[j] != c
  {
    if |s| > 0 && s[0] != c {
      IndexOfCharFirst(s[1..], c);
      assert s == [s[0]] + s[1..];
    }
  }

  /** In a piece without `c`, then `c`, the first `c` is the one after the piece. */
  lemma {:induction false} IndexOfCharAfter(a: string, c: char, b: string)
    requires c !in a
    ensures IndexOfChar(a + [c] + b, c) == |a|
  {
    if |a| > 0 {
      IndexOfCharAfter(a[1..], c, b);
      assert (a + [c] + b)[1..] == a[1..] + [c] + b;
    }
  }

  /** `s.split(c)` for a one-character separator. */
  function Split(s: string, c: char): (r: seq<string>)
    ensures |r| >= 1
    decreases |s|
  {
    var i := IndexOfChar(s, c);
    if i < 0 then [s] else [s[..i]] + Split(s[i + 1..], c)
  }

  /** No piece of a split holds the separator. */
  lemma {:induction false} SplitPiecesFree(s: string, c: char)
    ensures forall k :: 0 <= k < |Split(s, c)| ==> c !in Split(s, c)[k]
    decreases |s|
  {
    var i := IndexOfChar(s, c);
    IndexOfCharFirst(s, c);
    if i >= 0 {
      SplitPiecesFree(s[i + 1..], c);
      assert forall j :: 0 <= j < i ==> s[..i][j] != c;
    }
  }

  /** Dropping a prefix no longer than the first operand of an append. */
  lemma DropAppend(a: string, b: string, i: nat)
    requires i <= |a|
    ensures (a + b)[i..] == a[i..] + b
  {
  }

  /** Joining a first piece in front of a non-empty rest. */
  lemma JoinPrepend(x: string, rest: seq<string>, sep: string)
    requires |rest| > 0
    ensures Join([x] + rest, sep) == x + sep + Join(rest, sep)
  {
    assert ([x] + rest)[1..] == rest;
  }

  /** Splitting at the first separator. */
  lemma SplitAtFirst(s: string, c: char, i: nat)
    requires i < |s| && i == IndexOfChar(s, c)
    ensures Split(s, c) == [s[..i]] + Split(s[i + 1..], c)
  {
  }

  /** A piece without the separator, the separator, and the rest split into that piece and the rest's pieces. */
  lemma SplitAfterPiece(a: string, c: char, b: string)
    requires c !in a
    ensures Split(a + [c] + b, c) == [a] + Split(b, c)
  {
    var s := a + [c] + b;
    IndexOfCharAfter(a, c, b);
    assert s[..|a|] == a;
    assert s[|a| + 1..] == b;
    SplitAtFirst(s, c, |a|);
  }

  /** The first piece of a split ends at the first separator. */
  lemma SplitFirstPiece(a: string, c: char, b: string)
    requires c !in a
    ensures Split(a + [c] + b, c)[0] == a
  {
    SplitAfterPiece(a, c, b);
  }

  /** A string without the separator is a single piece. */
  lemma SplitWithout(s: string, c: char)
    requires c !in s
    ensures Split(s, c) == [s]
  {
    IndexOfCharFirst(s, c);
  }

  /** Splitting and joining again with the same separator gives back the string. */
  lemma {:induction false} SplitJoin(s: string, c: char)
    ensures Join(Split(s, c), [c]) == s
    decreases |s|
  {
    var i := IndexOfChar(s, c);
    if i >= 0 {
      SplitAtFirst(s, c, i);
      SplitJoin(s[i + 1..], c);
      JoinPrepend(s[..i], Split(s[i + 1..], c), [c]);
      assert s == s[..i] + [c] + s[i + 1..];
    }
  }

  /** Joining with a one-character separator none of the pieces holds, then splitting, gives back the pieces. */
  lemma {:induction false} JoinSplit(xs: seq<string>, c: char)
    requires |xs| > 0
    requires forall k :: 0 <= k < |xs| ==> c !in xs[k]
    ensures Split(Join(xs, [c]), c) == xs
  {
    if |xs| == 1 {
      assert Join(xs, [c]) == xs[0];
    } else {
      var tail := xs[1..];
      JoinSplit(tail, c);
      assert xs == [xs[0]] + tail;
      JoinPrepend(xs[0], tail, [c]);
      SplitAfterPiece(xs[0], c, Join(tail, [c]));
    }
  }

  /** The joined string ends with the last piece. */
  lemma {:induction false} JoinEndsWithLast(xs: seq<string>, sep: string)
    requires |xs| > 0
    ensures EndsWith(Join(xs, sep), xs[|xs| - 1])
  {
    if |xs| > 1 {
      JoinEndsWithLast(xs[1..], sep);
      var j := Join(xs[1..], sep);
      var s := xs[0] + sep + j;
      assert s[|s| - |j|..] == j;
      var last := xs[|xs| - 1];
      assert j[|j| - |last|..] == last;
      assert s[|s| - |last|..] == j[|j| - |last|..];
    }
  }

  // ---------------------------------------------------------------- numbers

  function DigitChar(d: nat): (c: char)
    requires d < 10
    ensures IsDigit(c)
  {
    ('0' as int + d) as char
  }

  function DigitValue(c: char): nat
    requires IsDigit(c)
  {
    c as int - '0' as int
  }

  predicate AllDigits(s: string) { forall i :: 0 <= i < |s| ==> IsDigit(s[i]) }

  /** `String(n)` for a non-negative integer. */
  function NatToString(n: nat): (r: string)
    ensures |r| >= 1 && AllDigits(r)
    ensures r[0] != '0' || n == 0
  {
    if n < 10 then [DigitChar(n)] else NatToString(n / 10) + [DigitChar(n % 10)]
  }

  /** `String(n)` for an integer. */
  function IntToString(n: int): (r: string)
    ensures |r| >= 1
    ensures forall i :: 0 <= i < |r| ==> r[i] == '-' || IsDigit(r[i])
  {
    if n < 0 then "-" + NatToString(-n) else NatToString(n)
  }

  /** The value of a string of decimal digits. */
  function ParseDigits(s: string): nat
    requires AllDigits(s)
  {
    if |s| == 0 then 0 else ParseDigits(s[..|s| - 1]) * 10 + DigitValue(s[|s| - 1])
  }

  function ParseInt(s: string): int
    requires |s| > 0 && (AllDigits(s) || (s[0] == '-' && AllDigits(s[1..])))
  {
    if s[0] == '-' then 0 - ParseDigits(s[1..]) else ParseDigits(s)
  }

  lemma {:induction false} ParseNatToString(n: nat)
    ensures ParseDigits(NatToString(n)) == n
  {
    if n >= 10 {
      ParseNatToString(n / 10);
      var s := NatToString(n);
      assert s[..|s| - 1] == NatToString(n / 10);
    }
  }

  /** Decimal rendering of an integer reads back as the same integer. */
  lemma IntToStringRoundTrip(n: int)
    ensures var s := IntToString(n);
      (AllDigits(s) || (s[0] == '-' && AllDigits(s[1..]))) && ParseInt(s) == n
  {
    if n < 0 {
      ParseNatToString(-n);
      assert IntToString(n)[1..] == NatToString(-n);
    } else {
      ParseNatToString(n);
    }
  }

  /** Distinct numbers render as distinct strings. */
  lemma NatToStringInjective(m: nat, n: nat)
    requires NatToString(m) == NatToString(n)
    ensures m == n
  {
    ParseNatToString(m);
    ParseNatToString(n);
  }

  function Repeat(c: char, n: nat): (r: string)
    ensures |r| == n && forall i :: 0 <= i < n ==> r[i] == c
  {
    if n == 0 then "" else [c] + Repeat(c, n - 1)
  }

  /** `s.padStart(width, c)` for a one-character pad. */
  function PadStart(s: string, width: nat, c: char): (r: string)
    ensures |r| == if |s| >= width then |s| else width
    ensures EndsWith(r, s)
  {
    if |s| >= width then s else Repeat(c, width - |s|) + s
  }
}
