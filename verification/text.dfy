/**
 The JavaScript string operations the components rely on, over `seq<char>`:
 `includes`, `indexOf`/`replace` with a string pattern, `trim`, the `\s`
 character class, `toLowerCase` (ASCII letters only), `split(c).pop()`,
 number-to-decimal text, and `replace(/\s+/g, "_")`.
 */
module Text {
  import opened Base

  /** ECMAScript WhiteSpace and LineTerminator code points: the set matched
      by `\s` and removed by `String.prototype.trim`. */
  predicate IsWs(c: char) {
    || ('\t' <= c <= '\r')
    || c == ' '
    || c == '\U{A0}'
    || c == '\U{1680}'
    || ('\U{2000}' <= c <= '\U{200A}')
    || c == '\U{2028}'
    || c == '\U{2029}'
    || c == '\U{202F}'
    || c == '\U{205F}'
    || c == '\U{3000}'
    || c == '\U{FEFF}'
  }

  predicate NoWs(s: string) {
    forall i :: 0 <= i < |s| ==> !IsWs(s[i])
  }

  predicate IsUpper(c: char) { 'A' <= c <= 'Z' }

  function LowerChar(c: char): char {
    if IsUpper(c) then (c as int + 32) as char else c
  }

  /** `toLowerCase`, restricted to the ASCII letters. */
  function Lower(s: string): (r: string)
    ensures |r| == |s|
    ensures forall i :: 0 <= i < |r| ==> !IsUpper(r[i])
    ensures forall i :: 0 <= i < |r| ==> r[i] == s[i] || (IsUpper(s[i]) && r[i] as int == s[i] as int + 32)
  {
    seq(|s|, i requires 0 <= i < |s| => LowerChar(s[i]))
  }

  /** Lowercasing is idempotent. */
  lemma LowerIdempotent(s: string)
    ensures Lower(Lower(s)) == Lower(s)
  {
  }

  predicate StartsWith(s: string, p: string) {
    |p| <= |s| && s[..|p|] == p
  }

  /** `s.includes(sub)`. */
  predicate Contains(s: string, sub: string)
    decreases |s|
  {
    StartsWith(s, sub) || (|s| > 0 && Contains(s[1..], sub))
  }

  predicate OccursAt(s: string, sub: string, i: int) {
    0 <= i && i + |sub| <= |s| && s[i..i + |sub|] == sub
  }

  /** Moving one character along: an occurrence at `j >= 1` in `s` is an
      occurrence at `j - 1` in the tail. */
  lemma OccursShift(s: string, sub: string)
    requires |s| > 0
    ensures forall j :: 1 <= j ==> (OccursAt(s, sub, j) <==> OccursAt(s[1..], sub, j - 1))
  {
    forall j | 1 <= j && j + |sub| <= |s|
      ensures OccursAt(s, sub, j) <==> OccursAt(s[1..], sub, j - 1)
    {
      SliceOfSlice(s, 1, |s|, j - 1, j - 1 + |sub|);
    }
  }

  /** An occurrence inside an occurrence is an occurrence. */
  lemma OccursCompose(s: string, t: string, x: string, p: nat, q: nat)
    requires OccursAt(s, t, p) && OccursAt(t, x, q)
    ensures OccursAt(s, x, p + q)
  {
    SliceOfSlice(s, p, p + |t|, q, q + |x|);
  }

  lemma SliceOfSlice(s: string, a: nat, b: nat, i: nat, j: nat)
    requires a <= b <= |s| && i <= j <= b - a
    ensures s[a..b][i..j] == s[a + i..a + j]
  {
    assert forall k :: 0 <= k < j - i ==> s[a..b][i..j][k] == s[a + i + k];
  }

  /** `includes` holds exactly when the pattern occurs at some position. */
  lemma {:induction false} ContainsIff(s: string, sub: string)
    ensures Contains(s, sub) <==> exists i :: OccursAt(s, sub, i)
    decreases |s|
  {
    if StartsWith(s, sub) {
      assert OccursAt(s, sub, 0);
    } else if |s| == 0 {
      assert forall i :: !OccursAt(s, sub, i);
    } else {
      ContainsIff(s[1..], sub);
      OccursShift(s, sub);
      assert !OccursAt(s, sub, 0);
      if exists i :: OccursAt(s, sub, i) {
        var i :| OccursAt(s, sub, i);
        assert OccursAt(s[1..], sub, i - 1);
      }
      if exists i :: OccursAt(s[1..], sub, i) {
        var i :| OccursAt(s[1..], sub, i);
        assert OccursAt(s, sub, i + 1);
      }
    }
  }

  /** A string that occurs inside `t` occurs inside every string holding `t`. */
  lemma ContainsInfix(s: string, t: string, sub: string, k: nat)
    requires OccursAt(s, t, k)
    requires Contains(t, sub)
    ensures Contains(s, sub)
  {
    ContainsIff(t, sub);
    var i :| OccursAt(t, sub, i);
    SliceOfSlice(s, k, k + |t|, i, i + |sub|);
    assert OccursAt(s, sub, k + i);
    ContainsIff(s, sub);
  }

  /** A string whose first character never appears in `s` does not occur in it. */
  lemma MissingFirstChar(s: string, sub: string)
    requires |sub| > 0 && sub[0] !in s
    ensures !Contains(s, sub)
  {
    forall i | 0 <= i && i + |sub| <= |s|
      ensures !OccursAt(s, sub, i)
    {
      assert s[i..i + |sub|][0] == s[i];
    }
    ContainsIff(s, sub);
  }

  /** `s.indexOf(sub)`: the first position where `sub` occurs, if any. */
  function IndexOf(s: string, sub: string): (r: Option<nat>)
    ensures r.Some? ==> OccursAt(s, sub, r.value)
    ensures r.Some? ==> forall j :: 0 <= j < r.value ==> !OccursAt(s, sub, j)
    ensures r.None? <==> !Contains(s, sub)
    decreases |s|
  {
    if StartsWith(s, sub) then Some(0)
    else if |s| == 0 then None
    else match IndexOf(s[1..], sub)
      case None => None
      case Some(k) =>
        OccursShift(s, sub);
        Some(k + 1)
  }

  /** `s.replace(pat, rep)` with a string pattern: only the first
      occurrence is replaced. (The replacement strings used in this
      program contain no `$` substitution patterns.) */
  function ReplaceFirst(s: string, pat: string, rep: string): (r: string)
    ensures !Contains(s, pat) ==> r == s
  {
    match IndexOf(s, pat)
    case None => s
    case Some(i) => s[..i] + rep + s[i + |pat|..]
  }

  /** Replacement happens at the first occurrence and leaves the text on
      both sides of it untouched. */
  lemma ReplaceFirstSplit(pre: string, pat: string, post: string, rep: string)
    requires forall j :: 0 <= j < |pre| ==> !OccursAt(pre + pat + post, pat, j)
    ensures ReplaceFirst(pre + pat + post, pat, rep) == pre + rep + post
  {
    var s := pre + pat + post;
    assert OccursAt(s, pat, |pre|);
    ContainsIff(s, pat);
    var i := IndexOf(s, pat).value;
    assert i == |pre|;
    assert s[..i] == pre;
    assert s[i + |pat|..] == post;
  }

  /** Leading whitespace removed (`trimStart`). */
  function TrimStart(s: string): (r: string)
    ensures |r| <= |s| && r == s[|s| - |r|..]
    ensures |r| > 0 ==> !IsWs(r[0])
    ensures forall i :: 0 <= i < |s| - |r| ==> IsWs(s[i])
  {
    if |s| > 0 && IsWs(s[0]) then
      var r := TrimStart(s[1..]);
      assert s[1..][|s| - 1 - |r|..] == s[|s| - |r|..];
      assert forall i :: 1 <= i < |s| - |r| ==> s[i] == s[1..][i - 1];
      r
    else s
  }

  /** Trailing whitespace removed (`trimEnd`). */
  function TrimEnd(s: string): (r: string)
    ensures |r| <= |s| && r == s[..|r|]
    ensures |r| > 0 ==> !IsWs(r[|r| - 1])
    ensures forall i :: |r| <= i < |s| ==> IsWs(s[i])
  {
    if |s| > 0 && IsWs(s[|s| - 1]) then TrimEnd(s[..|s| - 1]) else s
  }

  /** `String.prototype.trim`: a contiguous piece of the input with no
      whitespace at either end. */
  function Trim(s: string): (r: string)
    ensures |r| > 0 ==> !IsWs(r[0]) && !IsWs(r[|r| - 1])
    ensures exists k :: OccursAt(s, r, k)
  {
    var t := TrimStart(s);
    var r := TrimEnd(t);
    var k := |s| - |t|;
    assert s[k..k + |r|] == t[..|r|];
    assert OccursAt(s, r, k);
    assert |r| > 0 ==> r[0] == t[0];
    r
  }

  /** Nothing but whitespace. */
  predicate AllWs(s: string) {
    forall i :: 0 <= i < |s| ==> IsWs(s[i])
  }

  /** A text trims to nothing exactly when it is all whitespace. */
  lemma TrimBlankIff(s: string)
    ensures Trim(s) == "" <==> AllWs(s)
  {
    var t := TrimStart(s);
    if Trim(s) == "" {
      assert TrimEnd(t) == "";
    }
  }

  /** Lowercasing neither creates nor removes whitespace. */
  lemma LowerKeepsBlank(s: string)
    ensures AllWs(Lower(s)) <==> AllWs(s)
  {
    var l := Lower(s);
    if AllWs(l) {
      forall i | 0 <= i < |s|
        ensures IsWs(s[i])
      {
        assert IsWs(l[i]);
      }
    }
  }

  /** Trimming twice is trimming once. */
  lemma TrimIdempotent(s: string)
    ensures Trim(Trim(s)) == Trim(s)
  {
  }

  /** Trimming the front of `x + y` stops inside `x` once `x` holds a
      non-whitespace character. */
  lemma {:induction false} TrimStartAppendSolid(x: string, y: string, i: nat)
    requires i < |x| && !IsWs(x[i])
    ensures TrimStart(x + y) == TrimStart(x) + y
    decreases |x|
  {
    if IsWs(x[0]) {
      assert (x + y)[1..] == x[1..] + y;
      TrimStartAppendSolid(x[1..], y, i - 1);
    }
  }

  /** A front made only of whitespace is trimmed away entirely. */
  lemma {:induction false} TrimStartAppendBlank(x: string, y: string)
    requires forall i :: 0 <= i < |x| ==> IsWs(x[i])
    ensures TrimStart(x + y) == TrimStart(y)
    decreases |x|
  {
    if |x| == 0 {
      assert x + y == y;
    } else {
      assert (x + y)[1..] == x[1..] + y;
      TrimStartAppendBlank(x[1..], y);
    }
  }

  /** Whitespace appended after the text does not survive trimming. */
  lemma TrimAppendWs(x: string, w: char)
    requires IsWs(w)
    ensures Trim(x + [w]) == Trim(x)
  {
    if i :| 0 <= i < |x| && !IsWs(x[i]) {
      TrimStartAppendSolid(x, [w], i);
      var t := TrimStart(x);
      assert TrimStart(x + [w]) == t + [w];
      assert (t + [w])[..|t|] == t;
      assert TrimEnd(t + [w]) == TrimEnd(t);
    } else {
      TrimStartAppendBlank(x, [w]);
      TrimStartAppendBlank(x, []);
      assert x + [] == x;
      assert [w][1..] == [];
      assert TrimStart([w]) == "";
      assert TrimStart(x) == "";
    }
  }

  /** `replace(/\s+/g, "_")`: every maximal run of whitespace becomes one
      underscore. */
  function CollapseWs(s: string): (r: string)
    ensures NoWs(r)
    ensures |r| <= |s|
    decreases |s|
  {
    if |s| == 0 then ""
    else if IsWs(s[0]) then "_" + CollapseWs(TrimStart(s))
    else [s[0]] + CollapseWs(s[1..])
  }

  /** Text without whitespace passes through unchanged. */
  lemma {:induction false} CollapseWsIdentity(s: string)
    requires NoWs(s)
    ensures CollapseWs(s) == s
    decreases |s|
  {
    if |s| > 0 {
      assert NoWs(s[1..]) by {
        forall i | 0 <= i < |s[1..]| ensures !IsWs(s[1..][i]) {
          assert s[1..][i] == s[i + 1];
        }
      }
      CollapseWsIdentity(s[1..]);
    }
  }

  /** A whitespace run between a whitespace-free front and a rest that does
      not start with whitespace becomes exactly one underscore. */
  lemma {:induction false} CollapseWsRun(a: string, w: string, b: string)
    requires NoWs(a) && |w| > 0 && AllWs(w)
    requires b == "" || !IsWs(b[0])
    ensures CollapseWs(a + w + b) == a + "_" + CollapseWs(b)
    decreases |a|
  {
    var s := a + w + b;
    if |a| == 0 {
      assert s == w + b;
      CollapseWsBlankHead(w, b);
    } else {
      assert s[0] == a[0] && s[1..] == a[1..] + w + b;
      CollapseWsSolidHead(s);
      NoWsTail(a);
      CollapseWsRun(a[1..], w, b);
      assert [a[0]] + a[1..] == a;
    }
  }

  /** A leading character other than whitespace is kept. */
  lemma CollapseWsSolidHead(s: string)
    requires |s| > 0 && !IsWs(s[0])
    ensures CollapseWs(s) == [s[0]] + CollapseWs(s[1..])
  {
  }

  /** The tail of a whitespace-free text is whitespace-free. */
  lemma NoWsTail(a: string)
    requires |a| > 0 && NoWs(a)
    ensures !IsWs(a[0]) && NoWs(a[1..])
  {
    forall i | 0 <= i < |a[1..]| ensures !IsWs(a[1..][i]) {
      assert a[1..][i] == a[i + 1];
    }
  }

  /** A leading whitespace run becomes one underscore. */
  lemma CollapseWsBlankHead(w: string, b: string)
    requires |w| > 0 && AllWs(w)
    requires b == "" || !IsWs(b[0])
    ensures CollapseWs(w + b) == "_" + CollapseWs(b)
  {
    var s := w + b;
    assert s[0] == w[0];
    TrimStartAppendBlank(w, b);
  }

  /** Collapsing is idempotent: a name sanitised once is already safe. */
  lemma CollapseWsIdempotent(s: string)
    ensures CollapseWs(CollapseWs(s)) == CollapseWs(s)
  {
    CollapseWsIdentity(CollapseWs(s));
  }

  predicate IsDigit(c: char) { '0' <= c <= '9' }

  function Digit(d: nat): char
    requires d < 10
  {
    ('0' as int + d) as char
  }

  /** `${n}` for a non-negative integer: its decimal digits. */
  function NatToString(n: nat): (r: string)
    ensures |r| >= 1
    ensures forall i :: 0 <= i < |r| ==> IsDigit(r[i])
    ensures r[0] == '0' ==> n == 0 && |r| == 1
  {
    if n < 10 then [Digit(n)] else NatToString(n / 10) + [Digit(n % 10)]
  }

  /** The value of a string of decimal digits. */
  function DecimalValue(s: string): nat
    requires forall i :: 0 <= i < |s| ==> IsDigit(s[i])
  {
    if |s| == 0 then 0
    else
      assert IsDigit(s[|s| - 1]);
      10 * DecimalValue(s[..|s| - 1]) + (s[|s| - 1] as int - '0' as int)
  }

  /** Reading the printed digits back gives the number. */
  lemma {:induction false} NatToStringRoundTrip(n: nat)
    ensures DecimalValue(NatToString(n)) == n
  {
    if n >= 10 {
      NatToStringRoundTrip(n / 10);
      var r := NatToString(n);
      assert r[..|r| - 1] == NatToString(n / 10);
    }
  }

  /** `s.split(c).pop()`: the text after the last `c`, or all of `s` when
      `c` does not occur. */
  function AfterLast(s: string, c: char): (r: string)
    ensures c !in r
    ensures |r| <= |s| && r == s[|s| - |r|..]
    ensures c !in s ==> r == s
    ensures c in s ==> |r| < |s| && s[|s| - |r| - 1] == c
  {
    if |s| == 0 then ""
    else if s[|s| - 1] == c then ""
    else
      var r := AfterLast(s[..|s| - 1], c) + [s[|s| - 1]];
      assert c in s ==> c in s[..|s| - 1];
      r
  }

  /** Whatever comes before the last separator does not matter. */
  lemma {:induction false} AfterLastAppend(a: string, c: char, b: string)
    requires c !in b
    ensures AfterLast(a + [c] + b, c) == b
    decreases |b|
  {
    var s := a + [c] + b;
    if |b| > 0 {
      assert s[..|s| - 1] == a + [c] + b[..|b| - 1];
      AfterLastAppend(a, c, b[..|b| - 1]);
      assert b == b[..|b| - 1] + [b[|b| - 1]];
    }
  }

  /** Lowercasing commutes with taking the text after the last separator,
      for a separator that is not a letter. */
  lemma {:induction false} AfterLastLower(s: string, c: char)
    requires !IsUpper(c) && !('a' <= c <= 'z')
    ensures AfterLast(Lower(s), c) == Lower(AfterLast(s, c))
    decreases |s|
  {
    if |s| > 0 {
      var n := |s|;
      var l := Lower(s);
      var last := s[n - 1];
      var front := s[..n - 1];
      LowerPrefix(s, n - 1);
      assert l[..n - 1] == Lower(front);
      AfterLastLower(front, c);
      AfterLastStep(s, c);
      AfterLastStep(l, c);
      assert l[n - 1] == LowerChar(last);
      if last == c {
        assert LowerChar(c) == c;
        assert AfterLast(l, c) == "";
        assert AfterLast(s, c) == "";
        assert Lower("") == "";
      } else {
        assert LowerChar(last) != c;
        var r := AfterLast(front, c);
        assert AfterLast(s, c) == r + [last];
        assert AfterLast(l, c) == Lower(r) + [LowerChar(last)];
        LowerAppend(r, [last]);
        assert Lower([last]) == [LowerChar(last)];
      }
    }
  }

  /** One step of `AfterLast` from the end of a non-empty text. */
  lemma AfterLastStep(s: string, c: char)
    requires |s| > 0
    ensures AfterLast(s, c) == if s[|s| - 1] == c then "" else AfterLast(s[..|s| - 1], c) + [s[|s| - 1]]
  {
  }

  lemma LowerPrefix(s: string, k: nat)
    requires k <= |s|
    ensures Lower(s)[..k] == Lower(s[..k])
  {
  }

  lemma LowerAppend(a: string, b: string)
    ensures Lower(a + b) == Lower(a) + Lower(b)
  {
  }

  /** Splitting at the last separator and gluing back is the identity. */
  lemma AfterLastSplit(s: string, c: char)
    requires c in s
    ensures s == s[..|s| - |AfterLast(s, c)| - 1] + [c] + AfterLast(s, c)
  {
    var r := AfterLast(s, c);
    var n := |s| - |r| - 1;
    assert s[n] == c && s[n + 1..] == r;
    assert s[..n] + [s[n]] + s[n + 1..] == s;
  }

  /** An occurrence survives putting text in front of or behind it. */
  lemma OccursInContext(a: string, b: string, c: string, x: string, k: nat)
    requires OccursAt(b, x, k)
    ensures OccursAt(a + b + c, x, |a| + k)
  {
    assert (a + b + c)[|a| + k..|a| + k + |x|] == b[k..k + |x|];
  }

  /** Parts appear in their order: each part, and the separator after it,
      end before the next part begins. */
  lemma {:induction false} JoinOffsetOrdered(parts: seq<string>, sep: string, i: nat, j: nat)
    requires i < j < |parts|
    ensures JoinOffset(parts, sep, i) + |parts[i]| + |sep| <= JoinOffset(parts, sep, j)
    decreases i
  {
    if i > 0 {
      JoinOffsetOrdered(parts[1..], sep, i - 1, j - 1);
    }
  }

  /** `parts.join(sep)`. */
  function Join(parts: seq<string>, sep: string): (r: string)
    ensures |parts| == 1 ==> r == parts[0]
    ensures |parts| > 1 ==> StartsWith(r, parts[0] + sep)
  {
    if |parts| == 0 then ""
    else if |parts| == 1 then parts[0]
    else parts[0] + sep + Join(parts[1..], sep)
  }

  /** Every part occurs in the joined text, each at its own offset: the
      offset of part `i` is the length of the parts and separators before it. */
  lemma {:induction false} JoinHoldsParts(parts: seq<string>, sep: string, i: nat)
    requires i < |parts|
    ensures OccursAt(Join(parts, sep), parts[i], JoinOffset(parts, sep, i))
    decreases i
  {
    var joined := Join(parts, sep);
    if i == 0 {
      if |parts| > 1 {
        JoinCons(parts, sep);
        assert joined[..|parts[0]|] == parts[0];
      }
    } else {
      var rest := parts[1..];
      assert rest[i - 1] == parts[i];
      JoinHoldsParts(rest, sep, i - 1);
      var k := JoinOffset(rest, sep, i - 1);
      assert JoinOffset(parts, sep, i) == |parts[0] + sep| + k;
      JoinCons(parts, sep);
      OccursInContext(parts[0] + sep, Join(rest, sep), "", parts[i], k);
      assert (parts[0] + sep) + Join(rest, sep) + "" == joined;
    }
  }

  /** Joining two or more parts: the first, a separator, then the rest joined. */
  lemma JoinCons(parts: seq<string>, sep: string)
    requires |parts| > 1
    ensures Join(parts, sep) == (parts[0] + sep) + Join(parts[1..], sep)
  {
  }

  function JoinOffset(parts: seq<string>, sep: string, i: nat): nat
    requires i < |parts|
  {
    if i == 0 then 0 else |parts[0]| + |sep| + JoinOffset(parts[1..], sep, i - 1)
  }

  /** Joining `n` parts puts exactly `n - 1` separators between them. */
  lemma {:induction false} JoinLength(parts: seq<string>, sep: string)
    requires |parts| > 0
    ensures |Join(parts, sep)| == TotalLength(parts) + (|parts| - 1) * |sep|
  {
    if |parts| > 1 {
      JoinLength(parts[1..], sep);
    }
  }

  function TotalLength(parts: seq<string>): nat {
    if |parts| == 0 then 0 else |parts[0]| + TotalLength(parts[1..])
  }
}
