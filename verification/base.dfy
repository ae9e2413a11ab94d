/**
 Shared vocabulary: an optional value, the browser/Deno `File` as seen by
 both sides of the upload, and the order-preserving sequence operations the
 components use (`Array.prototype.filter`, `slice(0, n)`).
 */
module Base {

  /** A value that may be absent (`null` / `undefined` in the source). */
  datatype Option<+T> = None | Some(value: T) {
    function GetOr(default: T): T {
      match this
      case Some(v) => v
      case None => default
    }
  }

  /** The interface language: English or Tok Pisin. */
  datatype Language = En | Tp

  /** A `File` as the upload widget and the edge function see it: the name,
      the declared MIME type (possibly empty) and the byte size. The bytes
      themselves only reach the AI oracles and are not modelled. */
  datatype File = File(name: string, mimeType: string, size: nat)

  /** `a` occurs in `b` in order, possibly with gaps. */
  predicate IsSubseq<T(==)>(a: seq<T>, b: seq<T>)
    decreases |b|
  {
    |a| == 0 || (|b| > 0 && ((a[0] == b[0] && IsSubseq(a[1..], b[1..])) || IsSubseq(a, b[1..])))
  }

  /** Number of elements of `s` satisfying `p`. */
  function Count<T>(p: T -> bool, s: seq<T>): nat
  {
    if |s| == 0 then 0 else (if p(s[0]) then 1 else 0) + Count(p, s[1..])
  }

  /** No more elements satisfy `p` than there are elements. */
  lemma {:induction false} CountAtMostLength<T>(p: T -> bool, s: seq<T>)
    ensures Count(p, s) <= |s|
  {
    if |s| > 0 {
      CountAtMostLength(p, s[1..]);
    }
  }

  /** `Array.prototype.filter`: the elements satisfying `p`, in order. */
  function Filter<T(==)>(p: T -> bool, s: seq<T>): (r: seq<T>)
    ensures forall i :: 0 <= i < |r| ==> p(r[i])
    ensures forall i :: 0 <= i < |r| ==> r[i] in s
    ensures forall i :: 0 <= i < |s| && p(s[i]) ==> s[i] in r
    ensures IsSubseq(r, s)
    ensures |r| == Count(p, s)
  {
    if |s| == 0 then []
    else if p(s[0]) then [s[0]] + Filter(p, s[1..])
    else Filter(p, s[1..])
  }

  /** One step of filtering from the front. */
  lemma FilterStep<T>(p: T -> bool, s: seq<T>)
    requires |s| > 0
    ensures Filter(p, s) == (if p(s[0]) then [s[0]] else []) + Filter(p, s[1..])
  {
  }

  /** `slice(0, n)`: the first `n` elements, or all of them when fewer. */
  function Take<T>(s: seq<T>, n: nat): (r: seq<T>)
    ensures |r| == if |s| < n then |s| else n
    ensures forall i :: 0 <= i < |r| ==> r[i] == s[i]
  {
    if |s| <= n then s else s[..n]
  }

  /** A subsequence of a subsequence is a subsequence. */
  lemma {:induction false} SubseqTransitive<T>(a: seq<T>, b: seq<T>, c: seq<T>)
    requires IsSubseq(a, b) && IsSubseq(b, c)
    ensures IsSubseq(a, c)
    decreases |c|
  {
    if |a| == 0 {
    } else if b[0] == c[0] && IsSubseq(b[1..], c[1..]) {
      if a[0] == b[0] && IsSubseq(a[1..], b[1..]) {
        SubseqTransitive(a[1..], b[1..], c[1..]);
      } else {
        SubseqTransitive(a, b[1..], c[1..]);
      }
    } else {
      SubseqTransitive(a, b, c[1..]);
    }
  }

  /** A prefix is a subsequence. */
  lemma {:induction false} PrefixIsSubseq<T>(s: seq<T>, n: nat)
    requires n <= |s|
    ensures IsSubseq(s[..n], s)
    decreases n
  {
    if n > 0 {
      PrefixIsSubseq(s[1..], n - 1);
      assert s[..n][1..] == s[1..][..n - 1];
    }
  }

  /** The first `n` elements of a filter are a subsequence of the input. */
  lemma TakeOfFilterIsSubseq<T>(p: T -> bool, s: seq<T>, n: nat)
    ensures IsSubseq(Take(Filter(p, s), n), s)
  {
    var f := Filter(p, s);
    if |f| > n {
      PrefixIsSubseq(f, n);
      SubseqTransitive(f[..n], f, s);
    }
  }

  /** An element that passes the filter lands at the position given by
      how many passing elements precede it. */
  lemma {:induction false} FilterPosition<T>(p: T -> bool, s: seq<T>, k: nat)
    requires k < |s| && p(s[k])
    ensures Count(p, s[..k]) < |Filter(p, s)| && Filter(p, s)[Count(p, s[..k])] == s[k]
    decreases k
  {
    if k > 0 {
      assert s[..k][1..] == s[1..][..k - 1];
      assert s[..k][0] == s[0];
      FilterPosition(p, s[1..], k - 1);
    }
  }

  /** Every passing element with fewer than `n` passing elements before it
      is among the first `n` of the filter. */
  lemma TakeOfFilterKeepsEarly<T>(p: T -> bool, s: seq<T>, n: nat)
    ensures forall k :: 0 <= k < |s| && p(s[k]) && Count(p, s[..k]) < n ==> s[k] in Take(Filter(p, s), n)
  {
    forall k | 0 <= k < |s| && p(s[k]) && Count(p, s[..k]) < n
      ensures s[k] in Take(Filter(p, s), n)
    {
      FilterPosition(p, s, k);
      var t := Take(Filter(p, s), n);
      assert t[Count(p, s[..k])] == s[k];
    }
  }

  /** `filter((_, i) => i !== index)`: every element whose position is not
      `index`, in order. */
  function RemoveAt<T>(s: seq<T>, index: int): (r: seq<T>)
    ensures |r| == if 0 <= index < |s| then |s| - 1 else |s|
    decreases |s|
  {
    if |s| == 0 then []
    else (if index == 0 then [] else [s[0]]) + RemoveAt(s[1..], index - 1)
  }

  /** Removing a position that exists splices the sequence around it. */
  lemma {:induction false} RemoveAtSplices<T>(s: seq<T>, index: int)
    requires 0 <= index < |s|
    ensures RemoveAt(s, index) == s[..index] + s[index + 1..]
    decreases |s|
  {
    if index > 0 {
      RemoveAtSplices(s[1..], index - 1);
      assert s[1..][..index - 1] == s[1..index];
      assert s[1..][index..] == s[index + 1..];
      assert s[..index] == [s[0]] + s[1..index];
    } else {
      RemoveAtOutOfRange(s[1..], -1);
    }
  }

  /** Removing a position that does not exist keeps everything. */
  lemma {:induction false} RemoveAtOutOfRange<T>(s: seq<T>, index: int)
    requires index < 0 || index >= |s|
    ensures RemoveAt(s, index) == s
    decreases |s|
  {
    if |s| > 0 {
      RemoveAtOutOfRange(s[1..], index - 1);
      assert s == [s[0]] + s[1..];
    }
  }
}
