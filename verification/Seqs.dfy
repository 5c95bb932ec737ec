/** Identities on sequences that the solver finds only when asked for them in isolation. */
module Seqs {

  lemma ConsAppend<T>(a: seq<T>, b: seq<T>)
    requires a != []
    ensures a + b == [a[0]] + (a[1..] + b)
  {
  }

  lemma AppendAssoc<T>(a: seq<T>, b: seq<T>, c: seq<T>)
    ensures a + b + c == a + (b + c)
  {
  }

  lemma FourPieces<T>(a: seq<T>, b: seq<T>, c: seq<T>, d: seq<T>)
    ensures a + b + c + d == a + (b + (c + d))
    ensures a + b <= a + (b + (c + d))
    ensures a + b + c <= a + (b + (c + d))
  {
    AppendAssoc(b, c, d);
    AppendAssoc(a, b, c + d);
    AppendAssoc(a + b, c, d);
  }

  /** Five pieces appended one by one, and every stage on the way. */
  lemma Pieces<T>(a: seq<T>, b: seq<T>, c: seq<T>, d: seq<T>, e: seq<T>)
    ensures a + b + c + d + e == a + (b + (c + d + e))
    ensures a + b <= a + (b + (c + d + e))
    ensures a + b + c <= a + (b + (c + d + e))
    ensures a + b + c + d <= a + (b + (c + d + e))
  {
    AppendAssoc(b, c + d, e);
    AppendAssoc(b, c, d);
    AppendAssoc(a, b, c + d + e);
    AppendAssoc(a + b, c, d);
    AppendAssoc(a + b, c + d, e);
  }

  lemma DropDrop<T>(s: seq<T>, i: nat, j: nat)
    ensures i + j <= |s| ==> s[i..][j..] == s[i + j..]
  {
  }

  lemma DropInFirst<T>(a: seq<T>, b: seq<T>, i: nat)
    requires i <= |a|
    ensures (a + b)[i..] == a[i..] + b
  {
  }

  lemma TakeDrop<T>(a: seq<T>, b: seq<T>)
    ensures (a + b)[..|a|] == a && (a + b)[|a|..] == b
  {
  }

  /** Where a cut at n falls in two pieces. */
  lemma CutInTwo<T>(a: seq<T>, b: seq<T>, n: nat)
    ensures n <= |a| ==> (a + b)[..n] == a[..n] && (a + b)[n..] == a[n..] + b
    ensures |a| <= n <= |a| + |b| ==> (a + b)[..n] == a + b[..n - |a|] && (a + b)[n..] == b[n - |a|..]
  {
  }

  lemma ConsEqual<T>(a: T, s: seq<T>, b: T, t: seq<T>)
    ensures [a] + s == [b] + t <==> a == b && s == t
  {
    if [a] + s == [b] + t {
      assert ([a] + s)[0] == ([b] + t)[0];
      TakeDrop([a], s);
      TakeDrop([b], t);
    }
  }

  lemma HeadTail<T>(s: seq<T>)
    requires s != []
    ensures s == [s[0]] + s[1..]
  {
  }

  lemma Nothing<T>(a: seq<T>)
    ensures a + [] == a && [] + a == a && a[..|a|] == a && a[0..] == a
  {
  }
}
