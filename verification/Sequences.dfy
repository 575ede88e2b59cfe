/** Laws of concatenation, stated once so that larger proofs need not rediscover them. */
module Sequences {
  lemma Assoc<T>(a: seq<T>, b: seq<T>, c: seq<T>)
    ensures a + b + c == a + (b + c)
  {
  }

  lemma NilLeft<T>(a: seq<T>)
    ensures [] + a == a
  {
  }

  lemma Split<T>(a: seq<T>, b: seq<T>)
    ensures (a + b)[..|a|] == a && (a + b)[|a|..] == b
  {
  }

  lemma HeadTail<T>(s: seq<T>)
    requires s != []
    ensures [s[0]] + s[1..] == s
  {
  }

  lemma TailConcat<T>(a: seq<T>, b: seq<T>)
    requires a != []
    ensures (a + b)[0] == a[0] && (a + b)[1..] == a[1..] + b
  {
  }

  lemma Cons<T>(x: T, s: seq<T>)
    ensures ([x] + s)[0] == x && ([x] + s)[1..] == s
  {
  }

  lemma UpdateTail<T>(s: seq<T>, k: nat, x: T)
    requires k < |s|
    ensures s[k := x][0] == if k == 0 then x else s[0]
    ensures s[k := x][1..] == if k == 0 then s[1..] else s[1..][k - 1 := x]
  {
  }

  lemma ConsTake<T>(c: T, s: seq<T>, i: nat)
    requires 0 < i <= |s| + 1
    ensures ([c] + s)[..i] == [c] + s[..i - 1] && ([c] + s)[i..] == s[i - 1..]
  {
  }

  lemma TailTail<T>(s: seq<T>, i: nat)
    requires i < |s|
    ensures s[i..][0] == s[i] && s[i..][1..] == s[i + 1..]
  {
  }
}
