/** The keys of both aggregators: a code, an identity and a detail joined by NUL characters. */
module ConditionKeys {

  const NUL: char := '\0'

  function Joined(code: string, identity: string, detail: string): string {
    code + [NUL] + identity + [NUL] + detail
  }

  /** Two ways to cut the same key: the longer identity holds a NUL where the shorter one ends,
      and the longer detail holds one where the other identity ends. */
  lemma TwoCuts(code: string, a: string, x: string, b: string, y: string)
    requires Joined(code, a, x) == Joined(code, b, y) && |a| < |b|
    ensures b[|a|] == NUL
    ensures |b| - |a| - 1 < |x| && x[|b| - |a| - 1] == NUL && x[|b| - |a|..] == y
  {
    var n := |code| + 1;
    TailOf(code, a, x);
    TailOf(code, b, y);
    assert Joined(code, a, x)[n + |a|] == NUL && Joined(code, b, y)[n + |a|] == b[|a|];
    assert Joined(code, b, y)[n + |b|] == NUL && Joined(code, a, x)[n + |b|] == x[|b| - |a| - 1];
    assert Joined(code, a, x)[n + |b| + 1..] == x[|b| - |a|..];
  }

  lemma TailOf(code: string, a: string, x: string)
    ensures |Joined(code, a, x)| == |code| + |a| + |x| + 2
    ensures Joined(code, a, x)[|code| + 1 + |a| + 1..] == x
    ensures Joined(code, a, x)[|code| + 1..|code| + 1 + |a|] == a
  {
  }

  /** A key and the length of its identity give both parts. */
  lemma OneCut(code: string, a: string, x: string, b: string, y: string)
    requires Joined(code, a, x) == Joined(code, b, y) && |a| == |b|
    ensures a == b && x == y
  {
    TailOf(code, a, x);
    TailOf(code, b, y);
  }

  /** A NUL inside an identity can always be taken for the separator, and one inside a detail. */
  lemma NulCollides(code: string, p: string, q: string, d: string)
    ensures Joined(code, p + [NUL] + q, d) == Joined(code, p, q + [NUL] + d)
  {
    assert Joined(code, p + [NUL] + q, d) == code + [NUL] + p + [NUL] + q + [NUL] + d;
    assert Joined(code, p, q + [NUL] + d) == code + [NUL] + p + [NUL] + q + [NUL] + d;
  }

  /** A string cut at a NUL it holds. */
  lemma CutAt(s: string, i: nat)
    requires i < |s| && s[i] == NUL
    ensures s == s[..i] + [NUL] + s[i + 1..]
  {
  }

  /** The sequence holds each element of the set once, and nothing else. */
  ghost predicate Lists(order: seq<string>, s: set<string>) {
    && (forall i, j :: 0 <= i < j < |order| ==> order[i] != order[j])
    && (forall i :: 0 <= i < |order| ==> order[i] in s)
    && (forall k :: k in s ==> k in order)
  }

  lemma ListsOneMore(order: seq<string>, s: set<string>, k: string)
    requires Lists(order, s) && k !in s
    ensures Lists(order + [k], s + {k})
  {
    forall j | j in s + {k} ensures j in order + [k] {
      if j == k { assert (order + [k])[|order|] == k; }
    }
  }
}
