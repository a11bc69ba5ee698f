/** String helpers shared by the decoder and the encoder. */
module Text {

  /** Python's `s[k:]` for a non-negative `k`: past the end it is empty. */
  function Drop(s: string, k: nat): string {
    if k <= |s| then s[k..] else ""
  }

  /** `n` copies of `s`, Python's `s * n` for `n >= 0`. */
  function Repeat(s: string, n: nat): string {
    if n == 0 then "" else s + Repeat(s, n - 1)
  }

  /** Concatenation of strings is associative. */
  lemma Reassociate(x: string, y: string, z: string)
    ensures x + (y + z) == x + y + z
  {
  }

  /** Python's `s.replace("_", "")`. */
  function RemoveUnderscores(s: string): string {
    if |s| == 0 then ""
    else (if s[0] == '_' then "" else [s[0]]) + RemoveUnderscores(s[1..])
  }

  lemma {:induction false} RemoveUnderscoresAppend(a: string, b: string)
    ensures RemoveUnderscores(a + b) == RemoveUnderscores(a) + RemoveUnderscores(b)
  {
    if |a| == 0 {
      assert a + b == b;
    } else {
      assert (a + b)[0] == a[0];
      assert (a + b)[1..] == a[1..] + b;
      RemoveUnderscoresAppend(a[1..], b);
    }
  }

  lemma {:induction false} RemoveUnderscoresLeavesNone(s: string)
    ensures '_' !in RemoveUnderscores(s)
  {
    if |s| > 0 {
      RemoveUnderscoresLeavesNone(s[1..]);
    }
  }

  lemma {:induction false} RemoveUnderscoresIdle(s: string)
    requires '_' !in s
    ensures RemoveUnderscores(s) == s
  {
    if |s| > 0 {
      assert s[0] in s;
      assert forall c :: c in s[1..] ==> c in s;
      RemoveUnderscoresIdle(s[1..]);
      assert [s[0]] + s[1..] == s;
    }
  }

  lemma {:induction false} RepeatLength(s: string, n: nat)
    ensures |Repeat(s, n)| == n * |s|
  {
    if n > 0 {
      RepeatLength(s, n - 1);
    }
  }

  lemma {:induction false} RepeatChar(c: char, n: nat)
    ensures |Repeat([c], n)| == n
    ensures forall i :: 0 <= i < n ==> Repeat([c], n)[i] == c
  {
    if n > 0 {
      RepeatChar(c, n - 1);
    }
  }
}
