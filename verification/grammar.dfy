/**
  The meaning the two grammars rely on from the parsing engine, in the usual
  LL(1) reading of its primitives.  The engine itself (lookahead computation,
  error recovery) is not part of this model; what is fixed here is

  - OR: the first alternative, in listed order, whose FIRST set holds the
    next token's class is taken;
  - SKIPPED token groups: the lexer drops such tokens before the parser sees
    the stream.

  CONSUME, OPTION, MANY and SUBRULE are written out directly in the rule
  functions of each grammar (a test of the next token, a bounded recursion, a
  call).
*/
module Grammar {
  import opened Wrappers

  /** OR: the index of the first alternative whose FIRST set contains `k`. */
  function FirstMatch<K(==)>(firsts: seq<set<K>>, k: K): (r: Option<nat>)
    ensures r.Some? ==> r.value < |firsts| && k in firsts[r.value]
    ensures r.Some? ==> forall j :: 0 <= j < r.value ==> k !in firsts[j]
    ensures r.None? ==> forall j :: 0 <= j < |firsts| ==> k !in firsts[j]
  {
    if |firsts| == 0 then None
    else if k in firsts[0] then Some(0)
    else match FirstMatch(firsts[1..], k)
      case None => None
      case Some(i) => Some(i + 1)
  }

  /** No token class can start two different alternatives. */
  ghost predicate PairwiseDisjoint<K>(firsts: seq<set<K>>)
  {
    forall i, j :: 0 <= i < j < |firsts| ==> firsts[i] !! firsts[j]
  }

  /** With pairwise disjoint FIRST sets the listed order does not matter:
      alternative `i` is taken exactly when the next token can start it. */
  lemma DisjointChoiceIsUnique<K>(firsts: seq<set<K>>, k: K, i: nat)
    requires PairwiseDisjoint(firsts)
    requires i < |firsts|
    ensures FirstMatch(firsts, k) == Some(i) <==> k in firsts[i]
  {
  }

  /** The token stream the parser receives: every token of a SKIPPED group
      (white space in both grammars) removed, the others kept in order. */
  function Unskipped<T>(toks: seq<T>, skipped: T -> bool): (r: seq<T>)
    ensures |r| <= |toks|
    ensures forall i :: 0 <= i < |r| ==> !skipped(r[i])
    ensures forall i :: 0 <= i < |r| ==> r[i] in toks
  {
    if |toks| == 0 then []
    else (if skipped(toks[0]) then [] else [toks[0]]) + Unskipped(toks[1..], skipped)
  }

  /** Skipping works token by token, so it distributes over concatenation. */
  lemma {:induction false} UnskippedAppend<T>(a: seq<T>, b: seq<T>, skipped: T -> bool)
    ensures Unskipped(a + b, skipped) == Unskipped(a, skipped) + Unskipped(b, skipped)
  {
    if |a| == 0 {
      assert a + b == b;
    } else {
      assert (a + b)[1..] == a[1..] + b;
      UnskippedAppend(a[1..], b, skipped);
      assert (a + b)[0] == a[0];
      var head: seq<T> := if skipped(a[0]) then [] else [a[0]];
      assert Unskipped(a, skipped) == head + Unskipped(a[1..], skipped);
      assert Unskipped(a + b, skipped) == head + Unskipped(a[1..] + b, skipped);
    }
  }

  /** A stream without skipped tokens reaches the parser unchanged. */
  lemma {:induction false} UnskippedKeepsClean<T>(toks: seq<T>, skipped: T -> bool)
    requires forall i :: 0 <= i < |toks| ==> !skipped(toks[i])
    ensures Unskipped(toks, skipped) == toks
  {
    if |toks| > 0 {
      UnskippedKeepsClean(toks[1..], skipped);
    }
  }

  /** Inserting or deleting one skipped token anywhere does not change what
      the parser sees. */
  lemma UnskippedIgnoresSkipped<T>(a: seq<T>, t: T, b: seq<T>, skipped: T -> bool)
    requires skipped(t)
    ensures Unskipped(a + [t] + b, skipped) == Unskipped(a + b, skipped)
  {
    UnskippedAppend(a + [t], b, skipped);
    UnskippedAppend(a, [t], skipped);
    UnskippedAppend(a, b, skipped);
    assert Unskipped([t], skipped) == [] by {
      assert [t][1..] == [];
    }
  }

  /** Two skipped tokens, one before each of two clean stretches, vanish. */
  lemma UnskippedBetween<T>(w1: T, a: seq<T>, w2: T, b: seq<T>, skipped: T -> bool)
    requires skipped(w1) && skipped(w2)
    requires forall i :: 0 <= i < |a| ==> !skipped(a[i])
    requires forall i :: 0 <= i < |b| ==> !skipped(b[i])
    ensures Unskipped([w1] + a + [w2] + b, skipped) == a + b
  {
    var none: seq<T> := [];
    assert Unskipped([w1], skipped) == none by { assert [w1][1..] == none; }
    assert Unskipped([w2], skipped) == none by { assert [w2][1..] == none; }
    UnskippedKeepsClean(a, skipped);
    UnskippedKeepsClean(b, skipped);
    UnskippedAppend([w1], a, skipped);
    assert Unskipped([w1] + a, skipped) == a by { assert none + a == a; }
    UnskippedAppend([w1] + a, [w2], skipped);
    assert Unskipped([w1] + a + [w2], skipped) == a by { assert a + none == a; }
    UnskippedAppend([w1] + a + [w2], b, skipped);
  }

  /** Skipping is idempotent. */
  lemma UnskippedIdempotent<T>(toks: seq<T>, skipped: T -> bool)
    ensures Unskipped(Unskipped(toks, skipped), skipped) == Unskipped(toks, skipped)
  {
    UnskippedKeepsClean(Unskipped(toks, skipped), skipped);
  }

  /** `rest` is a suffix of `toks`: what a rule leaves unread. */
  ghost predicate Suffix<T>(rest: seq<T>, toks: seq<T>)
  {
    |rest| <= |toks| && toks[|toks| - |rest|..] == rest
  }

  /** A suffix of a suffix is a suffix: a rule that reads on from where
      another stopped leaves a suffix of the first rule's input. */
  lemma SuffixChain<T, V>(r: Option<(V, seq<T>)>, mid: seq<T>, toks: seq<T>)
    requires Suffix(mid, toks)
    ensures r.Some? && Suffix(r.value.1, mid) ==> Suffix(r.value.1, toks)
  {
    if r.Some? && Suffix(r.value.1, mid) {
      var rest := r.value.1;
      assert toks[|toks| - |rest|..] == toks[|toks| - |mid|..][|mid| - |rest|..];
    }
  }

  /** `rest` is what is left of `toks` once at least one token is consumed. */
  ghost predicate Consumed<T>(toks: seq<T>, rest: seq<T>)
  {
    Suffix(rest, toks) && |rest| < |toks|
  }
}
