/** Small facts about sequence concatenation, stated once for any element
    type so that the proofs about tokens and values can cite them. */
module SeqFacts {

  lemma Assoc<T>(a: seq<T>, b: seq<T>, c: seq<T>)
    ensures a + b + c == a + (b + c)
  {
  }

  lemma TailOfCons<T>(x: T, a: seq<T>, b: seq<T>, c: seq<T>)
    ensures ([x] + a + b + c)[1..] == a + (b + c)
  {
  }

  lemma ConsAppend<T>(acc: seq<T>, x: T, xs: seq<T>, ys: seq<T>)
    requires ys == [x] + xs
    ensures acc + ys == acc + [x] + xs
  {
  }

  lemma SplitHead<T>(s: seq<T>)
    requires |s| > 0
    ensures s == [s[0]] + s[1..]
  {
  }

  /** Gluing back a stream that was read as a token, then `a`, then `b`. */
  lemma Rebuild<T>(toks: seq<T>, x: T, a: seq<T>, b: seq<T>, mid: seq<T>, rest: seq<T>)
    requires |toks| > 0 && toks[0] == x && toks[1..] == a + mid && mid == b + rest
    ensures toks == [x] + a + b + rest
  {
    assert toks == [toks[0]] + toks[1..];
  }

  /** Gluing back a stream that was read as `a`, then `b`. */
  lemma Rebuild2<T>(toks: seq<T>, a: seq<T>, b: seq<T>, mid: seq<T>, rest: seq<T>)
    requires toks == a + mid && mid == b + rest
    ensures toks == a + b + rest
  {
  }

  lemma DropHead<T>(x: T, xs: seq<T>)
    ensures ([x] + xs)[0] == x && ([x] + xs)[1..] == xs
  {
  }

  lemma EmptyPrefix<T>(toks: seq<T>, a: seq<T>, rest: seq<T>)
    requires a == [] && rest == toks
    ensures toks == a + rest
  {
  }

  /** Reading `a`, a separator `x`, then `b` and `c`. */
  lemma Regroup<T>(a: seq<T>, x: T, b: seq<T>, c: seq<T>)
    ensures a + [x] + b + c == a + ([x] + (b + c))
  {
  }

  /** Gluing back a stream that was read as an opening token `x`, then `a`,
      then a closing token `y`. */
  lemma Enclosed<T>(toks: seq<T>, x: T, a: seq<T>, y: T, inner: seq<T>)
    requires |toks| > 0 && toks[0] == x && toks[1..] == a + inner
    requires |inner| > 0 && inner[0] == y
    ensures toks == [x] + a + [y] + inner[1..]
  {
    assert inner == [y] + inner[1..];
    assert toks == [toks[0]] + toks[1..];
  }

  /** Gluing back a stream that was read as two tokens `x` and `y`, then
      `a`, then `rest`. */
  lemma TwoThen<T>(toks: seq<T>, x: T, y: T, a: seq<T>, rest: seq<T>)
    requires |toks| >= 2 && toks[0] == x && toks[1] == y && toks[2..] == a + rest
    ensures toks == [x, y] + a + rest
  {
    assert toks == [toks[0], toks[1]] + toks[2..];
  }

  /** What follows two leading tokens. */
  lemma AfterTwo<T>(x: T, y: T, a: seq<T>, rest: seq<T>)
    ensures ([x, y] + a + rest)[0] == x && ([x, y] + a + rest)[1] == y
    ensures ([x, y] + a + rest)[2..] == a + rest
  {
  }

  /** Three leading elements, however grouped. */
  lemma ThreeThen<T>(x: T, y: T, z: T, rest: seq<T>)
    ensures [x, y] + ([z] + rest) == [x, y, z] + rest
  {
  }
}
