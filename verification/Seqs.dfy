/** Facts about sequences that the other modules share. */
module Seqs {
  /** Two conservation steps in a row make one. */
  lemma ChainConcat<T>(first: seq<T>, second: seq<T>, end: seq<T>, mid: seq<T>, added: seq<T>, start: seq<T>)
    requires second + end == mid + added
    requires first + mid == start
    ensures (first + second) + end == start + added
  {
    assert (first + second) + end == first + (second + end);
    assert first + (mid + added) == (first + mid) + added;
  }

  lemma Associative<T>(a: seq<T>, b: seq<T>, c: seq<T>)
    ensures (a + b) + c == a + (b + c)
  {
  }

  lemma HeadTail<T>(s: seq<T>)
    requires s != []
    ensures s == [s[0]] + s[1..]
  {
  }

  lemma TailConcat<T>(a: seq<T>, b: seq<T>)
    requires a != []
    ensures (a + b)[0] == a[0] && (a + b)[1..] == a[1..] + b
  {
  }

  lemma EmptyConcat<T>(a: seq<T>)
    ensures [] + a == a && a + [] == a
  {
  }
}
