/** Small facts about sequences and maps, kept as lemmas so that proofs about the
    model call them instead of re-deriving sequence equalities in place. */
module Seqs {

  /** A prefix one longer is the prefix and the next element. */
  lemma TakeSnoc<T>(s: seq<T>, i: nat)
    requires i < |s|
    ensures s[..i + 1] == s[..i] + [s[i]]
  {
  }

  /** A prefix of a prefix is a prefix. */
  lemma TakeTake<T>(s: seq<T>, i: nat, j: nat)
    requires i <= j <= |s|
    ensures s[..j][..i] == s[..i]
  {
  }

  /** The prefix of full length is the whole sequence. */
  lemma TakeAll<T>(s: seq<T>, n: nat)
    requires n == |s|
    ensures s[..n] == s
  {
  }

  /** A non-empty sequence is its head followed by its tail. */
  lemma HeadTail<T>(s: seq<T>)
    requires s != []
    ensures [s[0]] + s[1..] == s
  {
  }

  /** Concatenation is associative. */
  lemma AppendAssoc<T>(a: seq<T>, b: seq<T>, c: seq<T>)
    ensures a + b + c == a + (b + c)
  {
  }

  /** Filing a new object under one address keeps the objects of distinct
      addresses distinct. */
  lemma InsertDistinct<K, T>(prev: map<K, T>, address: K, x: T)
    requires forall a, b | a in prev && b in prev && a != b :: prev[a] != prev[b]
    requires forall a | a in prev :: prev[a] != x
    ensures var n := prev[address := x]; forall a, b | a in n && b in n && a != b :: n[a] != n[b]
  {
    var n := prev[address := x];
    forall a, b | a in n && b in n && a != b ensures n[a] != n[b] {
      if a != address && b != address {
        assert n[a] == prev[a] && n[b] == prev[b];
      }
    }
  }
}
