/** Small shared vocabulary: optional values, node identities, duplicate-free sequences. */
module Base {

  /** A JavaScript value that may be null or undefined. */
  datatype Option<T> = None | Some(value: T)

  /** Identity of a DOM element. Two ids are the same element (JavaScript `===`). */
  type NodeId = nat

  /** No element occurs twice (a NodeList, `element.children`, a chain of distinct folders). */
  ghost predicate NoDup<T>(s: seq<T>) {
    forall i, j :: 0 <= i < j < |s| ==> s[i] != s[j]
  }

  /** The tail of a duplicate-free sequence is duplicate-free and does not hold the head. */
  lemma NoDupTail<T>(s: seq<T>)
    requires NoDup(s) && s != []
    ensures NoDup(s[1..]) && s[0] !in s[1..]
  {
    forall i, j | 0 <= i < j < |s[1..]| ensures s[1..][i] != s[1..][j] {
      assert s[1..][i] == s[i + 1] && s[1..][j] == s[j + 1];
    }
  }
}
