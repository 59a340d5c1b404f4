/** What several modules share: optional values and facts about the built-in collections. */
module Collections {
  datatype Option<+T> = None | Some(value: T)

  function Min(a: int, b: int): int {
    if a <= b then a else b
  }

  /** Position of the first pair with this key, or the length of the list. */
  function IndexOf<K(==), V>(pairs: seq<(K, V)>, key: K): (i: nat)
    ensures i <= |pairs|
    ensures i < |pairs| ==> pairs[i].0 == key
    ensures forall j | 0 <= j < i :: pairs[j].0 != key
  {
    if pairs == [] then 0
    else if pairs[0].0 == key then 0
    else
      assert forall j | 0 < j < |pairs| :: pairs[1..][j - 1] == pairs[j];
      1 + IndexOf(pairs[1..], key)
  }

  lemma EmptyOrInhabited<T>(s: set<T>)
    ensures s == {} || exists x :: x in s
  {
    if forall x :: x !in s {
      assert s == {};
    }
  }

  lemma MemberOf<T>(s: set<T>) returns (x: T)
    requires s != {}
    ensures x in s
  {
    EmptyOrInhabited(s);
    x :| x in s;
  }
}
