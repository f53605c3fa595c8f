/** Stock datatypes shared by every component of the model. */
module Common {

  /** A nullable column or an optional answer. */
  datatype Option<+T> = None | Some(value: T) {

    function GetOr(default: T): T {
      match this
      case Some(v) => v
      case None => default
    }
  }

  /** Identifiers: the program only ever compares its UUIDs for equality. */
  datatype Id = Id(number: nat)

  /** The next element of a set or dictionary that a loop visits in no particular order. */
  method Next<T>(s: set<T>) returns (x: T)
    requires s != {}
    ensures x in s
  {
    x :| x in s;
  }

  lemma SameEntries<K, V>(a: map<K, V>, b: map<K, V>)
    requires forall k :: k in a <==> k in b
    requires forall k :: k in a ==> a[k] == b[k]
    ensures a == b
  {
    assert a.Keys == b.Keys;
  }
}
