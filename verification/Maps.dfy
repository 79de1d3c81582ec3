/** Facts about finite maps. */
module Maps {

  /** Every entry of `part` is an entry of `whole`. */
  ghost predicate Part<K, V>(part: map<K, V>, whole: map<K, V>)
  {
    forall k :: k in part ==> k in whole && part[k] == whole[k]
  }

  lemma {:induction false} PartTrans<K, V>(a: map<K, V>, b: map<K, V>, c: map<K, V>)
    requires Part(a, b) && Part(b, c)
    ensures Part(a, c)
  {}

  /** Adding a part changes nothing. */
  lemma {:induction false} Absorbed<K, V>(whole: map<K, V>, part: map<K, V>)
    requires Part(part, whole)
    ensures whole + part == whole
  {}

  lemma {:induction false} Associate<K, V>(a: map<K, V>, b: map<K, V>, c: map<K, V>)
    ensures (a + b) + c == a + (b + c)
  {}

  /** An entry put last may be put into either side. */
  lemma {:induction false} PutRight<K, V>(a: map<K, V>, b: map<K, V>, k: K, v: V)
    ensures (a + b)[k := v] == a + b[k := v]
  {}
}
