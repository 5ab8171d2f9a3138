/** Strict total orders as function values. */
module Orders {
  import Text

  type Order<!K> = (K, K) -> bool

  ghost predicate StrictTotal<K(!new)>(less: Order<K>) {
    && (forall a, b, c :: less(a, b) && less(b, c) ==> less(a, c))
    && (forall a, b :: less(a, b) || a == b || less(b, a))
    && (forall a, b :: !(less(a, b) && less(b, a)))
  }

  /** The order of strings, and of the keys of an ordered map of strings. */
  const LEX: Order<string> := (a, b) => Text.LexLess(a, b)

  lemma LexIsStrict()
    ensures StrictTotal(LEX)
  {
    forall a, b ensures LEX(a, b) || a == b || LEX(b, a) ensures !(LEX(a, b) && LEX(b, a)) {
      Text.LexTotal(a, b);
      if Text.LexLess(a, b) && Text.LexLess(b, a) {
        Text.LexTransitive(a, b, a);
        Text.LexIrreflexive(a);
      }
    }
    forall a, b, c | LEX(a, b) && LEX(b, c) ensures LEX(a, c) {
      Text.LexTransitive(a, b, c);
    }
  }
}
