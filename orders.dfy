/** The sort orders the screens use. Every `localeCompare` on MG codes and
    ISO dates is modelled by plain code-unit order (`LexLe`); on such strings
    of digits, letters and hyphens the two agree. */
module Orders {
  import opened Text
  import opened Seqs
  import opened Domain

  /** Ascending code-unit order on strings. */
  const Ascending: (string, string) -> bool := (a: string, b: string) => LexLe(a, b)

  /** Descending code-unit order on strings (`b.localeCompare(a)`). */
  const Descending: (string, string) -> bool := (a: string, b: string) => LexLe(b, a)

  lemma AscendingPreorder()
    ensures TotalPreorder(Ascending)
  {
    forall a: string, b: string ensures LexLe(a, b) || LexLe(b, a) {
      LexLeTotal(a, b);
    }
    forall a: string, b: string, c: string | LexLe(a, b) && LexLe(b, c) ensures LexLe(a, c) {
      LexLeTransitive(a, b, c);
    }
  }

  lemma DescendingPreorder()
    ensures TotalPreorder(Descending)
  {
    forall a: string, b: string ensures LexLe(b, a) || LexLe(a, b) {
      LexLeTotal(a, b);
    }
    forall a: string, b: string, c: string | LexLe(b, a) && LexLe(c, b) ensures LexLe(c, a) {
      LexLeTransitive(c, b, a);
    }
  }

  /** `(a, b) => a.mgCode.localeCompare(b.mgCode)` */
  const ByMgCode: (Leader, Leader) -> bool := (a: Leader, b: Leader) => LexLe(a.mgCode, b.mgCode)

  lemma ByMgCodePreorder()
    ensures TotalPreorder(ByMgCode)
  {
    forall a: Leader, b: Leader ensures LexLe(a.mgCode, b.mgCode) || LexLe(b.mgCode, a.mgCode) {
      LexLeTotal(a.mgCode, b.mgCode);
    }
    forall a: Leader, b: Leader, c: Leader | LexLe(a.mgCode, b.mgCode) && LexLe(b.mgCode, c.mgCode)
      ensures LexLe(a.mgCode, c.mgCode)
    {
      LexLeTransitive(a.mgCode, b.mgCode, c.mgCode);
    }
  }
}
