/** What the two sale pages share: the product records they receive and the name search they filter with. */
module Client {
  import opened Text

  /** A product as the pages receive it: its id, name, unit price and stock. */
  datatype Product = Product(id: nat, name: string, price: real, stock: int)

  /** `name.toLowerCase().includes(search.toLowerCase())`. */
  predicate NameMatches(name: string, search: string)
  {
    Contains(Lower(name), Lower(search))
  }

  /** An empty search box matches every name. */
  lemma EmptySearchMatches(name: string)
    ensures NameMatches(name, "")
  {
    assert Lower("") == "";
    EmptyNeedleMatches(Lower(name));
  }

  /** The match ignores the case of ASCII letters on both sides. */
  lemma MatchIgnoresCase(name: string, search: string)
    ensures NameMatches(name, search) <==> NameMatches(Lower(name), Lower(search))
  {
    assert Lower(Lower(name)) == Lower(name);
    assert Lower(Lower(search)) == Lower(search);
  }
}
