/** The event list on the home page (`src/components/principal/eventos/Eventos.tsx`):
    the cards shown for the chosen category. */
module Eventos {

  datatype Card = Card(
    artist: string, fecha: string, ubicacion: string, ciudad: string, foto: string, categoria: string)

  /** The category that shows every card. */
  const AllCategories: string := "Todos"

  /** The filter buttons, in order. */
  const Categorias: seq<string> :=
    ["Todos", "Culinaria", "Deportes", "Especiales", "Familia", "Literatura", "Música", "Stand Up", "Teatro"]

  /** `cards.filter(card => card.categoria === categoria)` */
  function WithCategory(cards: seq<Card>, categoria: string): (r: seq<Card>)
    ensures |r| <= |cards|
    ensures forall c :: c in r ==> c in cards && c.categoria == categoria
    ensures forall i :: 0 <= i < |cards| && cards[i].categoria == categoria ==> cards[i] in r
  {
    if cards == [] then []
    else if cards[0].categoria == categoria then [cards[0]] + WithCategory(cards[1..], categoria)
    else WithCategory(cards[1..], categoria)
  }

  /** `eventosFiltrados`: "Todos" shows every card; any other category shows,
      in their original order, exactly the cards of that category, one entry
      per such card. */
  function EventosFiltrados(cards: seq<Card>, categoria: string): (r: seq<Card>)
    ensures categoria == AllCategories ==> r == cards
    ensures IsSubsequence(r, cards)
    ensures categoria != AllCategories ==>
              && (forall c :: c in r ==> c.categoria == categoria)
              && (forall i :: 0 <= i < |cards| && cards[i].categoria == categoria ==> cards[i] in r)
              && |r| == multiset(CategoriasOf(cards))[categoria]
  {
    if categoria == AllCategories then
      SubsequenceRefl(cards);
      cards
    else
      WithCategoryIsSubsequence(cards, categoria);
      WithCategoryCount(cards, categoria);
      WithCategory(cards, categoria)
  }

  /** `a` can be obtained from `b` by deleting elements. */
  predicate IsSubsequence<T(==)>(a: seq<T>, b: seq<T>) {
    if a == [] then true
    else if b == [] then false
    else if a[0] == b[0] then IsSubsequence(a[1..], b[1..])
    else IsSubsequence(a, b[1..])
  }

  lemma {:induction false} WithCategoryIsSubsequence(cards: seq<Card>, categoria: string)
    ensures IsSubsequence(WithCategory(cards, categoria), cards)
  {
    if cards != [] {
      WithCategoryIsSubsequence(cards[1..], categoria);
      var rest := WithCategory(cards[1..], categoria);
      if cards[0].categoria == categoria {
        assert ([cards[0]] + rest)[1..] == rest;
      }
    }
  }

  /** The categories of the cards, in order. */
  function CategoriasOf(cards: seq<Card>): seq<string> {
    seq(|cards|, i requires 0 <= i < |cards| => cards[i].categoria)
  }

  lemma {:induction false} WithCategoryCount(cards: seq<Card>, categoria: string)
    ensures |WithCategory(cards, categoria)| == multiset(CategoriasOf(cards))[categoria]
  {
    if cards != [] {
      WithCategoryCount(cards[1..], categoria);
      assert CategoriasOf(cards) == [cards[0].categoria] + CategoriasOf(cards[1..]);
    }
  }

  /** Every sequence is a subsequence of itself. */
  lemma {:induction false} SubsequenceRefl<T>(a: seq<T>)
    ensures IsSubsequence(a, a)
  {
    if a != [] {
      SubsequenceRefl(a[1..]);
    }
  }

  /** A subsequence is never longer than the sequence it comes from. */
  lemma {:induction false} SubsequenceNoLonger<T>(a: seq<T>, b: seq<T>)
    requires IsSubsequence(a, b)
    ensures |a| <= |b|
  {
    if a != [] {
      if a[0] == b[0] {
        SubsequenceNoLonger(a[1..], b[1..]);
      } else {
        SubsequenceNoLonger(a, b[1..]);
      }
    }
  }

  /** The component's state: the category of the last button pressed. */
  class CategoryFilter {
    var categoria: string

    constructor ()
      ensures categoria == AllCategories
    {
      categoria := AllCategories;
    }

    /** Pressing one of the category buttons. */
    method Choose(cat: string)
      requires cat in Categorias
      modifies this
      ensures categoria == cat
    {
      categoria := cat;
    }
  }
}
