/**
 * One search hit as the search API returns it, the sort keys of the table,
 * and the order lodash's `sortBy` compares the sortable fields with.
 */
module Hits {

  /** A story record; only the fields the application reads are kept. */
  datatype Hit = Hit(
    objectID: string,
    title: string,
    url: string,
    author: string,
    numComments: int,
    points: int)

  /** The keys of the `SORTS` table. */
  datatype SortKey = NONE | TITLE | AUTHOR | COMMENTS | POINTS

  /** The fields a non-trivial sort compares. */
  datatype Field = Title | Author | Comments | Points

  /** Lexicographic order on strings, character by character, a proper prefix first. */
  predicate TextLeq(a: string, b: string)
  {
    if a == [] then true
    else if b == [] then false
    else if a[0] < b[0] then true
    else if b[0] < a[0] then false
    else TextLeq(a[1..], b[1..])
  }

  lemma {:induction false} TextLeqTotal(a: string, b: string)
    ensures TextLeq(a, b) || TextLeq(b, a)
  {
    if a != [] && b != [] && a[0] == b[0] {
      TextLeqTotal(a[1..], b[1..]);
    }
  }

  lemma {:induction false} TextLeqTrans(a: string, b: string, c: string)
    requires TextLeq(a, b) && TextLeq(b, c)
    ensures TextLeq(a, c)
  {
    if a != [] && b != [] && c != [] && a[0] == b[0] == c[0] {
      TextLeqTrans(a[1..], b[1..], c[1..]);
    }
  }

  lemma {:induction false} TextLeqAntisym(a: string, b: string)
    requires TextLeq(a, b) && TextLeq(b, a)
    ensures a == b
  {
    if a != [] && b != [] {
      TextLeqAntisym(a[1..], b[1..]);
    }
  }

  /** The value a sort compares: a string field or a number field. */
  datatype KeyValue = Text(text: string) | Count(count: int)

  /** The value of field `f` of `h`. */
  function Key(f: Field, h: Hit): KeyValue
  {
    match f
    case Title => Text(h.title)
    case Author => Text(h.author)
    case Comments => Count(h.numComments)
    case Points => Count(h.points)
  }

  /**
   * `KeyLeq(a, b)` holds when lodash's `compareAscending(a, b)` does not
   * return 1, i.e. `a` does not sort after `b`: strings by `TextLeq`, numbers by `<=`.
   * One field never mixes the two; numbers are put first to keep the order total.
   */
  predicate KeyLeq(a: KeyValue, b: KeyValue)
  {
    match (a, b)
    case (Text(s), Text(t)) => TextLeq(s, t)
    case (Count(m), Count(n)) => m <= n
    case (Count(_), Text(_)) => true
    case (Text(_), Count(_)) => false
  }

  lemma KeyLeqTotal(a: KeyValue, b: KeyValue)
    ensures KeyLeq(a, b) || KeyLeq(b, a)
  {
    if a.Text? && b.Text? {
      TextLeqTotal(a.text, b.text);
    }
  }

  lemma KeyLeqTrans(a: KeyValue, b: KeyValue, c: KeyValue)
    requires KeyLeq(a, b) && KeyLeq(b, c)
    ensures KeyLeq(a, c)
  {
    if a.Text? && b.Text? && c.Text? {
      TextLeqTrans(a.text, b.text, c.text);
    }
  }

  lemma KeyLeqAntisym(a: KeyValue, b: KeyValue)
    ensures KeyLeq(a, b) && KeyLeq(b, a) <==> a == b
  {
    if a.Text? && b.Text? {
      if KeyLeq(a, b) && KeyLeq(b, a) {
        TextLeqAntisym(a.text, b.text);
      }
      TextLeqTotal(a.text, a.text);
    }
  }

  /** `a` does not sort after `b` by field `f`. */
  predicate Leq(f: Field, a: Hit, b: Hit)
  {
    KeyLeq(Key(f, a), Key(f, b))
  }

  /** `a` and `b` are tied under field `f`. */
  predicate SameKey(f: Field, a: Hit, b: Hit)
  {
    Key(f, a) == Key(f, b)
  }

  lemma LeqTotal(f: Field, a: Hit, b: Hit)
    ensures Leq(f, a, b) || Leq(f, b, a)
  {
    KeyLeqTotal(Key(f, a), Key(f, b));
  }

  lemma LeqTrans(f: Field, a: Hit, b: Hit, c: Hit)
    requires Leq(f, a, b) && Leq(f, b, c)
    ensures Leq(f, a, c)
  {
    KeyLeqTrans(Key(f, a), Key(f, b), Key(f, c));
  }

  /** Two hits are tied exactly when each is `Leq` the other. */
  lemma LeqBothWays(f: Field, a: Hit, b: Hit)
    ensures Leq(f, a, b) && Leq(f, b, a) <==> SameKey(f, a, b)
  {
    KeyLeqAntisym(Key(f, a), Key(f, b));
  }
}
