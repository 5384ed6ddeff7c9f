/** The vocabulary sheet: one row per word, with the columns Kategorie, Deutsch,
  * Englisch, Richtig and Falsch. An empty (NaN) cell is `None`. */
module Vocabulary {

  datatype Option<T> = None | Some(value: T)

  /** One row of the sheet. The example-sentence columns DE_1..EN_3 only feed
    * the screen and are not part of this model. */
  datatype Row = Row(
    kategorie: Option<string>,
    deutsch: Option<string>,
    englisch: Option<string>,
    richtig: Option<nat>,
    falsch: Option<nat>)

  /** Python's `str` of a text cell: the text itself, or "nan" for an empty cell. */
  function CellText(c: Option<string>): string
  {
    match c
    case Some(s) => s
    case None => "nan"
  }

  /** A counter cell read with an empty cell counting as 0. */
  function Count(c: Option<nat>): nat
  {
    match c
    case Some(n) => n
    case None => 0
  }

  /** The rows whose Kategorie cell equals `k`, in table order
    * (`df[df["Kategorie"] == k]`; an empty cell never equals `k`). */
  function CategoryRows(rows: seq<Row>, k: string): (r: seq<Row>)
    ensures |r| <= |rows|
    ensures forall x :: x in r ==> x in rows && x.kategorie == Some(k)
    ensures forall x :: x in rows && x.kategorie == Some(k) ==> x in r
  {
    if rows == [] then []
    else (if rows[0].kategorie == Some(k) then [rows[0]] else []) + CategoryRows(rows[1..], k)
  }

  /** The filter keeps table order: the rows of a table cut in two are the rows
    * of the first part followed by those of the second. */
  lemma {:induction false} CategoryRowsConcat(a: seq<Row>, b: seq<Row>, k: string)
    ensures CategoryRows(a + b, k) == CategoryRows(a, k) + CategoryRows(b, k)
  {
    if a == [] {
      assert a + b == b;
    } else {
      var ab := a + b;
      assert ab[0] == a[0];
      assert ab[1..] == a[1..] + b;
      CategoryRowsConcat(a[1..], b, k);
      var head := if a[0].kategorie == Some(k) then [a[0]] else [];
      assert CategoryRows(ab, k) == head + CategoryRows(a[1..] + b, k);
      assert CategoryRows(a, k) == head + CategoryRows(a[1..], k);
    }
  }

  /** A single row is kept exactly when its Kategorie is `k`. */
  lemma CategoryRowsSingle(x: Row, k: string)
    ensures CategoryRows([x], k) == if x.kategorie == Some(k) then [x] else []
  {
    assert [x][1..] == [];
  }

  /** The filter keeps every copy of a matching row and no other row. */
  lemma {:induction false} CategoryRowsCounts(rows: seq<Row>, k: string)
    ensures forall x :: multiset(CategoryRows(rows, k))[x] ==
                        (if x.kategorie == Some(k) then multiset(rows)[x] else 0)
  {
    if rows != [] {
      assert rows == [rows[0]] + rows[1..];
      assert multiset(rows) == multiset([rows[0]]) + multiset(rows[1..]);
      CategoryRowsCounts(rows[1..], k);
    }
  }

  function CategorySize(rows: seq<Row>, k: string): nat
  {
    |CategoryRows(rows, k)|
  }

  /** Two tables that agree on every Kategorie cell have categories of the same size:
    * changing counters never changes which rows a category holds. */
  lemma {:induction false} SameCategoriesSameSize(a: seq<Row>, b: seq<Row>, k: string)
    requires |a| == |b|
    requires forall j :: 0 <= j < |a| ==> a[j].kategorie == b[j].kategorie
    ensures CategorySize(a, k) == CategorySize(b, k)
  {
    if a != [] {
      SameCategoriesSameSize(a[1..], b[1..], k);
    }
  }
}
