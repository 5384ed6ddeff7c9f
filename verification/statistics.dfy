/** The per-word statistics kept in the sheet: after a training answer, the
  * first row with the asked word and category gets its Richtig or its Falsch
  * counter raised by one, an empty counter counting as 0. */
module Statistics {
  import opened Vocabulary

  /** Whether row `r` is selected by `df["Deutsch"] == deutsch` and
    * `df["Kategorie"] == kategorie`. An empty cell equals nothing, not even
    * another empty cell. */
  predicate Matches(r: Row, deutsch: Option<string>, kategorie: string)
  {
    deutsch.Some? && r.deutsch == deutsch && r.kategorie == Some(kategorie)
  }

  /** The position of the first matching row, if there is one. */
  function FirstMatch(rows: seq<Row>, deutsch: Option<string>, kategorie: string): (found: Option<nat>)
    ensures found.Some? ==> found.value < |rows| && Matches(rows[found.value], deutsch, kategorie)
    ensures found.Some? ==> forall j :: 0 <= j < found.value ==> !Matches(rows[j], deutsch, kategorie)
    ensures found.None? ==> forall j :: 0 <= j < |rows| ==> !Matches(rows[j], deutsch, kategorie)
  {
    if rows == [] then None
    else if Matches(rows[0], deutsch, kategorie) then Some(0)
    else match FirstMatch(rows[1..], deutsch, kategorie)
      case None => None
      case Some(i) => Some(i + 1)
  }

  /** The search of app.py as a scan over the table. */
  method FindFirst(table: array<Row>, deutsch: Option<string>, kategorie: string) returns (found: Option<nat>)
    ensures found == FirstMatch(table[..], deutsch, kategorie)
  {
    var i := 0;
    while i < table.Length
      invariant 0 <= i <= table.Length
      invariant forall j :: 0 <= j < i ==> !Matches(table[j], deutsch, kategorie)
    {
      if Matches(table[i], deutsch, kategorie) {
        return Some(i);
      }
      i := i + 1;
    }
    return None;
  }

  /** A counter cell raised by one: `x + 1` if present, `1` if empty. */
  function Bumped(c: Option<nat>): (r: Option<nat>)
    ensures r.Some? && Count(r) == Count(c) + 1
  {
    if c.Some? then Some(c.value + 1) else Some(1)
  }

  /** The number of answers a row has recorded. */
  function Attempts(r: Row): nat
  {
    Count(r.richtig) + Count(r.falsch)
  }

  /** A row after one more correct (or wrong) answer. */
  function Recorded(r: Row, correct: bool): (r': Row)
    ensures r'.kategorie == r.kategorie && r'.deutsch == r.deutsch && r'.englisch == r.englisch
    ensures Count(r'.richtig) == Count(r.richtig) + (if correct then 1 else 0)
    ensures Count(r'.falsch) == Count(r.falsch) + (if correct then 0 else 1)
    ensures correct ==> r'.falsch == r.falsch
    ensures !correct ==> r'.richtig == r.richtig
    ensures Attempts(r') == Attempts(r) + 1
  {
    if correct then r.(richtig := Bumped(r.richtig)) else r.(falsch := Bumped(r.falsch))
  }

  /** The table after an answer on `deutsch` in `kategorie`. */
  function WithAnswer(rows: seq<Row>, deutsch: Option<string>, kategorie: string, correct: bool): (rows': seq<Row>)
    ensures |rows'| == |rows|
    ensures forall j :: 0 <= j < |rows| ==>
      rows'[j].kategorie == rows[j].kategorie && rows'[j].deutsch == rows[j].deutsch &&
      rows'[j].englisch == rows[j].englisch
    ensures forall j :: 0 <= j < |rows| ==>
      Count(rows[j].richtig) <= Count(rows'[j].richtig) && Count(rows[j].falsch) <= Count(rows'[j].falsch)
    ensures FirstMatch(rows, deutsch, kategorie).None? ==> rows' == rows
    ensures forall j :: 0 <= j < |rows| && FirstMatch(rows, deutsch, kategorie) != Some(j) ==> rows'[j] == rows[j]
    ensures forall i :: FirstMatch(rows, deutsch, kategorie) == Some(i) ==> rows'[i] == Recorded(rows[i], correct)
  {
    match FirstMatch(rows, deutsch, kategorie)
    case None => rows
    case Some(i) => rows[i := Recorded(rows[i], correct)]
  }

  /** `antwort_pruefen`'s update of the sheet (writing the sheet back to its
    * file is not part of this model). */
  method RecordAnswer(table: array<Row>, deutsch: Option<string>, kategorie: string, correct: bool)
    modifies table
    ensures table[..] == WithAnswer(old(table[..]), deutsch, kategorie, correct)
  {
    var found := FindFirst(table, deutsch, kategorie);
    if found.Some? {
      var i := found.value;
      table[i] := Recorded(table[i], correct);
    }
  }

  /** The number of answers the whole table has recorded. */
  function TotalAttempts(rows: seq<Row>): nat
  {
    if rows == [] then 0 else Attempts(rows[0]) + TotalAttempts(rows[1..])
  }

  lemma {:induction false} TotalAttemptsUpdate(rows: seq<Row>, i: nat, r: Row)
    requires i < |rows|
    ensures TotalAttempts(rows[i := r]) + Attempts(rows[i]) == TotalAttempts(rows) + Attempts(r)
  {
    if i > 0 {
      assert rows[i := r][1..] == rows[1..][i - 1 := r];
      TotalAttemptsUpdate(rows[1..], i - 1, r);
    } else {
      assert rows[i := r][1..] == rows[1..];
    }
  }

  /** Every answer is counted exactly once, on one row, when the word is found;
    * no answer is counted when it is not. */
  lemma AnswerCountedOnce(rows: seq<Row>, deutsch: Option<string>, kategorie: string, correct: bool)
    ensures TotalAttempts(WithAnswer(rows, deutsch, kategorie, correct)) ==
      TotalAttempts(rows) + (if FirstMatch(rows, deutsch, kategorie).Some? then 1 else 0)
  {
    match FirstMatch(rows, deutsch, kategorie)
    case None =>
    case Some(i) =>
      TotalAttemptsUpdate(rows, i, Recorded(rows[i], correct));
  }

  /** A word whose Deutsch cell is empty is never found, so its answers leave
    * the table as it was. */
  lemma EmptyWordNotRecorded(rows: seq<Row>, kategorie: string, correct: bool)
    ensures WithAnswer(rows, None, kategorie, correct) == rows
  {
  }
}
