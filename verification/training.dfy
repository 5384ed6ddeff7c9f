/** Training mode: one word of the chosen category at a time, drawn at random;
  * answers are graded and counted in the sheet, and each category remembers
  * which of its words have been moved past ("abgefragt"). */
module Training {
  import opened Vocabulary
  import opened Grading
  import Statistics

  /** Every index in `asked` points into a category of `n` words. */
  predicate Within(asked: set<nat>, n: nat)
  {
    forall i :: i in asked ==> i < n
  }

  /** All the indices of a category of `n` words. */
  function AllIndices(n: nat): (all: set<nat>)
    ensures Within(all, n)
  {
    if n == 0 then {} else AllIndices(n - 1) + {n - 1}
  }

  lemma {:induction false} AllIndicesSize(n: nat)
    ensures |AllIndices(n)| == n
  {
    if n > 0 {
      var smaller := AllIndices(n - 1);
      AllIndicesSize(n - 1);
      assert n - 1 !in smaller;
      assert |smaller + {n - 1}| == |smaller| + 1;
    }
  }

  lemma {:induction false} AllIndicesHoldsAll(n: nat, i: nat)
    requires i < n
    ensures i in AllIndices(n)
  {
    if i < n - 1 {
      AllIndicesHoldsAll(n - 1, i);
    }
  }

  /** Every category's asked set points into that category of `rows`. */
  predicate AllWithin(asked: map<string, set<nat>>, rows: seq<Row>)
  {
    forall k :: k in asked ==> Within(asked[k], CategorySize(rows, k))
  }

  /** Counting answers changes no Kategorie cell, so every asked set still fits. */
  lemma AllWithinKept(asked: map<string, set<nat>>, before: seq<Row>, after: seq<Row>)
    requires AllWithin(asked, before)
    requires |after| == |before|
    requires forall j :: 0 <= j < |before| ==> after[j].kategorie == before[j].kategorie
    ensures AllWithin(asked, after)
  {
    forall k | k in asked
      ensures CategorySize(after, k) == CategorySize(before, k)
    {
      SameCategoriesSameSize(after, before, k);
    }
  }

  /** A set of indices into `n` words has at most `n` members, and exactly `n`
    * only when it holds every index. */
  lemma {:induction false} AskedBound(asked: set<nat>, n: nat)
    requires Within(asked, n)
    ensures |asked| <= n
    ensures |asked| == n <==> asked == AllIndices(n)
  {
    if n == 0 {
      assert asked == {};
    } else {
      var rest := asked - {n - 1};
      AskedBound(rest, n - 1);
      if n - 1 in asked {
        assert asked == rest + {n - 1};
      } else {
        assert rest == asked;
        AllIndicesHoldsAll(n, n - 1);
      }
      AllIndicesSize(n);
    }
  }

  /** Progress as the pair (asked, total) behind `asked / total`. */
  datatype Ratio = Ratio(asked: nat, total: nat)

  /** The training part of the session state, together with the sheet it
    * counts answers in. */
  class Trainer {
    const table: array<Row>             // the sheet (df)
    var index: nat                      // frage_index, into the chosen category
    var answered: bool                  // antwort_gegeben
    var lastCorrect: Option<bool>       // antwort_richtig
    var showTranslation: bool           // zeige_englisch
    var asked: map<string, set<nat>>    // abgefragt_kategorie

    ghost predicate Valid()
      reads this, table
    {
      AllWithin(asked, table[..])
    }

    /** The first visit: `frage_index` drawn from `[0, n)` for the chosen
      * category, which has words (the page stops otherwise). */
    constructor (table: array<Row>, kategorie: string, draw: nat)
      requires draw < CategorySize(table[..], kategorie)
      ensures Valid()
      ensures this.table == table && index == draw
      ensures !answered && lastCorrect.None? && !showTranslation && asked == map[]
    {
      this.table := table;
      index := draw;
      answered := false;
      lastCorrect := None;
      showTranslation := false;
      asked := map[];
    }

    /** A category seen for the first time gets an empty asked set. */
    method Enter(kategorie: string)
      requires Valid()
      modifies this`asked
      ensures Valid()
      ensures kategorie in asked
      ensures asked == if kategorie in old(asked) then old(asked) else old(asked)[kategorie := {}]
    {
      if kategorie !in asked {
        asked := asked[kategorie := {}];
      }
    }

    /** The progress bar of the chosen category. */
    function Progress(kategorie: string): (p: Ratio)
      reads this, table
      requires Valid() && kategorie in asked
      ensures p.total == CategorySize(table[..], kategorie)
      ensures p.asked <= p.total
      ensures p.asked == p.total <==> asked[kategorie] == AllIndices(p.total)
    {
      AskedBound(asked[kategorie], CategorySize(table[..], kategorie));
      Ratio(|asked[kategorie]|, CategorySize(table[..], kategorie))
    }

    /** "Fortschritt zurücksetzen": only the chosen category's asked set is emptied. */
    method ResetProgress(kategorie: string)
      requires Valid()
      modifies this`asked
      ensures Valid()
      ensures asked == old(asked)[kategorie := {}]
    {
      asked := asked[kategorie := {}];
    }

    /** An index left over from a larger category is set back to 0. */
    method Clamp(kategorie: string)
      requires CategorySize(table[..], kategorie) > 0
      modifies this`index
      ensures index < CategorySize(table[..], kategorie)
      ensures old(index) < CategorySize(table[..], kategorie) ==> index == old(index)
      ensures old(index) >= CategorySize(table[..], kategorie) ==> index == 0
    {
      if index >= CategorySize(table[..], kategorie) {
        index := 0;
      }
    }

    /** `antwort_pruefen`: grades the typed answer against the current word and
      * counts it on the first sheet row with that word and category. Nothing
      * stops it from running again on the same word. */
    method CheckAnswer(kategorie: string, antwort: string)
      requires Valid() && index < CategorySize(table[..], kategorie)
      modifies this`answered, this`lastCorrect, table
      ensures Valid()
      ensures var word := CategoryRows(old(table[..]), kategorie)[index];
        var correct := IsCorrect(antwort, CellText(word.englisch));
        answered && lastCorrect == Some(correct) &&
        table[..] == Statistics.WithAnswer(old(table[..]), word.deutsch, kategorie, correct)
    {
      var word := CategoryRows(table[..], kategorie)[index];
      var correct := IsCorrect(antwort, CellText(word.englisch));
      answered := true;
      lastCorrect := Some(correct);
      ghost var before := table[..];
      Statistics.RecordAnswer(table, word.deutsch, kategorie, correct);
      AllWithinKept(asked, before, table[..]);
    }

    /** "Nächste Vokabel": the current index is added to the category's asked
      * set and a new index is drawn from `[0, n)`. */
    method Next(kategorie: string, draw: nat)
      requires Valid() && kategorie in asked
      requires index < CategorySize(table[..], kategorie)
      requires draw < CategorySize(table[..], kategorie)
      modifies this`asked, this`index, this`answered, this`lastCorrect, this`showTranslation
      ensures Valid()
      ensures asked == old(asked)[kategorie := old(asked[kategorie]) + {old(index)}]
      ensures |asked[kategorie]| <= |old(asked[kategorie])| + 1
      ensures index == draw && !answered && lastCorrect.None? && !showTranslation
    {
      asked := asked[kategorie := asked[kategorie] + {index}];
      index := draw;
      answered := false;
      lastCorrect := None;
      showTranslation := false;
    }
  }

  /** Two different answers typed for the same word are both counted. */
  method RepeatedCheckScenario() returns (before: nat, after: nat)
    ensures after == before + 2
  {
    var dog := Row(Some("Tiere"), Some("Hund"), Some("dog"), None, None);
    var table := new Row[1] [dog];
    assert table[..] == [dog];
    assert CategoryRows([dog], "Tiere") == [dog];
    var t := new Trainer(table, "Tiere", 0);
    before := Statistics.Attempts(table[0]);
    t.CheckAnswer("Tiere", "cat");
    t.CheckAnswer("Tiere", "dog");
    after := Statistics.Attempts(table[0]);
  }

  /** With two rows for the same word and category, answers on the second are
    * counted on the first. */
  method DuplicateWordScenario() returns (first: nat, second: nat)
    ensures first == 1 && second == 0
  {
    var a := Row(Some("Tiere"), Some("Bank"), Some("bench"), None, None);
    var b := Row(Some("Tiere"), Some("Bank"), Some("bank"), None, None);
    var table := new Row[2] [a, b];
    assert table[..] == [a, b];
    assert CategoryRows([a, b], "Tiere") == [a, b];
    var t := new Trainer(table, "Tiere", 1);
    t.CheckAnswer("Tiere", "bank");
    first := Statistics.Attempts(table[0]);
    second := Statistics.Attempts(table[1]);
  }
}
