/** Test mode: a quiz of up to 25 words drawn without replacement from the
  * selected categories, answered one after the other and scored at the end.
  * Answers here are graded but never written to the sheet's statistics. */
module TestMode {
  import opened Vocabulary
  import opened Grading

  /** The hard-coded quiz length. */
  const MaxQuestions: nat := 25

  /** `min(25, len(df))`: taken over the whole table, not over the rows the
    * selected categories offer. */
  function SampleSize(tableSize: nat): (n: nat)
    ensures n <= MaxQuestions && n <= tableSize
    ensures n == MaxQuestions || n == tableSize
  {
    if tableSize < MaxQuestions then tableSize else MaxQuestions
  }

  /** A row the quiz may ask: in a selected category, with both Deutsch and Englisch. */
  predicate Eligible(r: Row, kats: seq<string>)
  {
    r.kategorie.Some? && r.kategorie.value in kats && r.deutsch.Some? && r.englisch.Some?
  }

  /** The table positions from `from` on of the rows the quiz may ask, in table order. */
  function PoolFrom(rows: seq<Row>, kats: seq<string>, from: nat): (ps: seq<nat>)
    requires from <= |rows|
    decreases |rows| - from
    ensures forall j :: 0 <= j < |ps| ==> from <= ps[j] < |rows| && Eligible(rows[ps[j]], kats)
    ensures forall j, l :: 0 <= j < l < |ps| ==> ps[j] < ps[l]
    ensures forall p :: from <= p < |rows| && Eligible(rows[p], kats) ==> p in ps
  {
    if from == |rows| then []
    else if Eligible(rows[from], kats) then [from] + PoolFrom(rows, kats, from + 1)
    else PoolFrom(rows, kats, from + 1)
  }

  /** `df[df["Kategorie"].isin(kats)].dropna(subset=["Deutsch", "Englisch"])`, as table positions. */
  function Pool(rows: seq<Row>, kats: seq<string>): seq<nat>
  {
    PoolFrom(rows, kats, 0)
  }

  predicate Distinct(s: seq<nat>)
  {
    forall i, j :: 0 <= i < j < |s| ==> s[i] != s[j]
  }

  /** A draw without replacement of `n` of the positions `0 .. m-1`: what the
    * seeded `DataFrame.sample` picks is left to the caller. */
  predicate IsDraw(pick: seq<nat>, m: nat, n: nat)
  {
    |pick| == n && Distinct(pick) && forall i :: 0 <= i < |pick| ==> pick[i] < m
  }

  /** The table positions of the drawn rows, in the order drawn. */
  function SamplePositions(rows: seq<Row>, kats: seq<string>, pick: seq<nat>): (ps: seq<nat>)
    requires IsDraw(pick, |Pool(rows, kats)|, |pick|)
    ensures |ps| == |pick| && Distinct(ps)
    ensures forall i :: 0 <= i < |ps| ==> ps[i] < |rows| && Eligible(rows[ps[i]], kats)
  {
    var pool := Pool(rows, kats);
    var ps := seq(|pick|, i requires 0 <= i < |pick| => pool[pick[i]]);
    assert Distinct(ps) by {
      forall i, j | 0 <= i < j < |ps| ensures ps[i] != ps[j] {
        if pick[i] < pick[j] {
          assert pool[pick[i]] < pool[pick[j]];
        } else {
          assert pick[j] < pick[i];
          assert pool[pick[j]] < pool[pick[i]];
        }
      }
    }
    ps
  }

  function RowsAt(rows: seq<Row>, ps: seq<nat>): seq<Row>
    requires forall i :: 0 <= i < |ps| ==> ps[i] < |rows|
  {
    seq(|ps|, i requires 0 <= i < |ps| => rows[ps[i]])
  }

  /** The number of `true` results (`sum` over a list of booleans). */
  function CountTrue(results: seq<bool>): (n: nat)
    ensures n <= |results|
  {
    if results == [] then 0 else (if results[0] then 1 else 0) + CountTrue(results[1..])
  }

  lemma {:induction false} CountTrueIsMultiplicity(results: seq<bool>)
    ensures CountTrue(results) == multiset(results)[true]
    ensures |results| - CountTrue(results) == multiset(results)[false]
  {
    if results != [] {
      assert results == [results[0]] + results[1..];
      CountTrueIsMultiplicity(results[1..]);
    }
  }

  datatype Score = Score(richtig: nat, falsch: nat)

  /** The final score: `richtig = sum(results)`, `falsch = len(results) - richtig`. */
  function Summary(results: seq<bool>): (s: Score)
    ensures s.richtig == multiset(results)[true]
    ensures s.falsch == multiset(results)[false]
    ensures s.richtig + s.falsch == |results|
  {
    CountTrueIsMultiplicity(results);
    var richtig := CountTrue(results);
    Score(richtig, |results| - richtig)
  }

  /** Every recorded result is the grade of the answer typed for that question. */
  predicate AllGraded(sample: seq<Row>, answers: map<nat, string>, results: seq<bool>)
  {
    |results| <= |sample| &&
    forall i :: 0 <= i < |results| ==>
      i in answers && results[i] == IsCorrect(answers[i], CellText(sample[i].englisch))
  }

  lemma GradedStep(sample: seq<Row>, answers: map<nat, string>, results: seq<bool>, antwort: string)
    requires AllGraded(sample, answers, results) && |results| < |sample|
    ensures AllGraded(sample, answers[|results| := antwort],
      results + [IsCorrect(antwort, CellText(sample[|results|].englisch))])
  {
  }

  /** One line of the detailed evaluation. */
  datatype Detail = Detail(deutsch: Option<string>, englisch: Option<string>, eingabe: string, korrekt: bool)

  /** The test-mode part of the session state. */
  class TestSession {
    var active: bool                 // test_aktiv
    var sample: Option<seq<Row>>     // test_vokabeln (None before a test)
    var categories: seq<string>      // test_kategorien
    var position: nat                // test_index
    var results: seq<bool>           // test_ergebnisse
    var completed: bool              // test_abgeschlossen
    var answers: map<nat, string>    // the User_Eingabe column of test_vokabeln

    ghost predicate Valid()
      reads this
    {
      |results| == position &&
      (active <==> sample.Some?) &&
      (!active ==> categories == [] && position == 0 && !completed && answers == map[]) &&
      (active ==>
        |categories| > 0 &&
        |sample.value| <= MaxQuestions &&
        position <= |sample.value| &&
        (forall r :: r in sample.value ==> Eligible(r, categories)) &&
        AllGraded(sample.value, answers, results)) &&
      (completed ==> position >= MaxQuestions)
    }

    /** The session fields as they are first set up. */
    constructor ()
      ensures Valid()
      ensures !active && sample.None? && categories == [] && position == 0
      ensures results == [] && !completed && answers == map[]
    {
      active, sample, categories := false, None, [];
      position, results, completed := 0, [], false;
      answers := map[];
    }

    /** "Neuer Test starten" while no test runs (the button is disabled without
      * a category). Sampling fails, leaving the session as it was, when the
      * selected categories offer fewer rows than `SampleSize(|table|)`. */
    method Start(table: seq<Row>, kats: seq<string>, pick: seq<nat>) returns (ok: bool)
      requires Valid() && !active
      requires |kats| > 0
      requires SampleSize(|table|) <= |Pool(table, kats)| ==>
        IsDraw(pick, |Pool(table, kats)|, SampleSize(|table|))
      modifies this
      ensures Valid()
      ensures ok <==> SampleSize(|table|) <= |Pool(table, kats)|
      ensures !ok ==> unchanged(this)
      ensures ok ==> (active && categories == kats && position == 0 && results == [] &&
        !completed && answers == map[] &&
        sample == Some(RowsAt(table, SamplePositions(table, kats, pick))))
    {
      if SampleSize(|table|) > |Pool(table, kats)| {
        return false;
      }
      var ps := SamplePositions(table, kats, pick);
      active := true;
      categories := kats;
      sample := Some(RowsAt(table, ps));
      position := 0;
      results := [];
      completed := false;
      answers := map[];
      ok := true;
    }

    /** "Antwort prüfen" on the current question. */
    method Submit(antwort: string)
      requires Valid() && active && position < |sample.value|
      modifies this
      ensures Valid()
      ensures active && sample == old(sample) && categories == old(categories)
      ensures results == old(results) + [IsCorrect(antwort, CellText(sample.value[old(position)].englisch))]
      ensures position == old(position) + 1
      ensures answers == old(answers)[old(position) := antwort]
      ensures completed == (old(completed) || position >= MaxQuestions)
    {
      var korrekt := IsCorrect(antwort, CellText(sample.value[position].englisch));
      GradedStep(sample.value, answers, results, antwort);
      answers := answers[position := antwort];
      results := results + [korrekt];
      position := position + 1;
      if position >= MaxQuestions {
        completed := true;
      }
    }

    /** "Test zurücksetzen": the same sample is asked again from the start. The
      * typed answers stay in the sample's User_Eingabe column. */
    method Reset()
      requires Valid() && active
      modifies this
      ensures Valid()
      ensures active && sample == old(sample) && categories == old(categories) && answers == old(answers)
      ensures position == 0 && results == [] && !completed
    {
      position := 0;
      results := [];
      completed := false;
    }

    /** "Neuer Test starten" while a test runs: back to category selection. */
    method NewTest()
      requires Valid() && active
      modifies this
      ensures Valid()
      ensures !active && sample.None? && categories == [] && position == 0
      ensures results == [] && !completed && answers == map[]
    {
      active := false;
      sample := None;
      categories := [];
      position := 0;
      results := [];
      completed := false;
      answers := map[];
    }

    /** Whether the finished view is shown (`test_index >= len(test_vokabeln)`). */
    function Finished(): (b: bool)
      reads this
      requires Valid() && active
      ensures completed ==> b
    {
      position >= |sample.value|
    }

    /** The detailed evaluation: one line per answered question, in sample order. */
    function Details(): (d: seq<Detail>)
      reads this
      requires Valid() && active
      ensures |d| == |results|
      ensures forall i :: 0 <= i < |d| ==>
        d[i].deutsch == sample.value[i].deutsch && d[i].englisch == sample.value[i].englisch &&
        d[i].eingabe == answers[i] &&
        d[i].korrekt == results[i] && d[i].korrekt == IsCorrect(d[i].eingabe, CellText(d[i].englisch))
    {
      var s, a, res := sample.value, answers, results;
      seq(|res|, i requires 0 <= i < |res| && i < |s| =>
        Detail(s[i].deutsch, s[i].englisch, if i in a then a[i] else "–", res[i]))
    }
  }

  /** Results never outnumber the sampled questions, and the completion flag is
    * only ever seen with all 25 questions answered. */
  lemma SessionBounds(t: TestSession)
    requires t.Valid()
    ensures |t.results| == t.position
    ensures t.active ==> |t.results| <= |t.sample.value| <= MaxQuestions
    ensures t.completed ==> t.active && t.position == |t.sample.value| == MaxQuestions
  {
  }

  /** With fewer than 25 eligible rows in the whole table, the last answer
    * finishes the test but never sets the completion flag. */
  method ShortTestScenario() returns (finished: bool, flagged: bool)
    ensures finished && !flagged
  {
    var row := Row(Some("Tiere"), Some("Hund"), Some("dog"), None, None);
    var t := new TestSession();
    assert Eligible(row, ["Tiere"]);
    assert PoolFrom([row], ["Tiere"], 1) == [];
    var ok := t.Start([row], ["Tiere"], [0]);
    t.Submit(" Dog");
    finished := t.Finished();
    flagged := t.completed;
  }

  /** The sample size counts every row of the table, so a selection offering
    * fewer rows than that makes sampling fail even though rows are available. */
  method SampleTooLargeScenario() returns (ok: bool)
    ensures !ok
  {
    var dog := Row(Some("Tiere"), Some("Hund"), Some("dog"), None, None);
    var red := Row(Some("Farben"), Some("rot"), Some("red"), None, None);
    var t := new TestSession();
    assert !Eligible(red, ["Tiere"]);
    assert PoolFrom([dog, red], ["Tiere"], 2) == [];
    assert PoolFrom([dog, red], ["Tiere"], 1) == [];
    ok := t.Start([dog, red], ["Tiere"], []);
  }
}
