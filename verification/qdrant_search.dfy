/** The vector-search service's score table: for every job title among the
  * nearest neighbours of a query, the score kept for it. The embedding and
  * the neighbour search are inputs. */
module QdrantSearch {
  import opened Wrappers

  /** `search` asks for 1000 neighbours, `searchJobs` for 5. */
  const SearchLimit := 1000
  const SearchJobsLimit := 5

  datatype HitPayload = HitPayload(jobTitle: Option<string>)

  /** A neighbour; a result may also be `null` (`None` in the list). */
  datatype Hit = Hit(payload: Option<HitPayload>, score: real)

  /** Results that are `null` or have no payload are skipped. */
  predicate Kept(r: Option<Hit>) {
    r.Some? && r.value.payload.Some?
  }

  /** The key the score is stored under: `payload.job_title`, which a
    * missing title turns into the key "undefined". */
  function KeyOf(r: Option<Hit>): string
    requires Kept(r)
  {
    var t := r.value.payload.value.jobTitle;
    if t.Some? then t.value else "undefined"
  }

  /** One pass of the `forEach` body. With `zeroIsMissing`, as written, a
    * stored score of 0 is falsy and replaced by any later one; without it,
    * only a larger score replaces the stored one. */
  function Step(table: map<string, real>, r: Option<Hit>, zeroIsMissing: bool): (t: map<string, real>)
    ensures t.Keys == if Kept(r) then table.Keys + {KeyOf(r)} else table.Keys
    ensures forall k :: k in table && (!Kept(r) || k != KeyOf(r)) ==> t[k] == table[k]
    ensures Kept(r) ==> t[KeyOf(r)] == r.value.score || (KeyOf(r) in table && t[KeyOf(r)] == table[KeyOf(r)])
    ensures Kept(r) && !zeroIsMissing ==>
              t[KeyOf(r)] >= r.value.score && (KeyOf(r) in table ==> t[KeyOf(r)] >= table[KeyOf(r)])
  {
    if !Kept(r) then table
    else
      var key := KeyOf(r);
      var score := r.value.score;
      if key !in table || (zeroIsMissing && table[key] == 0.0) || score > table[key]
      then table[key := score]
      else table
  }

  /** The table after the whole list, folded from the first result on. */
  function Table(results: seq<Option<Hit>>, zeroIsMissing: bool): map<string, real>
    decreases |results|
  {
    if |results| == 0 then map[]
    else Step(Table(results[..|results| - 1], zeroIsMissing), results[|results| - 1], zeroIsMissing)
  }

  /** The titles of the results that are not skipped. */
  function Titles(results: seq<Option<Hit>>): set<string> {
    set i | 0 <= i < |results| && Kept(results[i]) :: KeyOf(results[i])
  }

  /** `search`'s loop: the table of `Table(results, true)`. */
  method Search(results: seq<Option<Hit>>) returns (table: map<string, real>)
    ensures table == Table(results, true)
    ensures table.Keys == Titles(results)
  {
    table := map[];
    var i := 0;
    while i < |results|
      invariant 0 <= i <= |results|
      invariant table == Table(results[..i], true)
    {
      assert results[..i + 1][..i] == results[..i];
      var r := results[i];
      if r.Some? && r.value.payload.Some? {
        var key := KeyOf(r);
        var score := r.value.score;
        if key !in table || table[key] == 0.0 || score > table[key] {
          table := table[key := score];
        }
      }
      i := i + 1;
    }
    assert results[..|results|] == results;
    TableKeys(results, true);
  }

  /** The keys are exactly the titles of the results that are not
    * skipped. */
  lemma {:induction false} TableKeys(results: seq<Option<Hit>>, zeroIsMissing: bool)
    ensures Table(results, zeroIsMissing).Keys == Titles(results)
    decreases |results|
  {
    if |results| > 0 {
      var n := |results| - 1;
      var prefix := results[..n];
      TableKeys(prefix, zeroIsMissing);
      forall k ensures k in Titles(results) <==> k in Titles(prefix) || (Kept(results[n]) && k == KeyOf(results[n])) {
        if k in Titles(results) {
          var i :| 0 <= i < |results| && Kept(results[i]) && KeyOf(results[i]) == k;
          if i < n {
            assert prefix[i] == results[i];
          }
        }
        if k in Titles(prefix) {
          var i :| 0 <= i < |prefix| && Kept(prefix[i]) && KeyOf(prefix[i]) == k;
          assert results[i] == prefix[i];
        }
      }
    }
  }

  /** Without the falsy-zero rule every title maps to the largest score
    * among its results, for scores of any sign. */
  lemma {:induction false} BestScoreIsMaximum(results: seq<Option<Hit>>)
    ensures var t := Table(results, false);
      forall i :: 0 <= i < |results| && Kept(results[i]) ==>
        KeyOf(results[i]) in t && results[i].value.score <= t[KeyOf(results[i])]
    ensures var t := Table(results, false);
      forall k :: k in t ==>
        exists i :: 0 <= i < |results| && Kept(results[i]) && KeyOf(results[i]) == k && results[i].value.score == t[k]
    decreases |results|
  {
    if |results| > 0 {
      var n := |results| - 1;
      var prefix := results[..n];
      BestScoreIsMaximum(prefix);
      var before := Table(prefix, false);
      var t := Table(results, false);
      var last := results[n];
      forall i | 0 <= i < |results| && Kept(results[i])
        ensures KeyOf(results[i]) in t && results[i].value.score <= t[KeyOf(results[i])]
      {
        if i < n {
          assert prefix[i] == results[i];
        }
      }
      forall k | k in t
        ensures exists i :: 0 <= i < |results| && Kept(results[i]) && KeyOf(results[i]) == k && results[i].value.score == t[k]
      {
        if Kept(last) && k == KeyOf(last) && t[k] == last.value.score {
          assert Kept(results[n]) && KeyOf(results[n]) == k;
        } else {
          assert k in before && t[k] == before[k];
          assert exists i :: 0 <= i < |prefix| && Kept(prefix[i]) && KeyOf(prefix[i]) == k && prefix[i].value.score == before[k];
          var i :| 0 <= i < |prefix| && Kept(prefix[i]) && KeyOf(prefix[i]) == k && prefix[i].value.score == before[k];
          assert results[i] == prefix[i];
        }
      }
    }
  }

  predicate PositiveScores(results: seq<Option<Hit>>) {
    forall i :: 0 <= i < |results| && Kept(results[i]) ==> results[i].value.score > 0.0
  }

  /** With positive scores no stored score is 0, so the code as written
    * builds the same table, and each value is the per-title maximum. */
  lemma {:induction false} PositiveScoresGiveMaximum(results: seq<Option<Hit>>)
    requires PositiveScores(results)
    ensures Table(results, true) == Table(results, false)
    decreases |results|
  {
    if |results| > 0 {
      var n := |results| - 1;
      var prefix := results[..n];
      assert PositiveScores(prefix) by {
        forall i | 0 <= i < |prefix| && Kept(prefix[i]) ensures prefix[i].value.score > 0.0 {
          assert prefix[i] == results[i];
        }
      }
      PositiveScoresGiveMaximum(prefix);
      BestScoreIsMaximum(prefix);
      var before := Table(prefix, false);
      if Kept(results[n]) && KeyOf(results[n]) in before {
        var k := KeyOf(results[n]);
        var i :| 0 <= i < |prefix| && Kept(prefix[i]) && KeyOf(prefix[i]) == k && prefix[i].value.score == before[k];
        assert before[k] > 0.0;
      }
    }
  }

  function TitledHit(title: string, score: real): Option<Hit> {
    Some(Hit(Some(HitPayload(Some(title))), score))
  }

  /** As written, a stored score of 0 counts as missing: a later, lower
    * score for the same title replaces it. */
  lemma ZeroScoreReplaced()
    ensures Table([TitledHit("A", 0.0), TitledHit("A", -0.5)], true) == map["A" := -0.5]
    ensures Table([TitledHit("A", 0.0), TitledHit("A", -0.5)], false) == map["A" := 0.0]
  {
    var rs := [TitledHit("A", 0.0), TitledHit("A", -0.5)];
    assert rs[..1] == [TitledHit("A", 0.0)];
    assert rs[..1][..0] == [];
  }
}
