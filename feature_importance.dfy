/**
 * `generate_feature_importance()` of `src/ml/generate_feature_importance.py`:
 * the early returns, the cleanup of the generated feature names, the length
 * check, the ranking by importance and the rows the bar plot shows. Loading
 * the pipeline and drawing are outside this model; what the pipeline yields
 * is a parameter.
 */
module FeatureImportance {
  import opened Wrappers
  import Text

  /** One row of `df_imp`. */
  datatype Ranked = Ranked(feature: string, importance: real)

  /**
   * What unpickling gives: the regressor's `feature_importances_` and the
   * preprocessor's `get_feature_names_out()`, each `None` when reaching it
   * raises.
   */
  datatype Pipeline = Pipeline(importances: Option<seq<real>>, featureNames: Option<seq<string>>)

  /** How the function ends: each early return, or the table it plots. */
  datatype Outcome =
    | NoModelFile
    | LoadFailed
    | ExtractionFailed
    | Mismatch(names: nat, importances: nat)
    | Plotted(ranking: seq<Ranked>, shown: seq<Ranked>)

  /** How many of the best-ranked rows the bar plot shows. */
  const Shown: nat := 10

  /**
   * The loop building `clean_names`: one cleaned name per feature name, in
   * the same order.
   */
  method CleanNames(featureNames: seq<string>) returns (clean: seq<string>)
    ensures |clean| == |featureNames|
    ensures forall i | 0 <= i < |clean| :: clean[i] == Text.CleanName(featureNames[i])
    ensures forall i | 0 <= i < |clean| :: !Text.HasSep(clean[i])
    ensures forall i | 0 <= i < |clean| && !Text.HasSep(featureNames[i]) :: clean[i] == featureNames[i]
  {
    clean := [];
    for k := 0 to |featureNames|
      invariant |clean| == k
      invariant forall i | 0 <= i < k :: clean[i] == Text.CleanName(featureNames[i])
    {
      clean := clean + [Text.CleanName(featureNames[k])];
    }
  }

  /** `pd.DataFrame({'Feature': names, 'Importance': importances})`. */
  function Table(names: seq<string>, importances: seq<real>): (t: seq<Ranked>)
    requires |names| == |importances|
    ensures |t| == |names| && forall i | 0 <= i < |t| :: t[i] == Ranked(names[i], importances[i])
  {
    seq(|names|, i requires 0 <= i < |names| => Ranked(names[i], importances[i]))
  }

  /** Each row's importance is at least the next rows'. */
  predicate Descending(t: seq<Ranked>) {
    forall i, j | 0 <= i < j < |t| :: t[i].importance >= t[j].importance
  }

  /** Puts `x` into a descending table, before the rows of equal importance. */
  function Insert(x: Ranked, t: seq<Ranked>): (r: seq<Ranked>)
    requires Descending(t)
    ensures Descending(r) && multiset(r) == multiset(t) + multiset{x}
    ensures |r| == |t| + 1
  {
    if t == [] || x.importance >= t[0].importance then [x] + t
    else
      var rest := Insert(x, t[1..]);
      NoneAbove(t, x, rest);
      assert t == [t[0]] + t[1..];
      assert multiset([t[0]] + rest) == multiset{t[0]} + multiset(rest);
      [t[0]] + rest
  }

  /** Inserting below the head of a descending table leaves nothing above the head. */
  lemma NoneAbove(t: seq<Ranked>, x: Ranked, rest: seq<Ranked>)
    requires Descending(t) && t != [] && x.importance < t[0].importance
    requires multiset(rest) == multiset(t[1..]) + multiset{x}
    ensures forall j | 0 <= j < |rest| :: rest[j].importance <= t[0].importance
  {
    forall j | 0 <= j < |rest|
      ensures rest[j].importance <= t[0].importance
    {
      assert rest[j] in multiset(rest);
      if rest[j] != x {
        assert rest[j] in multiset(t[1..]);
        var k :| 0 <= k < |t[1..]| && t[1..][k] == rest[j];
        assert t[k + 1] == rest[j];
      }
    }
  }

  /**
   * `sort_values(by='Importance', ascending=False)`: the same rows, by
   * importance from highest to lowest.
   */
  function Rank(t: seq<Ranked>): (r: seq<Ranked>)
    ensures Descending(r) && multiset(r) == multiset(t)
    ensures |r| == |t|
  {
    if t == [] then []
    else
      assert t == [t[0]] + t[1..];
      Insert(t[0], Rank(t[1..]))
  }

  /** `head(n)`: the first `n` rows, or all of them when there are fewer. */
  function Head(t: seq<Ranked>, n: nat): (r: seq<Ranked>)
    ensures |r| == if |t| < n then |t| else n
    ensures forall i | 0 <= i < |r| :: r[i] == t[i]
  {
    if |t| < n then t else t[..n]
  }

  /** The rows shown are the best-ranked: none left out is more important than one shown. */
  lemma ShownAreBest(t: seq<Ranked>, n: nat)
    requires Descending(t)
    ensures forall i, j | 0 <= i < |Head(t, n)| && |Head(t, n)| <= j < |t| :: Head(t, n)[i].importance >= t[j].importance
  {
  }

  /**
   * The whole function. A missing model file returns before any load; a
   * failing load or extraction returns; a name count different from the
   * importance count returns without plotting. Otherwise the cleaned names
   * and importances, ranked, and the first ten rows of the ranking.
   */
  method Generate(modelExists: bool, loaded: Option<Pipeline>) returns (o: Outcome)
    ensures !modelExists ==> o == NoModelFile
    ensures modelExists && loaded.None? ==> o == LoadFailed
    ensures modelExists && loaded.Some? ==>
      (o == ExtractionFailed <==> loaded.value.importances.None? || loaded.value.featureNames.None?)
    ensures o.Mismatch? <==>
      && modelExists && loaded.Some? && loaded.value.importances.Some? && loaded.value.featureNames.Some?
      && |loaded.value.featureNames.value| != |loaded.value.importances.value|
    ensures o.Plotted? <==>
      && modelExists && loaded.Some? && loaded.value.importances.Some? && loaded.value.featureNames.Some?
      && |loaded.value.featureNames.value| == |loaded.value.importances.value|
    ensures o.Plotted? ==>
      var names := loaded.value.featureNames.value;
      var importances := loaded.value.importances.value;
      && |names| == |importances|
      && multiset(o.ranking) == multiset(Table(seq(|names|, i requires 0 <= i < |names| => Text.CleanName(names[i])), importances))
      && Descending(o.ranking)
      && o.shown == Head(o.ranking, Shown)
  {
    if !modelExists {
      return NoModelFile;
    }
    if loaded.None? {
      return LoadFailed;
    }
    var pipeline := loaded.value;
    if pipeline.importances.None? || pipeline.featureNames.None? {
      return ExtractionFailed;
    }
    var names := pipeline.featureNames.value;
    var importances := pipeline.importances.value;
    var clean := CleanNames(names);
    if |clean| != |importances| {
      return Mismatch(|clean|, |importances|);
    }
    assert clean == seq(|names|, i requires 0 <= i < |names| => Text.CleanName(names[i]));
    var ranking := Rank(Table(clean, importances));
    return Plotted(ranking, Head(ranking, Shown));
  }
}
