/** utils.py: the earlier batch wrappers. `getRougeScore` is the same loop as
    in utils_all.py; `getChrfScore` has no length check; `getBertScore` has
    the same empty-list guard. */
module Utils {
  import opened Runtime
  import opened Metrics
  import UtilsAll

  /** `getRougeScore`: its text is the utils_all.py loop, so it returns or
      raises exactly what that one does (one precision per zipped pair,
      `lang` checked inside the loop). */
  method GetRougeScore(referenceSentences: seq<string>, generatedSentences: seq<string>,
                       rougeN: string, lang: string, rouge: RougeScorer) returns (scores: Result<seq<real>>)
    ensures scores == UtilsAll.RougeScores(referenceSentences, generatedSentences, rougeN, lang, rouge)
  {
    scores := UtilsAll.GetRougeScore(referenceSentences, generatedSentences, rougeN, lang, rouge);
  }

  /** `getChrfScore`: one fscore per zipped (reference, generated) pair, in
      order, whatever the sentences' lengths; it never raises. */
  method GetChrfScore(referenceSentences: seq<string>, generatedSentences: seq<string>,
                      nGram: int, chrf: ChrfScorer) returns (fscores: seq<real>)
    ensures |fscores| == Min(|referenceSentences|, |generatedSentences|)
    ensures forall i :: 0 <= i < |fscores| ==>
              fscores[i] == chrf(referenceSentences[i], generatedSentences[i], nGram)
  {
    var pairs := Zip(referenceSentences, generatedSentences);
    fscores := [];
    for i := 0 to |pairs|
      invariant |fscores| == i
      invariant forall j :: 0 <= j < i ==> fscores[j] == chrf(referenceSentences[j], generatedSentences[j], nGram)
    {
      var reference, generated := pairs[i].0, pairs[i].1;
      var fscore := chrf(reference, generated, nGram);
      fscores := fscores + [fscore];
    }
  }

  /** Where the utils_all.py version does not raise, both versions return
      the same scores; with `nGram <= 0` its length check never fires. */
  lemma ChrfGuardOnlyRaises(referenceSentences: seq<string>, generatedSentences: seq<string>,
                            nGram: int, chrf: ChrfScorer, fscores: seq<real>)
    requires |fscores| == Min(|referenceSentences|, |generatedSentences|)
    requires forall i :: 0 <= i < |fscores| ==>
               fscores[i] == chrf(referenceSentences[i], generatedSentences[i], nGram)
    ensures UtilsAll.ChrfScores(referenceSentences, generatedSentences, nGram, chrf).Ok? ==>
              UtilsAll.ChrfScores(referenceSentences, generatedSentences, nGram, chrf) == Ok(fscores)
    ensures nGram <= 0 ==> UtilsAll.ChrfScores(referenceSentences, generatedSentences, nGram, chrf) == Ok(fscores)
  {
    var r := UtilsAll.ChrfScores(referenceSentences, generatedSentences, nGram, chrf);
    if r.Ok? {
      assert r.value == fscores;
    }
  }

  /** `getBertScore`: raises on an empty list, otherwise the scorer's f1 list. */
  function GetBertScore(referenceSentences: seq<string>, generatedSentences: seq<string>, bert: BertScorer): (r: Result<seq<real>>)
    ensures r.Err? <==> |referenceSentences| == 0 || |generatedSentences| == 0
    ensures r.Err? ==> r.error == EmptySentenceList
    ensures r.Ok? ==> r.value == bert(generatedSentences, referenceSentences)
  {
    BertScore(referenceSentences, generatedSentences, bert)
  }
}
