/** The external scorers the scripts wrap, as the shapes of their calls, and
    the pieces of argument marshaling shared by the three script files. Every
    scorer is a function-typed parameter: nothing about its numbers is
    modelled, only what is passed to it and what is taken from its result. */
module Metrics {
  import opened Runtime
  import opened Text

  /** `Rouge().get_scores(hypothesis, reference)`: a list of dicts from
      "rouge-<n>" to a dict from "f", "p", "r" to a score. */
  type RougeScorer = (string, string) -> seq<map<string, map<string, real>>>

  /** The fscore of `chrf_precision_recall_fscore_support(reference,
      hypothesis, n=n_gram, epsilon=0., beta=beta)`; `beta` is fixed by the caller. */
  type ChrfScorer = (string, string, int) -> real

  /** `bertscore.compute(predictions=hypotheses, references=references, ...)['f1']`. */
  type BertScorer = (seq<string>, seq<string>) -> seq<real>

  /** `sentence_bleu(references, hypothesis, weights=...)` or
      `meteor_score(references, hypothesis, alpha=..., beta=..., gamma=...)`
      on token lists; the numeric parameters are fixed by the caller. */
  type SentenceScorer = (seq<seq<string>>, seq<string>) -> real

  /** `BleurtScorer(checkpoint).score(references=..., candidates=...)`. */
  type BleurtScorer = (seq<string>, seq<string>) -> seq<real>

  /** The key `"rouge-{}".format(rouge_n)`. */
  function RougeKey(rougeN: string): string { "rouge-" + rougeN }

  /** `rouge_score[0]["rouge-{}".format(rouge_n)][field]`, with the
      IndexError and KeyErrors that subscripting raises. */
  function PickRouge(out: seq<map<string, map<string, real>>>, rougeN: string, field: string): (r: Result<real>)
    ensures r.Ok? <==> |out| > 0 && RougeKey(rougeN) in out[0] && field in out[0][RougeKey(rougeN)]
    ensures r.Ok? ==> r.value == out[0][RougeKey(rougeN)][field]
    ensures r.Err? ==> r.error in {IndexError, KeyError(RougeKey(rougeN)), KeyError(field)}
  {
    if |out| == 0 then Err(IndexError)
    else if RougeKey(rougeN) !in out[0] then Err(KeyError(RougeKey(rougeN)))
    else if field !in out[0][RougeKey(rougeN)] then Err(KeyError(field))
    else Ok(out[0][RougeKey(rougeN)][field])
  }

  /** `getBertScore`, identical in the three script files: both lists must be
      non-empty; the scorer is called with the hypotheses first. */
  function BertScore(referenceSentences: seq<string>, generatedSentences: seq<string>, bert: BertScorer): (r: Result<seq<real>>)
    ensures r.Err? <==> |referenceSentences| == 0 || |generatedSentences| == 0
    ensures r.Err? ==> r.error == EmptySentenceList
    ensures r.Ok? ==> r.value == bert(generatedSentences, referenceSentences)
  {
    if |referenceSentences| == 0 || |generatedSentences| == 0 then Err(EmptySentenceList)
    else Ok(bert(generatedSentences, referenceSentences))
  }
}
