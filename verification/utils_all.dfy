/** utils_all.py: batch wrappers around the scorers, the batch tokenizer
    `dealData`, and `getScores`, which runs the requested metrics by name. */
module UtilsAll {
  import opened Runtime
  import opened Text
  import opened Metrics

  // ================================================================ getRougeScore

  /** One iteration of the `getRougeScore` loop: the `lang` switch, the scorer
      call with the hypothesis first, and the lookup of the precision 'p'. */
  function RougePair(generated: string, reference: string, rougeN: string, lang: string, rouge: RougeScorer): Result<real>
  {
    if lang == "en" then PickRouge(rouge(generated, reference), rougeN, "p")
    else if lang == "zh" then PickRouge(rouge(Interleave(generated), Interleave(reference)), rougeN, "p")
    else Err(LangTypeError)
  }

  function RougePairFn(rougeN: string, lang: string, rouge: RougeScorer): ((string, string)) -> Result<real>
  {
    (p: (string, string)) => RougePair(p.0, p.1, rougeN, lang, rouge)
  }

  /** What `getRougeScore` returns or raises: one precision per zipped
      (generated, reference) pair, in order. The `lang` check sits inside the
      loop, so a bad `lang` raises only when there is at least one pair. */
  function RougeScores(referenceSentences: seq<string>, generatedSentences: seq<string>,
                       rougeN: string, lang: string, rouge: RougeScorer): (r: Result<seq<real>>)
    ensures r.Ok? <==> forall i :: 0 <= i < Min(|referenceSentences|, |generatedSentences|) ==>
              RougePair(generatedSentences[i], referenceSentences[i], rougeN, lang, rouge).Ok?
    ensures r.Err? ==> exists k :: (0 <= k < Min(|referenceSentences|, |generatedSentences|) &&
              RougePair(generatedSentences[k], referenceSentences[k], rougeN, lang, rouge) == Err(r.error) &&
              forall j :: 0 <= j < k ==> RougePair(generatedSentences[j], referenceSentences[j], rougeN, lang, rouge).Ok?)
    ensures r.Ok? ==> |r.value| == Min(|referenceSentences|, |generatedSentences|)
    ensures r.Ok? ==> forall i :: 0 <= i < |r.value| ==>
              Ok(r.value[i]) == RougePair(generatedSentences[i], referenceSentences[i], rougeN, lang, rouge)
    ensures lang == "en" && r.Ok? ==> forall i :: 0 <= i < |r.value| ==>
              Ok(r.value[i]) == PickRouge(rouge(generatedSentences[i], referenceSentences[i]), rougeN, "p")
    ensures lang == "zh" && r.Ok? ==> forall i :: 0 <= i < |r.value| ==>
              Ok(r.value[i]) == PickRouge(rouge(Interleave(generatedSentences[i]), Interleave(referenceSentences[i])), rougeN, "p")
    ensures lang != "en" && lang != "zh" ==>
              r == if Min(|referenceSentences|, |generatedSentences|) == 0 then Ok([]) else Err(LangTypeError)
    ensures r.Err? ==> r.error in {LangTypeError, IndexError, KeyError(RougeKey(rougeN)), KeyError("p")}
  {
    var pairs := Zip(generatedSentences, referenceSentences);
    var r := MapAll(pairs, RougePairFn(rougeN, lang, rouge));
    assert forall i :: 0 <= i < |pairs| ==> pairs[i] == (generatedSentences[i], referenceSentences[i]);
    if lang != "en" && lang != "zh" && |pairs| > 0 then
      MapAllFirstError(pairs, RougePairFn(rougeN, lang, rouge), 0);
      r
    else
      r
  }

  /** `getRougeScore` as written: a loop over `zip(generated, references)`. */
  method GetRougeScore(referenceSentences: seq<string>, generatedSentences: seq<string>,
                       rougeN: string, lang: string, rouge: RougeScorer) returns (scores: Result<seq<real>>)
    ensures scores == RougeScores(referenceSentences, generatedSentences, rougeN, lang, rouge)
  {
    var pairs := Zip(generatedSentences, referenceSentences);
    var done: seq<real> := [];
    for i := 0 to |pairs|
      invariant MapAll(pairs[..i], RougePairFn(rougeN, lang, rouge)) == Ok(done)
    {
      MapAllStep(pairs, RougePairFn(rougeN, lang, rouge), i, done);
      var generated, reference := pairs[i].0, pairs[i].1;
      if lang == "en" {
      } else if lang == "zh" {
        reference := Interleave(reference);
        generated := Interleave(generated);
      } else {
        return Err(LangTypeError);
      }
      var score := PickRouge(rouge(generated, reference), rougeN, "p");
      if score.Err? {
        return Err(score.error);
      }
      done := done + [score.value];
    }
    assert pairs[..|pairs|] == pairs;
    return Ok(done);
  }

  // ================================================================ getChrfScore

  /** One iteration of the `getChrfScore` loop: both sentences must have at
      least `nGram` characters. */
  function ChrfPair(reference: string, generated: string, nGram: int, chrf: ChrfScorer): Result<real>
  {
    if |reference| < nGram || |generated| < nGram then Err(ShortSentence)
    else Ok(chrf(reference, generated, nGram))
  }

  function ChrfPairFn(nGram: int, chrf: ChrfScorer): ((string, string)) -> Result<real>
  {
    (p: (string, string)) => ChrfPair(p.0, p.1, nGram, chrf)
  }

  /** What `getChrfScore` returns or raises: it raises exactly when some
      zipped pair has a sentence shorter than `nGram`, and otherwise returns
      one fscore per zipped pair, in order. */
  function ChrfScores(referenceSentences: seq<string>, generatedSentences: seq<string>,
                      nGram: int, chrf: ChrfScorer): (r: Result<seq<real>>)
    ensures r.Ok? <==> forall i :: 0 <= i < Min(|referenceSentences|, |generatedSentences|) ==>
              |referenceSentences[i]| >= nGram && |generatedSentences[i]| >= nGram
    ensures r.Err? ==> r.error == ShortSentence
    ensures r.Ok? ==> |r.value| == Min(|referenceSentences|, |generatedSentences|)
    ensures r.Ok? ==> forall i :: 0 <= i < |r.value| ==>
              r.value[i] == chrf(referenceSentences[i], generatedSentences[i], nGram)
  {
    var pairs := Zip(referenceSentences, generatedSentences);
    assert forall i :: 0 <= i < |pairs| ==> pairs[i] == (referenceSentences[i], generatedSentences[i]);
    MapAll(pairs, ChrfPairFn(nGram, chrf))
  }

  /** `getChrfScore` as written: a loop over `zip(references, generated)`. */
  method GetChrfScore(referenceSentences: seq<string>, generatedSentences: seq<string>,
                      nGram: int, chrf: ChrfScorer) returns (fscores: Result<seq<real>>)
    ensures fscores == ChrfScores(referenceSentences, generatedSentences, nGram, chrf)
  {
    var pairs := Zip(referenceSentences, generatedSentences);
    var done: seq<real> := [];
    for i := 0 to |pairs|
      invariant MapAll(pairs[..i], ChrfPairFn(nGram, chrf)) == Ok(done)
    {
      MapAllStep(pairs, ChrfPairFn(nGram, chrf), i, done);
      var reference, generated := pairs[i].0, pairs[i].1;
      if |reference| < nGram || |generated| < nGram {
        return Err(ShortSentence);
      }
      var fscore := chrf(reference, generated, nGram);
      done := done + [fscore];
    }
    assert pairs[..|pairs|] == pairs;
    return Ok(done);
  }

  // ================================================================ getBertScore

  /** `getBertScore`: raises on an empty list, otherwise the scorer's f1 list. */
  function GetBertScore(referenceSentences: seq<string>, generatedSentences: seq<string>, bert: BertScorer): (r: Result<seq<real>>)
    ensures r.Err? <==> |referenceSentences| == 0 || |generatedSentences| == 0
    ensures r.Err? ==> r.error == EmptySentenceList
    ensures r.Ok? ==> r.value == bert(generatedSentences, referenceSentences)
  {
    BertScore(referenceSentences, generatedSentences, bert)
  }

  // ================================================================ dealData

  /** How one reference and its candidate are cut into tokens. */
  datatype Mode = Word | Character

  /** `references[i][0].encode('utf-8').isalpha()` picks word mode. */
  function ModeOf(first: char): Mode
  {
    if BytesIsAlpha(Utf8(first)) then Word else Character
  }

  /** Word mode is chosen exactly for a leading ASCII letter A-Z or a-z. */
  lemma ModeOfLetter(first: char)
    ensures ModeOf(first) == Word <==> IsAsciiLetter(first)
  {
    Utf8IsAlpha(first);
  }

  /** `s.split(' ')` in word mode, `[ch for ch in s]` in character mode. */
  function Segment(s: string, mode: Mode): (tokens: seq<string>)
    ensures mode == Word ==> |tokens| == multiset(s)[' '] + 1 &&
                             forall i :: 0 <= i < |tokens| ==> ' ' !in tokens[i]
    ensures mode == Character ==> |tokens| == |s| &&
                                  forall i :: 0 <= i < |tokens| ==> |tokens[i]| == 1 && tokens[i][0] == s[i]
  {
    match mode
    case Word => Split(s, ' ')
    case Character => Chars(s)
  }

  /** The inverse of `Segment`: `" ".join` in word mode, `"".join` in character mode. */
  function Unsegment(tokens: seq<string>, mode: Mode): string
  {
    match mode
    case Word => Join(" ", tokens)
    case Character => Join("", tokens)
  }

  /** Segmenting loses nothing: empty tokens are kept in word mode, so
      joining with single spaces gives the string back. */
  lemma SegmentRoundTrip(s: string, mode: Mode)
    ensures Unsegment(Segment(s, mode), mode) == s
  {
    match mode
    case Word => JoinSplit(s, ' ');
    case Character => JoinChars(s);
  }

  /** A list element after `dealData`: still the original string, or its tokens. */
  datatype Item = Str(s: string) | Tokens(tokens: seq<string>)

  datatype Dealt = Dealt(references: seq<Item>, candidates: seq<Item>)

  /** `dealData` reads `references[i][0]` and `candidates[i]` for every index
      of `references`; it raises IndexError unless both exist. */
  predicate Dealable(references: seq<string>, candidateCount: int)
  {
    |references| <= candidateCount && forall i :: 0 <= i < |references| ==> |references[i]| > 0
  }

  /** `references` after the first `n` iterations of the `dealData` loop. */
  function ReferencesDealt(references: seq<string>, n: nat): (r: seq<Item>)
    requires n <= |references| && forall j :: 0 <= j < n ==> |references[j]| > 0
    ensures |r| == |references|
  {
    seq(|references|, j requires 0 <= j < |references| =>
      if j < n then Tokens(Segment(references[j], ModeOf(references[j][0]))) else Str(references[j]))
  }

  /** `candidates` after the first `n` iterations of the `dealData` loop. */
  function CandidatesDealt(references: seq<string>, candidates: seq<string>, n: nat): (r: seq<Item>)
    requires n <= |references| && n <= |candidates| && forall j :: 0 <= j < n ==> |references[j]| > 0
    ensures |r| == |candidates|
  {
    seq(|candidates|, j requires 0 <= j < |candidates| =>
      if j < n then Tokens(Segment(candidates[j], ModeOf(references[j][0]))) else Str(candidates[j]))
  }

  lemma DealtStep(references: seq<string>, candidates: seq<string>, i: nat)
    requires i < |references| && i < |candidates| && forall j :: 0 <= j <= i ==> |references[j]| > 0
    ensures ReferencesDealt(references, i)[i := Tokens(Segment(references[i], ModeOf(references[i][0])))]
            == ReferencesDealt(references, i + 1)
    ensures CandidatesDealt(references, candidates, i)[i := Tokens(Segment(candidates[i], ModeOf(references[i][0])))]
            == CandidatesDealt(references, candidates, i + 1)
  {
  }

  /** `dealData`: works on copies of the two lists, so the caller's arrays are
      not touched (no modifies clause). Every reference is tokenized in the
      mode its first character picks, and its candidate in that same mode
      whatever the candidate holds; candidates past the last reference stay
      strings. `language` is overwritten before it is read, so the branch
      that reports an unsupported language cannot be reached. */
  method DealData(references: array<string>, candidates: array<string>, language: string) returns (res: Result<Dealt>)
    ensures res.Ok? <==> Dealable(references[..], candidates.Length)
    ensures res.Err? ==> res.error == IndexError
    ensures res.Ok? ==> |res.value.references| == references.Length && |res.value.candidates| == candidates.Length
    ensures res.Ok? ==> forall i :: 0 <= i < references.Length ==>
              var mode := ModeOf(references[i][0]);
              res.value.references[i] == Tokens(Segment(references[i], mode)) &&
              res.value.candidates[i] == Tokens(Segment(candidates[i], mode))
    ensures res.Ok? ==> forall i :: references.Length <= i < candidates.Length ==>
              res.value.candidates[i] == Str(candidates[i])
  {
    var refs := new Item[references.Length](i requires 0 <= i < references.Length reads references => Str(references[i]));
    var cands := new Item[candidates.Length](i requires 0 <= i < candidates.Length reads candidates => Str(candidates[i]));
    ghost var R, C := references[..], candidates[..];
    var lang := language;
    for i := 0 to refs.Length
      invariant i <= candidates.Length
      invariant forall j :: 0 <= j < i ==> |R[j]| > 0
      invariant refs[..] == ReferencesDealt(R, i)
      invariant cands[..] == CandidatesDealt(R, C, i)
    {
      if |references[i]| == 0 {
        assert |R[i]| == 0;
        return Err(IndexError);
      }
      var first := references[i][0];
      if BytesIsAlpha(Utf8(first)) {
        lang := "en";
      } else if !BytesIsAlpha(Utf8(first)) {
        lang := "zh";
      }
      if lang == "en" {
        refs[i] := Tokens(Split(references[i], ' '));
        if i >= cands.Length {
          return Err(IndexError);
        }
        cands[i] := Tokens(Split(candidates[i], ' '));
      } else if lang == "zh" {
        refs[i] := Tokens(Chars(references[i]));
        if i >= cands.Length {
          return Err(IndexError);
        }
        cands[i] := Tokens(Chars(candidates[i]));
      } else {
        assert false;
      }
      DealtStep(R, C, i);
    }
    return Ok(Dealt(refs[..], cands[..]));
  }

  // ================================================================ getBleu, getMeteor

  /** What `getBleu` and `getMeteor` return or raise: `dealData`'s
      IndexError, or one score per reference, each from the reference's
      tokens (wrapped in a one-element list) and its candidate's tokens. */
  function SentenceScores(references: seq<string>, candidates: seq<string>, score: SentenceScorer): (r: Result<seq<real>>)
    ensures r.Ok? <==> Dealable(references, |candidates|)
    ensures r.Err? ==> r.error == IndexError
    ensures r.Ok? ==> |r.value| == |references|
  {
    if !Dealable(references, |candidates|) then Err(IndexError)
    else
      Ok(seq(|references|, i requires 0 <= i < |references| =>
        var mode := ModeOf(references[i][0]);
        score([Segment(references[i], mode)], Segment(candidates[i], mode))))
  }

  lemma SentenceScoresAt(references: seq<string>, candidates: seq<string>, score: SentenceScorer, scoreList: seq<real>)
    requires Dealable(references, |candidates|) && |scoreList| == |references|
    requires forall i :: 0 <= i < |references| ==>
               var mode := ModeOf(references[i][0]);
               scoreList[i] == score([Segment(references[i], mode)], Segment(candidates[i], mode))
    ensures SentenceScores(references, candidates, score) == Ok(scoreList)
  {
    var v := SentenceScores(references, candidates, score).value;
    assert |v| == |scoreList|;
    forall i | 0 <= i < |v| ensures v[i] == scoreList[i] {
      var mode := ModeOf(references[i][0]);
      assert v[i] == score([Segment(references[i], mode)], Segment(candidates[i], mode));
    }
    assert v == scoreList;
  }

  /** The loop shared by `getBleu` and `getMeteor` after `dealData`. */
  method ScoreEach(dealt: Dealt, n: nat, score: SentenceScorer) returns (scoreList: seq<real>)
    requires n <= |dealt.references| && n <= |dealt.candidates|
    requires forall i :: 0 <= i < n ==> dealt.references[i].Tokens? && dealt.candidates[i].Tokens?
    ensures |scoreList| == n
    ensures forall i :: 0 <= i < n ==>
              scoreList[i] == score([dealt.references[i].tokens], dealt.candidates[i].tokens)
  {
    scoreList := [];
    for i := 0 to n
      invariant |scoreList| == i
      invariant forall j :: 0 <= j < i ==>
                  scoreList[j] == score([dealt.references[j].tokens], dealt.candidates[j].tokens)
    {
      scoreList := scoreList + [score([dealt.references[i].tokens], dealt.candidates[i].tokens)];
    }
  }

  /** `getBleu`: `dealData`, then `sentence_bleu([references[i]], candidates[i])` for each reference. */
  method GetBleu(references: array<string>, candidates: array<string>, bleu: SentenceScorer) returns (scores: Result<seq<real>>)
    ensures scores == SentenceScores(references[..], candidates[..], bleu)
  {
    var dealt := DealData(references, candidates, "en");
    if dealt.Err? {
      return Err(dealt.error);
    }
    var scoreList := ScoreEach(dealt.value, references.Length, bleu);
    SentenceScoresAt(references[..], candidates[..], bleu, scoreList);
    return Ok(scoreList);
  }

  /** `getMeteor`: `dealData`, then `meteor_score([references[i]], candidates[i])` for each reference. */
  method GetMeteor(references: array<string>, candidates: array<string>, meteor: SentenceScorer) returns (scores: Result<seq<real>>)
    ensures scores == SentenceScores(references[..], candidates[..], meteor)
  {
    var dealt := DealData(references, candidates, "en");
    if dealt.Err? {
      return Err(dealt.error);
    }
    var scoreList := ScoreEach(dealt.value, references.Length, meteor);
    SentenceScoresAt(references[..], candidates[..], meteor, scoreList);
    return Ok(scoreList);
  }

  // ================================================================ getScores

  /** The scorers `getScores` dispatches to, with their default parameters bound. */
  datatype Scorers = Scorers(rouge: RougeScorer, chrf: ChrfScorer, bert: BertScorer,
                             bleu: SentenceScorer, meteor: SentenceScorer, bleurt: BleurtScorer)

  predicate IsMetric(name: string)
  {
    name in {"rouge", "chrf", "bertscore", "bleu", "meteor", "bleurt"}
  }

  /** One branch of `getScores`: the metric `name` on the whole batch, with
      the wrappers' defaults (ROUGE-L precision on Chinese, chrF with n_gram 3). */
  function RunMetric(name: string, references: seq<string>, generated: seq<string>, sc: Scorers): (r: Result<seq<real>>)
    ensures !IsMetric(name) ==> r == Err(NoSuchMetric(name))
  {
    if name == "rouge" then RougeScores(references, generated, "l", "zh", sc.rouge)
    else if name == "chrf" then ChrfScores(references, generated, 3, sc.chrf)
    else if name == "bertscore" then GetBertScore(references, generated, sc.bert)
    else if name == "bleu" then SentenceScores(references, generated, sc.bleu)
    else if name == "meteor" then SentenceScores(references, generated, sc.meteor)
    else if name == "bleurt" then Ok(sc.bleurt(references, generated))
    else Err(NoSuchMetric(name))
  }

  function MetricFn(references: seq<string>, generated: seq<string>, sc: Scorers): string -> Result<seq<real>>
  {
    (name: string) => RunMetric(name, references, generated, sc)
  }

  /** The dict `getScores` builds from the metrics that ran. */
  function ScoreMap(metrics: seq<string>, references: seq<string>, generated: seq<string>, sc: Scorers): map<string, seq<real>>
  {
    map name | name in metrics && RunMetric(name, references, generated, sc).Ok? ::
      RunMetric(name, references, generated, sc).value
  }

  /** What `getScores` returns or raises. It succeeds exactly when every
      requested name is a known metric whose run succeeds; its keys are then
      exactly the distinct requested names (a repeated name gives one key),
      each holding that metric's scores. An unknown name makes it raise, and
      no metric gives an empty dict. */
  function Scores(metrics: seq<string>, references: seq<string>, generated: seq<string>, sc: Scorers): (r: Result<map<string, seq<real>>>)
    ensures r.Ok? <==> forall i :: 0 <= i < |metrics| ==> RunMetric(metrics[i], references, generated, sc).Ok?
    ensures r.Ok? ==> r.value.Keys == set name | name in metrics
    ensures r.Ok? ==> forall name :: name in r.value ==> RunMetric(name, references, generated, sc) == Ok(r.value[name])
    ensures (exists i :: 0 <= i < |metrics| && !IsMetric(metrics[i])) ==> r.Err?
    ensures metrics == [] ==> r == Ok(map[])
    ensures r.Err? ==> exists i :: (0 <= i < |metrics| && RunMetric(metrics[i], references, generated, sc) == Err(r.error) &&
              forall j :: 0 <= j < i ==> RunMetric(metrics[j], references, generated, sc).Ok?)
  {
    match MapAll(metrics, MetricFn(references, generated, sc))
    case Err(e) => Err(e)
    case Ok(_) =>
      var d := ScoreMap(metrics, references, generated, sc);
      assert forall name :: name in metrics ==> name in d by {
        forall name | name in metrics ensures name in d {
          var i :| 0 <= i < |metrics| && metrics[i] == name;
          assert MetricFn(references, generated, sc)(metrics[i]).Ok?;
        }
      }
      Ok(d)
  }

  /** One pass of the `getScores` loop body: the `if`/`elif` chain on the name. */
  method RunMetricNamed(metric: string, referenceSentences: array<string>, generatedSentences: array<string>,
                        sc: Scorers) returns (v: Result<seq<real>>)
    ensures v == RunMetric(metric, referenceSentences[..], generatedSentences[..], sc)
  {
    var refs, gens := referenceSentences[..], generatedSentences[..];
    if metric == "rouge" {
      v := GetRougeScore(refs, gens, "l", "zh", sc.rouge);
    } else if metric == "chrf" {
      v := GetChrfScore(refs, gens, 3, sc.chrf);
    } else if metric == "bertscore" {
      v := GetBertScore(refs, gens, sc.bert);
    } else if metric == "bleu" {
      v := GetBleu(referenceSentences, generatedSentences, sc.bleu);
    } else if metric == "meteor" {
      v := GetMeteor(referenceSentences, generatedSentences, sc.meteor);
    } else if metric == "bleurt" {
      v := Ok(sc.bleurt(refs, gens));
    } else {
      v := Err(NoSuchMetric(metric));
    }
  }

  /** The dict grows by the metric just run. */
  lemma ScoreMapStep(metrics: seq<string>, i: nat, references: seq<string>, generated: seq<string>, sc: Scorers,
                     v: seq<real>)
    requires i < |metrics| && RunMetric(metrics[i], references, generated, sc) == Ok(v)
    ensures ScoreMap(metrics[..i + 1], references, generated, sc) ==
            ScoreMap(metrics[..i], references, generated, sc)[metrics[i] := v]
  {
    assert metrics[..i + 1] == metrics[..i] + [metrics[i]];
  }

  /** `getScores` as written: a loop over the requested names filling a dict. */
  method GetScores(metrics: seq<string>, referenceSentences: array<string>, generatedSentences: array<string>,
                   sc: Scorers) returns (result: Result<map<string, seq<real>>>)
    ensures result == Scores(metrics, referenceSentences[..], generatedSentences[..], sc)
  {
    ghost var refs, gens := referenceSentences[..], generatedSentences[..];
    var d: map<string, seq<real>> := map[];
    ghost var done: seq<seq<real>> := [];
    for i := 0 to |metrics|
      invariant MapAll(metrics[..i], MetricFn(refs, gens, sc)) == Ok(done)
      invariant d == ScoreMap(metrics[..i], refs, gens, sc)
    {
      MapAllStep(metrics, MetricFn(refs, gens, sc), i, done);
      var v := RunMetricNamed(metrics[i], referenceSentences, generatedSentences, sc);
      if v.Err? {
        return Err(v.error);
      }
      ScoreMapStep(metrics, i, refs, gens, sc, v.value);
      d := d[metrics[i] := v.value];
      done := done + [v.value];
    }
    assert metrics[..|metrics|] == metrics;
    return Ok(d);
  }
}
