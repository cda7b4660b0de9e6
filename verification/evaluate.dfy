/** evaluate_.py: single-sentence wrappers with empty-string guards, the
    sentence tokenizer `deal_data`, the token overlap `get_pr`, BLEU and
    METEOR with precision and recall, and the entry point `automatic`. */
module Evaluate {
  import opened Runtime
  import opened Text
  import opened Metrics
  import UtilsAll

  // ================================================================ getRougeScore

  /** `getRougeScore` on one pair: an empty sentence raises before `lang` is
      looked at; 'zh' interleaves both sentences with spaces, 'en' passes
      them as they are, and the F-measure 'f' is taken from the scorer. */
  function GetRougeScore(referenceSentence: string, generatedSentence: string,
                         rougeN: string, lang: string, rouge: RougeScorer): (r: Result<real>)
    ensures referenceSentence == "" || generatedSentence == "" ==> r == Err(EmptySentence)
    ensures referenceSentence != "" && generatedSentence != "" && lang != "en" && lang != "zh" ==>
              r == Err(LangTypeError)
    ensures r.Ok? ==> referenceSentence != "" && generatedSentence != "" && (lang == "en" || lang == "zh")
    ensures referenceSentence != "" && generatedSentence != "" && lang == "en" ==>
              r == PickRouge(rouge(generatedSentence, referenceSentence), rougeN, "f")
    ensures referenceSentence != "" && generatedSentence != "" && lang == "zh" ==>
              r == PickRouge(rouge(Interleave(generatedSentence), Interleave(referenceSentence)), rougeN, "f")
    ensures r.Err? ==> r.error in {EmptySentence, LangTypeError, IndexError, KeyError(RougeKey(rougeN)), KeyError("f")}
  {
    if referenceSentence == "" || generatedSentence == "" then Err(EmptySentence)
    else if lang == "en" then PickRouge(rouge(generatedSentence, referenceSentence), rougeN, "f")
    else if lang == "zh" then PickRouge(rouge(Interleave(generatedSentence), Interleave(referenceSentence)), rougeN, "f")
    else Err(LangTypeError)
  }

  // ================================================================ getChrfScore

  /** `getChrfScore` on one pair: raises exactly on an empty sentence. */
  function GetChrfScore(referenceSentence: string, generatedSentence: string, nGram: int, chrf: ChrfScorer): (r: Result<real>)
    ensures r.Err? <==> referenceSentence == "" || generatedSentence == ""
    ensures r.Err? ==> r.error == EmptySentence
    ensures r.Ok? ==> r.value == chrf(referenceSentence, generatedSentence, nGram)
  {
    if referenceSentence == "" || generatedSentence == "" then Err(EmptySentence)
    else Ok(chrf(referenceSentence, generatedSentence, nGram))
  }

  /** The two empty/short guards compared: with `nGram >= 1` every pair the
      utils_all.py length check accepts is accepted here with the same
      score, and with `nGram <= 0` only this guard can raise. */
  lemma ChrfGuards(referenceSentence: string, generatedSentence: string, nGram: int, chrf: ChrfScorer)
    ensures nGram >= 1 && UtilsAll.ChrfPair(referenceSentence, generatedSentence, nGram, chrf).Ok? ==>
              GetChrfScore(referenceSentence, generatedSentence, nGram, chrf) ==
              UtilsAll.ChrfPair(referenceSentence, generatedSentence, nGram, chrf)
    ensures nGram <= 0 ==> UtilsAll.ChrfPair(referenceSentence, generatedSentence, nGram, chrf).Ok?
  {
  }

  // ================================================================ getBertScore

  /** `getBertScore`: raises on an empty list, otherwise the scorer's f1 list. */
  function GetBertScore(referenceSentences: seq<string>, generatedSentences: seq<string>, bert: BertScorer): (r: Result<seq<real>>)
    ensures r.Err? <==> |referenceSentences| == 0 || |generatedSentences| == 0
    ensures r.Err? ==> r.error == EmptySentenceList
    ensures r.Ok? ==> r.value == bert(generatedSentences, referenceSentences)
  {
    BertScore(referenceSentences, generatedSentences, bert)
  }

  // ================================================================ deal_data

  /** `jieba.cut`: an external segmenter, a parameter here. */
  type Segmenter = string -> seq<string>

  /** Tokens as `str.split()` produces them: non-empty and free of whitespace. */
  predicate Words(ts: seq<string>)
  {
    forall i :: 0 <= i < |ts| ==> |ts[i]| > 0 && NoSpace(ts[i])
  }

  /** What `deal_data` returns: the reference's tokens wrapped in a
      one-element list, and the candidate's tokens. */
  datatype Tokenized = Tokenized(references: seq<seq<string>>, candidate: seq<string>)

  /** `deal_data`: 'English' splits on whitespace runs, 'Chinese' re-splits
      the segmenter's output joined with spaces, anything else ends the
      program. */
  function DealData(reference: string, candidate: string, language: string, cut: Segmenter): (r: Result<Tokenized>)
    ensures r.Err? <==> language != "English" && language != "Chinese"
    ensures r.Err? ==> r.error == Exit
    ensures r.Ok? ==> |r.value.references| == 1 && Words(r.value.references[0]) && Words(r.value.candidate)
    ensures r.Ok? && language == "English" ==>
              Join("", r.value.references[0]) == RemoveSpace(reference) &&
              Join("", r.value.candidate) == RemoveSpace(candidate)
  {
    if language == "English" then
      JoinSplitWs(reference);
      JoinSplitWs(candidate);
      Ok(Tokenized([SplitWs(reference)], SplitWs(candidate)))
    else if language == "Chinese" then
      Ok(Tokenized([SplitWs(Join(" ", cut(reference)))], SplitWs(Join(" ", cut(candidate)))))
    else Err(Exit)
  }

  /** 'English' gives back exactly the words of a sentence written as words
      separated by single spaces. */
  lemma EnglishWords(words: seq<string>, candidateWords: seq<string>, cut: Segmenter)
    requires Words(words) && Words(candidateWords)
    ensures DealData(Join(" ", words), Join(" ", candidateWords), "English", cut) ==
            Ok(Tokenized([words], candidateWords))
  {
    SplitWsJoin(words);
    SplitWsJoin(candidateWords);
  }

  /** 'English' yields no token at all exactly for an all-whitespace string. */
  lemma EnglishEmpty(reference: string, candidate: string, cut: Segmenter)
    ensures DealData(reference, candidate, "English", cut).value.references[0] == [] <==> RemoveSpace(reference) == []
    ensures DealData(reference, candidate, "English", cut).value.candidate == [] <==> RemoveSpace(candidate) == []
  {
  }

  /** 'Chinese' keeps the segmenter's tokens when they are words. */
  lemma ChineseKeepsSegments(reference: string, candidate: string, cut: Segmenter)
    requires Words(cut(reference)) && Words(cut(candidate))
    ensures DealData(reference, candidate, "Chinese", cut) == Ok(Tokenized([cut(reference)], cut(candidate)))
  {
    SplitWsJoin(cut(reference));
    SplitWsJoin(cut(candidate));
  }

  // ================================================================ get_pr

  /** The number of candidate tokens, counted with multiplicity, that occur
      anywhere in the reference. */
  function Matches(candidate: seq<string>, reference: seq<string>): (m: nat)
    ensures m <= |candidate|
    decreases |candidate|
  {
    if candidate == [] then 0
    else Matches(candidate[..|candidate| - 1], reference) + (if candidate[|candidate| - 1] in reference then 1 else 0)
  }

  /** Every candidate token is matched exactly when all of them occur in the reference. */
  lemma {:induction false} MatchesAll(candidate: seq<string>, reference: seq<string>)
    ensures Matches(candidate, reference) == |candidate| <==>
            forall i :: 0 <= i < |candidate| ==> candidate[i] in reference
    decreases |candidate|
  {
    if candidate != [] {
      var init := candidate[..|candidate| - 1];
      MatchesAll(init, reference);
      assert forall i :: 0 <= i < |init| ==> init[i] == candidate[i];
    }
  }

  /** No candidate token is matched exactly when none of them occurs in the reference. */
  lemma {:induction false} MatchesNone(candidate: seq<string>, reference: seq<string>)
    ensures Matches(candidate, reference) == 0 <==>
            forall i :: 0 <= i < |candidate| ==> candidate[i] !in reference
    decreases |candidate|
  {
    if candidate != [] {
      var init := candidate[..|candidate| - 1];
      MatchesNone(init, reference);
      assert forall i :: 0 <= i < |init| ==> init[i] == candidate[i];
    }
  }

  /** What `get_pr` returns or raises: precision m/len(candidate) and recall
      m/len(reference), with the division by zero raised when either list is
      empty. Both ratios share the one match count. */
  function Pr(reference: seq<string>, candidate: seq<string>): (r: Result<(real, real)>)
    ensures r.Err? <==> |candidate| == 0 || |reference| == 0
    ensures r.Err? ==> r.error == ZeroDivision
    ensures r.Ok? ==> 0.0 <= r.value.0 <= 1.0 && 0.0 <= r.value.1
    ensures r.Ok? ==> r.value.0 * |candidate| as real == r.value.1 * |reference| as real
  {
    var m := Matches(candidate, reference) as real;
    if |candidate| == 0 then Err(ZeroDivision)
    else if |reference| == 0 then Err(ZeroDivision)
    else Ok((m / |candidate| as real, m / |reference| as real))
  }

  /** Precision is 1 exactly when every candidate token occurs in the
      reference, and 0 (as is recall) exactly when none does. */
  lemma PrExtremes(reference: seq<string>, candidate: seq<string>)
    requires Pr(reference, candidate).Ok?
    ensures Pr(reference, candidate).value.0 == 1.0 <==> forall i :: 0 <= i < |candidate| ==> candidate[i] in reference
    ensures Pr(reference, candidate).value.0 == 0.0 <==> forall i :: 0 <= i < |candidate| ==> candidate[i] !in reference
    ensures Pr(reference, candidate).value.1 == 0.0 <==> forall i :: 0 <= i < |candidate| ==> candidate[i] !in reference
  {
    MatchesAll(candidate, reference);
    MatchesNone(candidate, reference);
    var m := Matches(candidate, reference) as real;
    var c := |candidate| as real;
    assert Pr(reference, candidate).value.0 == m / c;
    assert m / c == 1.0 <==> m == c;
  }

  /** Two identical non-empty token lists give precision and recall 1. */
  lemma PrIdentical(tokens: seq<string>)
    requires |tokens| > 0
    ensures Pr(tokens, tokens) == Ok((1.0, 1.0))
  {
    MatchesAll(tokens, tokens);
    var n := |tokens| as real;
    assert Matches(tokens, tokens) as real == n;
    assert n / n == 1.0;
  }

  /** Recall is not capped at 1: a repeated candidate token is counted each time. */
  lemma RecallAboveOne()
    ensures Pr(["the"], ["the", "the"]) == Ok((1.0, 2.0))
  {
  }

  /** `get_pr` as written: a loop accumulating the match count. */
  method GetPr(reference: seq<string>, candidate: seq<string>) returns (pr: Result<(real, real)>)
    ensures pr == Pr(reference, candidate)
  {
    var m: real, r: real, c: real := 0.0, |reference| as real, |candidate| as real;
    for i := 0 to |candidate|
      invariant m == Matches(candidate[..i], reference) as real
    {
      assert candidate[..i + 1][..i] == candidate[..i];
      if candidate[i] in reference {
        m := m + 1.0;
      }
    }
    assert candidate[..|candidate|] == candidate;
    if c == 0.0 {
      return Err(ZeroDivision);
    }
    var p := m / c;
    if r == 0.0 {
      return Err(ZeroDivision);
    }
    r := m / r;
    return Ok((p, r));
  }

  // ================================================================ get_bleu, get_meteor

  /** What `get_bleu` and `get_meteor` return or raise: `deal_data`'s exit,
      `get_pr`'s division by zero, or the score of the tokens with the
      precision and recall of the reference's tokens against the candidate's. */
  function ScoredPr(reference: string, candidate: string, language: string, cut: Segmenter,
                    score: SentenceScorer): (r: Result<(real, real, real)>)
    ensures r.Err? ==> r.error in {Exit, ZeroDivision}
    ensures r == Err(Exit) <==> language != "English" && language != "Chinese"
    ensures (language == "English" || language == "Chinese") && r.Err? ==> r.error == ZeroDivision
    ensures language == "English" ==>
              (r.Err? <==> RemoveSpace(reference) == [] || RemoveSpace(candidate) == [])
    ensures r.Ok? ==> 0.0 <= r.value.1 <= 1.0 && 0.0 <= r.value.2
    ensures r.Ok? && language == "English" ==>
              r.value.0 == score([SplitWs(reference)], SplitWs(candidate)) &&
              Ok((r.value.1, r.value.2)) == Pr(SplitWs(reference), SplitWs(candidate))
  {
    EnglishEmpty(reference, candidate, cut);
    match DealData(reference, candidate, language, cut)
    case Err(e) => Err(e)
    case Ok(t) =>
      match Pr(t.references[0], t.candidate)
      case Err(e) => Err(e)
      case Ok(pr) => Ok((score(t.references, t.candidate), pr.0, pr.1))
  }

  /** `get_bleu`: tokenize, precision and recall, then `sentence_bleu`. */
  method GetBleu(reference: string, candidate: string, language: string, cut: Segmenter,
                 bleu: SentenceScorer) returns (res: Result<(real, real, real)>)
    ensures res == ScoredPr(reference, candidate, language, cut, bleu)
  {
    var dealt := DealData(reference, candidate, language, cut);
    if dealt.Err? {
      return Err(dealt.error);
    }
    var pr := GetPr(dealt.value.references[0], dealt.value.candidate);
    if pr.Err? {
      return Err(pr.error);
    }
    var score := bleu(dealt.value.references, dealt.value.candidate);
    return Ok((score, pr.value.0, pr.value.1));
  }

  /** `get_meteor`: tokenize, precision and recall, then `meteor_score`. */
  method GetMeteor(reference: string, candidate: string, language: string, cut: Segmenter,
                   meteor: SentenceScorer) returns (res: Result<(real, real, real)>)
    ensures res == ScoredPr(reference, candidate, language, cut, meteor)
  {
    var dealt := DealData(reference, candidate, language, cut);
    if dealt.Err? {
      return Err(dealt.error);
    }
    var pr := GetPr(dealt.value.references[0], dealt.value.candidate);
    if pr.Err? {
      return Err(pr.error);
    }
    var score := meteor(dealt.value.references, dealt.value.candidate);
    return Ok((score, pr.value.0, pr.value.1));
  }

  // ================================================================ automatic

  /** A value in an entry of `automatic`'s list: a bare score or a dict of scores. */
  datatype Field = Score(value: real) | Dict(entries: map<string, real>)

  /** The external pieces `automatic` calls, with their fixed parameters bound. */
  datatype EvalTools = EvalTools(cut: Segmenter, bleu: SentenceScorer, meteor: SentenceScorer, bleurt: BleurtScorer)

  /** The key the entry for `param` is stored under. */
  function EntryKey(param: string): string
  {
    if param == "Bleurt" then "Bleurt:" else param
  }

  /** The dict built from `name = ['score']` zipped with (score, p, r):
      only the score survives. */
  function ScoreDict(v: (real, real, real)): (d: map<string, real>)
    ensures d == map["score" := v.0]
  {
    var d := ZipDict(["score"], [v.0, v.1, v.2]);
    assert ["score"][..0] == [] && [v.0, v.1, v.2][..0] == [];
    d
  }

  /** One iteration of the `automatic` loop. */
  function AutomaticEntry(param: string, reference: string, candidate: string, tools: EvalTools): (r: Result<map<string, Field>>)
    ensures param != "Bleu" && param != "Meteor" && param != "Bleurt" ==> r == Err(Exit)
    ensures r.Ok? ==> r.value.Keys == {EntryKey(param)}
    ensures param == "Bleu" ==> (r.Ok? <==> ScoredPr(reference, candidate, "English", tools.cut, tools.bleu).Ok?)
    ensures r.Ok? && param == "Bleu" ==>
              r.value[EntryKey(param)] == Dict(map["score" := ScoredPr(reference, candidate, "English", tools.cut, tools.bleu).value.0])
    ensures param == "Meteor" ==> (r.Ok? <==> ScoredPr(reference, candidate, "English", tools.cut, tools.meteor).Ok?)
    ensures r.Ok? && param == "Meteor" ==>
              r.value[EntryKey(param)] == Dict(map["score" := ScoredPr(reference, candidate, "English", tools.cut, tools.meteor).value.0])
    ensures (param == "Bleu" || param == "Meteor") && r.Err? ==> r.error == ZeroDivision
    ensures param == "Bleurt" ==> (r.Ok? <==> |tools.bleurt([reference], [candidate])| > 0)
    ensures param == "Bleurt" && r.Err? ==> r.error == IndexError
    ensures r.Ok? && param == "Bleurt" ==> r.value[EntryKey(param)] == Score(tools.bleurt([reference], [candidate])[0])
  {
    if param == "Bleu" then
      match ScoredPr(reference, candidate, "English", tools.cut, tools.bleu)
      case Err(e) => Err(e)
      case Ok(v) => Ok(map["Bleu" := Dict(ScoreDict(v))])
    else if param == "Meteor" then
      match ScoredPr(reference, candidate, "English", tools.cut, tools.meteor)
      case Err(e) => Err(e)
      case Ok(v) => Ok(map["Meteor" := Dict(ScoreDict(v))])
    else if param == "Bleurt" then
      match First(tools.bleurt([reference], [candidate]))
      case Err(e) => Err(e)
      case Ok(s) => Ok(map["Bleurt:" := Score(s)])
    else Err(Exit)
  }

  function EntryFn(reference: string, candidate: string, tools: EvalTools): string -> Result<map<string, Field>>
  {
    (param: string) => AutomaticEntry(param, reference, candidate, tools)
  }

  /** What `automatic` returns or raises: one single-key entry per requested
      param, in request order, under that param's key; an unknown param ends
      the program unless an earlier param has raised. */
  function AutomaticResult(reference: string, candidate: string, params: seq<string>, tools: EvalTools): (r: Result<seq<map<string, Field>>>)
    ensures r.Ok? ==> |r.value| == |params|
    ensures r.Ok? ==> forall i :: 0 <= i < |params| ==> r.value[i].Keys == {EntryKey(params[i])}
    ensures r.Ok? ==> forall i :: 0 <= i < |params| ==> params[i] in {"Bleu", "Meteor", "Bleurt"}
    ensures r.Ok? ==> forall i :: 0 <= i < |params| ==>
              Ok(r.value[i]) == AutomaticEntry(params[i], reference, candidate, tools)
    ensures r.Err? ==> exists k :: (0 <= k < |params| && AutomaticEntry(params[k], reference, candidate, tools) == Err(r.error) &&
              forall j :: 0 <= j < k ==> AutomaticEntry(params[j], reference, candidate, tools).Ok?)
  {
    MapAll(params, EntryFn(reference, candidate, tools))
  }

  /** The first unknown param ends the program when every param before it succeeds. */
  lemma UnknownParamExits(reference: string, candidate: string, params: seq<string>, tools: EvalTools, k: nat)
    requires k < |params| && params[k] !in {"Bleu", "Meteor", "Bleurt"}
    requires forall j :: 0 <= j < k ==> AutomaticEntry(params[j], reference, candidate, tools).Ok?
    ensures AutomaticResult(reference, candidate, params, tools) == Err(Exit)
  {
  }

  /** `automatic` as written: a loop appending one dict per param. */
  method Automatic(reference: string, candidate: string, params: seq<string>, tools: EvalTools)
    returns (result: Result<seq<map<string, Field>>>)
    ensures result == AutomaticResult(reference, candidate, params, tools)
  {
    var entries: seq<map<string, Field>> := [];
    for i := 0 to |params|
      invariant MapAll(params[..i], EntryFn(reference, candidate, tools)) == Ok(entries)
    {
      MapAllStep(params, EntryFn(reference, candidate, tools), i, entries);
      var param := params[i];
      var entry: map<string, Field>;
      if param == "Bleu" {
        var v := GetBleu(reference, candidate, "English", tools.cut, tools.bleu);
        if v.Err? {
          return Err(v.error);
        }
        entry := map["Bleu" := Dict(ZipDict(["score"], [v.value.0, v.value.1, v.value.2]))];
      } else if param == "Meteor" {
        var v := GetMeteor(reference, candidate, "English", tools.cut, tools.meteor);
        if v.Err? {
          return Err(v.error);
        }
        entry := map["Meteor" := Dict(ZipDict(["score"], [v.value.0, v.value.1, v.value.2]))];
      } else if param == "Bleurt" {
        var scores := tools.bleurt([reference], [candidate]);
        if |scores| == 0 {
          return Err(IndexError);
        }
        entry := map["Bleurt:" := Score(scores[0])];
      } else {
        return Err(Exit);
      }
      entries := entries + [entry];
    }
    assert params[..|params|] == params;
    return Ok(entries);
  }
}
