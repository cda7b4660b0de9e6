# Text-generation metric wrappers, modelled in Dafny

The repository wraps six third-party scorers for generated text: ROUGE, chrF,
BERTScore, BLEU, METEOR and BLEURT. It comes as three script files.

- `utils_all.py` is the batch API. `getRougeScore`, `getChrfScore` and
  `getBertScore` work on lists of sentences. `dealData` tokenizes a batch,
  choosing word or character mode per reference. `getBleu` and `getMeteor`
  give one score per reference. `getScores` runs the requested metrics by
  name into a dict.
- `utils.py` is a second batch API. It has the same ROUGE loop, a chrF
  loop with no length check, and the same BERTScore guard.
- `evaluate_.py` is the single-sentence API. It has empty-string guards,
  `deal_data` (whitespace or segmenter tokenization), `get_pr` (token
  overlap precision and recall), BLEU and METEOR with precision and recall,
  and the entry point `automatic`.

The model keeps everything the scripts decide for themselves. That covers
which scorer is called, with which arguments, the order of the scores in
each list, how many scores come back, under which keys, and which of the
scripts' own checks, subscripts and divisions raises first. The order of a
dict's keys is the one exception (see "Left out").

Every scorer is a function-typed parameter (`Metrics`) whose numbers are
unconstrained. An exception is an `Err` of a `Result` (`Runtime`). A Python
loop that appends until the first exception is specified by `Runtime.MapAll`.
The imperative loops of the scripts are methods proved equal to those
specifications.

The string operations the scripts rely on are defined in `Text`, with their
round trips proved:
- `split(' ')` and `" ".join`;
- `[ch for ch in s]` and `"".join`;
- `str.split()` on Python's whitespace set;
- `encode('utf-8').isalpha()`.

Three behaviours follow the code:
- In word mode, an empty string becomes one empty token, because
  `''.split(' ')` is `['']`.
- No batch function compares the lengths of its two lists. The ROUGE and
  chrF loops zip the two lists and stop at the shorter one.
- `dealData`, and so `getBleu` and `getMeteor`, index by position over the
  references. It raises IndexError on an empty reference, because it reads
  `references[i][0]`. It also raises IndexError when there are fewer
  candidates than references.

Modules: `Runtime` (runtime.dfy), `Text` (text.dfy), `Metrics`
(metrics.dfy), `UtilsAll` (utils_all.dfy), `Utils` (utils.dfy),
`Evaluate` (evaluate.dfy).

## Model

| member | source | states |
|---|---|---|
| Runtime.Zip | utils_all.py:28 | `zip` pairs the elements index by index, up to the shorter list |
| Runtime.MapAll | utils_all.py:28-38 | an append loop that lets exceptions escape: succeeds iff every step does, then holds every step's value in order, else raises the first failing step's error |
| Runtime.First | evaluate_.py:199 | `score[0]`: the first element, IndexError exactly on an empty list |
| Runtime.ZipDict | evaluate_.py:190 | `dict(zip(keys, values))` has exactly the keys among the first min(len) keys, each holding the value paired with its last occurrence |
| Text.Utf8IsAlpha | utils_all.py:107 | the UTF-8 bytes of a character are all alphabetic iff it is an ASCII letter A-Z or a-z |
| Text.Split | utils_all.py:112 | `s.split(' ')`: one more token than spaces in `s`, no token contains a space |
| Text.JoinSplit | utils_all.py:112-113 | joining `s.split(' ')` with single spaces gives `s` back |
| Text.SplitJoin | utils_all.py:112 | splitting space-free tokens joined by single spaces gives the tokens back |
| Text.Chars | utils_all.py:115 | `[ch for ch in s]`: token i is the one-character string of character i |
| Text.JoinChars | utils_all.py:115-116 | concatenating the character tokens gives the string back |
| Text.InterleaveShape | utils_all.py:32 | `" ".join(s)` of an n-character string (n >= 1) has length 2n-1, the characters at even positions and spaces at odd ones; empty stays empty |
| Text.InterleaveSplit | utils_all.py:31-32 | splitting a space-free interleaved sentence on spaces gives its characters back |
| Text.SplitWs | evaluate_.py:98 | `s.split()` yields only non-empty tokens free of whitespace |
| Text.JoinSplitWs | evaluate_.py:98-99 | concatenating the `split()` tokens gives the string with its whitespace removed |
| Text.SplitWsEmpty | evaluate_.py:98 | `split()` yields no token iff the string is all whitespace |
| Text.SplitWsJoin | evaluate_.py:102-103 | `split()` of words joined by single spaces gives the words back |
| Text.SplitWsWord | evaluate_.py:98 | `split()` of a non-empty whitespace-free string is that string alone |
| Text.SplitWsAtSpace | evaluate_.py:98-99 | any whitespace character (tab, newline, a run of them) separates: `split()` of `a + c + b` is `split()` of `a` followed by `split()` of `b` |
| Metrics.PickRouge | utils_all.py:37 | `rouge_score[0]["rouge-n"][field]`: succeeds iff the list is non-empty and both keys exist, with IndexError or KeyError otherwise |
| UtilsAll.RougeScores | utils_all.py:25-38 | succeeds iff every zipped pair's lookup does, otherwise raises the first failing pair's error; one precision per zipped pair, in order; 'en' passes sentences unchanged, 'zh' interleaves them; another `lang` raises only if some pair exists |
| UtilsAll.GetRougeScore | utils_all.py:9-38 | the loop returns or raises exactly `RougeScores` |
| UtilsAll.ChrfScores | utils_all.py:59-67 | raises iff some zipped pair has a sentence shorter than `n_gram`, otherwise one fscore per zipped pair, in order |
| UtilsAll.GetChrfScore | utils_all.py:41-67 | the loop returns or raises exactly `ChrfScores` |
| UtilsAll.GetBertScore | utils_all.py:85-91 | raises iff either list is empty, otherwise the scorer's list with hypotheses passed first |
| UtilsAll.ModeOfLetter | utils_all.py:107-110 | word mode is chosen iff the reference's first character is an ASCII letter |
| UtilsAll.Segment | utils_all.py:111-116 | word mode: one more token than spaces, none containing a space; character mode: one single-character token per character, in order |
| UtilsAll.SegmentRoundTrip | utils_all.py:112-116 | joining the tokens (with a space in word mode, with nothing in character mode) gives the string back |
| UtilsAll.DealData | utils_all.py:94-120 | the caller's lists are not modified; succeeds iff every reference is non-empty and there are at least as many candidates; the pair at each reference index is tokenized in the mode the reference's first character picks; later candidates stay strings; the unsupported-language branch is unreachable |
| UtilsAll.SentenceScores | utils_all.py:137-143 | IndexError exactly when `dealData` raises, otherwise one score per reference |
| UtilsAll.ScoreEach | utils_all.py:139-142 | the scoring loop gives score i from `[references[i]]` and `candidates[i]` |
| UtilsAll.GetBleu | utils_all.py:123-143 | returns or raises exactly `SentenceScores` with `sentence_bleu` |
| UtilsAll.GetMeteor | utils_all.py:146-176 | returns or raises exactly `SentenceScores` with `meteor_score` |
| UtilsAll.RunMetric | utils_all.py:205-218 | a name outside the six metrics raises "no such metric" |
| UtilsAll.RunMetricNamed | utils_all.py:204-218 | the `if`/`elif` chain runs exactly the branch `RunMetric` describes |
| UtilsAll.Scores | utils_all.py:201-219 | succeeds iff every requested metric runs, otherwise raises the first failing metric's error; keys are exactly the distinct requested names, each with its metric's scores; an unknown name raises; no metrics gives an empty dict |
| UtilsAll.GetScores | utils_all.py:203-219 | the loop filling the dict returns or raises exactly `Scores` |
| Utils.GetRougeScore | utils.py:22-35 | returns or raises exactly what the utils_all.py loop does: one precision per zipped pair, `lang` checked inside the loop |
| Utils.GetChrfScore | utils.py:53-59 | never raises; one fscore per zipped pair (min of the lengths), in order |
| Utils.ChrfGuardOnlyRaises | utils.py:54-58 | where the utils_all.py version succeeds it returns the same scores; with `n_gram <= 0` it always does |
| Utils.GetBertScore | utils.py:77-83 | raises iff either list is empty, otherwise the scorer's list |
| Evaluate.GetRougeScore | evaluate_.py:25-38 | an empty sentence raises before `lang` is checked; for non-empty sentences 'en' passes them through and 'zh' interleaves them, and the result is the lookup of the F-measure 'f' in the scorer's output; another `lang` raises |
| Evaluate.GetChrfScore | evaluate_.py:56-61 | raises iff a sentence is empty, otherwise the scorer's fscore |
| Evaluate.ChrfGuards | evaluate_.py:56-57 | with `n_gram >= 1` every pair the utils_all.py length check accepts is accepted here with the same score |
| Evaluate.GetBertScore | evaluate_.py:79-85 | raises iff either list is empty, otherwise the scorer's list |
| Evaluate.DealData | evaluate_.py:88-107 | 'English'/'Chinese' give a one-element reference list and candidate tokens that are non-empty and whitespace-free; 'English' tokens concatenate to the string without whitespace; anything else exits |
| Evaluate.EnglishWords | evaluate_.py:97-99 | 'English' on words joined by single spaces gives exactly those words |
| Evaluate.EnglishEmpty | evaluate_.py:98-99 | 'English' yields no token iff the string is all whitespace |
| Evaluate.ChineseKeepsSegments | evaluate_.py:100-103 | 'Chinese' keeps the segmenter's tokens when they are non-empty and whitespace-free |
| Evaluate.Matches | evaluate_.py:117-120 | the match count never exceeds the candidate length |
| Evaluate.MatchesAll | evaluate_.py:118-120 | every candidate token matches iff all occur in the reference |
| Evaluate.MatchesNone | evaluate_.py:118-120 | no candidate token matches iff none occurs in the reference |
| Evaluate.Pr | evaluate_.py:110-123 | raises division by zero iff either list is empty; precision in [0, 1], recall >= 0, both from the one match count |
| Evaluate.PrExtremes | evaluate_.py:121-122 | precision is 1 iff all candidate tokens occur in the reference; precision and recall are 0 iff none does |
| Evaluate.PrIdentical | evaluate_.py:117-123 | identical non-empty token lists give precision and recall 1 |
| Evaluate.RecallAboveOne | evaluate_.py:122 | recall is not capped at 1: ['the','the'] against ['the'] gives precision 1, recall 2 |
| Evaluate.GetPr | evaluate_.py:117-123 | the counting loop returns or raises exactly `Pr` |
| Evaluate.ScoredPr | evaluate_.py:126-159 | exits iff the language is neither 'English' nor 'Chinese', any other failure is division by zero; with 'English' raises iff either string is all whitespace, else the score of the `split()` tokens with their precision and recall |
| Evaluate.GetBleu | evaluate_.py:135-140 | returns or raises exactly `ScoredPr` with `sentence_bleu` |
| Evaluate.GetMeteor | evaluate_.py:154-159 | returns or raises exactly `ScoredPr` with `meteor_score` |
| Evaluate.ScoreDict | evaluate_.py:185-190 | zipping `['score']` with (score, p, r) keeps only the key 'score', holding the score |
| Evaluate.AutomaticEntry | evaluate_.py:187-202 | a single-key entry: 'Bleu'/'Meteor' hold {'score': score}, 'Bleurt' is stored under 'Bleurt:' with the first BLEURT score; a failing 'Bleu'/'Meteor' entry raises ZeroDivisionError, an empty BLEURT list IndexError, and any other param exits |
| Evaluate.AutomaticResult | evaluate_.py:175-203 | one entry per requested param, in request order, each under its param's key; only 'Bleu', 'Meteor', 'Bleurt' can succeed; a failure is the first failing param's error |
| Evaluate.UnknownParamExits | evaluate_.py:200-202 | the first unknown param exits when every earlier param succeeds |
| Evaluate.Automatic | evaluate_.py:183-203 | the loop appending entries returns or raises exactly `AutomaticResult` |

## Left out

- The scorers' own computations are not modelled. These are `Rouge.get_scores`, `chrf_precision_recall_fscore_support`, `sentence_bleu`, `meteor_score`, `bertscore.compute` and `BleurtScorer.score`. They are foreign library code, so they are unconstrained function parameters, and their fixed numeric arguments (weights, alpha, beta, gamma, `lang`, `model_type`) are bound into them.
- Exceptions raised inside a scorer are not modelled, since every scorer is a total function. For example, the ROUGE library raises on an empty sentence, and the unguarded loops at utils_all.py:28-37 and utils.py:25-34 pass sentences to it unchecked. The model's error behaviour covers only the scripts' own checks, subscripts and divisions.
- Loading the BERTScore metric and the BLEURT checkpoint is file-system I/O, and is left out.
- `getBleurt` in utils_all.py:179-198 and in evaluate_.py:162-172 is a direct pass-through to the BLEURT scorer. It is inlined where it is called, in `UtilsAll.RunMetric` and `Evaluate.AutomaticEntry`.
- `jieba.cut` is an external segmenter. It is a parameter of `Evaluate.DealData`, and nothing is assumed about its output.
- Printed messages, and the `__main__` demo blocks, are not modelled. `exit()` is the error `Exit`.
- CHRF_test.py, bertscore_test.py and rouge_test.py are not part of this model. Each is a one-call wrapper around an external scorer.
- UtilsAll.Scores: the dict `getScores` returns is a Dafny `map`, so the order of its keys (the order in which each name was first requested) is not modelled; its keys and values are.
- Python floats are modelled as exact reals. Rounding in `get_pr`'s divisions is not modelled.
- Dafny characters are Unicode scalar values. A Python string holding a lone surrogate, on which `encode('utf-8')` raises, cannot be expressed.
- Python's dynamic typing is not modelled. Inputs are assumed to be strings and lists of strings, as the docstrings describe.
