/** The parts of the Python runtime the scripts lean on: exceptions that end a
    call, `zip` over two lists, a loop that stops at the first exception, and
    `dict(zip(keys, values))`. */
module Runtime {

  /** The exceptions the scripts raise (or let escape), and `exit()`. */
  datatype Error =
    | LangTypeError            // "para:lang type error"
    | EmptySentence            // "the sentence is empty"
    | ShortSentence            // "length of reference_sentence or generated_sentences < n_gram"
    | EmptySentenceList        // "the sentences list is empty"
    | NoSuchMetric(name: string)
    | KeyError(key: string)
    | IndexError
    | ZeroDivision
    | Exit                     // exit(): the program stops

  /** A call either returns a value or raises. */
  datatype Result<+T> = Ok(value: T) | Err(error: Error)

  function Min(a: int, b: int): int { if a <= b then a else b }

  /** `zip(xs, ys)`: pairs up to the shorter list. */
  function Zip<A, B>(xs: seq<A>, ys: seq<B>): (r: seq<(A, B)>)
    ensures |r| == Min(|xs|, |ys|)
    ensures forall i :: 0 <= i < |r| ==> r[i] == (xs[i], ys[i])
  {
    seq(Min(|xs|, |ys|), i requires 0 <= i < Min(|xs|, |ys|) => (xs[i], ys[i]))
  }

  /** A loop that appends `f(x)` for every `x` of `xs` in order and lets the
      first exception escape. The three ensures clauses determine the result:
      it succeeds exactly when every step does, then holds every step's value
      in order, and otherwise carries the error of the first failing step. */
  function MapAll<A, B>(xs: seq<A>, f: A -> Result<B>): (r: Result<seq<B>>)
    ensures r.Ok? <==> forall i :: 0 <= i < |xs| ==> f(xs[i]).Ok?
    ensures r.Ok? ==> |r.value| == |xs| && forall i :: 0 <= i < |xs| ==> r.value[i] == f(xs[i]).value
    ensures r.Err? ==> exists k :: 0 <= k < |xs| && f(xs[k]) == Err(r.error) &&
                                   forall j :: 0 <= j < k ==> f(xs[j]).Ok?
    decreases |xs|
  {
    if xs == [] then Ok([])
    else
      var init := xs[..|xs| - 1];
      match MapAll(init, f)
      case Err(e) =>
        assert forall j :: 0 <= j < |init| ==> xs[j] == init[j];
        Err(e)
      case Ok(ys) =>
        assert forall j :: 0 <= j < |init| ==> xs[j] == init[j];
        match f(xs[|xs| - 1])
        case Err(e) => Err(e)
        case Ok(y) => Ok(ys + [y])
  }

  /** One more step of the loop: how `MapAll` over a prefix grows by one element. */
  lemma MapAllStep<A, B>(xs: seq<A>, f: A -> Result<B>, k: nat, done: seq<B>)
    requires k < |xs| && MapAll(xs[..k], f) == Ok(done)
    ensures f(xs[k]).Ok? ==> MapAll(xs[..k + 1], f) == Ok(done + [f(xs[k]).value])
    ensures f(xs[k]).Err? ==> MapAll(xs, f) == Err(f(xs[k]).error)
  {
    if f(xs[k]).Ok? {
      assert xs[..k + 1][..k] == xs[..k];
    } else {
      MapAllFirstError(xs, f, k);
    }
  }

  /** When every step before `k` succeeds and step `k` fails, the loop raises step `k`'s error. */
  lemma MapAllFirstError<A, B>(xs: seq<A>, f: A -> Result<B>, k: nat)
    requires k < |xs| && MapAll(xs[..k], f).Ok? && f(xs[k]).Err?
    ensures MapAll(xs, f) == Err(f(xs[k]).error)
  {
    var prefix := xs[..k];
    assert forall j :: 0 <= j < k ==> prefix[j] == xs[j];
    assert forall j :: 0 <= j < k ==> f(xs[j]).Ok? by {
      forall j | 0 <= j < k ensures f(xs[j]).Ok? {
        assert f(prefix[j]).Ok?;
      }
    }
    var r := MapAll(xs, f);
    var w :| 0 <= w < |xs| && f(xs[w]) == Err(r.error) && forall j :: 0 <= j < w ==> f(xs[j]).Ok?;
    assert w == k;
  }

  /** `lst[0]`, which raises IndexError on an empty list. */
  function First<T>(xs: seq<T>): (r: Result<T>)
    ensures r.Ok? <==> |xs| > 0
    ensures r.Ok? ==> r.value == xs[0]
    ensures r.Err? ==> r.error == IndexError
  {
    if |xs| == 0 then Err(IndexError) else Ok(xs[0])
  }

  /** No key after index `i` and before `n` repeats `keys[i]`. */
  predicate LastOccurrence<K(==)>(keys: seq<K>, n: int, i: int)
    requires 0 <= i < n <= |keys|
  {
    forall j :: i < j < n ==> keys[j] != keys[i]
  }

  /** `dict(zip(keys, values))`: one entry per zipped pair, a later pair with
      the same key overriding an earlier one. */
  function ZipDict<K, V>(keys: seq<K>, values: seq<V>): (d: map<K, V>)
    ensures d.Keys == set i | 0 <= i < Min(|keys|, |values|) :: keys[i]
    ensures forall i :: 0 <= i < Min(|keys|, |values|) && LastOccurrence(keys, Min(|keys|, |values|), i) ==>
              d[keys[i]] == values[i]
    decreases |keys|
  {
    var n := Min(|keys|, |values|);
    if n == 0 then map[]
    else
      var ks, vs := keys[..n - 1], values[..n - 1];
      var d' := ZipDict(ks, vs);
      assert forall i :: 0 <= i < n - 1 ==> ks[i] == keys[i] && vs[i] == values[i];
      assert d'.Keys == set i | 0 <= i < n - 1 :: keys[i];
      var d := d'[keys[n - 1] := values[n - 1]];
      assert forall i :: 0 <= i < n && LastOccurrence(keys, n, i) ==> d[keys[i]] == values[i] by {
        forall i | 0 <= i < n && LastOccurrence(keys, n, i) ensures d[keys[i]] == values[i] {
          if i < n - 1 {
            assert keys[n - 1] != keys[i];
            assert LastOccurrence(ks, n - 1, i);
          }
        }
      }
      d
  }
}
