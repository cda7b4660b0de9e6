/** Python `str` operations the scripts use to marshal sentences: `s.split(' ')`,
    `s.split()`, `sep.join(tokens)`, `[ch for ch in s]` and
    `c.encode('utf-8').isalpha()`. A Python `str` is a sequence of code points,
    which is what a Dafny `string` (a sequence of Unicode scalar values) is. */
module Text {

  newtype byte = x: int | 0 <= x < 0x100

  // ---------------------------------------------------------------- encode / isalpha

  /** `c.encode('utf-8')`: the UTF-8 encoding of one code point. */
  function Utf8(c: char): (bs: seq<byte>)
    ensures 1 <= |bs| <= 4
  {
    var cp := c as int;
    if cp < 0x80 then [cp as byte]
    else if cp < 0x800 then [(0xC0 + cp / 0x40) as byte, (0x80 + cp % 0x40) as byte]
    else if cp < 0x1_0000 then
      [(0xE0 + cp / 0x1000) as byte, (0x80 + (cp / 0x40) % 0x40) as byte, (0x80 + cp % 0x40) as byte]
    else
      [(0xF0 + cp / 0x4_0000) as byte, (0x80 + (cp / 0x1000) % 0x40) as byte,
       (0x80 + (cp / 0x40) % 0x40) as byte, (0x80 + cp % 0x40) as byte]
  }

  predicate IsAlphaByte(b: byte) {
    0x41 <= b <= 0x5A || 0x61 <= b <= 0x7A
  }

  /** `bytes.isalpha()`: non-empty and every byte an ASCII letter. */
  predicate BytesIsAlpha(bs: seq<byte>) {
    |bs| > 0 && forall i :: 0 <= i < |bs| ==> IsAlphaByte(bs[i])
  }

  predicate IsAsciiLetter(c: char) {
    'A' <= c <= 'Z' || 'a' <= c <= 'z'
  }

  /** A character's UTF-8 bytes are all alphabetic exactly when it is an ASCII
      letter: any other code point either is one non-letter byte or encodes
      to a lead byte of 0xC0 or more. */
  lemma Utf8IsAlpha(c: char)
    ensures BytesIsAlpha(Utf8(c)) <==> IsAsciiLetter(c)
  {
    var cp := c as int;
    if cp >= 0x80 {
      assert Utf8(c)[0] >= 0xC0;
      assert !IsAlphaByte(Utf8(c)[0]);
    } else {
      var b := cp as byte;
      assert Utf8(c) == [b];
      assert [b][0] == b;
      assert BytesIsAlpha([b]) <==> IsAlphaByte(b);
      assert IsAlphaByte(b) <==> 0x41 <= cp <= 0x5A || 0x61 <= cp <= 0x7A;
      assert IsAsciiLetter(c) <==> 0x41 <= cp <= 0x5A || 0x61 <= cp <= 0x7A;
    }
  }

  // ---------------------------------------------------------------- join

  /** `sep.join(ts)`. */
  function Join(sep: string, ts: seq<string>): string
    decreases |ts|
  {
    if |ts| == 0 then ""
    else if |ts| == 1 then ts[0]
    else ts[0] + sep + Join(sep, ts[1..])
  }

  lemma JoinCons(sep: string, t: string, ts: seq<string>)
    requires |ts| > 0
    ensures Join(sep, [t] + ts) == t + sep + Join(sep, ts)
  {
    assert ([t] + ts)[1..] == ts;
  }

  // ---------------------------------------------------------------- split(sep)

  /** Position of the first `sep` in `s`, or `|s|` when there is none. */
  function IndexOf(s: string, sep: char): (k: nat)
    ensures k <= |s|
    ensures k < |s| ==> s[k] == sep
    ensures forall i :: 0 <= i < k ==> s[i] != sep
  {
    if s == [] || s[0] == sep then 0 else 1 + IndexOf(s[1..], sep)
  }

  /** `s.split(sep)` for a one-character separator: every separator ends a
      field, so consecutive separators give empty fields, and "" gives [""].
      There is one field more than there are separators, and no field holds one. */
  function Split(s: string, sep: char): (r: seq<string>)
    ensures |r| == multiset(s)[sep] + 1
    ensures forall i :: 0 <= i < |r| ==> sep !in r[i]
    decreases |s|
  {
    var k := IndexOf(s, sep);
    if k == |s| then
      assert multiset(s)[sep] == 0;
      [s]
    else
      assert s == s[..k] + [sep] + s[k + 1..];
      assert multiset(s[..k])[sep] == 0;
      [s[..k]] + Split(s[k + 1..], sep)
  }

  /** Joining the fields with the separator gives back the string. */
  lemma {:induction false} JoinSplit(s: string, sep: char)
    ensures Join([sep], Split(s, sep)) == s
    decreases |s|
  {
    var k := IndexOf(s, sep);
    if k < |s| {
      var rest := Split(s[k + 1..], sep);
      assert Split(s, sep) == [s[..k]] + rest;
      JoinSplit(s[k + 1..], sep);
      JoinCons([sep], s[..k], rest);
      assert s == s[..k] + [sep] + s[k + 1..];
    } else {
      assert Split(s, sep) == [s];
    }
  }

  /** The first separator of `t + [sep] + rest` is the one after `t` when `t` holds none. */
  lemma {:induction false} IndexOfAfter(t: string, sep: char, rest: string)
    requires sep !in t
    ensures IndexOf(t + [sep] + rest, sep) == |t|
    decreases |t|
  {
    if t != [] {
      assert (t + [sep] + rest)[1..] == t[1..] + [sep] + rest;
      IndexOfAfter(t[1..], sep, rest);
    }
  }

  /** A field followed by a separator is split off first. */
  lemma SplitAfter(t: string, sep: char, rest: string)
    requires sep !in t
    ensures Split(t + [sep] + rest, sep) == [t] + Split(rest, sep)
  {
    var s := t + [sep] + rest;
    IndexOfAfter(t, sep, rest);
    assert s[..|t|] == t;
    assert s[|t| + 1..] == rest;
  }

  /** Splitting fields that hold no separator, once joined, gives them back. */
  lemma {:induction false} SplitJoin(ts: seq<string>, sep: char)
    requires |ts| > 0
    requires forall i :: 0 <= i < |ts| ==> sep !in ts[i]
    ensures Split(Join([sep], ts), sep) == ts
    decreases |ts|
  {
    if |ts| == 1 {
      assert IndexOf(ts[0], sep) == |ts[0]|;
    } else {
      var tail := Join([sep], ts[1..]);
      assert Join([sep], ts) == ts[0] + [sep] + tail;
      SplitAfter(ts[0], sep, tail);
      SplitJoin(ts[1..], sep);
      assert [ts[0]] + ts[1..] == ts;
    }
  }

  // ---------------------------------------------------------------- list(s)

  /** `[ch for ch in s]`: one one-character string per code point. */
  function Chars(s: string): (r: seq<string>)
    ensures |r| == |s|
    ensures forall i :: 0 <= i < |r| ==> r[i] == [s[i]]
  {
    seq(|s|, i requires 0 <= i < |s| => [s[i]])
  }

  /** `"".join([ch for ch in s]) == s`. */
  lemma {:induction false} JoinChars(s: string)
    ensures Join("", Chars(s)) == s
    decreases |s|
  {
    if |s| >= 2 {
      assert Chars(s)[1..] == Chars(s[1..]);
      JoinChars(s[1..]);
      assert s == [s[0]] + s[1..];
    } else if |s| == 1 {
      assert Chars(s)[0] == s;
    }
  }

  /** `" ".join(s)` on a string: its characters with one space between each
      two. A string of n >= 1 characters gives 2n - 1 characters, the
      original ones at even positions and spaces at odd positions. */
  function Interleave(s: string): (r: string)
  {
    Join(" ", Chars(s))
  }

  lemma {:induction false} InterleaveShape(s: string)
    ensures s == [] ==> Interleave(s) == []
    ensures |s| >= 1 ==> |Interleave(s)| == 2 * |s| - 1
    ensures forall i :: 0 <= i < |Interleave(s)| ==>
              Interleave(s)[i] == if i % 2 == 0 then s[i / 2] else ' '
    decreases |s|
  {
    if |s| >= 2 {
      var r := Interleave(s);
      var rest := Interleave(s[1..]);
      assert Chars(s)[1..] == Chars(s[1..]);
      assert r == [s[0]] + " " + rest;
      InterleaveShape(s[1..]);
      forall i | 0 <= i < |r| ensures r[i] == if i % 2 == 0 then s[i / 2] else ' ' {
        if i >= 2 {
          assert r[i] == rest[i - 2];
          assert s[1..][(i - 2) / 2] == s[i / 2];
        }
      }
    }
  }

  /** A space-free string, interleaved with spaces and split on spaces again,
      gives back its characters. */
  lemma InterleaveSplit(s: string)
    requires |s| > 0 && ' ' !in s
    ensures Split(Interleave(s), ' ') == Chars(s)
  {
    SplitJoin(Chars(s), ' ');
  }

  // ---------------------------------------------------------------- split()

  /** `c.isspace()`: the code points Python's `str.split()` treats as whitespace. */
  predicate IsSpace(c: char) {
    || c == ' ' || '\t' <= c <= '\r' || '\U{1C}' <= c <= '\U{1F}'
    || c == '\U{85}' || c == '\U{A0}' || c == '\U{1680}'
    || '\U{2000}' <= c <= '\U{200A}' || c == '\U{2028}' || c == '\U{2029}'
    || c == '\U{202F}' || c == '\U{205F}' || c == '\U{3000}'
  }

  predicate NoSpace(s: string) {
    forall i :: 0 <= i < |s| ==> !IsSpace(s[i])
  }

  /** Length of the leading run of non-whitespace characters. */
  function WordLength(s: string): (k: nat)
    ensures k <= |s|
    ensures k < |s| ==> IsSpace(s[k])
    ensures forall i :: 0 <= i < k ==> !IsSpace(s[i])
  {
    if s == [] || IsSpace(s[0]) then 0 else 1 + WordLength(s[1..])
  }

  /** `s.split()`: maximal runs of non-whitespace, so leading, trailing and
      repeated whitespace leave no empty word. */
  function SplitWs(s: string): (r: seq<string>)
    ensures forall i :: 0 <= i < |r| ==> |r[i]| > 0 && NoSpace(r[i])
    decreases |s|
  {
    if s == [] then []
    else if IsSpace(s[0]) then SplitWs(s[1..])
    else
      var k := WordLength(s);
      [s[..k]] + SplitWs(s[k..])
  }

  /** A word ends where whitespace or the string does. */
  lemma {:induction false} WordLengthOfWord(w: string, r: string)
    requires NoSpace(w) && (r == [] || IsSpace(r[0]))
    ensures WordLength(w + r) == |w|
    decreases |w|
  {
    if w == [] {
      assert w + r == r;
    } else {
      assert (w + r)[0] == w[0];
      assert (w + r)[1..] == w[1..] + r;
      WordLengthOfWord(w[1..], r);
    }
  }

  /** A word followed by whitespace (or nothing) is split off as one token. */
  lemma SplitWsWordThen(w: string, r: string)
    requires |w| > 0 && NoSpace(w) && (r == [] || IsSpace(r[0]))
    ensures SplitWs(w + r) == [w] + SplitWs(r)
  {
    var s := w + r;
    WordLengthOfWord(w, r);
    assert s[0] == w[0];
    assert s[..|w|] == w && s[|w|..] == r;
  }

  /** A single word is split into itself. */
  lemma SplitWsWord(w: string)
    requires |w| > 0 && NoSpace(w)
    ensures SplitWs(w) == [w]
  {
    SplitWsWordThen(w, []);
    assert w + [] == w;
  }

  lemma ConcatAssoc<T>(x: seq<T>, y: seq<T>, z: seq<T>)
    ensures x + (y + z) == (x + y) + z
  {
  }

  /** The step of `SplitWsAtSpace` for an `a` that starts with a word `w`. */
  lemma SplitWsAtSpaceAfterWord(w: string, rest: string, c: char, b: string)
    requires |w| > 0 && NoSpace(w) && (rest == [] || IsSpace(rest[0])) && IsSpace(c)
    requires SplitWs(rest + [c] + b) == SplitWs(rest) + SplitWs(b)
    ensures SplitWs(w + (rest + [c] + b)) == SplitWs(w + rest) + SplitWs(b)
  {
    var tail := rest + [c] + b;
    assert IsSpace(tail[0]) by {
      if rest == [] {
        assert tail[0] == c;
      } else {
        assert tail[0] == rest[0];
      }
    }
    SplitWsWordThen(w, rest);
    SplitWsWordThen(w, tail);
    ConcatAssoc([w], SplitWs(rest), SplitWs(b));
  }

  /** Any whitespace character separates words: together with `SplitWsWord`
      this fixes `s.split()` on every string, so tabs, newlines and runs of
      whitespace all split and leave no empty word. */
  lemma {:induction false} SplitWsAtSpace(a: string, c: char, b: string)
    requires IsSpace(c)
    ensures SplitWs(a + [c] + b) == SplitWs(a) + SplitWs(b)
    decreases |a|
  {
    if a == [] {
      var s := a + [c] + b;
      assert s[0] == c && s[1..] == b;
    } else if IsSpace(a[0]) {
      var s := a + [c] + b;
      assert s[0] == a[0];
      assert s[1..] == a[1..] + [c] + b;
      SplitWsAtSpace(a[1..], c, b);
    } else {
      var k := WordLength(a);
      var w, rest := a[..k], a[k..];
      assert a == w + rest;
      SplitWsAtSpace(rest, c, b);
      SplitWsAtSpaceAfterWord(w, rest, c, b);
      ConcatAssoc(w, rest + [c], b);
      ConcatAssoc(w, rest, [c]);
    }
  }

  /** `s` with every whitespace character removed. */
  function RemoveSpace(s: string): (r: string)
    ensures NoSpace(r)
  {
    if s == [] then []
    else (if IsSpace(s[0]) then [] else [s[0]]) + RemoveSpace(s[1..])
  }

  lemma {:induction false} RemoveSpaceAppend(a: string, b: string)
    ensures RemoveSpace(a + b) == RemoveSpace(a) + RemoveSpace(b)
    decreases |a|
  {
    if a != [] {
      assert (a + b)[1..] == a[1..] + b;
      RemoveSpaceAppend(a[1..], b);
    } else {
      assert a + b == b;
    }
  }

  lemma {:induction false} RemoveSpaceOfWord(w: string)
    requires NoSpace(w)
    ensures RemoveSpace(w) == w
    decreases |w|
  {
    if w != [] {
      RemoveSpaceOfWord(w[1..]);
    }
  }

  lemma JoinEmptyCons(t: string, ts: seq<string>)
    ensures Join("", [t] + ts) == t + Join("", ts)
  {
    if |ts| > 0 {
      JoinCons("", t, ts);
    } else {
      assert [t] + ts == [t];
    }
  }

  /** The words of `s.split()`, glued back together, are `s` without its whitespace. */
  lemma {:induction false} JoinSplitWs(s: string)
    ensures Join("", SplitWs(s)) == RemoveSpace(s)
    decreases |s|
  {
    if s != [] {
      if IsSpace(s[0]) {
        JoinSplitWs(s[1..]);
      } else {
        var k := WordLength(s);
        JoinSplitWs(s[k..]);
        JoinEmptyCons(s[..k], SplitWs(s[k..]));
        assert s == s[..k] + s[k..];
        RemoveSpaceAppend(s[..k], s[k..]);
        RemoveSpaceOfWord(s[..k]);
      }
    }
  }

  /** `s.split()` is empty exactly when `s` holds nothing but whitespace. */
  lemma SplitWsEmpty(s: string)
    ensures SplitWs(s) == [] <==> RemoveSpace(s) == []
  {
    JoinSplitWs(s);
    var ws := SplitWs(s);
    if ws != [] {
      JoinEmptyCons(ws[0], ws[1..]);
      assert [ws[0]] + ws[1..] == ws;
    }
  }

  /** Non-empty whitespace-free words joined with single spaces and split on
      whitespace again give back the words. */
  lemma {:induction false} SplitWsJoin(ts: seq<string>)
    requires forall i :: 0 <= i < |ts| ==> |ts[i]| > 0 && NoSpace(ts[i])
    ensures SplitWs(Join(" ", ts)) == ts
    decreases |ts|
  {
    var s := Join(" ", ts);
    if |ts| == 1 {
      assert s == ts[0] && s != [] && !IsSpace(s[0]);
      assert WordLength(s) == |s|;
      assert s[..|s|] == s && s[|s|..] == [];
    } else if |ts| > 1 {
      var tail := Join(" ", ts[1..]);
      assert s == ts[0] + " " + tail;
      var k := WordLength(s);
      assert forall i :: 0 <= i < |ts[0]| ==> s[i] == ts[0][i];
      assert IsSpace(s[|ts[0]|]);
      assert k == |ts[0]|;
      assert s[..k] == ts[0];
      assert s[k..] == [' '] + tail;
      assert s[k..][1..] == tail;
      SplitWsJoin(ts[1..]);
      assert [ts[0]] + ts[1..] == ts;
    }
  }
}
