/**
 * String and sequence helpers with the semantics of the Python and C++
 * library calls the modelled code relies on: `str.split(sep)`,
 * `sep.join(...)`, `str.replace(c, "")`, `filter(bool, ...)`, `str.strip()`,
 * `str.split()`, `str.startswith`, a `\bword\b` regex search, and the
 * `find_first_not_of` / `find_last_not_of` trimming of the reproducer.
 */
module Text {

  import opened Wrappers

  /** `sep.join(parts)`. */
  function Join<T>(sep: seq<T>, parts: seq<seq<T>>): seq<T>
    decreases |parts|
  {
    if |parts| == 0 then []
    else if |parts| == 1 then parts[0]
    else parts[0] + sep + Join(sep, parts[1..])
  }

  /** `s.split(sep)` for a one-element separator: every piece, empty ones included. */
  function Split<T(==)>(s: seq<T>, sep: T): (r: seq<seq<T>>)
    ensures |r| >= 1
    decreases |s|
  {
    if |s| == 0 then [[]]
    else
      var rest := Split(s[1..], sep);
      if s[0] == sep then [[]] + rest
      else [[s[0]] + rest[0]] + rest[1..]
  }

  lemma AppendAssoc<T>(a: seq<T>, b: seq<T>, c: seq<T>)
    ensures (a + b) + c == a + (b + c)
  {
  }

  /** Concatenation of a sequence of sequences. */
  function Concat<T>(xss: seq<seq<T>>): seq<T>
    decreases |xss|
  {
    if |xss| == 0 then [] else xss[0] + Concat(xss[1..])
  }

  /** `[vals[i] for i in idxs]`. */
  function Select<T>(vals: seq<T>, idxs: seq<nat>): (r: seq<T>)
    requires forall k :: 0 <= k < |idxs| ==> idxs[k] < |vals|
    ensures |r| == |idxs|
    ensures forall k :: 0 <= k < |idxs| ==> r[k] == vals[idxs[k]]
    decreases |idxs|
  {
    if |idxs| == 0 then [] else [vals[idxs[0]]] + Select(vals, idxs[1..])
  }

  /** `list(filter(bool, xs))` on strings: the non-empty pieces, in order. */
  function NonEmpty<T>(xs: seq<seq<T>>): (r: seq<seq<T>>)
    ensures forall i :: 0 <= i < |r| ==> |r[i]| > 0
    ensures |r| <= |xs|
    decreases |xs|
  {
    if |xs| == 0 then []
    else if |xs[0]| > 0 then [xs[0]] + NonEmpty(xs[1..])
    else NonEmpty(xs[1..])
  }

  /** Chained `s.replace(c, "")` for every `c` in `cs`. */
  function RemoveAll<T(==)>(s: seq<T>, cs: set<T>): (r: seq<T>)
    ensures forall i :: 0 <= i < |r| ==> r[i] !in cs
    decreases |s|
  {
    if |s| == 0 then []
    else if s[0] in cs then RemoveAll(s[1..], cs)
    else [s[0]] + RemoveAll(s[1..], cs)
  }

  /** `RemoveAll` applied to every element. */
  function RemoveAllEach<T(==)>(xs: seq<seq<T>>, cs: set<T>): (r: seq<seq<T>>)
    ensures |r| == |xs|
    decreases |xs|
  {
    if |xs| == 0 then [] else [RemoveAll(xs[0], cs)] + RemoveAllEach(xs[1..], cs)
  }

  /** The non-empty pieces of every element, split on `sep`, concatenated. */
  function PiecesOf<T(==)>(xs: seq<seq<T>>, sep: T): seq<seq<T>>
    decreases |xs|
  {
    if |xs| == 0 then [] else NonEmpty(Split(xs[0], sep)) + PiecesOf(xs[1..], sep)
  }

  lemma NonEmptyAppend<T>(a: seq<seq<T>>, b: seq<seq<T>>)
    ensures NonEmpty(a + b) == NonEmpty(a) + NonEmpty(b)
    decreases |a|
  {
    if |a| > 0 {
      assert (a + b)[1..] == a[1..] + b;
      NonEmptyAppend(a[1..], b);
    } else {
      assert a + b == b;
    }
  }

  lemma RemoveAllAppend<T>(a: seq<T>, b: seq<T>, cs: set<T>)
    ensures RemoveAll(a + b, cs) == RemoveAll(a, cs) + RemoveAll(b, cs)
    decreases |a|
  {
    if |a| > 0 {
      assert (a + b)[1..] == a[1..] + b;
      RemoveAllAppend(a[1..], b, cs);
    } else {
      assert a + b == b;
    }
  }

  lemma RemoveAllNone<T>(s: seq<T>, cs: set<T>)
    requires forall i :: 0 <= i < |s| ==> s[i] !in cs
    ensures RemoveAll(s, cs) == s
    decreases |s|
  {
    if |s| > 0 {
      RemoveAllNone(s[1..], cs);
    }
  }

  /** Removing characters commutes with joining when the separator survives. */
  lemma {:induction false} RemoveAllJoin<T>(sep: seq<T>, xs: seq<seq<T>>, cs: set<T>)
    requires forall i :: 0 <= i < |sep| ==> sep[i] !in cs
    ensures RemoveAll(Join(sep, xs), cs) == Join(sep, RemoveAllEach(xs, cs))
    decreases |xs|
  {
    if |xs| == 0 {
    } else if |xs| == 1 {
      assert RemoveAllEach(xs, cs) == [RemoveAll(xs[0], cs)];
    } else {
      var rest := RemoveAllEach(xs[1..], cs);
      assert RemoveAllEach(xs, cs) == [RemoveAll(xs[0], cs)] + rest;
      assert RemoveAllEach(xs, cs)[1..] == rest;
      RemoveAllJoin(sep, xs[1..], cs);
      RemoveAllAppend(xs[0], sep + Join(sep, xs[1..]), cs);
      RemoveAllAppend(sep, Join(sep, xs[1..]), cs);
      RemoveAllNone(sep, cs);
      assert xs[0] + sep + Join(sep, xs[1..]) == xs[0] + (sep + Join(sep, xs[1..]));
    }
  }

  /** Splitting is local: a separator splits the pieces on either side apart. */
  lemma {:induction false} SplitAppend<T>(a: seq<T>, b: seq<T>, sep: T)
    ensures Split(a + [sep] + b, sep) == Split(a, sep) + Split(b, sep)
    decreases |a|
  {
    var s := a + [sep] + b;
    if |a| == 0 {
      assert s == [sep] + b;
      assert s[1..] == b;
    } else {
      assert s[1..] == a[1..] + [sep] + b;
      SplitAppend(a[1..], b, sep);
    }
  }

  /** A sequence without the separator is a single piece. */
  lemma {:induction false} SplitNoSep<T>(s: seq<T>, sep: T)
    requires sep !in s
    ensures Split(s, sep) == [s]
    decreases |s|
  {
    if |s| > 0 {
      SplitNoSep(s[1..], sep);
      assert [s[0]] + s[1..] == s;
    }
  }

  /** Joining the pieces of a split gives the input back, and no piece holds the separator. */
  lemma {:induction false} JoinSplit<T>(s: seq<T>, sep: T)
    ensures Join([sep], Split(s, sep)) == s
    ensures forall i :: 0 <= i < |Split(s, sep)| ==> sep !in Split(s, sep)[i]
    decreases |s|
  {
    if |s| > 0 {
      var rest := Split(s[1..], sep);
      JoinSplit(s[1..], sep);
      if s[0] == sep {
        assert Split(s, sep) == [[]] + rest;
        assert Split(s, sep)[1..] == rest;
        assert Join([sep], Split(s, sep)) == [] + [sep] + Join([sep], rest);
        assert [sep] + s[1..] == s;
      } else {
        var r := Split(s, sep);
        assert r == [[s[0]] + rest[0]] + rest[1..];
        if |rest| == 1 {
          assert Join([sep], r) == [s[0]] + rest[0];
          assert [s[0]] + s[1..] == s;
        } else {
          assert r[1..] == rest[1..];
          assert Join([sep], rest) == rest[0] + [sep] + Join([sep], rest[1..]);
          assert Join([sep], r) == [s[0]] + rest[0] + [sep] + Join([sep], rest[1..]);
          assert [s[0]] + s[1..] == s;
        }
        forall i | 0 <= i < |r| ensures sep !in r[i] {
          if i > 0 {
            assert r[i] == rest[i];
          } else {
            assert r[0] == [s[0]] + rest[0];
          }
        }
      }
    }
  }

  /** `filter(bool, sep.join(xs).split(sep))` is the concatenated non-empty pieces of every element. */
  lemma {:induction false} SplitJoinPieces<T>(xs: seq<seq<T>>, sep: T)
    ensures NonEmpty(Split(Join([sep], xs), sep)) == PiecesOf(xs, sep)
    decreases |xs|
  {
    if |xs| == 0 {
      assert Split(Join([sep], xs), sep) == [[]];
    } else if |xs| == 1 {
      assert PiecesOf(xs[1..], sep) == [];
    } else {
      assert Join([sep], xs) == xs[0] + [sep] + Join([sep], xs[1..]);
      SplitAppend(xs[0], Join([sep], xs[1..]), sep);
      NonEmptyAppend(Split(xs[0], sep), Split(Join([sep], xs[1..]), sep));
      SplitJoinPieces(xs[1..], sep);
    }
  }

  // ---------------------------------------------------------------------
  // Trimming as done by std::string::find_first_not_of / find_last_not_of
  // ---------------------------------------------------------------------

  /** The set `" \t\r\n"` trimmed by the reproducer's tokenizer. */
  const CxxBlanks: set<char> := {' ', '\t', '\r', '\n'}

  /** `s.find_first_not_of(cs)`, with `None` for `npos`. */
  function FirstNotOf(s: string, cs: set<char>): (r: Option<nat>)
    ensures r.Some? ==> r.value < |s| && s[r.value] !in cs
    ensures r.Some? ==> forall i :: 0 <= i < r.value ==> s[i] in cs
    ensures r.None? ==> forall i :: 0 <= i < |s| ==> s[i] in cs
    decreases |s|
  {
    if |s| == 0 then None
    else if s[0] !in cs then Some(0)
    else match FirstNotOf(s[1..], cs)
      case None => None
      case Some(k) => Some(k + 1)
  }

  /** `s.find_last_not_of(cs)`, with `None` for `npos`. */
  function LastNotOf(s: string, cs: set<char>): (r: Option<nat>)
    ensures r.Some? ==> r.value < |s| && s[r.value] !in cs
    ensures r.Some? ==> forall i :: r.value < i < |s| ==> s[i] in cs
    ensures r.None? ==> forall i :: 0 <= i < |s| ==> s[i] in cs
    decreases |s|
  {
    if |s| == 0 then None
    else if s[|s| - 1] !in cs then Some(|s| - 1)
    else LastNotOf(s[..|s| - 1], cs)
  }

  /**
   * The word the tokenizer keeps from one comma-separated piece: the piece
   * without leading and trailing blanks, or `None` when it is blank or empty.
   */
  function TrimBlanks(token: string): (r: Option<string>)
    ensures r.None? <==> forall i :: 0 <= i < |token| ==> token[i] in CxxBlanks
    ensures r.Some? ==> |r.value| > 0 && r.value[0] !in CxxBlanks && r.value[|r.value| - 1] !in CxxBlanks
    ensures r.Some? ==> exists a, b :: 0 <= a <= b <= |token| && r.value == token[a..b]
    // exactly the blanks before and after the word are dropped
    ensures r.Some? ==> exists a, b :: (&& 0 <= a <= b <= |token| && r.value == token[a..b]
              && (forall i :: 0 <= i < a ==> token[i] in CxxBlanks)
              && (forall i :: b <= i < |token| ==> token[i] in CxxBlanks))
  {
    var start := FirstNotOf(token, CxxBlanks);
    var end := LastNotOf(token, CxxBlanks);
    if start.Some? && end.Some? then
      assert start.value <= end.value;
      var a, b := start.value, end.value + 1;
      assert forall i :: b <= i < |token| ==> token[i] in CxxBlanks;
      Some(token[a..b])
    else None
  }

  // ---------------------------------------------------------------------
  // Python str methods
  // ---------------------------------------------------------------------

  /** The ASCII characters Python's `str.split()` and `str.strip()` treat as whitespace. */
  predicate IsPyWhitespace(c: char) {
    c == ' ' || c == '\t' || c == '\n' || c == '\r' || c == '\U{0B}' || c == '\U{0C}'
    || c == '\U{1C}' || c == '\U{1D}' || c == '\U{1E}' || c == '\U{1F}'
  }

  /** `r` is `s[a..b]`, and everything of `s` outside `a..b` is whitespace. */
  predicate WhitespaceAround(s: string, r: string, a: int, b: int) {
    && 0 <= a <= b <= |s| && r == s[a..b]
    && (forall i :: 0 <= i < a ==> IsPyWhitespace(s[i]))
    && (forall i :: b <= i < |s| ==> IsPyWhitespace(s[i]))
  }

  lemma WhitespaceAroundFront(s: string, r: string, a: int, b: int)
    requires |s| > 0 && IsPyWhitespace(s[0]) && WhitespaceAround(s[1..], r, a, b)
    ensures WhitespaceAround(s, r, a + 1, b + 1)
  {
    assert forall i :: 0 < i < |s| ==> s[i] == s[1..][i - 1];
  }

  lemma WhitespaceAroundBack(s: string, r: string, a: int, b: int)
    requires |s| > 0 && IsPyWhitespace(s[|s| - 1]) && WhitespaceAround(s[..|s| - 1], r, a, b)
    ensures WhitespaceAround(s, r, a, b)
  {
    assert forall i :: 0 <= i < |s| - 1 ==> s[i] == s[..|s| - 1][i];
  }

  /** `s.strip()`. */
  function Strip(s: string): (r: string)
    ensures |r| > 0 ==> !IsPyWhitespace(r[0]) && !IsPyWhitespace(r[|r| - 1])
    ensures |r| <= |s|
    decreases |s|
  {
    if |s| == 0 then s
    else if IsPyWhitespace(s[0]) then Strip(s[1..])
    else if IsPyWhitespace(s[|s| - 1]) then Strip(s[..|s| - 1])
    else s
  }

  /** `s.strip()` is a slice of `s` with only whitespace before and after it. */
  lemma {:induction false} StripSlice(s: string)
    ensures exists a, b :: WhitespaceAround(s, Strip(s), a, b)
    decreases |s|
  {
    if |s| == 0 {
      assert WhitespaceAround(s, s, 0, 0);
    } else if IsPyWhitespace(s[0]) {
      StripSlice(s[1..]);
      var a, b :| WhitespaceAround(s[1..], Strip(s[1..]), a, b);
      WhitespaceAroundFront(s, Strip(s[1..]), a, b);
      assert WhitespaceAround(s, Strip(s), a + 1, b + 1);
    } else if IsPyWhitespace(s[|s| - 1]) {
      StripSlice(s[..|s| - 1]);
      var a, b :| WhitespaceAround(s[..|s| - 1], Strip(s[..|s| - 1]), a, b);
      WhitespaceAroundBack(s, Strip(s[..|s| - 1]), a, b);
      assert WhitespaceAround(s, Strip(s), a, b);
    } else {
      assert Strip(s) == s == s[0..|s|];
      assert WhitespaceAround(s, Strip(s), 0, |s|);
    }
  }

  /** Length of the leading run of non-whitespace characters. */
  function WordLength(s: string): (n: nat)
    ensures n <= |s|
    ensures forall i :: 0 <= i < n ==> !IsPyWhitespace(s[i])
    ensures n < |s| ==> IsPyWhitespace(s[n])
    decreases |s|
  {
    if |s| == 0 || IsPyWhitespace(s[0]) then 0 else 1 + WordLength(s[1..])
  }

  /** `s.split()`: the maximal runs of non-whitespace characters, in order. */
  function Words(s: string): (r: seq<string>)
    ensures forall i :: 0 <= i < |r| ==> |r[i]| > 0
    ensures forall i, j :: 0 <= i < |r| && 0 <= j < |r[i]| ==> !IsPyWhitespace(r[i][j])
    ensures |s| > 0 && !IsPyWhitespace(s[0]) ==> |r| > 0 && r[0] == s[..WordLength(s)]
    decreases |s|
  {
    if |s| == 0 then []
    else if IsPyWhitespace(s[0]) then Words(s[1..])
    else
      var n := WordLength(s);
      [s[..n]] + Words(s[n..])
  }

  /** A whitespace character ends the leading word. */
  lemma {:induction false} WordLengthAppend(a: string, t: string)
    requires |t| > 0 && IsPyWhitespace(t[0])
    ensures WordLength(a + t) == WordLength(a)
    decreases |a|
  {
    if |a| == 0 {
      assert a + t == t;
    } else if !IsPyWhitespace(a[0]) {
      assert (a + t)[1..] == a[1..] + t;
      WordLengthAppend(a[1..], t);
    }
  }

  /** `s.split()` is empty exactly when `s` is all whitespace. */
  lemma {:induction false} WordsEmpty(s: string)
    ensures Words(s) == [] <==> forall i :: 0 <= i < |s| ==> IsPyWhitespace(s[i])
    decreases |s|
  {
    if |s| > 0 && IsPyWhitespace(s[0]) {
      WordsEmpty(s[1..]);
      assert forall i :: 0 < i < |s| ==> s[i] == s[1..][i - 1];
    }
  }

  /** A non-empty string without whitespace is its own only word. */
  lemma WordsSingle(w: string)
    requires |w| > 0 && forall i :: 0 <= i < |w| ==> !IsPyWhitespace(w[i])
    ensures Words(w) == [w]
  {
    assert WordLength(w) == |w|;
    assert w[..|w|] == w && w[|w|..] == [];
  }

  /** A whitespace character splits `s.split()` into the words on either side of it. */
  lemma {:induction false} WordsSplitAt(a: string, c: char, b: string)
    requires IsPyWhitespace(c)
    ensures Words(a + [c] + b) == Words(a) + Words(b)
    decreases |a|
  {
    var s := a + [c] + b;
    if |a| == 0 {
      assert s[1..] == b;
    } else if IsPyWhitespace(a[0]) {
      assert s[1..] == a[1..] + [c] + b;
      WordsSplitAt(a[1..], c, b);
    } else {
      WordLengthAppend(a, [c] + b);
      assert s == a + ([c] + b);
      var n := WordLength(a);
      assert s[..n] == a[..n];
      assert s[n..] == a[n..] + [c] + b;
      WordsSplitAt(a[n..], c, b);
    }
  }

  /** `s.startswith(p)`. */
  predicate StartsWith(s: string, p: string) {
    |p| <= |s| && s[..|p|] == p
  }

  /** A character `\w` matches (ASCII letters, digits and underscore). */
  predicate IsWordChar(c: char) {
    ('a' <= c <= 'z') || ('A' <= c <= 'Z') || ('0' <= c <= '9') || c == '_'
  }

  /** `w` occurs in `s` at `i` between two word boundaries. */
  predicate WordAt(s: string, w: string, i: nat) {
    i + |w| <= |s| && s[i..i + |w|] == w
    && (i == 0 || !IsWordChar(s[i - 1]))
    && (i + |w| == |s| || !IsWordChar(s[i + |w|]))
  }

  /**
   * `re.compile(r'\b' + w + r'\b').search(s)` for a word `w` that starts and
   * ends with a word character.
   */
  predicate ContainsWord(s: string, w: string) {
    exists i: nat :: i <= |s| && WordAt(s, w, i)
  }

}
