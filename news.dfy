/** The rule-governed part of news.js: the summary of an article's text, the relative
    publication time, the meta line, the split of the article list into the top
    stories and the latest stories, the fallback marking of fetched articles, the
    saved result limit and the query parameters of the request. The DOM, `fetch`,
    local storage, timers and the date library are outside this module. */
module News {

  datatype Option<T> = None | Some(value: T)

  function Min(a: int, b: int): int {
    if a < b then a else b
  }

  // ---------------------------------------------------------------------------
  // Characters

  /** The characters JavaScript's `\s` and `String.prototype.trim` treat as white space:
      the ASCII spaces, the Unicode space separators, the line and paragraph
      separators and the byte order mark. */
  const SPACE_CHARS: set<char> := {
    ' ', '\t', '\n', '\r', '\U{000B}', '\U{000C}', '\U{00A0}', '\U{1680}',
    '\U{2000}', '\U{2001}', '\U{2002}', '\U{2003}', '\U{2004}', '\U{2005}',
    '\U{2006}', '\U{2007}', '\U{2008}', '\U{2009}', '\U{200A}',
    '\U{2028}', '\U{2029}', '\U{202F}', '\U{205F}', '\U{3000}', '\U{FEFF}'
  }

  predicate IsSpace(c: char) {
    c in SPACE_CHARS
  }

  /** The sentence terminators `.!?。！？` of the sentence pattern. */
  const TERMINATORS: set<char> := {'.', '!', '?', '。', '！', '？'}

  predicate IsTerminator(c: char) {
    c in TERMINATORS
  }

  /** A character that carries content: neither white space nor a terminator. */
  predicate IsContent(c: char) {
    !IsSpace(c) && !IsTerminator(c)
  }

  /** The text with its white space removed. */
  function NonSpace(s: string): string {
    if s == [] then [] else (if IsSpace(s[0]) then [] else [s[0]]) + NonSpace(s[1..])
  }

  /** The text with its white space and terminators removed. */
  function Content(s: string): string {
    if s == [] then [] else (if IsContent(s[0]) then [s[0]] else []) + Content(s[1..])
  }

  lemma {:induction false} NonSpaceAppend(a: string, b: string)
    ensures NonSpace(a + b) == NonSpace(a) + NonSpace(b)
  {
    if a == [] {
      assert a + b == b;
    } else {
      var head := if IsSpace(a[0]) then [] else [a[0]];
      assert (a + b)[0] == a[0] && (a + b)[1..] == a[1..] + b;
      assert NonSpace(a + b) == head + NonSpace(a[1..] + b);
      NonSpaceAppend(a[1..], b);
      assert NonSpace(a) == head + NonSpace(a[1..]);
    }
  }

  lemma {:induction false} ContentAppend(a: string, b: string)
    ensures Content(a + b) == Content(a) + Content(b)
  {
    if a == [] {
      assert a + b == b;
    } else {
      var head := if IsContent(a[0]) then [a[0]] else [];
      assert (a + b)[0] == a[0] && (a + b)[1..] == a[1..] + b;
      assert Content(a + b) == head + Content(a[1..] + b);
      ContentAppend(a[1..], b);
      assert Content(a) == head + Content(a[1..]);
    }
  }

  lemma {:induction false} NonSpaceOfSpaces(s: string)
    requires forall i :: 0 <= i < |s| ==> IsSpace(s[i])
    ensures NonSpace(s) == []
  {
    if s != [] {
      NonSpaceOfSpaces(s[1..]);
    }
  }

  /** Removing white space first does not change the content. */
  lemma {:induction false} ContentOfNonSpace(s: string)
    ensures Content(NonSpace(s)) == Content(s)
  {
    if s != [] {
      var head := if IsSpace(s[0]) then [] else [s[0]];
      ContentAppend(head, NonSpace(s[1..]));
      ContentOfNonSpace(s[1..]);
    }
  }

  /** A non-space character occurs in a text iff it survives the removal of white space. */
  lemma {:induction false} InNonSpace(c: char, s: string)
    requires !IsSpace(c)
    ensures c in s <==> c in NonSpace(s)
  {
    if s != [] {
      InNonSpace(c, s[1..]);
      assert s == [s[0]] + s[1..];
    }
  }

  // ---------------------------------------------------------------------------
  // Bracket removal: `text.replace(/\[[^\]]*\]/g, '')`

  /** The index of the first `]` at or after `i`. */
  function CloseAt(s: string, i: nat): (j: nat)
    requires i <= |s| && ']' in s[i..]
    ensures i <= j < |s| && s[j] == ']'
    ensures forall m :: i <= m < j ==> s[m] != ']'
    decreases |s| - i
  {
    if s[i] == ']' then i
    else
      assert ']' in s[i + 1..] by {
        assert s[i..] == [s[i]] + s[i + 1..];
      }
      CloseAt(s, i + 1)
  }

  /** No `[` is followed, anywhere later in the text, by a `]`. */
  predicate NoClosedBracket(s: string) {
    s == [] || (if s[0] == '[' then ']' !in s[1..] else NoClosedBracket(s[1..]))
  }

  /** The scan of the global replacement: a `[` with a `]` somewhere after it is
      removed together with everything up to the first such `]`; every other
      character is kept. */
  function StripBrackets(s: string): (r: string)
    ensures forall c :: c in r ==> c in s
    ensures NoClosedBracket(r)
    decreases |s|
  {
    if s == [] then []
    else if s[0] == '[' && ']' in s[1..] then
      var j := CloseAt(s, 1);
      assert forall c :: c in s[j + 1..] ==> c in s by {
        assert s == s[..j + 1] + s[j + 1..];
      }
      StripBrackets(s[j + 1..])
    else
      var r := [s[0]] + StripBrackets(s[1..]);
      assert r[0] == s[0] && r[1..] == StripBrackets(s[1..]);
      assert forall c :: c in s[1..] ==> c in s by {
        assert s == [s[0]] + s[1..];
      }
      r
  }

  /** A text without any `[` is left as it is. */
  lemma {:induction false} StripBracketsKeepsPlainText(s: string)
    requires '[' !in s
    ensures StripBrackets(s) == s
  {
    if s != [] {
      assert s == [s[0]] + s[1..];
      StripBracketsKeepsPlainText(s[1..]);
    }
  }

  /** A text without any `]` is left as it is: an unclosed `[` stays. */
  lemma {:induction false} StripBracketsKeepsUnclosed(s: string)
    requires ']' !in s
    ensures StripBrackets(s) == s
  {
    if s != [] {
      assert s == [s[0]] + s[1..];
      assert ']' !in s[1..];
      StripBracketsKeepsUnclosed(s[1..]);
    }
  }

  /** A `[` with a `]` after it goes together with everything up to that `]`. */
  lemma {:induction false} StripBracketsRemovesPair(y: string, z: string)
    requires ']' !in y
    ensures StripBrackets("[" + y + "]" + z) == StripBrackets(z)
  {
    var s := "[" + y + "]" + z;
    var j := |y| + 1;
    assert s[0] == '[' && s[j] == ']';
    assert s[1..][|y|] == ']';
    assert forall m :: 1 <= m < j ==> s[m] == y[m - 1];
    assert CloseAt(s, 1) == j;
    assert s[j + 1..] == z;
  }

  /** Text without `[` in front of a bracket pair is kept as it is. */
  lemma {:induction false} StripBracketsKeepsPrefix(x: string, t: string)
    requires '[' !in x
    ensures StripBrackets(x + t) == x + StripBrackets(t)
    decreases |x|
  {
    if x != [] {
      var s := x + t;
      assert s[0] == x[0] && s[1..] == x[1..] + t;
      assert x[1..] + StripBrackets(t) == (x + StripBrackets(t))[1..];
      assert '[' !in x[1..] by {
        assert forall c :: c in x[1..] ==> c in x;
      }
      StripBracketsKeepsPrefix(x[1..], t);
    } else {
      assert x + t == t;
    }
  }

  /** The first `[` of the text, when a `]` follows it, goes together with everything up
      to the first such `]`; the text before it is kept and the rest is scanned again. */
  lemma {:induction false} StripBracketsRemovesFirstPair(x: string, y: string, z: string)
    requires '[' !in x && ']' !in y
    ensures StripBrackets(x + "[" + y + "]" + z) == x + StripBrackets(z)
  {
    var t := "[" + y + "]" + z;
    assert x + "[" + y + "]" + z == x + t;
    StripBracketsKeepsPrefix(x, t);
    StripBracketsRemovesPair(y, z);
  }

  /** NoClosedBracket says what its name promises, for every pair of positions. */
  lemma {:induction false} NoClosedBracketMeans(s: string)
    ensures NoClosedBracket(s) <==> forall i, j :: 0 <= i < j < |s| && s[i] == '[' ==> s[j] != ']'
  {
    if s != [] {
      NoClosedBracketMeans(s[1..]);
      if s[0] == '[' {
        if ']' !in s[1..] {
          forall i, j | 0 <= i < j < |s| && s[i] == '['
            ensures s[j] != ']'
          {
            assert s[1..][j - 1] == s[j];
          }
        } else {
          var j :| 0 <= j < |s[1..]| && s[1..][j] == ']';
          assert s[j + 1] == ']';
        }
      } else {
        if NoClosedBracket(s[1..]) {
          forall i, j | 0 <= i < j < |s| && s[i] == '['
            ensures s[j] != ']'
          {
            assert s[1..][i - 1] == s[i] && s[1..][j - 1] == s[j];
          }
        } else {
          var i, j :| 0 <= i < j < |s[1..]| && s[1..][i] == '[' && s[1..][j] == ']';
          assert s[i + 1] == '[' && s[j + 1] == ']';
        }
      }
    }
  }

  /** Whether a text has a closed bracket pair depends only on its non-space characters. */
  lemma {:induction false} NoClosedBracketOfNonSpace(s: string)
    ensures NoClosedBracket(s) <==> NoClosedBracket(NonSpace(s))
  {
    if s != [] {
      NoClosedBracketOfNonSpace(s[1..]);
      var t := NonSpace(s);
      if IsSpace(s[0]) {
        assert t == NonSpace(s[1..]);
      } else {
        assert t[0] == s[0] && t[1..] == NonSpace(s[1..]);
        if s[0] == '[' {
          InNonSpace(']', s[1..]);
        }
      }
    }
  }

  // ---------------------------------------------------------------------------
  // White space: `.replace(/\s+/g, ' ')` and `.trim()`

  /** The length of the run of white space the text starts with. */
  function SpacesBefore(s: string): (k: nat)
    ensures k <= |s|
    ensures forall i :: 0 <= i < k ==> IsSpace(s[i])
    ensures k < |s| ==> !IsSpace(s[k])
  {
    if s != [] && IsSpace(s[0]) then 1 + SpacesBefore(s[1..]) else 0
  }

  /** The length of the run of white space the text ends with. */
  function SpacesAfter(s: string): (k: nat)
    ensures k <= |s|
    ensures forall i :: |s| - k <= i < |s| ==> IsSpace(s[i])
    ensures k < |s| ==> !IsSpace(s[|s| - k - 1])
  {
    if s != [] && IsSpace(s[|s| - 1]) then 1 + SpacesAfter(s[..|s| - 1]) else 0
  }

  /** Where the trimmed text ends: before the run of white space that ends the text
      after its leading white space. */
  function TrimEnd(s: string): (e: nat)
    ensures SpacesBefore(s) <= e <= |s|
    ensures forall i :: e <= i < |s| ==> IsSpace(s[i])
    ensures SpacesBefore(s) < e ==> !IsSpace(s[e - 1])
  {
    var a := SpacesBefore(s);
    var k := SpacesAfter(s[a..]);
    assert forall i :: |s| - k <= i < |s| ==> IsSpace(s[i]) by {
      forall i | |s| - k <= i < |s| ensures IsSpace(s[i]) {
        assert s[a..][i - a] == s[i];
      }
    }
    assert a < |s| - k ==> s[|s| - k - 1] == s[a..][|s[a..]| - k - 1];
    |s| - k
  }

  /** Neither starts nor ends with white space. */
  predicate Trimmed(r: string) {
    r == [] || (!IsSpace(r[0]) && !IsSpace(r[|r| - 1]))
  }

  /** String.prototype.trim: the text without its leading and trailing white space. */
  function Trim(s: string): (r: string)
    ensures Trimmed(r)
  {
    s[SpacesBefore(s)..TrimEnd(s)]
  }

  /** The trimmed text is a slice of the text, and what trimming drops is white space. */
  lemma {:induction false} TrimDropsOnlySpace(s: string)
    ensures exists a, b ::
              && 0 <= a <= b <= |s| && Trim(s) == s[a..b]
              && (forall i :: 0 <= i < a ==> IsSpace(s[i]))
              && (forall i :: b <= i < |s| ==> IsSpace(s[i]))
  {
    var a, b := SpacesBefore(s), TrimEnd(s);
    assert Trim(s) == s[a..b];
  }

  /** White space around a text adds nothing to its content. */
  lemma {:induction false} NonSpaceOfPadded(x: string, y: string, z: string)
    requires forall i :: 0 <= i < |x| ==> IsSpace(x[i])
    requires forall i :: 0 <= i < |z| ==> IsSpace(z[i])
    ensures NonSpace(x + y + z) == NonSpace(y)
  {
    NonSpaceAppend(x + y, z);
    NonSpaceAppend(x, y);
    NonSpaceOfSpaces(x);
    NonSpaceOfSpaces(z);
  }

  /** Trimming removes no content. */
  lemma {:induction false} TrimKeepsNonSpace(s: string)
    ensures NonSpace(Trim(s)) == NonSpace(s)
  {
    var a, b := SpacesBefore(s), TrimEnd(s);
    assert s == s[..a] + s[a..b] + s[b..];
    NonSpaceOfPadded(s[..a], s[a..b], s[b..]);
  }

  /** Every white-space character is a plain space, and no two are adjacent. */
  ghost predicate SingleSpaced(s: string) {
    && (forall i :: 0 <= i < |s| && IsSpace(s[i]) ==> s[i] == ' ')
    && (forall i, j :: 0 <= i < j < |s| && j == i + 1 ==> !(IsSpace(s[i]) && IsSpace(s[j])))
  }

  /** Each maximal run of white space becomes one plain space. */
  function Collapse(s: string): (r: string)
    ensures |r| == 0 <==> |s| == 0
    ensures |s| > 0 ==> (IsSpace(r[0]) <==> IsSpace(s[0]))
    ensures SingleSpaced(r)
    decreases |s|
  {
    if s == [] then []
    else if IsSpace(s[0]) then
      var tail := s[1..];
      var rest := Collapse(tail[SpacesBefore(tail)..]);
      var r := [' '] + rest;
      assert forall i :: 1 <= i < |r| ==> r[i] == rest[i - 1];
      r
    else
      var rest := Collapse(s[1..]);
      var r := [s[0]] + rest;
      assert forall i :: 1 <= i < |r| ==> r[i] == rest[i - 1];
      r
  }

  /** Collapsing white space removes no content. */
  lemma {:induction false} CollapseKeepsNonSpace(s: string)
    ensures NonSpace(Collapse(s)) == NonSpace(s)
    decreases |s|
  {
    if s != [] {
      var tail := s[1..];
      if IsSpace(s[0]) {
        var k := SpacesBefore(tail);
        CollapseKeepsNonSpace(tail[k..]);
        assert tail == tail[..k] + tail[k..];
        NonSpaceAppend(tail[..k], tail[k..]);
        NonSpaceOfSpaces(tail[..k]);
        NonSpaceAppend([' '], Collapse(tail[k..]));
      } else {
        CollapseKeepsNonSpace(tail);
        NonSpaceAppend([s[0]], Collapse(tail));
      }
    }
  }

  /** A text already in collapsed form is left as it is. */
  lemma {:induction false} CollapseKeepsSingleSpaced(s: string)
    requires SingleSpaced(s)
    ensures Collapse(s) == s
  {
    if s != [] {
      var tail := s[1..];
      assert SingleSpaced(tail) by {
        forall i | 0 <= i < |tail| && IsSpace(tail[i])
          ensures tail[i] == ' ' && (i + 1 < |tail| ==> !IsSpace(tail[i + 1]))
        {
          assert tail[i] == s[i + 1];
        }
      }
      if IsSpace(s[0]) {
        assert tail != [] ==> !IsSpace(tail[0]);
        assert SpacesBefore(tail) == 0;
        assert tail[0..] == tail;
      }
      CollapseKeepsSingleSpaced(tail);
      assert s == [s[0]] + tail;
    }
  }

  lemma {:induction false} SliceKeepsSingleSpaced(s: string, a: int, b: int)
    requires SingleSpaced(s) && 0 <= a <= b <= |s|
    ensures SingleSpaced(s[a..b])
  {
    var t := s[a..b];
    forall i | 0 <= i < |t| && IsSpace(t[i])
      ensures t[i] == ' ' && (i + 1 < |t| ==> !IsSpace(t[i + 1]))
    {
      assert t[i] == s[a + i];
      assert i + 1 < |t| ==> t[i + 1] == s[a + i + 1];
    }
  }

  // ---------------------------------------------------------------------------
  // Words: what the white-space handling must not change

  /** The length of the run of non-space characters the text starts with. */
  function WordLength(s: string): (k: nat)
    ensures k <= |s|
    ensures forall i :: 0 <= i < k ==> !IsSpace(s[i])
    ensures k < |s| ==> IsSpace(s[k])
  {
    if s != [] && !IsSpace(s[0]) then 1 + WordLength(s[1..]) else 0
  }

  predicate IsWord(w: string) {
    |w| > 0 && forall i :: 0 <= i < |w| ==> !IsSpace(w[i])
  }

  /** The words of a text: its maximal runs of non-space characters, in order. */
  function Words(s: string): (ws: seq<string>)
    ensures forall i :: 0 <= i < |ws| ==> IsWord(ws[i])
    decreases |s|
  {
    if s == [] then []
    else if IsSpace(s[0]) then Words(s[1..])
    else
      var k := WordLength(s);
      [s[..k]] + Words(s[k..])
  }

  predicate EndsWithSpace(t: string) {
    |t| > 0 && IsSpace(t[|t| - 1])
  }

  lemma {:induction false} WordsOfSpaces(s: string)
    requires forall i :: 0 <= i < |s| ==> IsSpace(s[i])
    ensures Words(s) == []
  {
    if s != [] {
      WordsOfSpaces(s[1..]);
    }
  }

  /** Text after the first word does not change where it ends, as long as the word
      is already ended or the text goes on with white space. */
  lemma {:induction false} WordLengthOfAppend(y: string, z: string)
    requires WordLength(y) < |y| || z == [] || IsSpace(z[0])
    ensures WordLength(y + z) == WordLength(y)
    decreases |y|
  {
    if y == [] {
      assert y + z == z;
    } else if IsSpace(y[0]) {
      assert (y + z)[0] == y[0];
    } else {
      assert (y + z)[0] == y[0] && (y + z)[1..] == y[1..] + z;
      WordLengthOfAppend(y[1..], z);
    }
  }

  /** A word followed by nothing or by white space is the first word. */
  lemma {:induction false} WordsOfRun(w: string, t: string)
    requires IsWord(w) && (t == [] || IsSpace(t[0]))
    ensures Words(w + t) == [w] + Words(t)
  {
    var s := w + t;
    WordLengthOfAppend(w, t);
    assert WordLength(w) == |w|;
    assert s[0] == w[0];
    assert s[..|w|] == w && s[|w|..] == t;
  }

  /** Two texts that meet at white space (or at an end) have the words of both. */
  lemma {:induction false} WordsAppend(y: string, z: string)
    requires y == [] || z == [] || IsSpace(y[|y| - 1]) || IsSpace(z[0])
    ensures Words(y + z) == Words(y) + Words(z)
    decreases |y|, 1
  {
    if y == [] {
      assert y + z == z;
    } else if IsSpace(y[0]) {
      var s := y + z;
      assert s[0] == y[0] && s[1..] == y[1..] + z;
      assert y[1..] != [] ==> y[1..][|y| - 2] == y[|y| - 1];
      WordsAppend(y[1..], z);
    } else {
      WordsAppendAfterWord(y, z);
    }
  }

  lemma {:induction false} WordsAppendAfterWord(y: string, z: string)
    requires y != [] && !IsSpace(y[0])
    requires z == [] || IsSpace(y[|y| - 1]) || IsSpace(z[0])
    ensures Words(y + z) == Words(y) + Words(z)
    decreases |y|, 0
  {
    var m := WordLength(y);
    var w, r := y[..m], y[m..];
    assert m == |y| ==> !IsSpace(y[|y| - 1]);
    WordLengthOfAppend(y, z);
    AppendSlices(y, z, m);
    WordsAtWord(y + z);
    WordsAtWord(y);
    assert Words(r + z) == Words(r) + Words(z) by {
      if m < |y| {
        assert r[|r| - 1] == y[|y| - 1];
        WordsAppend(r, z);
      } else {
        assert r == [] && r + z == z;
      }
    }
    assert Words(y + z) == [w] + Words(r + z);
    assert Words(y) == [w] + Words(r);
  }

  /** The first word of a text that starts with one. */
  lemma {:induction false} WordsAtWord(s: string)
    requires s != [] && !IsSpace(s[0])
    ensures Words(s) == [s[..WordLength(s)]] + Words(s[WordLength(s)..])
  {
  }

  lemma {:induction false} AppendSlices(y: string, z: string, m: nat)
    requires 0 < |y| && m <= |y|
    ensures (y + z)[0] == y[0]
    ensures (y + z)[..m] == y[..m] && (y + z)[m..] == y[m..] + z
  {
  }

  /** Collapsing starts with a non-space first character as it is. */
  lemma {:induction false} CollapseAtNonSpace(s: string)
    requires s != [] && !IsSpace(s[0])
    ensures Collapse(s) == [s[0]] + Collapse(s[1..])
  {
  }

  /** Splitting off the first character of a text and re-joining its first m. */
  lemma {:induction false} ConsSlices(s: string, m: nat, c: string)
    requires 1 <= m <= |s|
    ensures s[1..][m - 1..] == s[m..]
    ensures [s[0]] + (s[1..][..m - 1] + c) == s[..m] + c
  {
    assert [s[0]] + s[1..][..m - 1] == s[..m];
  }

  /** Non-space characters at the front pass through collapsing as they are. */
  lemma {:induction false} CollapseKeepsWordStart(s: string, m: nat)
    requires m <= |s| && forall i :: 0 <= i < m ==> !IsSpace(s[i])
    ensures Collapse(s) == s[..m] + Collapse(s[m..])
  {
    if m == 0 {
      assert s[..m] + Collapse(s[m..]) == Collapse(s);
    } else {
      var tail := s[1..];
      assert forall i :: 0 <= i < m - 1 ==> tail[i] == s[i + 1];
      CollapseKeepsWordStart(tail, m - 1);
      CollapseAtNonSpace(s);
      ConsSlices(s, m, Collapse(s[m..]));
    }
  }

  /** Collapsing white space keeps the words, in order. */
  lemma {:induction false} CollapseKeepsWords(s: string)
    ensures Words(Collapse(s)) == Words(s)
    decreases |s|, 1
  {
    if s != [] {
      if IsSpace(s[0]) {
        CollapseKeepsWordsAtSpace(s);
      } else {
        var m := WordLength(s);
        CollapseKeepsWordStart(s, m);
        CollapseKeepsWords(s[m..]);
        WordsOfRun(s[..m], Collapse(s[m..]));
      }
    }
  }

  lemma {:induction false} CollapseKeepsWordsAtSpace(s: string)
    requires s != [] && IsSpace(s[0])
    ensures Words(Collapse(s)) == Words(s)
    decreases |s|, 0
  {
    var tail := s[1..];
    var rest := tail[SpacesBefore(tail)..];
    CollapseKeepsWords(rest);
    var c := Collapse(rest);
    assert Collapse(s) == [' '] + c;
    assert ([' '] + c)[0] == ' ' && ([' '] + c)[1..] == c;
    WordsSkipSpaces(tail, SpacesBefore(tail));
  }

  /** Leading white space holds no words. */
  lemma {:induction false} WordsSkipSpaces(s: string, k: nat)
    requires k <= |s| && forall i :: 0 <= i < k ==> IsSpace(s[i])
    ensures Words(s) == Words(s[k..])
  {
    if k > 0 {
      WordsSkipSpaces(s[1..], k - 1);
      assert s[1..][k - 1..] == s[k..];
    }
  }

  /** The collapsed text ends with white space exactly when the text does. */
  lemma {:induction false} CollapseKeepsEndSpace(s: string)
    ensures EndsWithSpace(Collapse(s)) <==> EndsWithSpace(s)
    decreases |s|
  {
    if s != [] {
      var tail := s[1..];
      if IsSpace(s[0]) {
        var k := SpacesBefore(tail);
        var rest := tail[k..];
        CollapseKeepsEndSpace(rest);
        var c := Collapse(rest);
        assert Collapse(s) == [' '] + c;
        if rest == [] {
          assert tail != [] ==> s[|s| - 1] == tail[|tail| - 1];
        } else {
          assert s[|s| - 1] == rest[|rest| - 1];
          assert ([' '] + c)[|c|] == c[|c| - 1];
        }
      } else {
        CollapseKeepsEndSpace(tail);
        var c := Collapse(tail);
        assert Collapse(s) == [s[0]] + c;
        if tail != [] {
          assert s[|s| - 1] == tail[|tail| - 1];
          assert ([s[0]] + c)[|c|] == c[|c| - 1];
        }
      }
    }
  }

  /** White space around a text adds no words. */
  lemma {:induction false} WordsOfPadded(x: string, y: string, z: string)
    requires forall i :: 0 <= i < |x| ==> IsSpace(x[i])
    requires forall i :: 0 <= i < |z| ==> IsSpace(z[i])
    ensures Words(x + y + z) == Words(y)
  {
    WordsAppend(x, y + z);
    WordsAppend(y, z);
    WordsOfSpaces(x);
    WordsOfSpaces(z);
    assert x + y + z == x + (y + z);
  }

  /** Trimming keeps the words, in order. */
  lemma {:induction false} TrimKeepsWords(s: string)
    ensures Words(Trim(s)) == Words(s)
  {
    var a, b := SpacesBefore(s), TrimEnd(s);
    assert s == s[..a] + s[a..b] + s[b..];
    WordsOfPadded(s[..a], s[a..b], s[b..]);
  }

  /** The cleaned text of summarizeText: brackets removed, white space collapsed, trimmed. */
  function Clean(text: string): (r: string)
    ensures Trimmed(r)
  {
    Trim(Collapse(StripBrackets(text)))
  }

  /** The cleaned text is single-spaced, has no white space at either end, holds no
      `[`...`]` pair and keeps every non-space character the bracket removal kept. */
  lemma {:induction false} CleanTextIsNormalised(text: string)
    ensures var r := Clean(text);
      && SingleSpaced(r)
      && Trimmed(r)
      && (forall i, j :: 0 <= i < j < |r| && r[i] == '[' ==> r[j] != ']')
      && NonSpace(r) == NonSpace(StripBrackets(text))
      && Words(r) == Words(StripBrackets(text))
  {
    var stripped := StripBrackets(text);
    var collapsed := Collapse(stripped);
    var r := Trim(collapsed);
    var a, b := SpacesBefore(collapsed), TrimEnd(collapsed);
    assert r == collapsed[a..b];
    SliceKeepsSingleSpaced(collapsed, a, b);
    CollapseKeepsNonSpace(stripped);
    TrimKeepsNonSpace(collapsed);
    NoClosedBracketOfNonSpace(stripped);
    NoClosedBracketOfNonSpace(r);
    NoClosedBracketMeans(r);
    CollapseKeepsWords(stripped);
    TrimKeepsWords(collapsed);
  }

  // ---------------------------------------------------------------------------
  // Sentences: `cleanText.match(/[^.!?。！？]+[.!?。！？]?/g)`

  /** The length of the run of non-terminators the text starts with. */
  function RunLength(s: string): (k: nat)
    ensures k <= |s|
    ensures forall i :: 0 <= i < k ==> !IsTerminator(s[i])
    ensures k < |s| ==> IsTerminator(s[k])
  {
    if s != [] && !IsTerminator(s[0]) then 1 + RunLength(s[1..]) else 0
  }

  /** One match of the sentence pattern: a non-terminator run and at most one
      terminator, at its end. */
  predicate IsSentence(t: string) {
    |t| > 0 && !IsTerminator(t[0]) && forall i :: 0 <= i < |t| - 1 ==> !IsTerminator(t[i])
  }

  predicate EndsWithTerminator(t: string) {
    |t| > 0 && IsTerminator(t[|t| - 1])
  }

  /** All matches, left to right; terminators no run precedes are skipped. */
  function Sentences(s: string): (xs: seq<string>)
    ensures forall i :: 0 <= i < |xs| ==> IsSentence(xs[i])
    ensures forall i :: 0 <= i < |xs| - 1 ==> EndsWithTerminator(xs[i])
    ensures xs == [] <==> forall i :: 0 <= i < |s| ==> IsTerminator(s[i])
    decreases |s|
  {
    if s == [] then []
    else if IsTerminator(s[0]) then
      assert forall i :: 1 <= i < |s| ==> s[i] == s[1..][i - 1];
      Sentences(s[1..])
    else
      var k := RunLength(s);
      var end := if k < |s| then k + 1 else k;
      var rest := Sentences(s[end..]);
      assert k == |s| ==> rest == [];
      assert k < |s| ==> EndsWithTerminator(s[..end]);
      [s[..end]] + rest
  }

  /** The text with every terminator removed that starts it or follows another
      terminator: the characters the sentence pattern skips. */
  function DropStrayTerminators(s: string): string
    decreases |s|
  {
    if s == [] then []
    else if IsTerminator(s[0]) then DropStrayTerminators(s[1..])
    else if |s| >= 2 && IsTerminator(s[1]) then s[..2] + DropStrayTerminators(s[2..])
    else [s[0]] + DropStrayTerminators(s[1..])
  }

  /** A run of k non-terminators and the terminator after it (if any) are kept whole. */
  lemma {:induction false} DropStrayTerminatorsKeepsRun(s: string, k: nat)
    requires 1 <= k <= |s|
    requires forall i :: 0 <= i < k ==> !IsTerminator(s[i])
    requires k < |s| ==> IsTerminator(s[k])
    ensures var end := if k < |s| then k + 1 else k;
      DropStrayTerminators(s) == s[..end] + DropStrayTerminators(s[end..])
  {
    var end := if k < |s| then k + 1 else k;
    if k == 1 {
      if |s| >= 2 {
        assert end == 2 && IsTerminator(s[1]);
      } else {
        assert s[..end] == [s[0]] && s[end..] == [] && s[1..] == [];
        assert DropStrayTerminators(s) == [s[0]] + DropStrayTerminators([]);
      }
    } else {
      var t := s[1..];
      assert !IsTerminator(s[1]);
      assert DropStrayTerminators(s) == [s[0]] + DropStrayTerminators(t);
      DropStrayTerminatorsKeepsRun(t, k - 1);
      assert t[end - 1..] == s[end..];
      assert s[..end] == [s[0]] + t[..end - 1];
    }
  }

  /** The matches cover the text exactly, less the terminators no run precedes: white
      space and every other character are kept, in order. */
  lemma {:induction false} SentencesCoverText(s: string)
    ensures Concat(Sentences(s)) == DropStrayTerminators(s)
    decreases |s|
  {
    if s != [] {
      if IsTerminator(s[0]) {
        SentencesCoverText(s[1..]);
      } else {
        var k := RunLength(s);
        var end := if k < |s| then k + 1 else k;
        var xs := Sentences(s);
        assert xs[0] == s[..end] && xs[1..] == Sentences(s[end..]);
        SentencesCoverText(s[end..]);
        DropStrayTerminatorsKeepsRun(s, k);
      }
    }
  }

  function Concat(xs: seq<string>): string {
    if xs == [] then "" else xs[0] + Concat(xs[1..])
  }

  /** The words of every string of the list, in order. */
  function AllWords(xs: seq<string>): seq<string> {
    if xs == [] then [] else Words(xs[0]) + AllWords(xs[1..])
  }

  /** A space between two texts adds no non-space character. */
  lemma {:induction false} NonSpaceAroundSpace(x: string, y: string)
    ensures NonSpace(x + " " + y) == NonSpace(x) + NonSpace(y)
  {
    NonSpaceAppend(x + " ", y);
    NonSpaceAppend(x, " ");
    assert NonSpace(" ") == [];
  }

  /** A space between two texts separates their words. */
  lemma {:induction false} WordsAroundSpace(x: string, y: string)
    ensures Words(x + " " + y) == Words(x) + Words(y)
  {
    WordsAppend(x + " ", y);
    WordsAppend(x, " ");
    WordsOfSpaces(" ");
    assert Words(x) + [] == Words(x);
  }

  /** Array.prototype.join(' '): the parts' non-space characters in order, and a word
      boundary between every two parts, so the words are those of the parts in turn. */
  function Join(xs: seq<string>): (r: string)
    ensures NonSpace(r) == NonSpace(Concat(xs))
    ensures Words(r) == AllWords(xs)
  {
    if |xs| == 0 then ""
    else if |xs| == 1 then
      assert Concat(xs) == xs[0] + Concat([]) && xs[0] + "" == xs[0];
      assert AllWords(xs) == Words(xs[0]) + AllWords([]);
      xs[0]
    else
      var rest := Join(xs[1..]);
      NonSpaceAroundSpace(xs[0], rest);
      NonSpaceAppend(xs[0], Concat(xs[1..]));
      WordsAroundSpace(xs[0], rest);
      xs[0] + " " + rest
  }

  lemma {:induction false} ConcatAppend(xs: seq<string>, ys: seq<string>)
    ensures Concat(xs + ys) == Concat(xs) + Concat(ys)
  {
    if xs == [] {
      assert xs + ys == ys;
    } else {
      assert (xs + ys)[0] == xs[0] && (xs + ys)[1..] == xs[1..] + ys;
      ConcatAppend(xs[1..], ys);
    }
  }

  /** Dropping stray terminators keeps the content. */
  lemma {:induction false} DropStrayTerminatorsKeepsContent(s: string)
    ensures Content(DropStrayTerminators(s)) == Content(s)
    decreases |s|
  {
    if s != [] {
      if IsTerminator(s[0]) {
        DropStrayTerminatorsKeepsContent(s[1..]);
      } else if |s| >= 2 && IsTerminator(s[1]) {
        DropStrayTerminatorsKeepsContent(s[2..]);
        ContentAppend(s[..2], DropStrayTerminators(s[2..]));
        ContentAppend(s[..2], s[2..]);
        assert s[..2] + s[2..] == s;
      } else {
        DropStrayTerminatorsKeepsContent(s[1..]);
        ContentAppend([s[0]], DropStrayTerminators(s[1..]));
        ContentAppend([s[0]], s[1..]);
        assert [s[0]] + s[1..] == s;
      }
    }
  }

  /** The sentences hold all the content of the text, in order. */
  lemma {:induction false} SentencesKeepContent(s: string)
    ensures Content(Concat(Sentences(s))) == Content(s)
  {
    SentencesCoverText(s);
    DropStrayTerminatorsKeepsContent(s);
  }

  /** Joining with spaces adds no content. */
  lemma {:induction false} JoinKeepsContent(xs: seq<string>)
    ensures Content(Join(xs)) == Content(Concat(xs))
  {
    ContentOfNonSpace(Join(xs));
    ContentOfNonSpace(Concat(xs));
  }

  // ---------------------------------------------------------------------------
  // summarizeText

  const NO_SUMMARY: string := "暂无摘要，点击查看原文了解详情。"
  const SUMMARY_SENTENCES: nat := 2
  const MIN_SUMMARY_LENGTH: nat := 20

  /** The sentence list of summarizeText: the matches, or the whole text when none. */
  function SummarySentences(clean: string): seq<string> {
    var xs := Sentences(clean);
    if xs == [] then [clean] else xs
  }

  /** sentences.slice(0, maxSentences) */
  function LeadingPart(clean: string, maxSentences: nat): seq<string> {
    var xs := SummarySentences(clean);
    xs[..Min(maxSentences, |xs|)]
  }

  /** sentences.slice(0, maxSentences).join(' ').trim(): the leading sentences, with
      their non-space characters kept in order, their words kept apart, and no white
      space at either end. */
  function LeadingSentences(clean: string, maxSentences: nat): (r: string)
    ensures Trimmed(r)
    ensures NonSpace(r) == NonSpace(Concat(LeadingPart(clean, maxSentences)))
    ensures Words(r) == AllWords(LeadingPart(clean, maxSentences))
  {
    var joined := Join(LeadingPart(clean, maxSentences));
    TrimKeepsNonSpace(joined);
    TrimKeepsWords(joined);
    Trim(joined)
  }

  /** summarizeText: a placeholder for a missing text; otherwise the leading sentences
      when they make more than 20 characters, else the whole cleaned text. */
  function Summarize(text: string, maxSentences: nat): (r: string)
    ensures text == "" ==> r == NO_SUMMARY
    ensures text != "" ==> SummaryShape(r, Clean(text))
  {
    if text == "" then NO_SUMMARY
    else
      var clean := Clean(text);
      var summary := LeadingSentences(clean, maxSentences);
      if |summary| > MIN_SUMMARY_LENGTH then summary else clean
  }

  lemma {:induction false} TrimKeepsContent(s: string)
    ensures Content(Trim(s)) == Content(s)
  {
    TrimKeepsNonSpace(s);
    ContentOfNonSpace(Trim(s));
    ContentOfNonSpace(s);
  }

  lemma {:induction false} NoContentInTerminators(s: string)
    requires forall i :: 0 <= i < |s| ==> IsTerminator(s[i])
    ensures Content(s) == []
  {
    if s != [] {
      NoContentInTerminators(s[1..]);
    }
  }

  /** The content of the first k strings begins the content of them all. */
  lemma {:induction false} TakeContentPrefix(xs: seq<string>, k: nat)
    requires k <= |xs|
    ensures Content(Concat(xs[..k])) <= Content(Concat(xs))
  {
    assert xs == xs[..k] + xs[k..];
    ConcatAppend(xs[..k], xs[k..]);
    ContentAppend(Concat(xs[..k]), Concat(xs[k..]));
    var a, b := Content(Concat(xs[..k])), Content(Concat(xs[k..]));
    assert (a + b)[..|a|] == a;
  }

  /** The summary sentences hold all the content of the text. */
  lemma {:induction false} SummarySentencesKeepContent(clean: string)
    ensures Content(Concat(SummarySentences(clean))) == Content(clean)
  {
    if Sentences(clean) == [] {
      assert Concat([clean]) == clean + Concat([]);
      assert clean + "" == clean;
    } else {
      SentencesKeepContent(clean);
    }
  }

  /** The content of the leading sentences begins the content of the text, and is
      all of it when no sentence is cut off. */
  lemma {:induction false} LeadingSentencesArePrefix(clean: string, n: nat)
    ensures Content(LeadingSentences(clean, n)) <= Content(clean)
    ensures |Sentences(clean)| <= n ==> Content(LeadingSentences(clean, n)) == Content(clean)
  {
    var xs := SummarySentences(clean);
    var k := Min(n, |xs|);
    assert LeadingSentences(clean, n) == Trim(Join(xs[..k])) by {
      assert LeadingPart(clean, n) == xs[..k];
    }
    SummarySentencesKeepContent(clean);
    TrimKeepsContent(Join(xs[..k]));
    JoinKeepsContent(xs[..k]);
    TakeContentPrefix(xs, k);
    if Sentences(clean) == [] {
      NoContentInTerminators(clean);
    } else if |Sentences(clean)| <= n {
      assert xs[..k] == xs;
    }
  }

  /** What summarizeText promises: the placeholder for a missing text; otherwise the
      whole cleaned text when the leading sentences make at most 20 characters, and
      else the leading sentences themselves, as their non-space characters and words show; the
      summary's content begins the cleaned text's content, and is all of it when at
      most `maxSentences` sentences are found. */
  lemma {:induction false} SummaryIsLeadingPart(text: string, maxSentences: nat)
    ensures text == "" ==> Summarize(text, maxSentences) == NO_SUMMARY
    ensures text != "" && |LeadingSentences(Clean(text), maxSentences)| <= MIN_SUMMARY_LENGTH ==>
              Summarize(text, maxSentences) == Clean(text)
    ensures text != "" && |LeadingSentences(Clean(text), maxSentences)| > MIN_SUMMARY_LENGTH ==>
              && NonSpace(Summarize(text, maxSentences)) == NonSpace(Concat(LeadingPart(Clean(text), maxSentences)))
              && Words(Summarize(text, maxSentences)) == AllWords(LeadingPart(Clean(text), maxSentences))
    ensures text != "" ==> Content(Summarize(text, maxSentences)) <= Content(Clean(text))
    ensures text != "" && |Sentences(Clean(text))| <= maxSentences ==>
              Content(Summarize(text, maxSentences)) == Content(Clean(text))
  {
    if text != "" {
      SummaryContent(text, maxSentences);
      SummarizeCases(text, maxSentences);
    }
  }

  /** The two outcomes of summarizeText for a text that is present. */
  lemma {:induction false} SummarizeCases(text: string, maxSentences: nat)
    requires text != ""
    ensures var summary := LeadingSentences(Clean(text), maxSentences);
      Summarize(text, maxSentences) == if |summary| > MIN_SUMMARY_LENGTH then summary else Clean(text)
  {
  }

  /** Either the cleaned text or longer than 20 characters, and never with white
      space at either end. */
  predicate SummaryShape(r: string, clean: string) {
    (r == clean || |r| > MIN_SUMMARY_LENGTH) && Trimmed(r)
  }

  /** The content part of the summary property. */
  lemma {:induction false} SummaryContent(text: string, maxSentences: nat)
    requires text != ""
    ensures Content(Summarize(text, maxSentences)) <= Content(Clean(text))
    ensures |Sentences(Clean(text))| <= maxSentences ==>
              Content(Summarize(text, maxSentences)) == Content(Clean(text))
  {
    SummarizeCases(text, maxSentences);
    LeadingSentencesArePrefix(Clean(text), maxSentences);
  }

  // ---------------------------------------------------------------------------
  // Numbers as text

  predicate IsDigit(c: char) {
    '0' <= c <= '9'
  }

  function DigitChar(d: int): (c: char)
    requires 0 <= d < 10
    ensures IsDigit(c) && c as int - '0' as int == d
  {
    ('0' as int + d) as char
  }

  /** Number.prototype.toString for a natural number: decimal, no leading zero. */
  function NatToString(n: nat): (s: string)
    ensures |s| > 0 && forall i :: 0 <= i < |s| ==> IsDigit(s[i])
    ensures s[0] == '0' <==> n == 0
  {
    if n < 10 then [DigitChar(n)] else NatToString(n / 10) + [DigitChar(n % 10)]
  }

  function IntToString(i: int): string {
    if i < 0 then "-" + NatToString(-i) else NatToString(i)
  }

  /** The value of a string of decimal digits. */
  function DigitsValue(s: string): nat
    requires forall i :: 0 <= i < |s| ==> IsDigit(s[i])
  {
    if s == [] then 0
    else
      assert IsDigit(s[|s| - 1]);
      10 * DigitsValue(s[..|s| - 1]) + (s[|s| - 1] as int - '0' as int)
  }

  lemma {:induction false} NatToStringRoundTrip(n: nat)
    ensures DigitsValue(NatToString(n)) == n
  {
    if n >= 10 {
      NatToStringRoundTrip(n / 10);
      var s := NatToString(n);
      assert s[..|s| - 1] == NatToString(n / 10);
    }
  }

  // ---------------------------------------------------------------------------
  // formatRelativeTime and formatMeta

  const MINUTE_MS: int := 60000
  const HOUR_MS: int := 3600000
  const DAY_MS: int := 86400000

  const JUST_NOW: string := "刚刚"
  const YESTERDAY: string := "昨天"
  const UNKNOWN_TIME: string := "未知时间"
  const UNKNOWN_SOURCE: string := "未知来源"
  const META_SEPARATOR: string := " · "
  const MINUTES_AGO: string := " 分钟前"
  const HOURS_AGO: string := " 小时前"
  const DAYS_AGO: string := " 天前"

  /** The bucket formatRelativeTime chooses. */
  datatype Age =
    | JustNow
    | MinutesAgo(minutes: int)
    | HoursAgo(hours: int)
    | Yesterday
    | DaysAgo(days: int)
    | OnDate(date: string)
    | UnknownTime

  /** formatRelativeTime on the elapsed milliseconds (None for a missing or
      unparseable date); `dateLabel` is the locale's short date of the article. The
      floors of the source are Dafny's `/`, which floors for a positive divisor. */
  function RelativeAge(elapsed: Option<int>, dateLabel: string): (r: Age)
    ensures r == UnknownTime <==> elapsed == None
    ensures r.MinutesAgo? ==> 1 <= r.minutes < 60
    ensures r.HoursAgo? ==> 1 <= r.hours < 24
    ensures r.DaysAgo? ==> 2 <= r.days < 7
    ensures r.OnDate? ==> r.date == dateLabel
  {
    if elapsed.None? then UnknownTime
    else
      var minutes := elapsed.value / MINUTE_MS;
      if minutes < 1 then JustNow
      else if minutes < 60 then MinutesAgo(minutes)
      else
        var hours := minutes / 60;
        if hours < 24 then HoursAgo(hours)
        else
          var days := hours / 24;
          if days == 1 then Yesterday
          else if days < 7 then DaysAgo(days)
          else OnDate(dateLabel)
  }

  /** The buckets in terms of the elapsed milliseconds themselves: exactly one applies,
      future dates count as just now, and each count is the whole number of units. */
  lemma {:induction false} RelativeAgeBuckets(elapsed: Option<int>, dateLabel: string)
    ensures var r := RelativeAge(elapsed, dateLabel);
      && (r == UnknownTime <==> elapsed == None)
      && (r == JustNow <==> elapsed.Some? && elapsed.value < MINUTE_MS)
      && (r.MinutesAgo? <==> elapsed.Some? && MINUTE_MS <= elapsed.value < HOUR_MS)
      && (r.MinutesAgo? ==> r.minutes == elapsed.value / MINUTE_MS && 1 <= r.minutes < 60)
      && (r.HoursAgo? <==> elapsed.Some? && HOUR_MS <= elapsed.value < DAY_MS)
      && (r.HoursAgo? ==> r.hours == elapsed.value / HOUR_MS && 1 <= r.hours < 24)
      && (r == Yesterday <==> elapsed.Some? && DAY_MS <= elapsed.value < 2 * DAY_MS)
      && (r.DaysAgo? <==> elapsed.Some? && 2 * DAY_MS <= elapsed.value < 7 * DAY_MS)
      && (r.DaysAgo? ==> r.days == elapsed.value / DAY_MS && 2 <= r.days < 7)
      && (r.OnDate? <==> elapsed.Some? && 7 * DAY_MS <= elapsed.value)
      && (r.OnDate? ==> r.date == dateLabel)
  {
    if elapsed.Some? {
      var e := elapsed.value;
      var minutes := e / MINUTE_MS;
      var hours := minutes / 60;
      var days := hours / 24;
      assert hours == e / HOUR_MS;
      assert days == e / DAY_MS;
    }
  }

  function AgeText(a: Age): string {
    match a
    case JustNow => JUST_NOW
    case MinutesAgo(m) => IntToString(m) + MINUTES_AGO
    case HoursAgo(h) => IntToString(h) + HOURS_AGO
    case Yesterday => YESTERDAY
    case DaysAgo(d) => IntToString(d) + DAYS_AGO
    case OnDate(date) => date
    case UnknownTime => UNKNOWN_TIME
  }

  /** formatRelativeTime of an article's publication instant (epoch milliseconds) at
      the instant `now`; `dateLabel` stands for toLocaleDateString. */
  function FormatRelativeTime(publishedAt: Option<int>, now: int, dateLabel: int -> string): (r: string)
    ensures publishedAt == None ==> r == UNKNOWN_TIME
    ensures publishedAt.Some? ==>
              var e := now - publishedAt.value;
              && (e < MINUTE_MS ==> r == JUST_NOW)
              && (MINUTE_MS <= e < HOUR_MS ==> r == IntToString(e / MINUTE_MS) + MINUTES_AGO)
              && (HOUR_MS <= e < DAY_MS ==> r == IntToString(e / HOUR_MS) + HOURS_AGO)
              && (DAY_MS <= e < 2 * DAY_MS ==> r == YESTERDAY)
              && (2 * DAY_MS <= e < 7 * DAY_MS ==> r == IntToString(e / DAY_MS) + DAYS_AGO)
              && (7 * DAY_MS <= e ==> r == dateLabel(publishedAt.value))
  {
    match publishedAt
    case None => AgeText(RelativeAge(None, ""))
    case Some(t) =>
      RelativeAgeBuckets(Some(now - t), dateLabel(t));
      AgeText(RelativeAge(Some(now - t), dateLabel(t)))
  }

  /** An article as the API (or the sample list) delivers it; an empty string stands
      for a missing field, None for a missing or unparseable publication date. */
  datatype Article = Article(
    title: string,
    description: string,
    content: string,
    url: string,
    sourceName: string,
    publishedAt: Option<int>,
    isFallback: bool)

  /** formatMeta: the source name (or the unknown-source label), the separator and the
      relative time. */
  function FormatMeta(a: Article, now: int, dateLabel: int -> string): (r: string)
    ensures var time := FormatRelativeTime(a.publishedAt, now, dateLabel);
      && |r| >= |META_SEPARATOR| + |time|
      && (a.sourceName != "" ==> a.sourceName <= r && r[|a.sourceName|..] == META_SEPARATOR + time)
      && (a.sourceName == "" ==> UNKNOWN_SOURCE <= r && r[|UNKNOWN_SOURCE|..] == META_SEPARATOR + time)
  {
    var source := if a.sourceName != "" then a.sourceName else UNKNOWN_SOURCE;
    var time := FormatRelativeTime(a.publishedAt, now, dateLabel);
    var r := source + (META_SEPARATOR + time);
    assert r[..|source|] == source && r[|source|..] == META_SEPARATOR + time;
    r
  }

  // ---------------------------------------------------------------------------
  // renderTopStories and renderLatestStories

  const TOP_STORY_COUNT: nat := 3
  const UNTITLED: string := "未命名标题"
  const NO_LINK: string := "#"
  const NO_TOP_STORIES: string := "暂时没有热门新闻。"
  const NO_LATEST_STORIES: string := "稍后会有更多更新，敬请期待。"

  /** The text content of one story card. */
  datatype Card = Card(link: string, title: string, summary: string, meta: string)

  /** A latest-story entry: a card, its timestamp and the fallback marker. */
  datatype LatestItem = LatestItem(timestamp: string, card: Card, fallback: bool)

  /** A story list: its empty-state message or its entries. */
  datatype Panel<T> = Placeholder(message: string) | Items(items: seq<T>)

  /** The text of one card: the article's link and title, or their placeholders when
      missing; the summary of its description, or of its content when the description
      is missing; and its meta line. */
  function CardOf(a: Article, now: int, dateLabel: int -> string): (c: Card)
    ensures c.link != "" && (a.url != "" ==> c.link == a.url)
    ensures c.title != "" && (a.title != "" ==> c.title == a.title)
    ensures a.description != "" ==> c.summary == Summarize(a.description, SUMMARY_SENTENCES)
    ensures a.description == "" ==> c.summary == Summarize(a.content, SUMMARY_SENTENCES)
    ensures c.meta == FormatMeta(a, now, dateLabel)
  {
    Card(
      if a.url != "" then a.url else NO_LINK,
      if a.title != "" then a.title else UNTITLED,
      Summarize(if a.description != "" then a.description else a.content, SUMMARY_SENTENCES),
      FormatMeta(a, now, dateLabel))
  }

  /** One entry of the latest-stories list: the relative time, the card and the
      fallback marker of the article. */
  function LatestItemOf(a: Article, now: int, dateLabel: int -> string): (e: LatestItem)
    ensures e.timestamp == FormatRelativeTime(a.publishedAt, now, dateLabel)
    ensures e.card == CardOf(a, now, dateLabel) && e.fallback == a.isFallback
  {
    LatestItem(FormatRelativeTime(a.publishedAt, now, dateLabel), CardOf(a, now, dateLabel), a.isFallback)
  }

  /** articles.slice(0, 3): the first three articles, or all when there are fewer. */
  function TopStories(articles: seq<Article>): (top: seq<Article>)
    ensures |top| == Min(TOP_STORY_COUNT, |articles|) && top == articles[..|top|]
  {
    articles[..Min(TOP_STORY_COUNT, |articles|)]
  }

  /** articles.slice(3): together with the top stories, the whole list in order. */
  function LatestStories(articles: seq<Article>): (rest: seq<Article>)
    ensures TopStories(articles) + rest == articles
    ensures forall i :: TOP_STORY_COUNT <= i < |articles| ==> rest[i - TOP_STORY_COUNT] == articles[i]
  {
    if |articles| <= TOP_STORY_COUNT then
      assert TopStories(articles) == articles;
      []
    else
      assert articles == articles[..TOP_STORY_COUNT] + articles[TOP_STORY_COUNT..];
      articles[TOP_STORY_COUNT..]
  }

  /** The forEach of the render functions: one rendering per article, in order. */
  function RenderEach<T>(xs: seq<Article>, render: Article -> T): (r: seq<T>)
    ensures |r| == |xs| && forall i :: 0 <= i < |xs| ==> r[i] == render(xs[i])
  {
    seq(|xs|, i requires 0 <= i < |xs| => render(xs[i]))
  }

  /** renderTopStories: its message exactly when there are no articles, and otherwise
      one card per article among the first three, in order. */
  function RenderTopStories(articles: seq<Article>, now: int, dateLabel: int -> string): (p: Panel<Card>)
    ensures p.Placeholder? <==> |articles| == 0
    ensures p.Placeholder? ==> p.message == NO_TOP_STORIES
    ensures p.Items? ==>
              && |p.items| == Min(TOP_STORY_COUNT, |articles|)
              && forall i :: 0 <= i < |p.items| ==> p.items[i] == CardOf(articles[i], now, dateLabel)
  {
    var top := TopStories(articles);
    if |top| == 0 then Placeholder(NO_TOP_STORIES)
    else Items(RenderEach(top, a => CardOf(a, now, dateLabel)))
  }

  /** renderLatestStories: its message exactly when there are at most three articles,
      and otherwise one entry per later article, in order. */
  function RenderLatestStories(articles: seq<Article>, now: int, dateLabel: int -> string): (p: Panel<LatestItem>)
    ensures p.Placeholder? <==> |articles| <= TOP_STORY_COUNT
    ensures p.Placeholder? ==> p.message == NO_LATEST_STORIES
    ensures p.Items? ==>
              && |p.items| == |articles| - TOP_STORY_COUNT
              && forall i :: TOP_STORY_COUNT <= i < |articles| ==>
                   p.items[i - TOP_STORY_COUNT] == LatestItemOf(articles[i], now, dateLabel)
  {
    var rest := LatestStories(articles);
    if |rest| == 0 then Placeholder(NO_LATEST_STORIES)
    else Items(RenderEach(rest, a => LatestItemOf(a, now, dateLabel)))
  }

  /** The two panels together show one entry per article. */
  lemma {:induction false} PanelsShowEveryArticle(articles: seq<Article>, now: int, dateLabel: int -> string)
    ensures PanelSize(RenderTopStories(articles, now, dateLabel)) + PanelSize(RenderLatestStories(articles, now, dateLabel))
              == |articles|
  {
  }

  function PanelSize<T>(p: Panel<T>): nat {
    if p.Placeholder? then 0 else |p.items|
  }

  // ---------------------------------------------------------------------------
  // Settings, request parameters and the fetched list

  datatype Config = Config(apiKey: string, topic: string, language: string, country: string, max: int)

  const DEFAULT_CONFIG: Config := Config("", "world", "en", "us", 12)
  const DEFAULT_MAX: int := 10

  /** `Number(input) || 10` of the save handler; None is the NaN of an unreadable input. */
  function MaxOrDefault(parsed: Option<int>): (r: int)
    ensures r != 0
    ensures parsed.Some? && parsed.value != 0 ==> r == parsed.value
    ensures parsed == None || parsed == Some(0) ==> r == DEFAULT_MAX
  {
    match parsed
    case Some(n) => if n != 0 then n else DEFAULT_MAX
    case None => DEFAULT_MAX
  }

  datatype Param = Param(key: string, value: string)

  /** The value a parameter list gives a key (the first entry with it). */
  function Lookup(ps: seq<Param>, key: string): Option<string> {
    if ps == [] then None else if ps[0].key == key then Some(ps[0].value) else Lookup(ps[1..], key)
  }

  lemma {:induction false} LookupAt(ps: seq<Param>, key: string, i: nat)
    requires i < |ps| && ps[i].key == key
    requires forall j :: 0 <= j < i ==> ps[j].key != key
    ensures Lookup(ps, key) == Some(ps[i].value)
  {
    if i > 0 {
      LookupAt(ps[1..], key, i - 1);
    }
  }

  lemma {:induction false} LookupAbsent(ps: seq<Param>, key: string)
    requires forall j :: 0 <= j < |ps| ==> ps[j].key != key
    ensures Lookup(ps, key) == None
  {
    if ps != [] {
      LookupAbsent(ps[1..], key);
    }
  }

  /** The query parameters buildUrl sets on the top-headlines endpoint: four from the
      settings, then q and apikey when given; no key is set twice. */
  function BuildUrl(config: Config, keyword: string): (ps: seq<Param>)
    ensures |ps| == 4 + (if keyword != "" then 1 else 0) + (if config.apiKey != "" then 1 else 0)
    ensures forall i, j :: 0 <= i < j < |ps| ==> ps[i].key != ps[j].key
  {
    var ps := [ Param("category", config.topic), Param("lang", config.language),
                Param("country", config.country), Param("max", IntToString(config.max)) ]
              + (if keyword != "" then [Param("q", keyword)] else [])
              + (if config.apiKey != "" then [Param("apikey", config.apiKey)] else []);
    assert forall i :: 0 <= i < |ps| ==> |ps[i].key| in {8, 4, 7, 3, 1, 6};
    assert forall i, j :: 0 <= i < j < |ps| ==> |ps[i].key| != |ps[j].key|;
    ps
  }

  /** buildUrl always sets category, lang, country and max from the settings. */
  lemma {:induction false} BuildUrlSetsSettings(config: Config, keyword: string)
    ensures var ps := BuildUrl(config, keyword);
      && Lookup(ps, "category") == Some(config.topic)
      && Lookup(ps, "lang") == Some(config.language)
      && Lookup(ps, "country") == Some(config.country)
      && Lookup(ps, "max") == Some(IntToString(config.max))
  {
    var ps := BuildUrl(config, keyword);
    LookupAt(ps, "category", 0);
    LookupAt(ps, "lang", 1);
    LookupAt(ps, "country", 2);
    LookupAt(ps, "max", 3);
  }

  /** buildUrl sets q exactly when there is a keyword, and apikey exactly when there is
      a key. */
  lemma {:induction false} BuildUrlSetsOptionalParameters(config: Config, keyword: string)
    ensures Lookup(BuildUrl(config, keyword), "q") == (if keyword != "" then Some(keyword) else None)
    ensures Lookup(BuildUrl(config, keyword), "apikey") == (if config.apiKey != "" then Some(config.apiKey) else None)
  {
    var ps := BuildUrl(config, keyword);
    if keyword != "" {
      LookupAt(ps, "q", 4);
    } else {
      LookupAbsent(ps, "q");
    }
    if config.apiKey != "" {
      LookupAt(ps, "apikey", |ps| - 1);
    } else {
      LookupAbsent(ps, "apikey");
    }
  }

  /** What fetchNews hands back: the received list, or the samples when it did not fetch
      or the request failed. */
  datatype FetchResult = Received(articles: seq<Article>) | Failed

  /** The first half of fetchAndRenderNews, up to the network request. */
  datatype Request = Skipped | Offline | Fetch(params: seq<Param>)

  /** The list fetchAndRenderNews goes on with: the received articles after a fetch
      that delivered them; the samples without a key or after a failure. */
  function FetchedArticles(request: Request, response: FetchResult, samples: seq<Article>): (r: seq<Article>)
    ensures request.Fetch? && response.Received? ==> r == response.articles
    ensures !request.Fetch? || response.Failed? ==> r == samples
  {
    if request.Fetch? && response.Received? then response.articles else samples
  }

  /** The map of fetchAndRenderNews: every article copied with `isFallback` set to
      whether the key is empty. */
  function MarkFallback(articles: seq<Article>, apiKey: string): (r: seq<Article>)
    ensures |r| == |articles|
    ensures forall i :: 0 <= i < |r| ==>
              r[i].isFallback == (apiKey == "") && r[i].(isFallback := articles[i].isFallback) == articles[i]
  {
    seq(|articles|, i requires 0 <= i < |articles| => articles[i].(isFallback := apiKey == ""))
  }

  /** The `state` object of news.js. */
  class NewsBoard {
    var config: Config
    var articles: seq<Article>
    var isLoading: bool
    var lastUpdated: Option<int>

    constructor ()
      ensures config == DEFAULT_CONFIG && articles == [] && !isLoading && lastUpdated == None
    {
      config := DEFAULT_CONFIG;
      articles := [];
      isLoading := false;
      lastUpdated := None;
    }

    /** The save handler: the key trimmed, the three choices as given and the limit
        defaulted to 10 when the input reads as 0 or not a number. */
    method SaveSettings(apiKeyInput: string, topic: string, language: string, country: string, maxInput: Option<int>)
      modifies this`config
      ensures config == Config(Trim(apiKeyInput), topic, language, country, MaxOrDefault(maxInput))
    {
      config := Config(Trim(apiKeyInput), topic, language, country, MaxOrDefault(maxInput));
    }

    /** fetchAndRenderNews up to its await: nothing while a request is in flight;
        without a key no request and no loading flag; otherwise the flag is raised and
        the request with buildUrl's parameters is issued. */
    method BeginRefresh(keyword: string) returns (request: Request)
      modifies this`isLoading
      ensures old(isLoading) ==> request == Skipped && isLoading
      ensures !old(isLoading) && config.apiKey == "" ==> request == Offline && !isLoading
      ensures !old(isLoading) && config.apiKey != "" ==> request == Fetch(BuildUrl(config, keyword)) && isLoading
    {
      if isLoading {
        return Skipped;
      }
      if config.apiKey == "" {
        return Offline;
      }
      isLoading := true;
      request := Fetch(BuildUrl(config, keyword));
    }

    /** fetchAndRenderNews after its await: a fetch clears the loading flag; the list is
        stored marked by the key as it is now, and the update time is recorded. */
    method FinishRefresh(request: Request, response: FetchResult, samples: seq<Article>, now: int)
      modifies this`isLoading, this`articles, this`lastUpdated
      ensures request == Skipped ==> unchanged(this)
      ensures request != Skipped ==>
                && articles == MarkFallback(FetchedArticles(request, response, samples), config.apiKey)
                && lastUpdated == Some(now)
                && isLoading == (old(isLoading) && !request.Fetch?)
    {
      if request == Skipped {
        return;
      }
      if request.Fetch? {
        isLoading := false;
      }
      articles := MarkFallback(FetchedArticles(request, response, samples), config.apiKey);
      lastUpdated := Some(now);
    }
  }
}
