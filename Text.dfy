/**
 * The JavaScript string operations the application relies on, over `string`
 * (`seq<char>`): the `\s` class and `trim`, `toLowerCase`, `substring`,
 * `includes`, `split` on one character, `join`, the `replace(/\s+/g, ' ')`
 * whitespace collapse, and `Number.prototype.toString` for naturals.
 */
module Text {

  /** The characters ECMAScript counts as white space or line terminators: what `\s` matches and `trim` strips. */
  predicate IsSpace(c: char)
  {
    c == ' ' || c == '\t' || c == '\n' || c == '\r' || c == '\U{000B}' || c == '\U{000C}'
    || c == '\U{00A0}' || c == '\U{1680}' || ('\U{2000}' <= c <= '\U{200A}')
    || c == '\U{2028}' || c == '\U{2029}' || c == '\U{202F}' || c == '\U{205F}'
    || c == '\U{3000}' || c == '\U{FEFF}'
  }

  /** `s.trimStart()`: drops the leading white space, nothing else. */
  function TrimStart(s: string): (r: string)
    ensures |r| <= |s|
    ensures s != [] && IsSpace(s[0]) ==> |r| < |s|
    ensures r == [] || !IsSpace(r[0])
  {
    if s != [] && IsSpace(s[0]) then TrimStart(s[1..]) else s
  }

  /** `s.trimEnd()`: drops the trailing white space, nothing else. */
  function TrimEnd(s: string): (r: string)
    ensures |r| <= |s|
    ensures r == [] || !IsSpace(r[|r| - 1])
    ensures r != [] ==> r[0] == s[0]
  {
    if s != [] && IsSpace(s[|s| - 1]) then TrimEnd(s[..|s| - 1]) else s
  }

  /** `s.trim()`. */
  function Trim(s: string): (r: string)
    ensures |r| <= |s|
    ensures r == [] || (!IsSpace(r[0]) && !IsSpace(r[|r| - 1]))
    ensures IsTrimmed(s) ==> r == s
  {
    TrimEnd(TrimStart(s))
  }

  /** `trimStart` drops characters from the front only, and only white space. */
  lemma {:induction false} TrimStartIsSuffix(s: string)
    ensures TrimStart(s) == s[|s| - |TrimStart(s)|..]
    ensures forall k :: 0 <= k < |s| - |TrimStart(s)| ==> IsSpace(s[k])
  {
    if s != [] && IsSpace(s[0]) {
      TrimStartIsSuffix(s[1..]);
      forall k | 1 <= k < |s| - |TrimStart(s)|
        ensures IsSpace(s[k])
      {
        assert s[k] == s[1..][k - 1];
      }
    }
  }

  /** `trimEnd` drops characters from the back only, and only white space. */
  lemma {:induction false} TrimEndIsPrefix(s: string)
    ensures TrimEnd(s) == s[..|TrimEnd(s)|]
    ensures forall k :: |TrimEnd(s)| <= k < |s| ==> IsSpace(s[k])
  {
    if s != [] && IsSpace(s[|s| - 1]) {
      TrimEndIsPrefix(s[..|s| - 1]);
      forall k | |TrimEnd(s)| <= k < |s| - 1
        ensures IsSpace(s[k])
      {
        assert s[k] == s[..|s| - 1][k];
      }
    }
  }

  /**
   * `trim` keeps one contiguous piece of its input and removes only white
   * space: everything before and after the piece is white space.
   */
  lemma TrimIsSlice(s: string)
    ensures exists i, j ::
              0 <= i <= j <= |s| && Trim(s) == s[i..j]
              && (forall k :: 0 <= k < i ==> IsSpace(s[k]))
              && (forall k :: j <= k < |s| ==> IsSpace(s[k]))
  {
    TrimStartIsSuffix(s);
    var t := TrimStart(s);
    var i := |s| - |t|;
    TrimEndIsPrefix(t);
    var j := i + |TrimEnd(t)|;
    assert Trim(s) == s[i..j];
    forall k | j <= k < |s|
      ensures IsSpace(s[k])
    {
      assert s[k] == t[k - i];
    }
  }

  /** Neither end of `s` is white space: `s.trim() === s`. */
  predicate IsTrimmed(s: string)
  {
    s == [] || (!IsSpace(s[0]) && !IsSpace(s[|s| - 1]))
  }

  /** `toLowerCase` on one character; only the ASCII letters are mapped. */
  function LowerChar(c: char): char
  {
    if 'A' <= c <= 'Z' then (c as int + 32) as char else c
  }

  /** `s.toLowerCase()`, letter by letter, keeping the length. */
  function ToLower(s: string): (r: string)
    ensures |r| == |s|
  {
    if s == [] then [] else [LowerChar(s[0])] + ToLower(s[1..])
  }

  /** Lower-casing maps each character on its own. */
  lemma {:induction false} ToLowerAt(s: string, i: nat)
    requires i < |s|
    ensures ToLower(s)[i] == LowerChar(s[i])
  {
    if i > 0 {
      ToLowerAt(s[1..], i - 1);
    }
  }

  /** `s.substring(0, n)`: the first n characters, or all of them when there are fewer. */
  function Prefix(s: string, n: int): (r: string)
    ensures |r| == if n <= 0 then 0 else if n < |s| then n else |s|
  {
    if n <= 0 then [] else if n < |s| then s[..n] else s
  }

  /** `s.substring(start, end)`: both bounds clamped to [0, |s|] and swapped when out of order. */
  function Substring(s: string, start: int, end: int): (r: string)
    ensures |r| <= |s|
    ensures 0 <= start <= end <= |s| ==> r == s[start..end]
  {
    var lo := Clamp(start, |s|);
    var hi := Clamp(end, |s|);
    if lo <= hi then s[lo..hi] else s[hi..lo]
  }

  function Clamp(i: int, n: nat): (r: nat)
    ensures r <= n
  {
    if i < 0 then 0 else if i > n then n else i
  }

  /** `s.replace(/\s+/g, ' ')`: every maximal run of white space becomes one blank. */
  function Collapse(s: string): (r: string)
    ensures |r| <= |s|
    ensures s != [] ==> r != [] && r[0] == (if IsSpace(s[0]) then ' ' else s[0])
    ensures SingleBlanks(r)
    decreases |s|
  {
    if s == [] then []
    else if IsSpace(s[0]) then
      var rest := TrimStart(s);
      [' '] + Collapse(rest)
    else [s[0]] + Collapse(s[1..])
  }

  /** The only white space is the blank, and never two in a row. */
  predicate SingleBlanks(s: string)
  {
    forall k :: 0 <= k < |s| && IsSpace(s[k]) ==> s[k] == ' ' && (k + 1 < |s| ==> !IsSpace(s[k + 1]))
  }

  /** A piece of a text with single blanks has single blanks. */
  lemma SingleBlanksSlice(s: string, i: nat, j: nat)
    requires i <= j <= |s| && SingleBlanks(s)
    ensures SingleBlanks(s[i..j])
  {
    var t := s[i..j];
    forall k | 0 <= k < |t| && IsSpace(t[k])
      ensures t[k] == ' ' && (k + 1 < |t| ==> !IsSpace(t[k + 1]))
    {
      assert t[k] == s[i + k];
      if k + 1 < |t| {
        assert t[k + 1] == s[i + k + 1];
      }
    }
  }

  /** The run of non-space characters at the start of `t`. */
  function FirstWord(t: string): (r: string)
    ensures |r| <= |t| && r == t[..|r|]
    ensures forall k :: 0 <= k < |r| ==> !IsSpace(r[k])
    ensures |r| < |t| ==> IsSpace(t[|r|])
    ensures t != [] && !IsSpace(t[0]) ==> r != []
  {
    if t == [] || IsSpace(t[0]) then [] else [t[0]] + FirstWord(t[1..])
  }

  /** The words of `s`: its maximal runs of non-space characters, in order. */
  function Words(s: string): (r: seq<string>)
    ensures forall i :: 0 <= i < |r| ==> r[i] != [] && forall k :: 0 <= k < |r[i]| ==> !IsSpace(r[i][k])
    decreases |s|
  {
    var t := TrimStart(s);
    if t == [] then []
    else
      var w := FirstWord(t);
      [w] + Words(t[|w|..])
  }

  /** `trimStart` after `trimStart` changes nothing. */
  lemma TrimStartTwice(s: string)
    ensures TrimStart(TrimStart(s)) == TrimStart(s)
  {
  }

  /** Collapsing a text that starts with a word keeps the word and collapses what follows it. */
  lemma {:induction false} CollapseFirstWord(t: string)
    ensures Collapse(t) == FirstWord(t) + Collapse(t[|FirstWord(t)|..])
  {
    if t != [] && !IsSpace(t[0]) {
      CollapseFirstWord(t[1..]);
      assert t[1..][|FirstWord(t[1..])|..] == t[|FirstWord(t)|..];
    }
  }

  /** A blank between `a` and `b` when both are present: `[a, b].join(" ")`'s step. */
  lemma JoinCons(w: string, rest: seq<string>)
    requires rest != []
    ensures Join([w] + rest, " ") == w + " " + Join(rest, " ")
  {
    assert ([w] + rest)[1..] == rest;
  }

  /** One blank after the last word when the text ends in white space. */
  function TrailingBlank(s: string, words: seq<string>): string
  {
    if words != [] && s != [] && IsSpace(s[|s| - 1]) then " " else ""
  }

  /** The words of a text that starts with a word: that word, then the words of the rest. */
  lemma WordsOfWord(t: string)
    requires t != [] && !IsSpace(t[0])
    ensures Words(t) == [FirstWord(t)] + Words(t[|FirstWord(t)|..])
  {
  }

  /** Leading white space neither adds nor removes a word. */
  lemma WordsAfterSpace(s: string)
    ensures Words(s) == Words(TrimStart(s))
  {
    TrimStartTwice(s);
  }

  /**
   * Over a text that starts with a word (or is empty), the collapse is the
   * words joined by single blanks, plus one blank when the text ends in
   * white space.
   */
  lemma {:induction false} CollapseFromWord(t: string)
    requires t == [] || !IsSpace(t[0])
    ensures Collapse(t) == Join(Words(t), " ") + TrailingBlank(t, Words(t))
    decreases |t|
  {
    if t != [] {
      var rest := t[|FirstWord(t)|..];
      if rest == [] {
        CollapseOneWord(t);
      } else if TrimStart(rest) == [] {
        CollapseWordThenSpace(t);
      } else {
        var u := TrimStart(rest);
        CollapseFromWord(u);
        CollapseWordThenMore(t, u);
      }
    }
  }

  /** What is left of a text's end after dropping some front and then leading white space. */
  lemma LastAfterTrimStart(t: string, k: nat)
    requires k < |t|
    ensures TrimStart(t[k..]) == [] ==> IsSpace(t[|t| - 1])
    ensures TrimStart(t[k..]) != [] ==> TrimStart(t[k..])[|TrimStart(t[k..])| - 1] == t[|t| - 1]
  {
    TrimStartIsSuffix(t[k..]);
  }

  /** A first word followed by white space only. */
  lemma CollapseWordThenSpace(t: string)
    requires t != [] && !IsSpace(t[0]) && |FirstWord(t)| < |t|
    requires TrimStart(t[|FirstWord(t)|..]) == []
    ensures Collapse(t) == Join(Words(t), " ") + TrailingBlank(t, Words(t))
  {
    var rest := t[|FirstWord(t)|..];
    CollapseFirstWord(t);
    WordsOfWord(t);
    WordsAfterSpace(rest);
    LastAfterTrimStart(t, |FirstWord(t)|);
    CollapseAfterWordEnd(t, FirstWord(t), rest);
  }

  /** A first word followed by white space and more words. */
  lemma CollapseWordThenMore(t: string, u: string)
    requires t != [] && !IsSpace(t[0]) && |FirstWord(t)| < |t|
    requires u == TrimStart(t[|FirstWord(t)|..]) && u != []
    requires Collapse(u) == Join(Words(u), " ") + TrailingBlank(u, Words(u))
    ensures Collapse(t) == Join(Words(t), " ") + TrailingBlank(t, Words(t))
  {
    var rest := t[|FirstWord(t)|..];
    CollapseFirstWord(t);
    WordsOfWord(t);
    WordsAfterSpace(rest);
    LastAfterTrimStart(t, |FirstWord(t)|);
    CollapseAfterWord(t, FirstWord(t), rest, u);
  }

  /** A text that is one word collapses to itself. */
  lemma CollapseOneWord(t: string)
    requires t != [] && !IsSpace(t[0]) && |FirstWord(t)| == |t|
    ensures Collapse(t) == Join(Words(t), " ") + TrailingBlank(t, Words(t))
  {
    CollapseFirstWord(t);
    WordsOfWord(t);
    assert FirstWord(t) == t;
    assert t[|t|..] == [];
    assert Words(t) == [t];
  }

  /** The first word is followed by white space only. */
  lemma CollapseAfterWordEnd(t: string, w: string, rest: string)
    requires w != [] && rest != [] && IsSpace(rest[0]) && TrimStart(rest) == []
    requires t != [] && IsSpace(t[|t| - 1])
    requires Collapse(t) == w + Collapse(rest)
    requires Words(t) == [w] + Words(rest) && Words(rest) == Words(TrimStart(rest))
    ensures Collapse(t) == Join(Words(t), " ") + TrailingBlank(t, Words(t))
  {
    assert Collapse(rest) == [' '] + Collapse([]);
    assert Words(t) == [w];
  }

  /** The first word is followed by white space and more words. */
  lemma CollapseAfterWord(t: string, w: string, rest: string, u: string)
    requires w != [] && rest != [] && IsSpace(rest[0]) && u == TrimStart(rest) && u != []
    requires t != [] && t[|t| - 1] == u[|u| - 1]
    requires Collapse(t) == w + Collapse(rest)
    requires Words(t) == [w] + Words(rest) && Words(rest) == Words(u)
    requires Collapse(u) == Join(Words(u), " ") + TrailingBlank(u, Words(u))
    ensures Collapse(t) == Join(Words(t), " ") + TrailingBlank(t, Words(t))
  {
    var ws := Words(u);
    WordsOfNonEmpty(u);
    CollapseOfSpace(rest);
    var tb := TrailingBlank(u, ws);
    assert Words(t) == [w] + ws;
    TrailingBlankOfLast(t, u, [w] + ws, ws);
    JoinAfterWord(w, ws, tb);
  }

  /** Texts ending in the same character have the same trailing blank. */
  lemma TrailingBlankOfLast(s: string, t: string, ws: seq<string>, vs: seq<string>)
    requires s != [] && t != [] && s[|s| - 1] == t[|t| - 1] && ws != [] && vs != []
    ensures TrailingBlank(s, ws) == TrailingBlank(t, vs)
  {
  }

  /** A text that starts with a word has at least one word. */
  lemma WordsOfNonEmpty(u: string)
    requires u != [] && !IsSpace(u[0])
    ensures Words(u) != []
  {
  }

  /** White space at the front collapses to one blank. */
  lemma CollapseOfSpace(s: string)
    requires s != [] && IsSpace(s[0])
    ensures Collapse(s) == [' '] + Collapse(TrimStart(s))
  {
  }

  /** A word, a blank and the joined remaining words are the joined words. */
  lemma JoinAfterWord(w: string, ws: seq<string>, trailing: string)
    requires ws != []
    ensures w + ([' '] + (Join(ws, " ") + trailing)) == Join([w] + ws, " ") + trailing
  {
    JoinCons(w, ws);
  }

  /**
   * The collapse in full: one blank for leading white space, the words
   * joined by single blanks, and one blank for trailing white space after
   * the last word.
   */
  lemma CollapseWords(s: string)
    ensures Collapse(s) == LeadingBlank(s) + Join(Words(s), " ") + TrailingBlank(s, Words(s))
  {
    var body := Join(Words(s), " ") + TrailingBlank(s, Words(s));
    if s != [] && IsSpace(s[0]) {
      CollapseLeadingSpace(s);
      assert Collapse(s) == " " + body;
    } else {
      CollapseFromWord(s);
      assert Collapse(s) == "" + body;
    }
  }

  /** One blank when the text opens with white space. */
  function LeadingBlank(s: string): string
  {
    if s != [] && IsSpace(s[0]) then " " else ""
  }

  /** A text that opens with white space: one blank, then the collapse of its words. */
  lemma CollapseLeadingSpace(s: string)
    requires s != [] && IsSpace(s[0])
    ensures Collapse(s) == " " + (Join(Words(s), " ") + TrailingBlank(s, Words(s)))
  {
    var t := TrimStart(s);
    calc {
      Collapse(s);
    == { CollapseOfSpace(s); }
      [' '] + Collapse(t);
    == { CollapseFromWord(t); }
      [' '] + (Join(Words(t), " ") + TrailingBlank(t, Words(t)));
    == { WordsAfterSpace(s); TrailingBlankAfterSpace(s); }
      " " + (Join(Words(s), " ") + TrailingBlank(s, Words(s)));
    }
  }

  /** Removing leading white space keeps the trailing blank. */
  lemma TrailingBlankAfterSpace(s: string)
    ensures TrailingBlank(TrimStart(s), Words(TrimStart(s))) == TrailingBlank(s, Words(s))
  {
    var t := TrimStart(s);
    WordsAfterSpace(s);
    TrimStartIsSuffix(s);
    if t == [] {
      assert Words(t) == [];
    } else {
      TrailingBlankOfLast(s, t, Words(t), Words(t));
    }
  }

  /** The words of a text joined by single blanks begin and end with a word. */
  lemma {:induction false} JoinWordsEnds(ws: seq<string>)
    requires forall i :: 0 <= i < |ws| ==> ws[i] != [] && forall k :: 0 <= k < |ws[i]| ==> !IsSpace(ws[i][k])
    ensures ws == [] ==> Join(ws, " ") == []
    ensures ws != [] ==> var j := Join(ws, " "); j != [] && !IsSpace(j[0]) && !IsSpace(j[|j| - 1])
  {
    if |ws| > 1 {
      JoinWordsEnds(ws[1..]);
      var rest := Join(ws[1..], " ");
      assert Join(ws, " ") == ws[0] + " " + rest;
      assert !IsSpace(ws[0][0]);
    }
  }

  /** One blank in front of a text that starts with a word is trimmed away. */
  lemma TrimStartBlank(x: string)
    requires x == [] || !IsSpace(x[0])
    ensures TrimStart(x) == x && TrimStart(" " + x) == x
  {
    assert (" " + x)[1..] == x;
  }

  /** One blank after a text that ends with a word is trimmed away. */
  lemma TrimEndBlank(x: string)
    requires x == [] || !IsSpace(x[|x| - 1])
    ensures TrimEnd(x) == x && TrimEnd(x + " ") == x
  {
    assert (x + " ")[..|x|] == x;
  }

  /**
   * Trimming the collapse leaves exactly the words of the text joined by
   * single blanks.
   */
  lemma TrimCollapse(s: string)
    ensures Trim(Collapse(s)) == Join(Words(s), " ")
  {
    var ws := Words(s);
    CollapseWords(s);
    JoinWordsEnds(ws);
    TrimBlanks(LeadingBlank(s), Join(ws, " "), TrailingBlank(s, ws));
  }

  /** At most one blank on either side of a trimmed text is trimmed away. */
  lemma TrimBlanks(lead: string, x: string, trail: string)
    requires lead == "" || lead == " "
    requires trail == "" || trail == " "
    requires x == [] ==> trail == ""
    requires x != [] ==> !IsSpace(x[0]) && !IsSpace(x[|x| - 1])
    ensures Trim(lead + x + trail) == x
  {
    var y := x + trail;
    assert lead + x + trail == lead + y;
    if x == [] {
      assert y == [];
      TrimStartBlank(y);
      assert TrimStart(lead + y) == [] by {
        if lead == " " {
          assert lead + y == " " + y;
        } else {
          assert lead + y == y;
        }
      }
    } else {
      assert y[0] == x[0];
      TrimStartBlank(y);
      assert TrimStart(lead + y) == y by {
        if lead == " " {
          assert lead + y == " " + y;
        } else {
          assert lead + y == y;
        }
      }
      TrimEndBlank(x);
      if trail == "" {
        assert y == x;
      }
    }
  }

  /** The characters of `s` that are not white space, in order. */
  function NonSpace(s: string): (r: string)
    ensures |r| <= |s|
    ensures forall k :: 0 <= k < |r| ==> !IsSpace(r[k])
  {
    if s == [] then []
    else if IsSpace(s[0]) then NonSpace(s[1..])
    else [s[0]] + NonSpace(s[1..])
  }

  /** The words of a list one after the other, with nothing between them. */
  function Concat(ws: seq<string>): string
  {
    if ws == [] then [] else ws[0] + Concat(ws[1..])
  }

  lemma {:induction false} NonSpaceAppend(a: string, b: string)
    ensures NonSpace(a + b) == NonSpace(a) + NonSpace(b)
  {
    if a != [] {
      NonSpaceAppend(a[1..], b);
      assert (a + b)[0] == a[0];
      assert (a + b)[1..] == a[1..] + b;
    } else {
      assert a + b == b;
    }
  }

  /** A text without white space is its own non-space characters. */
  lemma {:induction false} NonSpaceOfWord(w: string)
    requires forall k :: 0 <= k < |w| ==> !IsSpace(w[k])
    ensures NonSpace(w) == w
  {
    if w != [] {
      NonSpaceOfWord(w[1..]);
    }
  }

  /** Leading white space holds no non-space character. */
  lemma {:induction false} NonSpaceTrimStart(s: string)
    ensures NonSpace(TrimStart(s)) == NonSpace(s)
  {
    if s != [] && IsSpace(s[0]) {
      NonSpaceTrimStart(s[1..]);
    }
  }

  /**
   * The words hold every non-space character of the text, in order and
   * nothing else: together with `Words`' own contract, they are the
   * maximal runs of non-space characters.
   */
  lemma {:induction false} WordsCoverText(s: string)
    ensures Concat(Words(s)) == NonSpace(s)
    decreases |s|
  {
    var t := TrimStart(s);
    NonSpaceTrimStart(s);
    WordsAfterSpace(s);
    if t != [] {
      var w := FirstWord(t);
      var rest := t[|w|..];
      WordsOfWord(t);
      WordsCoverText(rest);
      assert t == w + rest;
      NonSpaceAppend(w, rest);
      NonSpaceOfWord(w);
      assert Concat([w] + Words(rest)) == w + Concat(Words(rest)) by {
        assert ([w] + Words(rest))[1..] == Words(rest);
      }
    }
  }

  /** Joining words by blanks adds no non-space character. */
  lemma {:induction false} JoinNonSpace(ws: seq<string>)
    requires forall i :: 0 <= i < |ws| ==> forall k :: 0 <= k < |ws[i]| ==> !IsSpace(ws[i][k])
    ensures NonSpace(Join(ws, " ")) == Concat(ws)
  {
    if ws != [] {
      NonSpaceOfWord(ws[0]);
      if |ws| == 1 {
        assert Concat(ws) == ws[0] + Concat([]);
      } else {
        var rest := Join(ws[1..], " ");
        calc {
          NonSpace(Join(ws, " "));
          NonSpace(ws[0] + " " + rest);
        == { NonSpaceAppend(ws[0] + " ", rest); }
          NonSpace(ws[0] + " ") + NonSpace(rest);
        == { NonSpaceAppend(ws[0], " "); assert NonSpace(" ") == []; }
          ws[0] + NonSpace(rest);
        == { JoinNonSpace(ws[1..]); }
          ws[0] + Concat(ws[1..]);
        }
      }
    }
  }

  /** `s.startsWith(p)`. */
  predicate StartsWith(s: string, p: string)
  {
    |p| <= |s| && s[..|p|] == p
  }

  /** `s.includes(sub)`: some position of `s` starts a copy of `sub`. */
  predicate Contains(s: string, sub: string)
  {
    StartsWith(s, sub) || (s != [] && Contains(s[1..], sub))
  }

  /** A copy of `sub` starts at position i of `s`. */
  predicate OccursAt(s: string, sub: string, i: int)
  {
    0 <= i <= |s| - |sub| && s[i..i + |sub|] == sub
  }

  lemma {:induction false} ContainsAt(s: string, sub: string)
    ensures Contains(s, sub) <==> exists i :: OccursAt(s, sub, i)
  {
    if s != [] {
      ContainsAt(s[1..], sub);
      if Contains(s[1..], sub) {
        var i :| OccursAt(s[1..], sub, i);
        assert OccursAt(s, sub, i + 1);
      }
      if exists i :: OccursAt(s, sub, i) {
        var i :| OccursAt(s, sub, i);
        if i > 0 {
          assert OccursAt(s[1..], sub, i - 1);
        }
      }
    }
    if StartsWith(s, sub) {
      assert OccursAt(s, sub, 0);
    }
    if OccursAt(s, sub, 0) {
      assert StartsWith(s, sub);
    }
  }

  /** `s.split(sep)` for a one-character separator: the pieces between the separators, at least one. */
  function Split(s: string, sep: char): (r: seq<string>)
    ensures |r| >= 1
    ensures forall i :: 0 <= i < |r| ==> sep !in r[i]
  {
    if s == [] then [""]
    else
      var rest := Split(s[1..], sep);
      if s[0] == sep then [""] + rest
      else [[s[0]] + rest[0]] + rest[1..]
  }

  /** `parts.join(sep)`. */
  function Join(parts: seq<string>, sep: string): string
  {
    if parts == [] then ""
    else if |parts| == 1 then parts[0]
    else parts[0] + sep + Join(parts[1..], sep)
  }

  /** Splitting a text that begins with a separator-free piece keeps that piece whole. */
  lemma {:induction false} SplitAfterPiece(p: string, t: string, sep: char)
    requires sep !in p
    ensures Split(p + t, sep) == [p + Split(t, sep)[0]] + Split(t, sep)[1..]
  {
    if p == [] {
      var st := Split(t, sep);
      assert p + t == t && p + st[0] == st[0];
      assert st == [st[0]] + st[1..];
    } else {
      var st := Split(t, sep);
      SplitAfterPiece(p[1..], t, sep);
      assert p + t == [p[0]] + (p[1..] + t);
      SplitCons(p[0], p[1..] + t, sep);
      assert [p[0]] + (p[1..] + st[0]) == p + st[0];
    }
  }

  /** A character other than the separator joins the first piece. */
  lemma SplitCons(c: char, s: string, sep: char)
    requires c != sep
    ensures Split([c] + s, sep) == [[c] + Split(s, sep)[0]] + Split(s, sep)[1..]
  {
    assert ([c] + s)[1..] == s;
  }

  /** `split` undoes `join` on the same separator when no piece contains it. */
  lemma {:induction false} SplitJoin(parts: seq<string>, sep: char)
    requires |parts| >= 1
    requires forall i :: 0 <= i < |parts| ==> sep !in parts[i]
    ensures Split(Join(parts, [sep]), sep) == parts
  {
    if |parts| == 1 {
      SplitAfterPiece(parts[0], "", sep);
      assert parts[0] + "" == parts[0];
    } else {
      SplitJoin(parts[1..], sep);
      var rest := Join(parts[1..], [sep]);
      assert Join(parts, [sep]) == parts[0] + ([sep] + rest);
      SplitAfterPiece(parts[0], [sep] + rest, sep);
      assert ([sep] + rest)[1..] == rest;
      assert Split([sep] + rest, sep) == [""] + parts[1..];
      assert parts[0] + "" == parts[0];
      assert parts == [parts[0]] + parts[1..];
    }
  }

  /** Every piece split at `sep`, the results one after the other. */
  function SplitEach(parts: seq<string>, sep: char): (r: seq<string>)
    ensures |r| >= |parts|
  {
    if parts == [] then [] else Split(parts[0], sep) + SplitEach(parts[1..], sep)
  }

  /** Splitting at a separator splits the text on either side of it separately. */
  lemma {:induction false} SplitAtSep(a: string, b: string, sep: char)
    ensures Split(a + [sep] + b, sep) == Split(a, sep) + Split(b, sep)
  {
    if a == [] {
      assert a + [sep] + b == [sep] + b;
      SplitSep(b, sep);
    } else {
      var c, rest := a[0], a[1..];
      var tail := rest + [sep] + b;
      assert a + [sep] + b == [c] + tail;
      assert a == [c] + rest;
      SplitAtSep(rest, b, sep);
      if c == sep {
        calc {
          Split([c] + tail, sep);
        == { SplitSep(tail, sep); }
          [""] + (Split(rest, sep) + Split(b, sep));
        == { SplitSep(rest, sep); }
          Split([c] + rest, sep) + Split(b, sep);
        }
      } else {
        calc {
          Split([c] + tail, sep);
        == { SplitCons(c, tail, sep); }
          [[c] + Split(tail, sep)[0]] + Split(tail, sep)[1..];
        == { ConsOntoAppend([c], Split(rest, sep), Split(b, sep)); }
          [[c] + Split(rest, sep)[0]] + Split(rest, sep)[1..] + Split(b, sep);
        == { SplitCons(c, rest, sep); }
          Split([c] + rest, sep) + Split(b, sep);
        }
      }
    }
  }

  lemma SplitSep(s: string, sep: char)
    ensures Split([sep] + s, sep) == [""] + Split(s, sep)
  {
    assert ([sep] + s)[1..] == s;
  }

  /** Gluing onto the first piece commutes with appending more pieces. */
  lemma ConsOntoAppend(c: string, x: seq<string>, y: seq<string>)
    requires x != []
    ensures [c + (x + y)[0]] + (x + y)[1..] == [c + x[0]] + x[1..] + y
  {
    assert (x + y)[0] == x[0];
    assert (x + y)[1..] == x[1..] + y;
  }

  /**
   * Splitting pieces joined by the separator gives the pieces of each piece
   * in turn; a piece holding the separator itself contributes several.
   */
  lemma {:induction false} SplitJoinEach(parts: seq<string>, sep: char)
    requires |parts| >= 1
    ensures Split(Join(parts, [sep]), sep) == SplitEach(parts, sep)
  {
    if |parts| == 1 {
      assert SplitEach(parts, sep) == Split(parts[0], sep) + SplitEach([], sep);
    } else {
      SplitJoinEach(parts[1..], sep);
      var rest := Join(parts[1..], [sep]);
      assert Join(parts, [sep]) == parts[0] + [sep] + rest;
      SplitAtSep(parts[0], rest, sep);
    }
  }

  function DigitChar(d: nat): (c: char)
    requires d < 10
    ensures '0' <= c <= '9'
  {
    (48 + d) as char
  }

  /** `String(n)` for a natural number: its decimal digits, without leading zeros. */
  function NatToString(n: nat): (r: string)
    ensures |r| >= 1
    ensures forall i :: 0 <= i < |r| ==> '0' <= r[i] <= '9'
    ensures n < 10 ==> r == [DigitChar(n)]
  {
    if n < 10 then [DigitChar(n)] else NatToString(n / 10) + [DigitChar(n % 10)]
  }
}
