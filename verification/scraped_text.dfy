/** The text clean-up at the end of `extractMainContent` in the discovery
    service: every run of whitespace becomes one space, the ends are trimmed,
    and the result is cut to 2000 characters with "..." appended when longer.
    The tag-stripping regular expressions that precede it are not modelled: the
    input here is the text they leave. */
module ScrapedText {
  import opened Text

  /** The longest suffix of `s` that does not start with whitespace. */
  function DropSpaces(s: string): (r: string)
    ensures |r| <= |s| && r == s[|s| - |r|..]
    ensures r == [] || !IsSpace(r[0])
    ensures forall i :: 0 <= i < |s| - |r| ==> IsSpace(s[i])
  {
    if |s| > 0 && IsSpace(s[0]) then DropSpaces(s[1..]) else s
  }

  /** Length of the run of non-whitespace characters at the start of `s`. */
  function WordLen(s: string): (n: nat)
    ensures n <= |s|
    ensures forall i :: 0 <= i < n ==> !IsSpace(s[i])
    ensures n < |s| ==> IsSpace(s[n])
  {
    if |s| > 0 && !IsSpace(s[0]) then 1 + WordLen(s[1..]) else 0
  }

  predicate IsWord(w: string) {
    |w| > 0 && forall i :: 0 <= i < |w| ==> !IsSpace(w[i])
  }

  /** The words of `s`: its maximal runs of non-whitespace characters. */
  function Words(s: string): (ws: seq<string>)
    ensures forall i :: 0 <= i < |ws| ==> IsWord(ws[i])
    decreases |s|
  {
    var t := DropSpaces(s);
    if |t| == 0 then []
    else
      var n := WordLen(t);
      var w := t[..n];
      assert IsWord(w) by {
        FirstWordIsWord(t);
      }
      var rest := Words(t[n..]);
      ConsWords(w, rest);
      [w] + rest
  }

  lemma ConsWords(w: string, rest: seq<string>)
    requires IsWord(w)
    requires forall i :: 0 <= i < |rest| ==> IsWord(rest[i])
    ensures forall i :: 0 <= i < |[w] + rest| ==> IsWord(([w] + rest)[i])
  {
    assert forall i :: 0 < i < |[w] + rest| ==> ([w] + rest)[i] == rest[i - 1];
  }

  /** `ws.join(" ")`. */
  function Unwords(ws: seq<string>): string {
    if |ws| == 0 then []
    else if |ws| == 1 then ws[0]
    else ws[0] + " " + Unwords(ws[1..])
  }

  /** Normal form: the only whitespace is the plain space, and each space sits
      between two non-whitespace characters. */
  predicate IsNormal(r: string) {
    forall i :: 0 <= i < |r| && IsSpace(r[i]) ==>
      r[i] == ' ' && 0 < i < |r| - 1 && !IsSpace(r[i - 1]) && !IsSpace(r[i + 1])
  }

  /** `.replace(/\s+/g, ' ')`. */
  function CollapseSpaces(s: string): string
    decreases |s|
  {
    if |s| == 0 then []
    else if IsSpace(s[0]) then " " + CollapseSpaces(DropSpaces(s))
    else [s[0]] + CollapseSpaces(s[1..])
  }

  /** The trailing half of `.trim()`. */
  function TrimEnd(s: string): (r: string)
    ensures |r| <= |s| && r == s[..|r|]
    ensures r == [] || !IsSpace(r[|r| - 1])
    ensures forall i :: |r| <= i < |s| ==> IsSpace(s[i])
  {
    if |s| > 0 && IsSpace(s[|s| - 1]) then TrimEnd(s[..|s| - 1]) else s
  }

  // ---------------------------------------------------------------------
  // Lemmas relating the regular-expression pipeline to the word view.

  /** On a string that starts with a word, collapsing copies the word and then
      collapses the rest. */
  lemma ConcatAssoc<T>(a: seq<T>, b: seq<T>, c: seq<T>)
    ensures (a + b) + c == a + (b + c)
  {
  }

  lemma HeadTail<T>(s: seq<T>)
    requires |s| > 0
    ensures s == [s[0]] + s[1..]
  {
  }

  lemma {:induction false} CollapseWord(t: string)
    requires |t| > 0 && !IsSpace(t[0])
    ensures CollapseSpaces(t) == t[..WordLen(t)] + CollapseSpaces(t[WordLen(t)..])
    decreases |t|
  {
    var k := WordLen(t);
    var u := t[1..];
    assert CollapseSpaces(t) == [t[0]] + CollapseSpaces(u);
    if |t| > 1 && !IsSpace(t[1]) {
      var j := WordLen(u);
      assert k == 1 + j;
      var x := CollapseSpaces(t[k..]);
      var w := u[..j];
      assert CollapseSpaces(u) == w + x by {
        CollapseWord(u);
        ShiftedSlices(t, j);
      }
      assert t[..k] == [t[0]] + w by {
        ShiftedSlices(t, j);
      }
      ConcatAssoc([t[0]], w, x);
    } else {
      assert k == 1;
      assert t[..k] == [t[0]];
      assert u == t[k..];
    }
  }

  /** Slicing after dropping the head. */
  lemma ShiftedSlices<T>(t: seq<T>, j: nat)
    requires 1 + j <= |t|
    ensures t[1..][j..] == t[1 + j..]
    ensures t[..1 + j] == [t[0]] + t[1..][..j]
  {
  }

  /** Trailing whitespace does not reach into a part that is not all spaces. */
  lemma {:induction false} TrimEndAppend(x: string, y: string)
    requires TrimEnd(y) != []
    ensures TrimEnd(x + y) == x + TrimEnd(y)
    decreases |y|
  {
    if |y| > 0 && IsSpace(y[|y| - 1]) {
      assert (x + y)[..|x + y| - 1] == x + y[..|y| - 1];
      TrimEndAppend(x, y[..|y| - 1]);
    }
  }

  /** Collapsing a string that is all whitespace leaves at most one space. */
  lemma CollapseBlank(s: string)
    requires DropSpaces(s) == []
    ensures TrimEnd(CollapseSpaces(s)) == []
  {
    if |s| > 0 {
      assert CollapseSpaces(s) == " ";
    }
  }

  /** Collapsed text that starts with a word does not vanish when trimmed. */
  lemma TrimEndKeepsWord(t: string)
    requires |t| > 0 && !IsSpace(t[0])
    ensures TrimEnd(CollapseSpaces(t)) != []
    ensures CollapseSpaces(t) != [] && !IsSpace(CollapseSpaces(t)[0])
  {
    var c := CollapseSpaces(t);
    assert c[0] == t[0];
  }

  lemma SplitAt<T>(s: seq<T>, k: nat)
    requires k <= |s|
    ensures s == s[..k] + s[k..]
  {
  }

  /** Joining a word in front of further words. */
  lemma UnwordsCons(w: string, ws: seq<string>)
    ensures ws == [] ==> Unwords([w] + ws) == w
    ensures ws != [] ==> Unwords([w] + ws) == w + " " + Unwords(ws)
  {
    assert ([w] + ws)[0] == w;
    assert ([w] + ws)[1..] == ws;
  }

  /** A string that starts with a word splits into that word and the rest. */
  lemma FirstWord(t: string)
    requires |t| > 0 && !IsSpace(t[0])
    ensures WordLen(t) > 0
    ensures Words(t) == [t[..WordLen(t)]] + Words(DropSpaces(t[WordLen(t)..]))
  {
    var n := WordLen(t);
    var rest := t[n..];
    SplitAt(t, n);
    WordsCons(t[..n], rest);
    WordsDropSpaces(rest);
  }

  /** Collapsing trailing whitespace only: what follows the last word. */
  lemma CollapseTail(rest: string)
    requires rest == [] || IsSpace(rest[0])
    ensures DropSpaces(rest) == [] && rest == [] ==> CollapseSpaces(rest) == []
    ensures DropSpaces(rest) == [] && rest != [] ==> CollapseSpaces(rest) == " "
    ensures rest != [] ==> CollapseSpaces(rest) == " " + CollapseSpaces(DropSpaces(rest))
  {
  }

  /** The pipeline after leading whitespace is gone: collapse, then trim the
      end, equals joining the words. */
  lemma {:induction false} CollapseTrimIsUnwords(t: string)
    requires t == [] || !IsSpace(t[0])
    ensures TrimEnd(CollapseSpaces(t)) == Unwords(Words(t))
    decreases |t|
  {
    if t != [] {
      var t' := AfterFirstWord(t);
      if t' != [] {
        CollapseTrimIsUnwords(t');
      }
      CollapseTrimStep(t);
    }
  }

  /** What follows the first word, without its leading whitespace. */
  function AfterFirstWord(t: string): (t': string)
    requires |t| > 0 && !IsSpace(t[0])
    ensures |t'| < |t| && (t' == [] || !IsSpace(t'[0]))
  {
    FirstWord(t);
    DropSpaces(t[WordLen(t)..])
  }

  lemma CollapseTrimStep(t: string)
    requires |t| > 0 && !IsSpace(t[0])
    requires AfterFirstWord(t) != [] ==>
               TrimEnd(CollapseSpaces(AfterFirstWord(t))) == Unwords(Words(AfterFirstWord(t)))
    ensures TrimEnd(CollapseSpaces(t)) == Unwords(Words(t))
  {
    var n := WordLen(t);
    var rest := t[n..];
    var w := t[..n];
    CollapseWord(t);
    FirstWord(t);
    FirstWordIsWord(t);
    JoinStep(w, rest);
  }

  lemma FirstWordIsWord(t: string)
    requires |t| > 0 && !IsSpace(t[0])
    ensures IsWord(t[..WordLen(t)])
  {
    var n := WordLen(t);
    assert n > 0;
    forall i | 0 <= i < n
      ensures !IsSpace(t[..n][i])
    {
      assert t[..n][i] == t[i];
    }
  }

  /** One word in front: the step of the induction above. */
  lemma JoinStep(w: string, rest: string)
    requires IsWord(w)
    requires rest == [] || IsSpace(rest[0])
    requires DropSpaces(rest) != [] ==>
               TrimEnd(CollapseSpaces(DropSpaces(rest))) == Unwords(Words(DropSpaces(rest)))
    ensures TrimEnd(w + CollapseSpaces(rest)) == Unwords([w] + Words(DropSpaces(rest)))
  {
    if DropSpaces(rest) == [] {
      JoinLast(w, rest);
    } else {
      JoinMore(w, rest);
    }
  }

  lemma JoinLast(w: string, rest: string)
    requires IsWord(w)
    requires rest == [] || IsSpace(rest[0])
    requires DropSpaces(rest) == []
    ensures TrimEnd(w + CollapseSpaces(rest)) == Unwords([w] + Words(DropSpaces(rest)))
  {
    UnwordsCons(w, []);
    assert TrimEnd(w) == w;
    if rest != [] {
      CollapseTail(rest);
      TrimSpaceAfterWord(w);
    } else {
      assert w + [] == w;
    }
  }

  lemma TrimSpaceAfterWord(w: string)
    requires IsWord(w)
    ensures TrimEnd(w + " ") == w
  {
    assert (w + " ")[..|w + " "| - 1] == w;
    assert TrimEnd(w) == w;
  }

  lemma JoinMore(w: string, rest: string)
    requires IsWord(w)
    requires rest == [] || IsSpace(rest[0])
    requires DropSpaces(rest) != []
    requires TrimEnd(CollapseSpaces(DropSpaces(rest))) == Unwords(Words(DropSpaces(rest)))
    ensures TrimEnd(w + CollapseSpaces(rest)) == Unwords([w] + Words(DropSpaces(rest)))
  {
    var t' := DropSpaces(rest);
    var c := CollapseSpaces(t');
    CollapseTail(rest);
    TrimEndKeepsWord(t');
    TrimEndAppend(w + " ", c);
    ConcatAssoc(w, " ", c);
    FirstWord(t');
    UnwordsCons(w, Words(t'));
  }

  /** `.replace(/\s+/g, ' ').trim()`. */
  function Normalize(s: string): (r: string)
    ensures r == Unwords(Words(s))
  {
    var c := CollapseSpaces(s);
    var r := TrimEnd(DropSpaces(c));
    assert DropSpaces(c) == CollapseSpaces(DropSpaces(s)) by {
      CollapseLeading(s);
    }
    CollapseTrimIsUnwords(DropSpaces(s));
    assert Words(s) == Words(DropSpaces(s)) by {
      assert DropSpaces(DropSpaces(s)) == DropSpaces(s);
    }
    r
  }

  /** Leading whitespace collapses to at most one space, which the trim drops. */
  lemma CollapseLeading(s: string)
    ensures DropSpaces(CollapseSpaces(s)) == CollapseSpaces(DropSpaces(s))
  {
    if |s| > 0 && IsSpace(s[0]) {
      var t := DropSpaces(s);
      assert CollapseSpaces(s) == " " + CollapseSpaces(t);
      LeadingSpaceDropped(CollapseSpaces(t));
      CollapseStartsClean(t);
    } else {
      CollapseStartsClean(s);
    }
  }

  lemma LeadingSpaceDropped(c: string)
    ensures DropSpaces(" " + c) == DropSpaces(c)
  {
    assert (" " + c)[1..] == c;
  }

  /** Collapsing text that does not start with whitespace gives text that
      does not either. */
  lemma CollapseStartsClean(t: string)
    requires t == [] || !IsSpace(t[0])
    ensures DropSpaces(CollapseSpaces(t)) == CollapseSpaces(t)
  {
    if t != [] {
      TrimEndKeepsWord(t);
    }
  }

  /** Joining words gives the normal form. */
  lemma {:induction false} UnwordsIsNormal(ws: seq<string>)
    requires forall i :: 0 <= i < |ws| ==> IsWord(ws[i])
    ensures IsNormal(Unwords(ws))
    ensures |ws| > 0 ==> |Unwords(ws)| > 0 && !IsSpace(Unwords(ws)[0])
  {
    if |ws| >= 2 {
      UnwordsIsNormal(ws[1..]);
      var u := Unwords(ws[1..]);
      var r := ws[0] + " " + u;
      forall i | 0 <= i < |r| && IsSpace(r[i])
        ensures r[i] == ' ' && 0 < i < |r| - 1 && !IsSpace(r[i - 1]) && !IsSpace(r[i + 1])
      {
        if i == |ws[0]| {
          assert r[i + 1] == u[0];
        } else if i > |ws[0]| {
          assert r[i] == u[i - |ws[0]| - 1];
          assert r[i + 1] == u[i - |ws[0]|];
          if i - 1 > |ws[0]| {
            assert r[i - 1] == u[i - |ws[0]| - 2];
          }
        }
      }
    } else if |ws| == 1 {
      assert Unwords(ws) == ws[0];
    }
  }

  /** Leading whitespace does not change the words. */
  lemma WordsDropSpaces(s: string)
    ensures Words(DropSpaces(s)) == Words(s)
  {
    assert DropSpaces(DropSpaces(s)) == DropSpaces(s);
  }

  /** A word followed by whitespace (or nothing) is the first word. */
  lemma WordsCons(w: string, tail: string)
    requires IsWord(w)
    requires tail == [] || IsSpace(tail[0])
    ensures Words(w + tail) == [w] + Words(tail)
  {
    var s := w + tail;
    assert s[0] == w[0];
    assert DropSpaces(s) == s;
    WordLenOfWord(w, tail);
    assert s[..|w|] == w;
    assert s[|w|..] == tail;
  }

  /** A single word is its own only word. */
  lemma WordsSingle(w: string)
    requires IsWord(w)
    ensures Words(w) == [w]
  {
    var e: string := [];
    WordLenOfWord(w, e);
    assert w + e == w;
    assert DropSpaces(w) == w;
    assert w[..|w|] == w && w[|w|..] == e;
  }

  /** Splitting a join gives the words back. */
  lemma {:induction false} WordsOfUnwords(ws: seq<string>)
    requires forall i :: 0 <= i < |ws| ==> IsWord(ws[i])
    ensures Words(Unwords(ws)) == ws
  {
    if |ws| == 1 {
      var w := ws[0];
      assert Unwords(ws) == w;
      WordsSingle(w);
      HeadTail(ws);
    } else if |ws| >= 2 {
      var w := ws[0];
      var tl := ws[1..];
      assert forall i :: 0 <= i < |tl| ==> tl[i] == ws[i + 1];
      var u := Unwords(tl);
      assert Unwords(ws) == w + " " + u;
      UnwordsIsNormal(tl);
      WordsOfUnwords(tl);
      SpaceThenWords(u);
      WordsCons(w, " " + u);
      ConcatAssoc(w, " ", u);
      HeadTail(ws);
    }
  }

  lemma SpaceThenWords(u: string)
    requires u == [] || !IsSpace(u[0])
    ensures Words(" " + u) == Words(u)
  {
    assert (" " + u)[1..] == u;
    assert DropSpaces(" " + u) == u;
    WordsDropSpaces(" " + u);
  }

  lemma {:induction false} WordLenOfWord(w: string, tail: string)
    requires IsWord(w)
    requires tail == [] || IsSpace(tail[0])
    ensures WordLen(w + tail) == |w|
    decreases |w|
  {
    if |w| > 1 {
      assert (w + tail)[1..] == w[1..] + tail;
      WordLenOfWord(w[1..], tail);
    } else {
      assert (w + tail)[1..] == tail;
    }
  }

  /** Normalizing yields the normal form and keeps the words. */
  lemma NormalizeSound(s: string)
    ensures IsNormal(Normalize(s))
    ensures Words(Normalize(s)) == Words(s)
  {
    UnwordsIsNormal(Words(s));
    WordsOfUnwords(Words(s));
  }

  /** Normalizing is idempotent. */
  lemma NormalizeIdempotent(s: string)
    ensures Normalize(Normalize(s)) == Normalize(s)
  {
    NormalizeSound(s);
  }

  /** The cut: at most 2000 characters, then "..." when anything was cut. */
  const MaxDescription: nat := 2000

  function Truncate(t: string): (r: string)
    ensures |t| <= MaxDescription ==> r == t
    ensures |t| > MaxDescription ==>
              |r| == MaxDescription + 3 && r[..MaxDescription] == t[..MaxDescription]
              && r[MaxDescription..] == "..."
  {
    var cut := if |t| < MaxDescription then |t| else MaxDescription;
    assert |t| <= MaxDescription ==> t[..cut] + "" == t;
    t[..cut] + (if |t| > MaxDescription then "..." else "")
  }

  /** The clean-up applied to text whose tags have already been replaced by
      spaces: words kept in order, single spaces, at most 2000 characters plus
      an ellipsis. */
  function ExtractMainContent(stripped: string): (r: string)
    ensures var n := Normalize(stripped);
            && (|n| <= MaxDescription ==> r == n)
            && (|n| > MaxDescription ==> |r| == MaxDescription + 3 && r[..MaxDescription] == n[..MaxDescription]
                                         && r[MaxDescription..] == "...")
    ensures IsNormal(Normalize(stripped)) && Words(Normalize(stripped)) == Words(stripped)
  {
    NormalizeSound(stripped);
    Truncate(Normalize(stripped))
  }
}
