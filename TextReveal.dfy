/**
 * The letter-stagger computation of the `TextReveal` heading. The text is
 * split on single spaces; every character of word `i` gets the stagger index
 * `words.slice(0, i).join(" ").length + j` and the entrance delay
 * `delay + index * 0.03`. The heading's accessible label is the text itself.
 */
module TextReveal {

  /** `s.split(" ")`: consecutive, leading or trailing spaces give empty words; never an empty list. */
  function Split(s: string): (words: seq<string>)
    ensures |words| >= 1
    ensures forall i :: 0 <= i < |words| ==> ' ' !in words[i]
    decreases |s|
  {
    if s == [] then [""]
    else
      var rest := Split(s[1..]);
      if s[0] == ' ' then [""] + rest
      else [[s[0]] + rest[0]] + rest[1..]
  }

  /** `words.join(" ")`. */
  function Join(words: seq<string>): string
    decreases |words|
  {
    if |words| == 0 then ""
    else if |words| == 1 then words[0]
    else words[0] + " " + Join(words[1..])
  }

  function Spaces(s: string): nat
  {
    if s == [] then 0 else (if s[0] == ' ' then 1 else 0) + Spaces(s[1..])
  }

  /** The text with its spaces taken out. */
  function NonSpaces(s: string): string
  {
    if s == [] then [] else (if s[0] == ' ' then [] else [s[0]]) + NonSpaces(s[1..])
  }

  function SumLen(words: seq<string>): nat
  {
    if words == [] then 0 else |words[0]| + SumLen(words[1..])
  }

  function Concat(words: seq<string>): string
  {
    if words == [] then [] else words[0] + Concat(words[1..])
  }

  /** Joining the split words with single spaces gives the text back. */
  lemma {:induction false} JoinSplit(s: string)
    ensures Join(Split(s)) == s
    decreases |s|
  {
    if s != [] {
      var rest := Split(s[1..]);
      JoinSplit(s[1..]);
      if s[0] == ' ' {
        assert ([""] + rest)[1..] == rest;
      } else {
        var w := [s[0]] + rest[0];
        var words := [w] + rest[1..];
        assert words[1..] == rest[1..];
        if |rest| == 1 {
          assert Join(words) == w;
        } else {
          assert Join(rest) == rest[0] + " " + Join(rest[1..]);
        }
      }
    }
  }

  /** One word per space plus one. */
  lemma {:induction false} SplitWordCount(s: string)
    ensures |Split(s)| == Spaces(s) + 1
    decreases |s|
  {
    if s != [] {
      SplitWordCount(s[1..]);
    }
  }

  /** The words hold exactly the non-space characters, in order. */
  lemma {:induction false} SplitGlyphs(s: string)
    ensures Concat(Split(s)) == NonSpaces(s)
    decreases |s|
  {
    if s != [] {
      var rest := Split(s[1..]);
      SplitGlyphs(s[1..]);
      if s[0] == ' ' {
        assert ([""] + rest)[1..] == rest;
      } else {
        var words := [[s[0]] + rest[0]] + rest[1..];
        assert words[1..] == rest[1..];
        assert Concat(rest) == rest[0] + Concat(rest[1..]);
      }
    }
  }

  lemma {:induction false} SumLenConcat(words: seq<string>)
    ensures SumLen(words) == |Concat(words)|
    decreases |words|
  {
    if words != [] {
      SumLenConcat(words[1..]);
    }
  }

  lemma SplitCounts(s: string)
    ensures |Split(s)| == Spaces(s) + 1
    ensures Concat(Split(s)) == NonSpaces(s)
    ensures SumLen(Split(s)) == |s| - Spaces(s)
  {
    SplitWordCount(s);
    SplitGlyphs(s);
    SumLenConcat(Split(s));
    NonSpacesLength(s);
  }

  lemma {:induction false} NonSpacesLength(s: string)
    ensures |NonSpaces(s)| == |s| - Spaces(s)
    decreases |s|
  {
    if s != [] {
      NonSpacesLength(s[1..]);
    }
  }

  /** The number of characters before word `i`: `words.slice(0, i).join(" ").length`. */
  function Base(words: seq<string>, i: nat): nat
    requires i <= |words|
  {
    |Join(words[..i])|
  }

  /** The length of a join: all the words plus one separator between each two. */
  lemma {:induction false} JoinLength(words: seq<string>)
    ensures |Join(words)| == if words == [] then 0 else SumLen(words) + |words| - 1
    decreases |words|
  {
    if |words| > 1 {
      JoinLength(words[1..]);
    }
  }

  lemma {:induction false} SumLenSnoc(words: seq<string>, w: string)
    ensures SumLen(words + [w]) == SumLen(words) + |w|
    decreases |words|
  {
    if words != [] {
      assert (words + [w])[1..] == words[1..] + [w];
      SumLenSnoc(words[1..], w);
    }
  }

  /** The first word starts at 0; word `i >= 1` starts after the earlier words and `i - 1` separators. */
  lemma BaseFormula(words: seq<string>, i: nat)
    requires i <= |words|
    ensures i == 0 ==> Base(words, i) == 0
    ensures i >= 1 ==> Base(words, i) == SumLen(words[..i]) + i - 1
  {
    JoinLength(words[..i]);
  }

  /** The next word's base is past all of this word's characters, and one further after the first word. */
  lemma BaseStep(words: seq<string>, i: nat)
    requires i < |words|
    ensures Base(words, i + 1) == Base(words, i) + |words[i]| + (if i == 0 then 0 else 1)
  {
    BaseFormula(words, i);
    BaseFormula(words, i + 1);
    assert words[..i + 1] == words[..i] + [words[i]];
    SumLenSnoc(words[..i], words[i]);
    if i == 0 {
      assert SumLen(words[..0]) == 0;
    }
  }

  /** One animated character: its glyph, its stagger index (`custom`) and its entrance delay. */
  datatype CharSpan = CharSpan(ch: char, custom: nat, delay: real)

  /** The rendered heading: its `aria-label` and one list of character spans per word. */
  datatype Heading = Heading(ariaLabel: string, words: seq<seq<CharSpan>>)

  /** The `visible` variant's delay for stagger index `index`. */
  function CharDelay(delay: real, index: nat): real
  {
    delay + index as real * 0.03
  }

  lemma CharDelayIncreasing(delay: real, i: nat, j: nat)
    requires i < j
    ensures CharDelay(delay, i) < CharDelay(delay, j)
  {
    assert (j as real - i as real) * 0.03 > 0.0;
  }

  /** The spans of word `i`: character `j` gets index `Base(words, i) + j`. */
  function WordSpans(words: seq<string>, i: nat, delay: real): seq<CharSpan>
    requires i < |words|
  {
    seq(|words[i]|, j requires 0 <= j < |words[i]| =>
      CharSpan(words[i][j], Base(words, i) + j, CharDelay(delay, Base(words, i) + j)))
  }

  function RenderWords(words: seq<string>, delay: real): seq<seq<CharSpan>>
  {
    seq(|words|, i requires 0 <= i < |words| => WordSpans(words, i, delay))
  }

  /**
   * `<TextReveal delay={delay}>{children}</TextReveal>`, apart from its markup.
   * An omitted `delay` prop defaults to 0, which is `Render(children, 0.0)`.
   */
  function Render(children: string, delay: real): (h: Heading)
    ensures h.ariaLabel == children
    ensures |h.words| == Spaces(children) + 1
  {
    SplitCounts(children);
    Heading(children, RenderWords(Split(children), delay))
  }

  /** The character spans in reading order. */
  function Flatten(wss: seq<seq<CharSpan>>): seq<CharSpan>
  {
    if wss == [] then [] else wss[0] + Flatten(wss[1..])
  }

  function Glyphs(spans: seq<CharSpan>): string
  {
    seq(|spans|, k requires 0 <= k < |spans| => spans[k].ch)
  }

  predicate StrictlyStaggered(spans: seq<CharSpan>)
  {
    forall a, b :: 0 <= a < b < |spans| ==> spans[a].custom < spans[b].custom && spans[a].delay < spans[b].delay
  }

  /** Every span's delay is the one its stagger index calls for, and its index is at least `lo`. */
  predicate DelaysFrom(spans: seq<CharSpan>, delay: real, lo: nat)
  {
    forall a :: 0 <= a < |spans| ==> spans[a].custom >= lo && spans[a].delay == CharDelay(delay, spans[a].custom)
  }

  /** Two staggered runs, the first wholly below `bound` and the second from `bound` on, make one staggered run. */
  lemma StaggeredConcat(head: seq<CharSpan>, tail: seq<CharSpan>, delay: real, lo: nat, bound: nat)
    requires StrictlyStaggered(head) && StrictlyStaggered(tail)
    requires DelaysFrom(head, delay, lo) && DelaysFrom(tail, delay, bound) && lo <= bound
    requires forall a :: 0 <= a < |head| ==> head[a].custom < bound
    ensures StrictlyStaggered(head + tail) && DelaysFrom(head + tail, delay, lo)
  {
    var f := head + tail;
    forall a | 0 <= a < |f|
      ensures f[a].custom >= lo && f[a].delay == CharDelay(delay, f[a].custom)
    {
      if a >= |head| { assert f[a] == tail[a - |head|]; }
    }
    forall a, b | 0 <= a < b < |f|
      ensures f[a].custom < f[b].custom && f[a].delay < f[b].delay
    {
      if b < |head| {
      } else if a < |head| {
        assert f[b] == tail[b - |head|];
      } else {
        assert f[a] == tail[a - |head|] && f[b] == tail[b - |head|];
      }
      CharDelayIncreasing(delay, f[a].custom, f[b].custom);
    }
  }

  /** A word's spans are staggered from its base and end before the next word's base. */
  lemma WordSpansStaggered(words: seq<string>, i: nat, delay: real)
    requires i < |words|
    ensures var w := WordSpans(words, i, delay);
      StrictlyStaggered(w) && DelaysFrom(w, delay, Base(words, i))
      && (forall a :: 0 <= a < |w| ==> w[a].custom < Base(words, i + 1))
      && Glyphs(w) == words[i]
  {
    BaseStep(words, i);
    var w := WordSpans(words, i, delay);
    forall a, b | 0 <= a < b < |w|
      ensures w[a].custom < w[b].custom && w[a].delay < w[b].delay
    {
      CharDelayIncreasing(delay, w[a].custom, w[b].custom);
    }
  }

  /** From word `k` on, the spans in reading order are staggered from word `k`'s base. */
  lemma {:induction false} RenderOrderFrom(words: seq<string>, delay: real, k: nat)
    requires k <= |words|
    ensures var f := Flatten(RenderWords(words, delay)[k..]);
      StrictlyStaggered(f) && DelaysFrom(f, delay, Base(words, k))
    decreases |words| - k
  {
    var ws := RenderWords(words, delay);
    if k < |words| {
      RenderOrderFrom(words, delay, k + 1);
      WordSpansStaggered(words, k, delay);
      BaseStep(words, k);
      assert ws[k..][1..] == ws[k + 1..];
      StaggeredConcat(ws[k], Flatten(ws[k + 1..]), delay, Base(words, k), Base(words, k + 1));
    } else {
      assert ws[k..] == [];
    }
  }

  /** From word `k` on, the spans in reading order spell the words' characters. */
  lemma {:induction false} RenderGlyphsFrom(words: seq<string>, delay: real, k: nat)
    requires k <= |words|
    ensures Glyphs(Flatten(RenderWords(words, delay)[k..])) == Concat(words[k..])
    decreases |words| - k
  {
    var ws := RenderWords(words, delay);
    if k < |words| {
      RenderGlyphsFrom(words, delay, k + 1);
      WordSpansStaggered(words, k, delay);
      assert ws[k..][1..] == ws[k + 1..];
      assert words[k..][1..] == words[k + 1..];
      var head, tail := ws[k], Flatten(ws[k + 1..]);
      assert Flatten(ws[k..]) == head + tail;
      assert Glyphs(head + tail) == Glyphs(head) + Glyphs(tail);
    } else {
      assert ws[k..] == [];
    }
  }

  /**
   * The global stagger order: in reading order every character's index and delay
   * are strictly larger than the previous character's, so no two characters share one.
   * The spans spell the text without its spaces, one span per non-space character.
   */
  lemma RenderOrder(children: string, delay: real)
    ensures var spans := Flatten(Render(children, delay).words);
      StrictlyStaggered(spans)
      && Glyphs(spans) == NonSpaces(children)
      && |spans| == |children| - Spaces(children)
  {
    var words := Split(children);
    RenderOrderFrom(words, delay, 0);
    RenderGlyphsFrom(words, delay, 0);
    assert RenderWords(words, delay)[0..] == RenderWords(words, delay);
    assert words[0..] == words;
    SplitCounts(children);
    NonSpacesLength(children);
  }

  /** Character `j` of word `i` gets stagger index `Base(i) + j`; the first word's characters start at 0. */
  lemma StaggerIndex(children: string, delay: real, i: nat, j: nat)
    requires var h := Render(children, delay); i < |h.words| && j < |h.words[i]|
    ensures var words := Split(children);
      Render(children, delay).words[i][j].custom
        == (if i == 0 then 0 else SumLen(words[..i]) + i - 1) + j
  {
    BaseFormula(Split(children), i);
  }

  lemma SplitStep(s: string, rest: string)
    requires s != [] && s[1..] == rest
    ensures Split(s) == if s[0] == ' ' then [""] + Split(rest) else [[s[0]] + Split(rest)[0]] + Split(rest)[1..]
  {
  }

  /** Two spaces in a row: the empty word between them gets no span but still adds a separator, so `b` in "a  b" gets index 2. */
  lemma DoubleSpaceExample()
    ensures Split("a  b") == ["a", "", "b"]
    ensures Render("a  b", 0.0).words[2][0].custom == 2
  {
    assert Split("") == [""];
    SplitStep("b", "");
    assert ['b'] + "" == "b" && [""][1..] == [];
    assert Split("b") == ["b"];
    SplitStep(" b", "b");
    assert Split(" b") == ["", "b"];
    SplitStep("  b", " b");
    assert Split("  b") == ["", "", "b"];
    SplitStep("a  b", "  b");
    assert ['a'] + "" == "a";
    var w := ["a", "", "b"];
    assert Split("a  b") == w;
    assert w[..2] == ["a", ""];
    assert Join(["a", ""]) == "a ";
    assert Render("a  b", 0.0).words[2] == WordSpans(w, 2, 0.0);
  }

  lemma SplitThreeWords()
    ensures Split("ab cd ef") == ["ab", "cd", "ef"]
  {
    assert Split("") == [""];
    SplitStep("f", "");
    assert ['f'] + "" == "f" && [""][1..] == [];
    assert Split("f") == ["f"];
    SplitStep("ef", "f");
    assert ['e'] + "f" == "ef" && ["f"][1..] == [];
    assert Split("ef") == ["ef"];
    SplitStep(" ef", "ef");
    assert Split(" ef") == ["", "ef"];
    SplitStep("d ef", " ef");
    assert ['d'] + "" == "d";
    assert Split("d ef") == ["d", "ef"];
    SplitStep("cd ef", "d ef");
    assert ['c'] + "d" == "cd" && ["d", "ef"][1..] == ["ef"];
    assert Split("cd ef") == ["cd", "ef"];
    SplitStep(" cd ef", "cd ef");
    assert Split(" cd ef") == ["", "cd", "ef"];
    SplitStep("b cd ef", " cd ef");
    assert ['b'] + "" == "b";
    assert Split("b cd ef") == ["b", "cd", "ef"];
    SplitStep("ab cd ef", "b cd ef");
    assert ['a'] + "b" == "ab" && ["b", "cd", "ef"][1..] == ["cd", "ef"];
  }

  /** The separator after the first word is not counted but later ones are: in "ab cd ef" the indices run 0 1 2 3 5 6. */
  lemma SkippedIndexExample()
    ensures Split("ab cd ef") == ["ab", "cd", "ef"]
    ensures Base(["ab", "cd", "ef"], 1) == 2
    ensures Base(["ab", "cd", "ef"], 2) == 5
  {
    var v := ["ab", "cd", "ef"];
    SplitThreeWords();
    assert v[..1] == ["ab"] && v[..2] == ["ab", "cd"];
    assert Join(["ab", "cd"]) == "ab cd";
  }
}
