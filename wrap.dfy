/**
 * wrap_text: greedy word wrapping of a description. The words of the text
 * (Python's `str.split()`) are packed into lines from left to right; each line
 * is the indent followed by its words joined with single spaces.
 */
module Wrap {
  import opened Text

  /** Python's `str.isspace` on one character, restricted to ASCII. */
  predicate IsSpace(c: char) {
    c == ' ' || '\t' <= c <= '\r' || '\U{1C}' <= c <= '\U{1F}'
  }

  predicate NoSpace(w: string) {
    forall i :: 0 <= i < |w| ==> !IsSpace(w[i])
  }

  /** The longest prefix of `s` with no whitespace. */
  function TakeWord(s: string): (w: string)
    ensures w <= s && NoSpace(w)
    ensures |w| == |s| || IsSpace(s[|w|])
    ensures |s| > 0 && !IsSpace(s[0]) ==> |w| > 0
    decreases |s|
  {
    if |s| == 0 || IsSpace(s[0]) then [] else [s[0]] + TakeWord(s[1..])
  }

  /** Python's `text.split()`: the maximal runs of non-whitespace characters, in order. */
  function Words(s: string): (ws: seq<string>)
    ensures forall i :: 0 <= i < |ws| ==> IsWord(ws[i])
    decreases |s|
  {
    if |s| == 0 then []
    else if IsSpace(s[0]) then Words(s[1..])
    else
      var w := TakeWord(s);
      assert IsWord(w);
      [w] + Words(s[|w|..])
  }

  /** A word of `str.split()`: non-empty and free of whitespace. */
  predicate IsWord(w: string) {
    |w| > 0 && NoSpace(w)
  }

  /** Total number of characters of the words. */
  function SumLen(g: seq<string>): nat
    decreases |g|
  {
    if |g| == 0 then 0 else |g[0]| + SumLen(g[1..])
  }

  /** Length of `' '.join(g)` for a non-empty line. */
  function LineLen(g: seq<string>): int {
    SumLen(g) + |g| - 1
  }

  function Flatten(gs: seq<seq<string>>): seq<string>
    decreases |gs|
  {
    if |gs| == 0 then [] else gs[0] + Flatten(gs[1..])
  }

  /**
   * The line grouping wrap_text computes. `line` and `cur` are the loop's
   * `current_line` and `current_length`; `base` is `len(indent)`. A word
   * starts a new line when `cur + len(word) + 1 > width` and the current
   * line is not empty.
   */
  function Greedy(words: seq<string>, width: int, base: int, line: seq<string>, cur: int): seq<seq<string>>
    decreases |words|
  {
    if |words| == 0 then (if |line| == 0 then [] else [line])
    else
      var w := words[0];
      if cur + |w| + 1 > width && |line| > 0 then [line] + Greedy(words[1..], width, base, [w], base + |w|)
      else Greedy(words[1..], width, base, line + [w], cur + |w| + 1)
  }

  /** The lines of wrap_text as the source initialises the loop (`current_length = len(indent)`). */
  function WrapGroups(text: string, width: int, indent: string): seq<seq<string>> {
    Greedy(Words(text), width, |indent|, [], |indent|)
  }

  /** Each group of words rendered as one output line. */
  function Render(gs: seq<seq<string>>, indent: string): (lines: seq<string>)
    ensures |lines| == |gs|
    decreases |gs|
  {
    if |gs| == 0 then [] else [indent + Join(" ", gs[0])] + Render(gs[1..], indent)
  }

  /** wrap_text: the rendered lines joined with newlines ("" for an empty text). */
  method WrapText(text: string, width: int, indent: string) returns (r: string)
    ensures r == Join("\n", Render(WrapGroups(text, width, indent), indent))
  {
    if |text| == 0 {
      assert Words(text) == [];
      return "";
    }
    var lines := WrapLines(Words(text), width, indent);
    r := Join("\n", lines);
  }

  /** The loop of wrap_text over the words, producing the rendered lines. */
  method WrapLines(words: seq<string>, width: int, indent: string) returns (lines: seq<string>)
    ensures lines == Render(Greedy(words, width, |indent|, [], |indent|), indent)
  {
    lines := [];
    var currentLine: seq<string> := [];
    var currentLength := |indent|;
    ghost var all := Render(Greedy(words, width, |indent|, [], |indent|), indent);
    for k := 0 to |words|
      invariant lines + Render(Greedy(words[k..], width, |indent|, currentLine, currentLength), indent) == all
    {
      var word := words[k];
      GreedyStep(words, k, width, |indent|, currentLine, currentLength);
      if currentLength + |word| + 1 > width && |currentLine| > 0 {
        BreakStep(lines, currentLine, Greedy(words[k + 1..], width, |indent|, [word], |indent| + |word|), indent, all);
        lines := lines + [indent + Join(" ", currentLine)];
        currentLine := [word];
        currentLength := |indent| + |word|;
      } else {
        currentLine := currentLine + [word];
        currentLength := currentLength + |word| + 1;
      }
    }
    assert words[|words|..] == [];
    if |currentLine| > 0 {
      BreakStep(lines, currentLine, [], indent, all);
      lines := lines + [indent + Join(" ", currentLine)];
    }
  }

  /** Emitting the pending line keeps the loop invariant of WrapLines. */
  lemma BreakStep(lines: seq<string>, line: seq<string>, rest: seq<seq<string>>, indent: string, all: seq<string>)
    requires lines + Render([line] + rest, indent) == all
    ensures (lines + [indent + Join(" ", line)]) + Render(rest, indent) == all
  {
    RenderCons(line, rest, indent);
  }

  lemma RenderCons(g: seq<string>, rest: seq<seq<string>>, indent: string)
    ensures Render([g] + rest, indent) == [indent + Join(" ", g)] + Render(rest, indent)
  {
    assert ([g] + rest)[1..] == rest;
  }

  lemma {:induction false} RenderAt(gs: seq<seq<string>>, indent: string, i: nat)
    requires i < |gs|
    ensures Render(gs, indent)[i] == indent + Join(" ", gs[i])
    decreases i
  {
    if i > 0 {
      RenderAt(gs[1..], indent, i - 1);
    }
  }

  /** One loop iteration of wrap_text is one unfolding of Greedy. */
  lemma GreedyStep(words: seq<string>, k: nat, width: int, base: int, line: seq<string>, cur: int)
    requires k < |words|
    ensures Greedy(words[k..], width, base, line, cur) ==
      if cur + |words[k]| + 1 > width && |line| > 0 then [line] + Greedy(words[k + 1..], width, base, [words[k]], base + |words[k]|)
      else Greedy(words[k + 1..], width, base, line + [words[k]], cur + |words[k]| + 1)
  {
    assert words[k..][0] == words[k] && words[k..][1..] == words[k + 1..];
  }

  // What the grouping promises

  lemma {:induction false} FlattenAppend(a: seq<seq<string>>, b: seq<seq<string>>)
    ensures Flatten(a + b) == Flatten(a) + Flatten(b)
    decreases |a|
  {
    if |a| > 0 {
      assert (a + b)[1..] == a[1..] + b;
      FlattenAppend(a[1..], b);
    } else {
      assert a + b == b;
    }
  }

  /** No word is lost, duplicated or reordered: the lines hold exactly the pending line and the words. */
  lemma {:induction false} GreedyKeepsWords(words: seq<string>, width: int, base: int, line: seq<string>, cur: int)
    ensures Flatten(Greedy(words, width, base, line, cur)) == line + words
    decreases |words|
  {
    if |words| == 0 {
      if |line| > 0 {
        assert Flatten([line]) == line + Flatten([]);
      }
    } else {
      var w := words[0];
      assert words == [w] + words[1..];
      if cur + |w| + 1 > width && |line| > 0 {
        GreedyKeepsWords(words[1..], width, base, [w], base + |w|);
        FlattenAppend([line], Greedy(words[1..], width, base, [w], base + |w|));
        assert Flatten([line]) == line + Flatten([]);
      } else {
        GreedyKeepsWords(words[1..], width, base, line + [w], cur + |w| + 1);
      }
    }
  }

  /** Every produced line holds at least one word, and the lines hold exactly the words of the text. */
  lemma WrapKeepsWords(text: string, width: int, indent: string)
    ensures Flatten(WrapGroups(text, width, indent)) == Words(text)
    ensures forall i :: 0 <= i < |WrapGroups(text, width, indent)| ==> |WrapGroups(text, width, indent)[i]| > 0
  {
    GreedyKeepsWords(Words(text), width, |indent|, [], |indent|);
    GreedyNonEmpty(Words(text), width, |indent|, [], |indent|);
  }

  lemma {:induction false} GreedyNonEmpty(words: seq<string>, width: int, base: int, line: seq<string>, cur: int)
    ensures forall i :: 0 <= i < |Greedy(words, width, base, line, cur)| ==> |Greedy(words, width, base, line, cur)[i]| > 0
    decreases |words|
  {
    if |words| > 0 {
      var w := words[0];
      if cur + |w| + 1 > width && |line| > 0 {
        GreedyNonEmpty(words[1..], width, base, [w], base + |w|);
      } else {
        GreedyNonEmpty(words[1..], width, base, line + [w], cur + |w| + 1);
      }
    }
  }

  lemma {:induction false} SumLenAppend(g: seq<string>, w: string)
    ensures SumLen(g + [w]) == SumLen(g) + |w|
    decreases |g|
  {
    if |g| > 0 {
      assert (g + [w])[1..] == g[1..] + [w];
      SumLenAppend(g[1..], w);
    } else {
      assert SumLen([w]) == |w| + SumLen([]);
    }
  }

  lemma {:induction false} JoinLength(g: seq<string>)
    requires |g| > 0
    ensures |Join(" ", g)| == LineLen(g)
    decreases |g|
  {
    if |g| > 1 {
      JoinLength(g[1..]);
    } else {
      assert SumLen(g[1..]) == 0;
    }
  }

  /**
   * A line with two or more words never exceeds `width`; a single word longer
   * than the width is put on a line of its own.
   */
  lemma {:induction false} GreedyFits(words: seq<string>, width: int, base: int, line: seq<string>, cur: int)
    requires |line| == 0 ==> base <= cur + 1
    requires |line| > 0 ==> base + LineLen(line) <= cur
    requires |line| >= 2 ==> base + LineLen(line) <= width
    ensures forall i :: 0 <= i < |Greedy(words, width, base, line, cur)| && |Greedy(words, width, base, line, cur)[i]| >= 2 ==>
      base + LineLen(Greedy(words, width, base, line, cur)[i]) <= width
    decreases |words|
  {
    if |words| > 0 {
      var w := words[0];
      SumLenAppend(line, w);
      if cur + |w| + 1 > width && |line| > 0 {
        assert SumLen([w]) == |w| + SumLen([]);
        GreedyFits(words[1..], width, base, [w], base + |w|);
      } else {
        GreedyFits(words[1..], width, base, line + [w], cur + |w| + 1);
      }
    }
  }

  /** wrap_text never renders a line of two or more words longer than `width`. */
  lemma WrapFits(text: string, width: int, indent: string)
    ensures forall i :: 0 <= i < |WrapGroups(text, width, indent)| && |WrapGroups(text, width, indent)[i]| >= 2 ==>
      |Render(WrapGroups(text, width, indent), indent)[i]| <= width
  {
    var gs := WrapGroups(text, width, indent);
    GreedyFits(Words(text), width, |indent|, [], |indent|);
    forall i | 0 <= i < |gs| && |gs[i]| >= 2
      ensures |Render(gs, indent)[i]| <= width
    {
      JoinLength(gs[i]);
      RenderAt(gs, indent, i);
    }
  }

  // The first-line off-by-one

  /**
   * As written, the first line is filled one character short of `width`:
   * "a bb" has exactly 4 characters, yet with width 4 and no indent it is
   * split into two lines, although "bb" would fit after "a".
   */
  lemma FirstLineBreaksEarly()
    ensures WrapGroups("a bb", 4, "") == [["a"], ["bb"]]
    ensures |Join(" ", ["a", "bb"])| == 4
    ensures !BreakForced(WrapGroups("a bb", 4, ""), 0, 4, 0)
  {
    ExampleWords();
    ExampleGreedy();
    assert SumLen(["a"]) == 1 + SumLen([]);
  }

  lemma ExampleGreedy()
    ensures Greedy(["a", "bb"], 4, 0, [], 0) == [["a"], ["bb"]]
  {
    var ws: seq<string> := ["a", "bb"];
    assert ws[1..] == ["bb"] && ws[1..][1..] == [];
    assert [] + ["a"] == ["a"];
    assert Greedy(ws, 4, 0, [], 0) == Greedy(["bb"], 4, 0, ["a"], 2);
    assert Greedy(["bb"], 4, 0, ["a"], 2) == [["a"]] + Greedy([], 4, 0, ["bb"], 2);
  }

  lemma ExampleWords()
    ensures Words("a bb") == ["a", "bb"]
  {
    var text := "a bb";
    assert text[1..] == " bb" && text[1..][1..] == "bb";
    assert TakeWord(" bb") == [];
    assert TakeWord(text) == "a";
    assert "bb"[1..] == "b" && "b"[1..] == [];
    assert TakeWord("b") == "b";
    assert TakeWord("bb") == "bb";
    assert "bb"[2..] == [];
    assert Words("bb") == ["bb"] + Words([]);
    assert Words(" bb") == Words("bb");
  }

  /** The intended loop start: `current_length` then tracks the rendered line length on every line. */
  function FittedGroups(text: string, width: int, indent: string): seq<seq<string>> {
    Greedy(Words(text), width, |indent|, [], |indent| - 1)
  }

  /** Line `i` is followed by a line whose first word would not have fitted on it. */
  predicate BreakForced(gs: seq<seq<string>>, i: int, width: int, base: int)
    requires 0 <= i < |gs| - 1
  {
    |gs[i + 1]| > 0 && base + LineLen(gs[i]) + 1 + |gs[i + 1][0]| > width
  }

  lemma {:induction false} GreedyHead(words: seq<string>, width: int, base: int, line: seq<string>, cur: int)
    requires |line| > 0
    ensures |Greedy(words, width, base, line, cur)| > 0
    ensures |Greedy(words, width, base, line, cur)[0]| > 0 && Greedy(words, width, base, line, cur)[0][0] == line[0]
    decreases |words|
  {
    if |words| > 0 {
      var w := words[0];
      if !(cur + |w| + 1 > width && |line| > 0) {
        GreedyHead(words[1..], width, base, line + [w], cur + |w| + 1);
      }
    }
  }

  /**
   * With `cur` equal to the rendered length of the pending line, a new line is
   * started only when the next word does not fit: every line followed by
   * another would exceed `width` if it took that line's first word.
   */
  lemma {:induction false} GreedyBreaksOnlyWhenNeeded(words: seq<string>, width: int, base: int, line: seq<string>, cur: int)
    requires |line| == 0 ==> cur == base - 1
    requires |line| > 0 ==> cur == base + LineLen(line)
    ensures forall i :: 0 <= i < |Greedy(words, width, base, line, cur)| - 1 ==>
      BreakForced(Greedy(words, width, base, line, cur), i, width, base)
    decreases |words|
  {
    if |words| > 0 {
      var w := words[0];
      SumLenAppend(line, w);
      assert SumLen([w]) == |w| + SumLen([]);
      if cur + |w| + 1 > width && |line| > 0 {
        var rest := Greedy(words[1..], width, base, [w], base + |w|);
        GreedyBreaksOnlyWhenNeeded(words[1..], width, base, [w], base + |w|);
        GreedyHead(words[1..], width, base, [w], base + |w|);
        var gs := [line] + rest;
        forall i | 0 <= i < |gs| - 1
          ensures BreakForced(gs, i, width, base)
        {
          if i > 0 {
            assert gs[i] == rest[i - 1] && gs[i + 1] == rest[i];
            assert BreakForced(rest, i - 1, width, base);
          }
        }
      } else {
        var gs := Greedy(words[1..], width, base, line + [w], cur + |w| + 1);
        assert Greedy(words, width, base, line, cur) == gs;
        GreedyBreaksOnlyWhenNeeded(words[1..], width, base, line + [w], cur + |w| + 1);
        forall i | 0 <= i < |gs| - 1
          ensures BreakForced(Greedy(words, width, base, line, cur), i, width, base)
        {
          assert BreakForced(gs, i, width, base);
        }
      }
    }
  }

  /** The corrected wrapping breaks a line only when the next word would not fit within `width`. */
  lemma FittedBreaksOnlyWhenNeeded(text: string, width: int, indent: string)
    ensures forall i :: 0 <= i < |FittedGroups(text, width, indent)| - 1 ==>
      BreakForced(FittedGroups(text, width, indent), i, width, |indent|)
    ensures Flatten(FittedGroups(text, width, indent)) == Words(text)
  {
    GreedyBreaksOnlyWhenNeeded(Words(text), width, |indent|, [], |indent| - 1);
    GreedyKeepsWords(Words(text), width, |indent|, [], |indent| - 1);
  }
}
