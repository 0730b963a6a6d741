/**
 * The summary message sent after a batch: a header line for the
 * registered numbers, the found list one entry per line (or "None"), a
 * blank line, a header line for the others, and the not-found list one
 * entry per line (or "None").
 */
module ReplyFormat {
  import opened Sequences

  const AvailableHeader: string := "\U{2705} *WhatsApp Available:*"
  const MissingHeader: string := "\U{274C} *Not Available:*"

  /** The entries of `xs` with one line break between each two neighbours
      and none at either end (main.js:113-114). */
  function JoinLines(xs: seq<string>): string {
    if xs == [] then ""
    else if |xs| == 1 then xs[0]
    else xs[0] + "\n" + JoinLines(xs[1..])
  }

  /** A list as main.js:113-114 shows it: the joined entries, or the word
      "None" when the join is the empty string. */
  function ShowList(xs: seq<string>): string {
    var joined := JoinLines(xs);
    if joined == "" then "None" else joined
  }

  /** The Markdown text of the summary reply (main.js:112-114). */
  function FormatReply(found: seq<string>, notFound: seq<string>): string {
    AvailableHeader + "\n" + ShowList(found) + "\n\n" + MissingHeader + "\n" + ShowList(notFound)
  }

  /** The index of the first line break at or after `i`, or `|s|`. */
  function LineEnd(s: string, i: nat): (j: nat)
    requires i <= |s|
    ensures i <= j <= |s|
    decreases |s| - i
  {
    if i == |s| || s[i] == '\n' then i else LineEnd(s, i + 1)
  }

  /** What LineEnd finds: no line break before it, and a line break at it
      unless it is the end of the text. */
  lemma {:induction false} LineEndSpec(s: string, i: nat)
    requires i <= |s|
    ensures forall k :: i <= k < LineEnd(s, i) ==> s[k] != '\n'
    ensures LineEnd(s, i) < |s| ==> s[LineEnd(s, i)] == '\n'
    decreases |s| - i
  {
    if i < |s| && s[i] != '\n' {
      LineEndSpec(s, i + 1);
    }
  }

  /** How a reader of the message sees it: the lines between line breaks. */
  function Lines(s: string): seq<string>
    decreases |s|
  {
    var i := LineEnd(s, 0);
    if i == |s| then [s] else [s[..i]] + Lines(s[i + 1..])
  }

  /** The list as it is shown: its entries, or the single word "None". */
  function Shown(xs: seq<string>): seq<string> {
    if xs == [] then ["None"] else xs
  }

  predicate OneLine(s: string) {
    '\n' !in s
  }

  predicate OneLineEntries(xs: seq<string>) {
    forall k :: 0 <= k < |xs| ==> xs[k] != "" && OneLine(xs[k])
  }

  // ---------------------------------------------------------------------

  lemma LinesOfOneLine(s: string)
    requires OneLine(s)
    ensures Lines(s) == [s]
  {
    LineEndSpec(s, 0);
    assert LineEnd(s, 0) == |s|;
  }

  /** A line break separates the lines before it from those after it. */
  lemma {:induction false} LinesAppend(a: string, b: string)
    ensures Lines(a + "\n" + b) == Lines(a) + Lines(b)
    decreases |a|
  {
    var i := LineEnd(a, 0);
    if i == |a| {
      LinesAfterOneLine(a, b);
    } else {
      LinesAfterFirstLine(a, b);
      LinesAppend(a[i + 1..], b);
      Assoc([a[..i]], Lines(a[i + 1..]), Lines(b));
    }
  }

  /** The base case of LinesAppend: `a` has no line break. */
  lemma LinesAfterOneLine(a: string, b: string)
    requires LineEnd(a, 0) == |a|
    ensures Lines(a) == [a]
    ensures Lines(a + "\n" + b) == [a] + Lines(b)
  {
    var s := a + "\n" + b;
    LineEndSpec(a, 0);
    AroundSeparator(a, '\n', b);
    FirstLineBreak(s, |a|);
  }

  /** The step of LinesAppend: the first line of `a` is also the first line
      of the whole, and the rest of the whole is the rest of `a` followed by
      the line break and `b`. */
  lemma LinesAfterFirstLine(a: string, b: string)
    requires LineEnd(a, 0) < |a|
    ensures Lines(a) == [a[..LineEnd(a, 0)]] + Lines(a[LineEnd(a, 0) + 1..])
    ensures Lines(a + "\n" + b) == [a[..LineEnd(a, 0)]] + Lines(a[LineEnd(a, 0) + 1..] + "\n" + b)
  {
    var i := LineEnd(a, 0);
    var s := a + "\n" + b;
    LineEndSpec(a, 0);
    InsideLeft(a, '\n', b, i);
    FirstLineBreak(s, i);
    LinesAtBreak(s);
  }

  /** Unfolding Lines once at its first line break. */
  lemma LinesAtBreak(s: string)
    requires LineEnd(s, 0) < |s|
    ensures Lines(s) == [s[..LineEnd(s, 0)]] + Lines(s[LineEnd(s, 0) + 1..])
  {
  }

  lemma FirstLineBreak(s: string, i: nat)
    requires i < |s| && s[i] == '\n'
    requires forall k :: 0 <= k < i ==> s[k] != '\n'
    ensures LineEnd(s, 0) == i
  {
    LineEndSpec(s, 0);
  }

  /** Joining is undone by reading the lines back, as long as no entry
      holds a line break. */
  lemma {:induction false} LinesOfJoin(xs: seq<string>)
    requires xs != []
    requires forall k :: 0 <= k < |xs| ==> OneLine(xs[k])
    ensures Lines(JoinLines(xs)) == xs
    decreases |xs|
  {
    if |xs| == 1 {
      LinesOfOneLine(xs[0]);
    } else {
      var rest := xs[1..];
      assert forall k :: 0 <= k < |rest| ==> OneLine(rest[k]) by {
        forall k | 0 <= k < |rest| ensures OneLine(rest[k]) {
          assert rest[k] == xs[k + 1];
        }
      }
      assert JoinLines(xs) == xs[0] + "\n" + JoinLines(rest);
      LinesAppend(xs[0], JoinLines(rest));
      LinesOfJoin(rest);
      LinesOfOneLine(xs[0]);
      assert xs == [xs[0]] + rest;
    }
  }

  /** The join of non-empty entries is empty only for the empty list. */
  lemma {:induction false} JoinLinesEmpty(xs: seq<string>)
    requires OneLineEntries(xs)
    ensures JoinLines(xs) == "" <==> xs == []
  {
    if xs != [] {
      assert |JoinLines(xs)| >= |xs[0]| by {
        if |xs| > 1 {
          assert JoinLines(xs) == xs[0] + "\n" + JoinLines(xs[1..]);
        }
      }
    }
  }

  /** A list of one-line entries is shown as "None" when it is empty and
      as its entries joined by line breaks otherwise. */
  lemma ShowListOfEntries(xs: seq<string>)
    requires OneLineEntries(xs)
    ensures ShowList(xs) == if xs == [] then "None" else JoinLines(xs)
  {
    JoinLinesEmpty(xs);
  }

  /** Read line by line, the reply is the first header, the found entries
      (or "None"), a blank line, the second header and the not-found
      entries (or "None"). */
  lemma ReplyLines(found: seq<string>, notFound: seq<string>)
    requires OneLineEntries(found) && OneLineEntries(notFound)
    ensures Lines(FormatReply(found, notFound))
         == [AvailableHeader] + Shown(found) + ["", MissingHeader] + Shown(notFound)
  {
    ShownLines(found);
    ShownLines(notFound);
    HeadersAreOneLine();
    TwoSectionLines(AvailableHeader, ShowList(found), MissingHeader, ShowList(notFound));
  }

  lemma HeadersAreOneLine()
    ensures OneLine(AvailableHeader) && OneLine(MissingHeader)
  {
  }

  /** The line structure of a two-section message. */
  lemma TwoSectionLines(h1: string, body1: string, h2: string, body2: string)
    requires OneLine(h1) && OneLine(h2)
    ensures Lines(h1 + "\n" + body1 + "\n\n" + h2 + "\n" + body2)
         == [h1] + Lines(body1) + ["", h2] + Lines(body2)
  {
    var tail := h2 + "\n" + body2;
    var mid := "" + "\n" + tail;
    var rest := body1 + "\n" + mid;
    TwoSectionText(h1, body1, h2, body2);
    assert Lines(tail) == [h2] + Lines(body2) by {
      LinesAppend(h2, body2);
      LinesOfOneLine(h2);
    }
    assert Lines(mid) == [""] + Lines(tail) by {
      LinesAppend("", tail);
      LinesOfOneLine("");
    }
    assert Lines(rest) == Lines(body1) + Lines(mid) by {
      LinesAppend(body1, mid);
    }
    assert Lines(h1 + "\n" + rest) == [h1] + Lines(rest) by {
      LinesAppend(h1, rest);
      LinesOfOneLine(h1);
    }
    TwoSectionList(h1, Lines(body1), h2, Lines(body2));
  }

  lemma TwoSectionText(h1: string, body1: string, h2: string, body2: string)
    ensures h1 + "\n" + body1 + "\n\n" + h2 + "\n" + body2
         == h1 + "\n" + (body1 + "\n" + ("" + "\n" + (h2 + "\n" + body2)))
  {
  }

  lemma TwoSectionList(h1: string, lines1: seq<string>, h2: string, lines2: seq<string>)
    ensures [h1] + (lines1 + ([""] + ([h2] + lines2))) == [h1] + lines1 + ["", h2] + lines2
  {
  }

  lemma ShownLines(xs: seq<string>)
    requires OneLineEntries(xs)
    ensures Lines(ShowList(xs)) == Shown(xs)
  {
    ShowListOfEntries(xs);
    if xs == [] {
      LinesOfOneLine("None");
    } else {
      LinesOfJoin(xs);
    }
  }
}
