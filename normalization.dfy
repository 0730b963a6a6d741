/**
 * Turning the free text of an incoming message into the list of phone
 * numbers to look up: split on runs of whitespace and commas, strip every
 * character that is not an ASCII digit from each token, discard the tokens
 * that are left empty.  The split happens before the strip, so digits of
 * two tokens are never joined into one number.
 */
module Normalization {
  import opened Sequences

  /** The characters matched by the class `[\s,]` of a JavaScript regular
      expression without the `u` flag: the comma, the ASCII white space
      (tab, line feed, vertical tab, form feed, carriage return and space),
      and the other white space and line terminators of ECMAScript, all of
      which lie at or above U+00A0. */
  predicate IsSeparator(c: char) {
    c == ',' || c == ' ' || ('\t' <= c <= '\r') || (c >= '\U{A0}' && Among(c, UnicodeSpaces))
  }

  /** The white space and line terminators beyond ASCII: no-break space,
      ogham space mark, the spaces U+2000 to U+200A, line and paragraph
      separators, narrow no-break space, medium mathematical space,
      ideographic space and the byte order mark. */
  const UnicodeSpaces: seq<char> := [
    '\U{A0}', '\U{1680}',
    '\U{2000}', '\U{2001}', '\U{2002}', '\U{2003}', '\U{2004}', '\U{2005}',
    '\U{2006}', '\U{2007}', '\U{2008}', '\U{2009}', '\U{200A}',
    '\U{2028}', '\U{2029}', '\U{202F}', '\U{205F}', '\U{3000}', '\U{FEFF}'
  ]

  /** `c` is one of `cs`. */
  predicate Among(c: char, cs: seq<char>) {
    cs != [] && (c == cs[0] || Among(c, cs[1..]))
  }

  /** A character that the stripping of main.js:94 keeps: the class of
      digits of a JavaScript regular expression without the `u` flag is
      exactly the ASCII digits. */
  predicate IsDigit(c: char) {
    '0' <= c <= '9'
  }

  predicate AllDigits(s: string) {
    forall i :: 0 <= i < |s| ==> IsDigit(s[i])
  }

  predicate NoSeparator(s: string) {
    forall i :: 0 <= i < |s| ==> !IsSeparator(s[i])
  }

  /** The index of the first separator at or after `i`, or `|s|`. */
  function TokenEnd(s: string, i: nat): (j: nat)
    requires i <= |s|
    ensures i <= j <= |s|
    decreases |s| - i
  {
    if i == |s| || IsSeparator(s[i]) then i else TokenEnd(s, i + 1)
  }

  /** What TokenEnd finds: no separator before it, and a separator at it
      unless it is the end of the text. */
  lemma {:induction false} TokenEndSpec(s: string, i: nat)
    requires i <= |s|
    ensures forall k :: i <= k < TokenEnd(s, i) ==> !IsSeparator(s[k])
    ensures TokenEnd(s, i) < |s| ==> IsSeparator(s[TokenEnd(s, i)])
    decreases |s| - i
  {
    if i < |s| && !IsSeparator(s[i]) {
      TokenEndSpec(s, i + 1);
    }
  }

  /** `s` without its leading run of separators. */
  function DropSeparators(s: string): (r: string)
    ensures |r| <= |s|
  {
    if s != [] && IsSeparator(s[0]) then DropSeparators(s[1..]) else s
  }

  /** The split of main.js:93: the pieces between maximal runs of
      separators, including the empty piece before a leading run and after
      a trailing one; the empty string splits into one empty piece. */
  function Split(s: string): seq<string>
    decreases |s|
  {
    var i := TokenEnd(s, 0);
    if i == |s| then [s] else [s[..i]] + Split(DropSeparators(s[i + 1..]))
  }

  /** The digits of `t`, in order, with every other character removed
      (main.js:94). */
  function StripNonDigits(t: string): string {
    if t == [] then []
    else (if IsDigit(t[0]) then [t[0]] else []) + StripNonDigits(t[1..])
  }

  /** Each piece replaced by its digits, piece for piece and in the same
      order (main.js:94). */
  function StripEach(ts: seq<string>): seq<string> {
    if ts == [] then [] else [StripNonDigits(ts[0])] + StripEach(ts[1..])
  }

  /** The non-empty strings of `ts`, in order: the filter of main.js:95
      drops exactly the empty ones. */
  function DropEmpty(ts: seq<string>): seq<string> {
    if ts == [] then []
    else (if ts[0] == "" then [] else [ts[0]]) + DropEmpty(ts[1..])
  }

  /** The list of numbers a message text asks about: split, strip the
      non-digits of each piece, drop the empty results (main.js:92-95). */
  function Normalize(text: string): seq<string> {
    DropEmpty(StripEach(Split(text)))
  }

  /** A one-token text is one number, or none if it holds no digit. */
  function Keep(t: string): seq<string> {
    if t == "" then [] else [t]
  }

  function Concat(ts: seq<string>): string {
    if ts == [] then "" else ts[0] + Concat(ts[1..])
  }

  // ---------------------------------------------------------------------
  // Stripping

  /** Stripping distributes over concatenation: it keeps the order of the
      digits and never moves one across a boundary. */
  lemma {:induction false} StripAppend(a: string, b: string)
    ensures StripNonDigits(a + b) == StripNonDigits(a) + StripNonDigits(b)
    decreases |a|
  {
    if a != [] {
      assert (a + b)[0] == a[0];
      assert (a + b)[1..] == a[1..] + b;
      StripAppend(a[1..], b);
    } else {
      assert a + b == b;
    }
  }

  /** A string of digits is left as it is, so stripping is idempotent. */
  lemma {:induction false} StripDigits(t: string)
    requires AllDigits(t)
    ensures StripNonDigits(t) == t
  {
    if t != [] {
      StripDigits(t[1..]);
    }
  }

  /** Only digits are left. */
  lemma {:induction false} StripYieldsDigits(t: string)
    ensures AllDigits(StripNonDigits(t))
  {
    if t != [] {
      StripYieldsDigits(t[1..]);
    }
  }

  lemma StripIdempotent(t: string)
    ensures StripNonDigits(StripNonDigits(t)) == StripNonDigits(t)
  {
    StripYieldsDigits(t);
    StripDigits(StripNonDigits(t));
  }

  // ---------------------------------------------------------------------
  // How the pipeline unfolds on one piece of text

  lemma NormalizeCons(t: string, rest: seq<string>)
    ensures DropEmpty(StripEach([t] + rest)) == Keep(StripNonDigits(t)) + DropEmpty(StripEach(rest))
  {
    assert ([t] + rest)[1..] == rest;
    var stripped := StripEach([t] + rest);
    assert stripped == [StripNonDigits(t)] + StripEach(rest);
    assert stripped[1..] == StripEach(rest);
  }

  /** A text without separators is a single token. */
  lemma NormalizeNoSeparator(s: string)
    requires NoSeparator(s)
    ensures Normalize(s) == Keep(StripNonDigits(s))
  {
    TokenEndSpec(s, 0);
    assert TokenEnd(s, 0) == |s|;
    assert Split(s) == [s] + [];
    NormalizeCons(s, []);
  }

  /** Leading separators yield at most an empty token, which is dropped. */
  lemma {:induction false} NormalizeDropSeparators(s: string)
    ensures Normalize(DropSeparators(s)) == Normalize(s)
  {
    if s != [] && IsSeparator(s[0]) {
      SplitLeadingSeparator(s);
      NormalizeCons("", Split(DropSeparators(s[1..])));
    }
  }

  /** A leading separator gives an empty first token. */
  lemma SplitLeadingSeparator(s: string)
    requires s != [] && IsSeparator(s[0])
    ensures Split(s) == [""] + Split(DropSeparators(s[1..]))
  {
    assert TokenEnd(s, 0) == 0;
    assert s[..0] == "";
  }

  lemma {:induction false} NormalizeLeadingSeparator(s: string)
    requires s != [] && IsSeparator(s[0])
    ensures Normalize(s) == Normalize(s[1..])
  {
    NormalizeDropSeparators(s);
    NormalizeDropSeparators(s[1..]);
  }

  /** Peeling off the first token: the number it yields, if any, comes first. */
  lemma NormalizeFirstToken(s: string)
    requires TokenEnd(s, 0) < |s|
    ensures Normalize(s) == Keep(StripNonDigits(s[..TokenEnd(s, 0)])) + Normalize(s[TokenEnd(s, 0) + 1..])
  {
    var i := TokenEnd(s, 0);
    assert Split(s) == [s[..i]] + Split(DropSeparators(s[i + 1..]));
    NormalizeCons(s[..i], Split(DropSeparators(s[i + 1..])));
    NormalizeDropSeparators(s[i + 1..]);
  }

  // ---------------------------------------------------------------------
  // The properties of normalisation

  /** Every token of the split is free of separators. */
  lemma {:induction false} SplitTokensHaveNoSeparator(s: string)
    ensures forall k :: 0 <= k < |Split(s)| ==> NoSeparator(Split(s)[k])
    decreases |s|
  {
    var i := TokenEnd(s, 0);
    TokenEndSpec(s, 0);
    if i < |s| {
      SplitTokensHaveNoSeparator(DropSeparators(s[i + 1..]));
    }
  }

  lemma {:induction false} StripEachYieldsDigits(ts: seq<string>)
    ensures forall t :: t in StripEach(ts) ==> AllDigits(t)
    decreases |ts|
  {
    if ts != [] {
      StripYieldsDigits(ts[0]);
      StripEachYieldsDigits(ts[1..]);
    }
  }

  lemma {:induction false} DropEmptyKeepsNonEmpty(ts: seq<string>)
    ensures forall t :: t in DropEmpty(ts) ==> t != "" && t in ts
    decreases |ts|
  {
    if ts != [] {
      DropEmptyKeepsNonEmpty(ts[1..]);
    }
  }

  /** Every number handed to the lookup is a non-empty string of ASCII digits. */
  lemma NormalizeYieldsDigitStrings(text: string)
    ensures forall k :: 0 <= k < |Normalize(text)| ==> Normalize(text)[k] != "" && AllDigits(Normalize(text)[k])
  {
    var stripped := StripEach(Split(text));
    StripEachYieldsDigits(Split(text));
    DropEmptyKeepsNonEmpty(stripped);
    forall k | 0 <= k < |Normalize(text)|
      ensures Normalize(text)[k] != "" && AllDigits(Normalize(text)[k])
    {
      assert Normalize(text)[k] in DropEmpty(stripped);
    }
  }

  lemma {:induction false} StripEachMembers(ts: seq<string>, e: string)
    requires e in StripEach(ts)
    ensures exists t :: t in ts && e == StripNonDigits(t)
    decreases |ts|
  {
    if e != StripNonDigits(ts[0]) {
      StripEachMembers(ts[1..], e);
      var t :| t in ts[1..] && e == StripNonDigits(t);
      assert t in ts;
    }
  }

  /** Each number is the digits of one token of the split. */
  lemma NormalizeEntriesComeFromTokens(text: string, e: string)
    requires e in Normalize(text)
    ensures exists t :: t in Split(text) && e == StripNonDigits(t)
  {
    DropEmptyKeepsNonEmpty(StripEach(Split(text)));
    StripEachMembers(Split(text), e);
  }

  /** A separator anywhere in the text cuts it in two independent halves:
      the numbers of the whole are those of the left part followed by those
      of the right part, so no number is ever made of digits from both
      sides of a separator. */
  lemma {:induction false} NormalizeSplitAt(s: string, k: nat)
    requires k < |s| && IsSeparator(s[k])
    ensures Normalize(s) == Normalize(s[..k]) + Normalize(s[k + 1..])
    decreases |s|, 2
  {
    var i := TokenEnd(s, 0);
    TokenEndSpec(s, 0);
    var first := Keep(StripNonDigits(s[..i]));
    assert Normalize(s) == first + Normalize(s[i + 1..]) by {
      NormalizeFirstToken(s);
    }
    if i == k {
      assert Normalize(s[..k]) == first by {
        NormalizeNoSeparator(s[..k]);
      }
    } else {
      SplitAtLaterSeparator(s, k);
    }
  }

  /** NormalizeSplitAt for a separator after the first token. */
  lemma {:induction false} SplitAtLaterSeparator(s: string, k: nat)
    requires TokenEnd(s, 0) < k < |s| && IsSeparator(s[k])
    requires Normalize(s) == Keep(StripNonDigits(s[..TokenEnd(s, 0)])) + Normalize(s[TokenEnd(s, 0) + 1..])
    ensures Normalize(s) == Normalize(s[..k]) + Normalize(s[k + 1..])
    decreases |s|, 1
  {
    var i := TokenEnd(s, 0);
    var first := Keep(StripNonDigits(s[..i]));
    var middle := Normalize(s[i + 1..k]);
    assert Normalize(s[i + 1..]) == middle + Normalize(s[k + 1..]) by {
      SplitAfterFirstToken(s, k);
    }
    assert Normalize(s[..k]) == first + middle by {
      FirstTokenOfPrefix(s, k);
    }
    Regroup(Normalize(s), first, Normalize(s[i + 1..]), middle, Normalize(s[k + 1..]), Normalize(s[..k]));
  }

  /** The inductive step of NormalizeSplitAt, for a separator after the
      first token: the rest of the text splits at that separator. */
  lemma {:induction false} SplitAfterFirstToken(s: string, k: nat)
    requires TokenEnd(s, 0) < k < |s| && IsSeparator(s[k])
    ensures Normalize(s[TokenEnd(s, 0) + 1..]) == Normalize(s[TokenEnd(s, 0) + 1..k]) + Normalize(s[k + 1..])
    decreases |s|, 0
  {
    var i := TokenEnd(s, 0);
    TokenEndSpec(s, 0);
    var t := s[i + 1..];
    var k' := k - i - 1;
    Slices(s, i + 1, k);
    NormalizeSplitAt(t, k');
  }

  /** Cutting the text at a later separator does not change its first token. */
  lemma FirstTokenOfPrefix(s: string, k: nat)
    requires TokenEnd(s, 0) < k < |s|
    ensures Normalize(s[..k]) == Keep(StripNonDigits(s[..TokenEnd(s, 0)])) + Normalize(s[TokenEnd(s, 0) + 1..k])
  {
    var i := TokenEnd(s, 0);
    PrefixTokenEnd(s, k);
    PrefixSlices(s, i, k);
    NormalizeFirstToken(s[..k]);
  }

  lemma PrefixTokenEnd(s: string, k: nat)
    requires TokenEnd(s, 0) < k <= |s|
    ensures TokenEnd(s[..k], 0) == TokenEnd(s, 0)
  {
    TokenEndSpec(s, 0);
    TokenEndIsFirst(s[..k], TokenEnd(s, 0));
  }

  lemma TokenEndIsFirst(s: string, i: nat)
    requires i < |s| && IsSeparator(s[i])
    requires forall j :: 0 <= j < i ==> !IsSeparator(s[j])
    ensures TokenEnd(s, 0) == i
  {
    TokenEndSpec(s, 0);
  }

  /** Read together, the numbers are exactly the digits of the text, in
      their original order: normalisation loses no digit and invents none. */
  lemma {:induction false} NormalizeKeepsDigits(s: string)
    ensures Concat(Normalize(s)) == StripNonDigits(s)
    decreases |s|
  {
    var i := TokenEnd(s, 0);
    TokenEndSpec(s, 0);
    if i == |s| {
      assert s[..i] == s;
      NormalizeNoSeparator(s);
      assert Concat(Keep(StripNonDigits(s))) == StripNonDigits(s);
    } else {
      var head := StripNonDigits(s[..i]);
      var tail := s[i + 1..];
      assert Concat(Normalize(s)) == head + StripNonDigits(tail) by {
        NormalizeFirstToken(s);
        NormalizeKeepsDigits(tail);
        ConcatAppend(Keep(head), Normalize(tail));
        assert Concat(Keep(head)) == head;
      }
      assert StripNonDigits(s) == head + StripNonDigits(tail) by {
        StripSkipsSeparator(s, i);
      }
    }
  }

  /** A separator contributes no digit. */
  lemma StripSkipsSeparator(s: string, i: nat)
    requires i < |s| && IsSeparator(s[i])
    ensures StripNonDigits(s) == StripNonDigits(s[..i]) + StripNonDigits(s[i + 1..])
  {
    var rest := s[i..];
    assert s == s[..i] + rest;
    StripAppend(s[..i], rest);
    StripCons(rest);
    assert rest[1..] == s[i + 1..];
  }

  /** Unfolding StripNonDigits once. */
  lemma StripCons(t: string)
    requires t != []
    ensures StripNonDigits(t) == (if IsDigit(t[0]) then [t[0]] else []) + StripNonDigits(t[1..])
  {
  }

  lemma {:induction false} ConcatAppend(a: seq<string>, b: seq<string>)
    ensures Concat(a + b) == Concat(a) + Concat(b)
    decreases |a|
  {
    if a == [] {
      assert a + b == b;
    } else {
      assert (a + b)[1..] == a[1..] + b;
      ConcatAppend(a[1..], b);
    }
  }

  /** Three separator-free tokens between two separators give at most three
      numbers, one per token and in order: "+1 (555) 123-4567" is the three
      numbers "1", "555" and "1234567", not one. */
  lemma NormalizeThreeTokens(a: string, b: string, c: string, sep: char)
    requires NoSeparator(a) && NoSeparator(b) && NoSeparator(c) && IsSeparator(sep)
    ensures Normalize(a + [sep] + b + [sep] + c)
         == Keep(StripNonDigits(a)) + Keep(StripNonDigits(b)) + Keep(StripNonDigits(c))
  {
    var s := a + [sep] + b + [sep] + c;
    var rest := b + [sep] + c;
    assert Normalize(s) == Normalize(a) + Normalize(rest) by {
      Reassociate(a, [sep], b, [sep], c);
      SplitAtJoin(a, sep, rest);
    }
    assert Normalize(rest) == Normalize(b) + Normalize(c) by {
      SplitAtJoin(b, sep, c);
    }
    assert Normalize(a) == Keep(StripNonDigits(a)) by {
      NormalizeNoSeparator(a);
    }
    assert Normalize(b) == Keep(StripNonDigits(b)) by {
      NormalizeNoSeparator(b);
    }
    assert Normalize(c) == Keep(StripNonDigits(c)) by {
      NormalizeNoSeparator(c);
    }
    Regroup(Normalize(s), Normalize(a), Normalize(rest), Normalize(b), Normalize(c),
            Normalize(a) + Normalize(b));
  }

  /** NormalizeSplitAt for a text given as its two halves. */
  lemma SplitAtJoin(a: string, sep: char, b: string)
    requires IsSeparator(sep)
    ensures Normalize(a + [sep] + b) == Normalize(a) + Normalize(b)
  {
    var s := a + [sep] + b;
    assert s[..|a|] == a && s[|a| + 1..] == b;
    NormalizeSplitAt(s, |a|);
  }
}
