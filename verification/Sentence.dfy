/** Splitting a string at white space, and joining words with single spaces. */
module Sentence {
  predicate IsSpace(c: char) {
    '\t' <= c <= '\r' || c == ' ' || c == '\U{85}' || c == '\U{A0}' || c == '\U{1680}' ||
    '\U{2000}' <= c <= '\U{200A}' || c == '\U{2028}' || c == '\U{2029}' || c == '\U{202F}' ||
    c == '\U{205F}' || c == '\U{3000}'
  }

  predicate IsWord(w: string) { w != "" && forall i :: 0 <= i < |w| ==> !IsSpace(w[i]) }

  function Flush(word: string): seq<string> { if word == "" then [] else [word] }

  /** The words of s, the first of which continues an unfinished word. */
  function FieldsFrom(s: string, word: string): seq<string>
    decreases |s|
  {
    if s == "" then Flush(word)
    else if IsSpace(s[0]) then Flush(word) + FieldsFrom(s[1..], "")
    else FieldsFrom(s[1..], word + [s[0]])
  }

  function Fields(s: string): seq<string> { FieldsFrom(s, "") }

  function TrimLeft(s: string): string {
    if s != "" && IsSpace(s[0]) then TrimLeft(s[1..]) else s
  }

  function TrimRight(s: string): string {
    if s != "" && IsSpace(s[|s| - 1]) then TrimRight(s[..|s| - 1]) else s
  }

  function TrimSpace(s: string): string { TrimRight(TrimLeft(s)) }

  function Join(words: seq<string>): string {
    if words == [] then ""
    else if |words| == 1 then words[0]
    else words[0] + " " + Join(words[1..])
  }

  lemma {:induction false} FieldsTrimLeft(s: string)
    ensures Fields(TrimLeft(s)) == Fields(s)
    decreases |s|
  {
    if s != "" && IsSpace(s[0]) {
      FieldsTrimLeft(s[1..]);
    }
  }

  lemma {:induction false} FieldsThenSpace(s: string, c: char, word: string)
    requires IsSpace(c)
    ensures FieldsFrom(s + [c], word) == FieldsFrom(s, word)
    decreases |s|
  {
    if s == "" {
      assert (s + [c])[1..] == "";
    } else {
      assert (s + [c])[1..] == s[1..] + [c];
      FieldsThenSpace(s[1..], c, if IsSpace(s[0]) then "" else word + [s[0]]);
    }
  }

  lemma {:induction false} FieldsTrimRight(s: string)
    ensures Fields(TrimRight(s)) == Fields(s)
    decreases |s|
  {
    if s != "" && IsSpace(s[|s| - 1]) {
      FieldsTrimRight(s[..|s| - 1]);
      assert s == s[..|s| - 1] + [s[|s| - 1]];
      FieldsThenSpace(s[..|s| - 1], s[|s| - 1], "");
    }
  }

  /** Trimming first does not change the words. */
  lemma FieldsTrimSpace(s: string)
    ensures Fields(TrimSpace(s)) == Fields(s)
  {
    FieldsTrimRight(TrimLeft(s));
    FieldsTrimLeft(s);
  }

  lemma {:induction false} FieldsWord(w: string, s: string, word: string)
    requires forall i :: 0 <= i < |w| ==> !IsSpace(w[i])
    ensures FieldsFrom(w + s, word) == FieldsFrom(s, word + w)
    decreases |w|
  {
    if w == "" {
      assert w + s == s && word + w == word;
    } else {
      assert (w + s)[1..] == w[1..] + s;
      assert word + [w[0]] + w[1..] == word + w;
      FieldsWord(w[1..], s, word + [w[0]]);
    }
  }

  /** Splitting a joined sentence gives its words back. */
  lemma {:induction false} FieldsJoin(words: seq<string>)
    requires forall i :: 0 <= i < |words| ==> IsWord(words[i])
    ensures Fields(Join(words)) == words
    decreases |words|
  {
    if |words| == 1 {
      FieldsWord(words[0], "", "");
      assert words[0] + "" == words[0] && "" + words[0] == words[0];
    } else if |words| > 1 {
      var rest := " " + Join(words[1..]);
      assert words[0] + " " + Join(words[1..]) == words[0] + rest;
      FieldsWord(words[0], rest, "");
      assert "" + words[0] == words[0];
      assert rest[1..] == Join(words[1..]);
      FieldsJoin(words[1..]);
    }
  }

  // ---------- what a sentence is, whatever splits and joins it ----------

  /** White space as Unicode lists it. */
  ghost predicate White(c: char) {
    var n := c as int;
    n in {9, 10, 11, 12, 13, 32, 0x85, 0xA0, 0x1680, 0x2028, 0x2029, 0x202F, 0x205F, 0x3000} || 0x2000 <= n <= 0x200A
  }

  /** Splitting happens at every white space, and loses it. */
  lemma {:induction false} FieldsSplit(a: string, c: char, b: string, word: string)
    requires White(c)
    ensures FieldsFrom(a + [c] + b, word) == FieldsFrom(a, word) + Fields(b)
    decreases |a|
  {
    var s := a + [c] + b;
    if a == "" {
      assert s[1..] == b;
    } else {
      assert s[1..] == a[1..] + [c] + b;
      if IsSpace(a[0]) {
        FieldsSplit(a[1..], c, b, "");
        assert Flush(word) + (FieldsFrom(a[1..], "") + Fields(b)) == FieldsFrom(a, word) + Fields(b);
      } else {
        FieldsSplit(a[1..], c, b, word + [a[0]]);
      }
    }
  }

  /** Splitting happens nowhere else. */
  lemma FieldsWhole(w: string)
    requires w != "" && forall i :: 0 <= i < |w| ==> !White(w[i])
    ensures Fields(w) == [w]
  {
    FieldsWord(w, "", "");
    assert w + "" == w && "" + w == w;
  }

  /** All white space is single spaces between words. */
  ghost predicate SingleSpaced(s: string) {
    forall i | 0 <= i < |s| && White(s[i]) :: s[i] == ' ' && 0 < i && i + 1 < |s| && !White(s[i + 1])
  }

  lemma JoinTwo(words: seq<string>)
    requires |words| > 1
    ensures Join(words) == words[0] + (" " + Join(words[1..]))
  {
    assert words[0] + " " + Join(words[1..]) == words[0] + (" " + Join(words[1..]));
  }

  lemma {:induction false} JoinIsSingleSpaced(words: seq<string>)
    requires forall i :: 0 <= i < |words| ==> IsWord(words[i])
    ensures SingleSpaced(Join(words)) && (words != [] ==> Join(words) != "" && !White(Join(words)[0]))
    decreases |words|
  {
    if |words| > 1 {
      JoinTwo(words);
      JoinIsSingleSpaced(words[1..]);
    }
  }

  /** How many characters of s come before the first white space. */
  ghost function WordEnd(s: string): (n: nat)
    ensures n <= |s| && (forall i :: 0 <= i < n ==> !White(s[i])) && (n < |s| ==> White(s[n]))
  {
    if s == "" || White(s[0]) then 0 else 1 + WordEnd(s[1..])
  }

  /** A sentence with single spaces is what its words joined give: the words determine its text. */
  lemma {:induction false} JoinFields(s: string)
    requires SingleSpaced(s)
    ensures Join(Fields(s)) == s && (s != "" ==> Fields(s) != [])
    decreases |s|
  {
    if s != "" {
      var n := WordEnd(s);
      var w := s[..n];
      FieldsWhole(w);
      if n == |s| {
        assert w == s;
      } else {
        var b := s[n + 1..];
        assert s == w + [s[n]] + b;
        FieldsSplit(w, s[n], b, "");
        assert SingleSpaced(b) by {
          assert forall i | 0 <= i < |b| :: b[i] == s[n + 1 + i];
        }
        JoinFields(b);
        assert Fields(s)[1..] == Fields(b);
        JoinTwo(Fields(s));
      }
    }
  }
}
