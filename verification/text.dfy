/** The string handling the `.stru` reader and the atom table rely on:
    `str.capitalize`, `str.replace(',', ' ')` and `str.split()` with no
    separator. */
module Text {

  /** Python's `str.isspace` for a single character. */
  predicate IsSpace(c: char) {
    c == '\t' || c == '\n' || c == '\U{000B}' || c == '\U{000C}' || c == '\r'
    || ('\U{001C}' <= c <= '\U{001F}') || c == ' ' || c == '\U{0085}'
    || c == '\U{00A0}' || c == '\U{1680}' || ('\U{2000}' <= c <= '\U{200A}')
    || c == '\U{2028}' || c == '\U{2029}' || c == '\U{202F}' || c == '\U{205F}'
    || c == '\U{3000}'
  }

  predicate IsWord(w: string) {
    |w| > 0 && forall i :: 0 <= i < |w| ==> !IsSpace(w[i])
  }

  function ToUpper(c: char): char {
    if 'a' <= c <= 'z' then (c as int - 32) as char else c
  }

  function ToLower(c: char): char {
    if 'A' <= c <= 'Z' then (c as int + 32) as char else c
  }

  function Lower(s: string): (r: string)
    ensures |r| == |s|
    ensures forall i :: 0 <= i < |s| ==> r[i] == ToLower(s[i])
  {
    if s == [] then [] else [ToLower(s[0])] + Lower(s[1..])
  }

  /** `str.capitalize` over ASCII letters: the first character upper-cased and
      every other character lower-cased. */
  function Capitalize(s: string): (r: string)
    ensures |r| == |s|
    ensures |s| > 0 ==> r[0] == ToUpper(s[0])
    ensures forall i :: 0 < i < |s| ==> r[i] == ToLower(s[i])
  {
    if s == [] then [] else [ToUpper(s[0])] + Lower(s[1..])
  }

  lemma CaseOfCase(c: char)
    ensures ToUpper(ToUpper(c)) == ToUpper(c) && ToLower(ToLower(c)) == ToLower(c)
    ensures ToUpper(ToLower(c)) == ToUpper(c)
  {
  }

  /** Capitalising twice changes nothing more. */
  lemma CapitalizeIdempotent(s: string)
    ensures Capitalize(Capitalize(s)) == Capitalize(s)
  {
    var r := Capitalize(s);
    if s != [] {
      CaseOfCase(s[0]);
      forall i | 0 < i < |s|
        ensures Capitalize(r)[i] == r[i]
      {
        CaseOfCase(s[i]);
      }
    }
  }

  /** Two spellings that differ only in the case of their letters capitalise
      to the same symbol ('ZN', 'zn' and 'Zn' all give 'Zn'). */
  lemma CapitalizeIgnoresCase(s: string, t: string)
    requires Lower(s) == Lower(t)
    ensures Capitalize(s) == Capitalize(t)
  {
    assert |s| == |t|;
    if s != [] {
      assert ToLower(s[0]) == ToLower(t[0]);
      CaseOfCase(s[0]);
      CaseOfCase(t[0]);
      forall i | 0 < i < |s|
        ensures Capitalize(s)[i] == Capitalize(t)[i]
      {
        assert Lower(s)[i] == Lower(t)[i];
      }
    }
  }

  /** `line.replace(',', ' ')`. */
  function ReplaceCommas(s: string): (r: string)
    ensures |r| == |s|
    ensures forall i :: 0 <= i < |s| ==> r[i] == if s[i] == ',' then ' ' else s[i]
  {
    if s == [] then [] else [if s[0] == ',' then ' ' else s[0]] + ReplaceCommas(s[1..])
  }

  /** The length of the run of non-space characters at the start of `s`. */
  function WordLength(s: string): (n: nat)
    ensures n <= |s|
    ensures forall i :: 0 <= i < n ==> !IsSpace(s[i])
    ensures n == |s| || IsSpace(s[n])
  {
    if s == [] || IsSpace(s[0]) then 0 else 1 + WordLength(s[1..])
  }

  /** `str.split()`: the maximal runs of non-space characters, in order. */
  function Split(s: string): (r: seq<string>)
    decreases |s|
  {
    if s == [] then []
    else if IsSpace(s[0]) then Split(s[1..])
    else
      var n := WordLength(s);
      [s[..n]] + Split(s[n..])
  }

  /** Every token is a non-empty run without spaces. */
  lemma {:induction false} SplitGivesWords(s: string)
    ensures forall w :: w in Split(s) ==> IsWord(w)
    decreases |s|
  {
    if s != [] {
      if IsSpace(s[0]) {
        SplitGivesWords(s[1..]);
      } else {
        var n := WordLength(s);
        assert n > 0;
        SplitGivesWords(s[n..]);
      }
    }
  }

  /** Every character of every token comes from the input. */
  lemma {:induction false} SplitKeepsCharacters(s: string)
    ensures forall w, c :: w in Split(s) && c in w ==> c in s
    decreases |s|
  {
    if s != [] {
      if IsSpace(s[0]) {
        SplitKeepsCharacters(s[1..]);
      } else {
        var n := WordLength(s);
        SplitKeepsCharacters(s[n..]);
        assert forall c :: c in s[..n] ==> c in s;
        assert forall c :: c in s[n..] ==> c in s;
      }
    }
  }

  /** Tokens written out with one space between them. */
  function Join(ws: seq<string>): string {
    if ws == [] then [] else if |ws| == 1 then ws[0] else ws[0] + " " + Join(ws[1..])
  }

  /** Splitting undoes joining: words written out with single spaces are read
      back unchanged. */
  lemma {:induction false} SplitJoin(ws: seq<string>)
    requires forall w :: w in ws ==> IsWord(w)
    ensures Split(Join(ws)) == ws
  {
    if ws != [] {
      var w := ws[0];
      assert IsWord(w);
      if |ws| == 1 {
        SplitAfterWord(w, "");
        assert w + "" == w;
        assert Split("") == [];
      } else {
        var rest := " " + Join(ws[1..]);
        assert Join(ws) == w + rest;
        SplitAfterWord(w, rest);
        assert rest[1..] == Join(ws[1..]);
        assert Split(rest) == Split(Join(ws[1..]));
        SplitJoin(ws[1..]);
        assert ws == [w] + ws[1..];
      }
    }
  }

  /** A word followed by nothing or by a space splits off as the first
      token. */
  lemma SplitAfterWord(w: string, rest: string)
    requires IsWord(w)
    requires rest == [] || IsSpace(rest[0])
    ensures Split(w + rest) == [w] + Split(rest)
  {
    WordPrefix(w, rest);
    assert (w + rest)[0] == w[0];
    assert (w + rest)[..|w|] == w;
    assert (w + rest)[|w|..] == rest;
  }

  /** A word followed by nothing or by a space is read as a whole token. */
  lemma WordPrefix(w: string, rest: string)
    requires IsWord(w)
    requires rest == [] || IsSpace(rest[0])
    ensures WordLength(w + rest) == |w|
    decreases |w|
  {
    if |w| > 1 {
      assert (w + rest)[1..] == w[1..] + rest;
      WordPrefix(w[1..], rest);
    } else {
      assert (w + rest)[1..] == rest;
    }
  }

  /** The whitespace-and-comma tokenisation the `.stru` reader applies to
      each line. */
  function Fields(line: string): (r: seq<string>)
    ensures forall w :: w in r ==> IsWord(w) && ',' !in w
  {
    SplitGivesWords(ReplaceCommas(line));
    SplitKeepsCharacters(ReplaceCommas(line));
    Split(ReplaceCommas(line))
  }

  /** A comma separates fields exactly as a space does. */
  lemma FieldsTreatCommaAsSpace(u: string, v: string)
    ensures Fields(u + "," + v) == Fields(u + " " + v)
  {
    ReplaceCommasAppend(u, ",");
    ReplaceCommasAppend(u + ",", v);
    ReplaceCommasAppend(u, " ");
    ReplaceCommasAppend(u + " ", v);
    assert ReplaceCommas(",") == " " == ReplaceCommas(" ");
    assert ReplaceCommas(u + "," + v) == ReplaceCommas(u + " " + v);
  }

  /** Replacing commas works character by character, so it distributes over
      concatenation. */
  lemma ReplaceCommasAppend(x: string, y: string)
    ensures ReplaceCommas(x + y) == ReplaceCommas(x) + ReplaceCommas(y)
  {
    var l, r := ReplaceCommas(x + y), ReplaceCommas(x) + ReplaceCommas(y);
    forall i | 0 <= i < |x + y|
      ensures l[i] == r[i]
    {
      if i >= |x| {
        assert (x + y)[i] == y[i - |x|];
      }
    }
  }

}
