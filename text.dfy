/** Python string operations used by the recipe pipeline, on `string` (a
    sequence of Unicode characters). */
module Text {

  /** Python's `str.isspace` for one character: the characters that
      `str.strip()` removes and `str.split()` splits on. */
  predicate IsSpace(c: char) {
    c == ' ' || ('\t' <= c <= '\r') || ('\U{1c}' <= c <= '\U{1f}')
    || c == '\U{85}' || c == '\U{a0}' || c == '\U{1680}'
    || ('\U{2000}' <= c <= '\U{200a}') || c == '\U{2028}' || c == '\U{2029}'
    || c == '\U{202f}' || c == '\U{205f}' || c == '\U{3000}'
  }

  /** A non-empty run of characters none of which is whitespace. */
  predicate IsWord(w: string) {
    w != [] && forall i :: 0 <= i < |w| ==> !IsSpace(w[i])
  }

  /** Length of the whitespace run that starts `s`. */
  function SpaceRun(s: string): (n: nat)
    ensures n <= |s|
    ensures forall i :: 0 <= i < n ==> IsSpace(s[i])
    ensures n < |s| ==> !IsSpace(s[n])
  {
    if s != [] && IsSpace(s[0]) then 1 + SpaceRun(s[1..]) else 0
  }

  /** Length of the run of non-whitespace characters that starts `s`. */
  function WordRun(s: string): (n: nat)
    ensures n <= |s|
    ensures forall i :: 0 <= i < n ==> !IsSpace(s[i])
    ensures n < |s| ==> IsSpace(s[n])
  {
    if s != [] && !IsSpace(s[0]) then 1 + WordRun(s[1..]) else 0
  }

  /** `s` without trailing whitespace. */
  function TrimEnd(s: string): (r: string)
    ensures r <= s
    ensures r == [] || !IsSpace(r[|r| - 1])
    ensures forall i :: |r| <= i < |s| ==> IsSpace(s[i])
  {
    if s != [] && IsSpace(s[|s| - 1]) then TrimEnd(s[..|s| - 1]) else s
  }

  /** Python's `str.strip()`: the longest middle part of `s` that neither
      starts nor ends with whitespace; everything cut off is whitespace. */
  function Strip(s: string): (r: string)
    ensures r == [] || (!IsSpace(r[0]) && !IsSpace(r[|r| - 1]))
    ensures SpaceRun(s) + |r| <= |s| && r == s[SpaceRun(s)..SpaceRun(s) + |r|]
    ensures forall i :: 0 <= i < SpaceRun(s) ==> IsSpace(s[i])
    ensures forall i :: SpaceRun(s) + |r| <= i < |s| ==> IsSpace(s[i])
  {
    TrimEnd(s[SpaceRun(s)..])
  }

  lemma StripIdempotent(s: string)
    ensures Strip(Strip(s)) == Strip(s)
  {
    var r := Strip(s);
    assert SpaceRun(r) == 0;
    assert TrimEnd(r) == r;
  }

  /** The text BeautifulSoup's `get_text(strip=True)` returns for a node whose
      text strings are `strings`, in document order: every string stripped,
      empty ones dropped, the rest concatenated. */
  function StrippedText(strings: seq<string>): (r: string)
    ensures r == [] || (!IsSpace(r[0]) && !IsSpace(r[|r| - 1]))
    ensures r == [] <==> forall k :: 0 <= k < |strings| ==> Strip(strings[k]) == []
  {
    if strings == [] then []
    else
      var init := StrippedText(strings[..|strings| - 1]);
      var last := Strip(strings[|strings| - 1]);
      assert forall k :: 0 <= k < |strings| - 1 ==> strings[..|strings| - 1][k] == strings[k];
      init + last
  }

  /** Python's `sep.join(parts)`. */
  function Join(sep: string, parts: seq<string>): string
  {
    if |parts| == 0 then []
    else if |parts| == 1 then parts[0]
    else parts[0] + sep + Join(sep, parts[1..])
  }

  /** Joining one more part appends the separator and that part. */
  lemma {:induction false} JoinSnoc(sep: string, parts: seq<string>, p: string)
    requires parts != []
    ensures Join(sep, parts + [p]) == Join(sep, parts) + sep + p
    decreases |parts|
  {
    if |parts| > 1 {
      JoinSnoc(sep, parts[1..], p);
      assert (parts + [p])[1..] == parts[1..] + [p];
    }
  }

  /** Joining in front of a non-empty list puts the separator between. */
  lemma JoinCons(sep: string, p: string, parts: seq<string>)
    requires parts != []
    ensures Join(sep, [p] + parts) == p + (sep + Join(sep, parts))
  {
    assert ([p] + parts)[1..] == parts;
  }

  /** Where part `k` starts in `Join(sep, parts)`. */
  function JoinOffset(sep: string, parts: seq<string>, k: nat): nat
    requires k <= |parts|
  {
    if k == 0 then 0 else |parts[0]| + |sep| + JoinOffset(sep, parts[1..], k - 1)
  }

  /** A slice of the second half of a concatenation. */
  lemma SliceAfter(a: string, b: string, i: nat, j: nat)
    requires i <= j <= |b|
    ensures (a + b)[|a| + i..|a| + j] == b[i..j]
  {
  }

  /** Part `k` stands at its offset in the joined string, and the separator
      follows it unless it is the last part. */
  lemma {:induction false} JoinAt(sep: string, parts: seq<string>, k: nat)
    requires k < |parts|
    ensures var o := JoinOffset(sep, parts, k);
      && o + |parts[k]| <= |Join(sep, parts)|
      && Join(sep, parts)[o..o + |parts[k]|] == parts[k]
      && (k + 1 < |parts| ==>
            o + |parts[k]| + |sep| <= |Join(sep, parts)|
            && Join(sep, parts)[o + |parts[k]|..o + |parts[k]| + |sep|] == sep)
      && (k + 1 == |parts| ==> o + |parts[k]| == |Join(sep, parts)|)
    decreases k
  {
    var j := Join(sep, parts);
    if k == 0 {
      if |parts| > 1 {
        assert j == parts[0] + sep + Join(sep, parts[1..]);
        assert j[..|parts[0]|] == parts[0];
        assert j[|parts[0]|..|parts[0]| + |sep|] == sep;
      }
    } else {
      JoinAt(sep, parts[1..], k - 1);
      var head := parts[0] + sep;
      var rest := Join(sep, parts[1..]);
      assert j == head + rest;
      var o' := JoinOffset(sep, parts[1..], k - 1);
      assert parts[1..][k - 1] == parts[k];
      SliceAfter(head, rest, o', o' + |parts[k]|);
      if k + 1 < |parts| {
        SliceAfter(head, rest, o' + |parts[k]|, o' + |parts[k]| + |sep|);
      }
    }
  }

  /** Python's `str.split()` with no argument: the maximal runs of
      non-whitespace characters, in order. */
  function Words(s: string): (ws: seq<string>)
    ensures forall k :: 0 <= k < |ws| ==> IsWord(ws[k])
    decreases |s|
  {
    var t := s[SpaceRun(s)..];
    if t == [] then []
    else
      var n := WordRun(t);
      assert IsWord(t[..n]) by {
        assert t[0] == s[SpaceRun(s)];
      }
      [t[..n]] + Words(t[n..])
  }

  lemma WordsAfterSpace(c: char, s: string)
    requires IsSpace(c)
    ensures Words([c] + s) == Words(s)
  {
    assert ([c] + s)[1..] == s;
    assert ([c] + s)[SpaceRun([c] + s)..] == s[SpaceRun(s)..];
  }

  lemma {:induction false} WordRunOfWord(w: string, rest: string)
    requires IsWord(w)
    requires rest == [] || IsSpace(rest[0])
    ensures WordRun(w + rest) == |w|
    decreases |w|
  {
    var s := w + rest;
    assert s[0] == w[0] && s[1..] == w[1..] + rest;
    if |w| > 1 {
      WordRunOfWord(w[1..], rest);
    } else {
      assert s[1..] == rest;
    }
  }

  /** A word followed by whitespace or nothing is split off first. */
  lemma WordsOfWordThen(w: string, rest: string)
    requires IsWord(w)
    requires rest == [] || IsSpace(rest[0])
    ensures Words(w + rest) == [w] + Words(rest)
  {
    var s := w + rest;
    assert SpaceRun(s) == 0 by {
      assert s[0] == w[0];
    }
    assert s[SpaceRun(s)..] == s;
    WordRunOfWord(w, rest);
    assert s[..|w|] == w;
    assert s[|w|..] == rest;
  }

  /** One step of `WordsOfJoin`: a word joined in front of a non-empty list
      is split off first, and the rest splits as before. */
  lemma JoinOneMore(w: string, ws: seq<string>)
    requires IsWord(w) && ws != []
    requires Words(Join(" ", ws)) == ws
    ensures Words(Join(" ", [w] + ws)) == [w] + ws
  {
    var rest := Join(" ", ws);
    JoinCons(" ", w, ws);
    WordsOfWordThen(w, [' '] + rest);
    WordsAfterSpace(' ', rest);
  }

  /** Splitting words joined by single spaces gives the words back: the
      keyword string the scraper searches for splits into its keyword list. */
  lemma {:induction false} WordsOfJoin(ws: seq<string>)
    requires forall k :: 0 <= k < |ws| ==> IsWord(ws[k])
    ensures Words(Join(" ", ws)) == ws
    decreases |ws|
  {
    if ws == [] {
    } else if |ws| == 1 {
      WordsOfWordThen(ws[0], []);
      assert ws[0] + [] == ws[0];
    } else {
      WordsOfJoin(ws[1..]);
      JoinOneMore(ws[0], ws[1..]);
      assert [ws[0]] + ws[1..] == ws;
    }
  }

  /** One decimal digit. */
  function DigitChar(d: nat): (c: char)
    requires d < 10
    ensures '0' <= c <= '9' && (c as int) - ('0' as int) == d
  {
    (('0' as int) + d) as char
  }

  predicate IsDigits(s: string) {
    forall i :: 0 <= i < |s| ==> '0' <= s[i] <= '9'
  }

  /** Python's `str(n)` for a natural number: decimal digits, no leading zero. */
  function NatToString(n: nat): (s: string)
    ensures |s| >= 1 && IsDigits(s)
    ensures s[0] == '0' ==> n == 0
  {
    if n < 10 then [DigitChar(n)] else NatToString(n / 10) + [DigitChar(n % 10)]
  }

  /** The value of a string of decimal digits. */
  function ParseDecimal(s: string): nat
    requires IsDigits(s)
  {
    if s == [] then 0
    else 10 * ParseDecimal(s[..|s| - 1]) + ((s[|s| - 1] as int) - ('0' as int))
  }

  /** Reading back the decimal form gives the number: distinct numbers have
      distinct decimal forms. */
  lemma {:induction false} ParseNatToString(n: nat)
    ensures ParseDecimal(NatToString(n)) == n
  {
    if n >= 10 {
      ParseNatToString(n / 10);
      var s := NatToString(n);
      assert s[..|s| - 1] == NatToString(n / 10);
    }
  }

  /** Python's `s.replace(from, to)` for single characters. */
  function ReplaceChar(s: string, from: char, to: char): (r: string)
    ensures |r| == |s|
    ensures forall i :: 0 <= i < |s| ==> r[i] == if s[i] == from then to else s[i]
  {
    if s == [] then []
    else [if s[0] == from then to else s[0]] + ReplaceChar(s[1..], from, to)
  }

  /** `s.lower()` restricted to the ASCII letters. */
  function AsciiLower(s: string): (r: string)
    ensures |r| == |s|
    ensures forall i :: 0 <= i < |s| ==>
      r[i] == if 'A' <= s[i] <= 'Z' then ((s[i] as int) + 32) as char else s[i]
  {
    if s == [] then []
    else
      [if 'A' <= s[0] <= 'Z' then ((s[0] as int) + 32) as char else s[0]]
      + AsciiLower(s[1..])
  }
}
