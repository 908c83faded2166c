/**
 * The pieces of Rust's string handling the solvers rely on, over ASCII
 * text: decimal digits and numbers, `split` on one separator character,
 * `split_once`, `trim` and `trim_end_matches`.
 */
module Text {
  import opened Wrappers

  predicate IsDigit(c: char) {
    '0' <= c <= '9'
  }

  function DigitValue(c: char): (d: nat)
    requires IsDigit(c)
    ensures d < 10
  {
    (c as int) - ('0' as int)
  }

  function DigitChar(d: nat): (c: char)
    requires d < 10
    ensures IsDigit(c) && DigitValue(c) == d
  {
    (('0' as int) + d) as char
  }

  /** Only decimal digits (possibly none). */
  predicate AllDigits(s: string) {
    forall i :: 0 <= i < |s| ==> IsDigit(s[i])
  }

  /** What `str::parse::<usize>` accepts here: one or more decimal digits. */
  predicate IsDecimal(s: string) {
    |s| > 0 && AllDigits(s)
  }

  /** The value of a string of decimal digits, most significant first. */
  function DecimalValue(s: string): nat
    requires AllDigits(s)
  {
    if |s| == 0 then 0 else DecimalValue(s[..|s| - 1]) * 10 + DigitValue(s[|s| - 1])
  }

  /** The shortest decimal spelling of `n`. */
  function NatToDecimal(n: nat): (s: string)
    ensures IsDecimal(s)
    ensures n > 0 ==> s[0] != '0'
  {
    if n < 10 then [DigitChar(n)] else NatToDecimal(n / 10) + [DigitChar(n % 10)]
  }

  /** Reading back the spelling of `n` gives `n`. */
  lemma {:induction false} DecimalRoundTrip(n: nat)
    ensures DecimalValue(NatToDecimal(n)) == n
  {
    if n >= 10 {
      var s := NatToDecimal(n);
      assert s[..|s| - 1] == NatToDecimal(n / 10);
      DecimalRoundTrip(n / 10);
    }
  }

  /** Appending a digit multiplies the value by ten and adds the digit. */
  lemma DecimalValueAppend(s: string, c: char)
    requires AllDigits(s) && IsDigit(c)
    ensures DecimalValue(s + [c]) == DecimalValue(s) * 10 + DigitValue(c)
  {
    assert (s + [c])[..|s|] == s;
  }

  /** `s.split(sep)`: the pieces between the separators, always at least one. */
  function Split(s: string, sep: char): (pieces: seq<string>)
    ensures |pieces| >= 1
    ensures forall i :: 0 <= i < |pieces| ==> sep !in pieces[i]
  {
    if |s| == 0 then [""]
    else if s[0] == sep then [""] + Split(s[1..], sep)
    else
      var rest := Split(s[1..], sep);
      [[s[0]] + rest[0]] + rest[1..]
  }

  /** The pieces joined back with the separator between each pair. */
  function Join(pieces: seq<string>, sep: char): string
    requires |pieces| >= 1
  {
    if |pieces| == 1 then pieces[0] else pieces[0] + [sep] + Join(pieces[1..], sep)
  }

  /** Splitting loses nothing: joining the pieces gives back the text. */
  lemma {:induction false} SplitThenJoin(s: string, sep: char)
    ensures Join(Split(s, sep), sep) == s
  {
    if |s| > 0 {
      SplitThenJoin(s[1..], sep);
      var rest := Split(s[1..], sep);
      if s[0] != sep {
        if |rest| == 1 {
          assert s == [s[0]] + s[1..];
        } else {
          assert Split(s, sep)[1..] == rest[1..];
          assert s == [s[0]] + rest[0] + [sep] + Join(rest[1..], sep);
        }
      } else {
        assert s == [s[0]] + s[1..];
      }
    }
  }

  /** Pieces free of the separator are what splitting their join gives. */
  lemma {:induction false} JoinThenSplit(pieces: seq<string>, sep: char)
    requires |pieces| >= 1
    requires forall i :: 0 <= i < |pieces| ==> sep !in pieces[i]
    ensures Split(Join(pieces, sep), sep) == pieces
  {
    if |pieces| > 1 {
      JoinThenSplit(pieces[1..], sep);
      SplitOfPiece(pieces[0], sep, pieces[1..]);
    } else {
      SplitWithoutSeparator(pieces[0], sep);
    }
  }

  /** Text free of the separator is a single piece. */
  lemma {:induction false} SplitWithoutSeparator(s: string, sep: char)
    requires sep !in s
    ensures Split(s, sep) == [s]
  {
    if |s| > 0 {
      SplitWithoutSeparator(s[1..], sep);
      assert [s[0]] + s[1..] == s;
    }
  }

  /** A separator-free `head` in front of `[sep] + Join(rest)` becomes the
      first piece. */
  lemma {:induction false} SplitOfPiece(head: string, sep: char, rest: seq<string>)
    requires sep !in head && |rest| >= 1
    requires Split(Join(rest, sep), sep) == rest
    ensures Split(head + [sep] + Join(rest, sep), sep) == [head] + rest
  {
    if |head| > 0 {
      SplitOfPiece(head[1..], sep, rest);
      assert (head + [sep] + Join(rest, sep))[1..] == head[1..] + [sep] + Join(rest, sep);
      assert [head[0]] + head[1..] == head;
    } else {
      assert head + [sep] + Join(rest, sep) == [sep] + Join(rest, sep);
      assert ([sep] + Join(rest, sep))[1..] == Join(rest, sep);
    }
  }

  /** The index of the first `c` in `s`, if any. */
  function Find(s: string, c: char): (r: Option<nat>)
    ensures r.None? <==> c !in s
    ensures r.Some? ==> r.value < |s| && s[r.value] == c && c !in s[..r.value]
  {
    if |s| == 0 then None
    else if s[0] == c then Some(0)
    else match Find(s[1..], c)
      case None => None
      case Some(i) =>
        assert s[..i + 1] == [s[0]] + s[1..][..i];
        Some(i + 1)
  }

  /** `s.split_once(c)`: the text before and after the first `c`. */
  function SplitOnce(s: string, c: char): (r: Option<(string, string)>)
    ensures r.None? <==> c !in s
    ensures r.Some? ==> s == r.value.0 + [c] + r.value.1 && c !in r.value.0
  {
    match Find(s, c)
      case None => None
      case Some(i) =>
        assert s == s[..i] + [c] + s[i + 1..];
        Some((s[..i], s[i + 1..]))
  }

  /** `s.trim_end_matches(c)`: `s` without the run of `c` at its end. */
  function TrimEndMatches(s: string, c: char): (t: string)
    ensures |t| <= |s| && t == s[..|t|]
    ensures |t| > 0 ==> t[|t| - 1] != c
    ensures forall i :: |t| <= i < |s| ==> s[i] == c
  {
    if |s| > 0 && s[|s| - 1] == c then TrimEndMatches(s[..|s| - 1], c) else s
  }

  /** The ASCII characters Rust's `char::is_whitespace` accepts. */
  predicate IsWhitespace(c: char) {
    c == ' ' || '\t' <= c <= '\r'
  }

  /** `s.trim_start()` over ASCII. */
  function TrimStart(s: string): (t: string)
    ensures |t| <= |s| && t == s[|s| - |t|..]
    ensures |t| > 0 ==> !IsWhitespace(t[0])
  {
    if |s| > 0 && IsWhitespace(s[0]) then TrimStart(s[1..]) else s
  }

  /** `s.trim_end()` over ASCII. */
  function TrimEnd(s: string): (t: string)
    ensures |t| <= |s| && t == s[..|t|]
    ensures |t| > 0 ==> !IsWhitespace(t[|t| - 1])
  {
    if |s| > 0 && IsWhitespace(s[|s| - 1]) then TrimEnd(s[..|s| - 1]) else s
  }

  /** `s.trim()` over ASCII. */
  function Trim(s: string): string {
    TrimEnd(TrimStart(s))
  }

  /** `line` without one carriage return at its end. */
  function StripCarriageReturn(line: string): (t: string)
    ensures t == line || (line == t + ['\r'])
  {
    if |line| > 0 && line[|line| - 1] == '\r' then line[..|line| - 1] else line
  }

  /** `s.lines()`: the text cut at each line feed, one carriage return taken
      off the end of each line, and no empty last line after a final line
      feed. */
  function Lines(s: string): (lines: seq<string>)
    ensures forall i :: 0 <= i < |lines| ==> '\n' !in lines[i]
  {
    if |s| == 0 then []
    else
      var pieces := Split(s, '\n');
      var kept := if pieces[|pieces| - 1] == "" then pieces[..|pieces| - 1] else pieces;
      seq(|kept|, i requires 0 <= i < |kept| => StripCarriageReturn(kept[i]))
  }

  /** Every line followed by a line feed. */
  function Unlines(lines: seq<string>): string {
    if |lines| == 0 then "" else lines[0] + "\n" + Unlines(lines[1..])
  }

  /** The text ends with a line feed after each line: an empty piece closes
      the split. */
  lemma {:induction false} UnlinesIsJoin(lines: seq<string>)
    ensures Unlines(lines) == Join(lines + [""], '\n')
  {
    if |lines| > 0 {
      UnlinesIsJoin(lines[1..]);
      assert (lines + [""])[1..] == lines[1..] + [""];
    }
  }

  /** Reading back the lines of a text written one line per line feed gives
      the lines, when none holds a line feed or ends in a carriage return. */
  lemma LinesOfUnlines(lines: seq<string>)
    requires forall i :: 0 <= i < |lines| ==> '\n' !in lines[i]
    requires forall i :: 0 <= i < |lines| ==> |lines[i]| == 0 || lines[i][|lines[i]| - 1] != '\r'
    ensures Lines(Unlines(lines)) == lines
  {
    if |lines| > 0 {
      UnlinesIsJoin(lines);
      var pieces := lines + [""];
      assert forall i :: 0 <= i < |pieces| ==> '\n' !in pieces[i] by {
        forall i | 0 <= i < |pieces| ensures '\n' !in pieces[i] {
          if i < |lines| { assert pieces[i] == lines[i]; }
        }
      }
      JoinThenSplit(pieces, '\n');
      assert |Unlines(lines)| > 0 by { assert |lines[0] + "\n"| > 0; }
      assert pieces[..|pieces| - 1] == lines;
      forall i | 0 <= i < |lines|
        ensures StripCarriageReturn(lines[i]) == lines[i]
      {
      }
      assert Lines(Unlines(lines)) == seq(|lines|, i requires 0 <= i < |lines| => StripCarriageReturn(lines[i]));
    }
  }

  /** The length of the run of non-whitespace characters `s` starts with. */
  function WordLength(s: string): (n: nat)
    ensures n <= |s|
    ensures forall k :: 0 <= k < n ==> !IsWhitespace(s[k])
    ensures n < |s| ==> IsWhitespace(s[n])
  {
    if |s| == 0 || IsWhitespace(s[0]) then 0 else 1 + WordLength(s[1..])
  }

  /** A non-empty piece of text without whitespace. */
  predicate IsWord(w: string) {
    |w| > 0 && forall k :: 0 <= k < |w| ==> !IsWhitespace(w[k])
  }

  /** `s.split_whitespace()` over ASCII: the maximal runs of non-whitespace
      characters, in order. */
  function Words(s: string): (words: seq<string>)
    ensures |words| <= |s|
    decreases |s|
  {
    var t := TrimStart(s);
    if |t| == 0 then []
    else
      var n := WordLength(t);
      [t[..n]] + Words(t[n..])
  }

  /** Every piece `Words` gives is a word. */
  lemma {:induction false} WordsAreWords(s: string)
    ensures forall i :: 0 <= i < |Words(s)| ==> IsWord(Words(s)[i])
    decreases |s|
  {
    var t := TrimStart(s);
    if |t| > 0 {
      var n := WordLength(t);
      var rest := Words(t[n..]);
      WordsAreWords(t[n..]);
      assert IsWord(t[..n]);
      AllWordsCons(t[..n], rest);
    }
  }

  lemma AllWordsCons(w: string, rest: seq<string>)
    requires IsWord(w) && forall i :: 0 <= i < |rest| ==> IsWord(rest[i])
    ensures forall i :: 0 <= i < |[w] + rest| ==> IsWord(([w] + rest)[i])
  {
    forall i | 0 <= i < |[w] + rest|
      ensures IsWord(([w] + rest)[i])
    {
      if i > 0 {
        assert ([w] + rest)[i] == rest[i - 1];
      }
    }
  }

  /** The words written back with one space between each two. */
  function Unwords(words: seq<string>): string {
    if |words| == 0 then ""
    else if |words| == 1 then words[0]
    else words[0] + " " + Unwords(words[1..])
  }

  /** Splitting at whitespace gives back the words of a text written with
      single spaces, so no word is lost, split or merged. */
  lemma {:induction false} WordsOfUnwords(words: seq<string>)
    requires forall i :: 0 <= i < |words| ==> IsWord(words[i])
    ensures Words(Unwords(words)) == words
  {
    if |words| == 1 {
      WordsOfSingleWord(words[0]);
      assert words == [words[0]];
    } else if |words| > 1 {
      var text := Unwords(words[1..]);
      assert Unwords(words) == words[0] + (" " + text);
      WordsOfUnwords(words[1..]);
      WordsOfWordSpace(words[0], text);
      HeadAndTail(words);
    }
  }

  lemma HeadAndTail<T>(s: seq<T>)
    requires |s| > 0
    ensures s == [s[0]] + s[1..]
  {
  }

  lemma PrefixSnoc<T>(s: seq<T>, k: nat)
    requires k < |s|
    ensures s[..k + 1] == s[..k] + [s[k]]
  {
  }

  /** One word is its own only word. */
  lemma WordsOfSingleWord(w: string)
    requires IsWord(w)
    ensures Words(w) == [w]
  {
    WordsOfWordThen(w, "");
    assert w + "" == w;
    assert Words("") == [];
  }

  /** A word and a space ahead of a text add that word ahead of its
      words. */
  lemma WordsOfWordSpace(w: string, text: string)
    requires IsWord(w)
    ensures Words(w + (" " + text)) == [w] + Words(text)
  {
    WordsOfWordThen(w, " " + text);
    WordsAfterSpace(text);
  }

  /** A leading space does not change the words. */
  lemma WordsAfterSpace(s: string)
    ensures Words(" " + s) == Words(s)
  {
    assert (" " + s)[1..] == s;
    assert TrimStart(" " + s) == TrimStart(s);
  }

  /** A word followed by whitespace or by nothing is the first word. */
  lemma WordsOfWordThen(w: string, rest: string)
    requires IsWord(w) && (|rest| == 0 || IsWhitespace(rest[0]))
    ensures Words(w + rest) == [w] + Words(rest)
  {
    var t := w + rest;
    assert TrimStart(t) == t by { assert t[0] == w[0]; }
    WordLengthOfWord(w, rest);
    assert t[..|w|] == w;
    assert t[|w|..] == rest;
  }

  /** A word followed by whitespace or by nothing is one whole run. */
  lemma {:induction false} WordLengthOfWord(w: string, rest: string)
    requires IsWord(w) && (|rest| == 0 || IsWhitespace(rest[0]))
    ensures WordLength(w + rest) == |w|
  {
    if |w| > 1 {
      assert (w + rest)[1..] == w[1..] + rest;
      WordLengthOfWord(w[1..], rest);
    } else {
      assert (w + rest)[1..] == rest;
    }
  }

  /** `text.split_whitespace().map(|s| s.parse().unwrap())`: the numbers in
      the text; every word must be a decimal number. */
  function ParseNumbers(text: string): (numbers: seq<nat>)
    requires forall i :: 0 <= i < |Words(text)| ==> AllDigits(Words(text)[i])
    ensures |numbers| == |Words(text)|
    ensures forall i :: 0 <= i < |numbers| ==> numbers[i] == DecimalValue(Words(text)[i])
  {
    var words := Words(text);
    seq(|words|, i requires 0 <= i < |words| => DecimalValue(words[i]))
  }

  /** Every word of `text` is a decimal number. */
  predicate AllNumbers(text: string) {
    forall i :: 0 <= i < |Words(text)| ==> AllDigits(Words(text)[i])
  }

  /** What `str::parse::<isize>` accepts here: an optional sign, then one
      or more decimal digits. */
  predicate IsInteger(s: string) {
    if |s| > 0 && (s[0] == '-' || s[0] == '+') then IsDecimal(s[1..]) else IsDecimal(s)
  }

  /** The value of a signed decimal number. */
  function IntegerValue(s: string): int
    requires IsInteger(s)
  {
    if s[0] == '-' then 0 - DecimalValue(s[1..])
    else if s[0] == '+' then DecimalValue(s[1..])
    else DecimalValue(s)
  }

  /** Reading back `n` written in decimal, with a minus sign when negative,
      gives `n`. */
  lemma IntegerRoundTrip(n: int)
    ensures n >= 0 ==> IsInteger(NatToDecimal(n)) && IntegerValue(NatToDecimal(n)) == n
    ensures n < 0 ==> IsInteger("-" + NatToDecimal(-n)) && IntegerValue("-" + NatToDecimal(-n)) == n
  {
    if n >= 0 {
      DecimalRoundTrip(n);
    } else {
      var s := "-" + NatToDecimal(-n);
      assert s[1..] == NatToDecimal(-n);
      DecimalRoundTrip(-n);
    }
  }

  /** Every word of `text` is a signed decimal number. */
  predicate AllIntegers(text: string) {
    forall i :: 0 <= i < |Words(text)| ==> IsInteger(Words(text)[i])
  }

  /** The values of the words of `text`, each read as a signed number. */
  function ParseIntegers(text: string): (numbers: seq<int>)
    requires AllIntegers(text)
    ensures |numbers| == |Words(text)|
    ensures forall i :: 0 <= i < |numbers| ==> numbers[i] == IntegerValue(Words(text)[i])
  {
    var words := Words(text);
    seq(|words|, i requires 0 <= i < |words| => IntegerValue(words[i]))
  }

  /** `sep` occurs in `s` at index `i`. */
  predicate OccursAt(s: string, sep: string, i: nat) {
    i + |sep| <= |s| && s[i..i + |sep|] == sep
  }

  /** The index of the first occurrence of `sep` in `s` at or after `from`. */
  function FindFrom(s: string, sep: string, from: nat): (r: Option<nat>)
    requires |sep| > 0
    ensures r.None? ==> forall i :: from <= i ==> !OccursAt(s, sep, i)
    ensures r.Some? ==> from <= r.value && OccursAt(s, sep, r.value)
    ensures r.Some? ==> forall i :: from <= i < r.value ==> !OccursAt(s, sep, i)
    decreases |s| - from
  {
    if from + |sep| > |s| then None
    else if OccursAt(s, sep, from) then Some(from)
    else FindFrom(s, sep, from + 1)
  }

  /** The index of the last occurrence of `sep` in `s` that starts below
      `e`. */
  function FindBefore(s: string, sep: string, e: nat): (r: Option<nat>)
    ensures r.None? ==> forall i: nat :: i < e ==> !OccursAt(s, sep, i)
    ensures r.Some? ==> r.value < e && OccursAt(s, sep, r.value)
    ensures r.Some? ==> forall i: nat :: r.value < i < e ==> !OccursAt(s, sep, i)
  {
    if e == 0 then None
    else if OccursAt(s, sep, e - 1) then Some(e - 1)
    else FindBefore(s, sep, e - 1)
  }

  /** `s.rfind(sep)`: the index of the last occurrence of `sep`. */
  function RFind(s: string, sep: string): (r: Option<nat>)
    ensures r.None? ==> forall i: nat :: !OccursAt(s, sep, i)
    ensures r.Some? ==> OccursAt(s, sep, r.value) && forall i: nat :: r.value < i ==> !OccursAt(s, sep, i)
  {
    FindBefore(s, sep, |s| + 1)
  }

  /** `s.split(sep)` for a separator string: the pieces between the
      occurrences of `sep`, found left to right without overlap. */
  function SplitStr(s: string, sep: string): (pieces: seq<string>)
    requires |sep| > 0
    ensures |pieces| >= 1
    ensures forall k, i: nat :: 0 <= k < |pieces| ==> !OccursAt(pieces[k], sep, i)
    decreases |s|
  {
    match FindFrom(s, sep, 0)
      case None => [s]
      case Some(i) =>
        NoEarlierOccurrence(s, sep, i);
        [s[..i]] + SplitStr(s[i + |sep|..], sep)
  }

  /** An occurrence inside the prefix before the first one would be an
      earlier occurrence in the whole text. */
  lemma NoEarlierOccurrence(s: string, sep: string, first: nat)
    requires |sep| > 0 && first <= |s|
    requires forall i :: 0 <= i < first ==> !OccursAt(s, sep, i)
    ensures forall i: nat :: !OccursAt(s[..first], sep, i)
  {
    forall i: nat | OccursAt(s[..first], sep, i)
      ensures false
    {
      assert s[..first][i..i + |sep|] == s[i..i + |sep|];
      assert OccursAt(s, sep, i);
    }
  }

  /** The pieces put back together with `sep` between each two. */
  function JoinStr(pieces: seq<string>, sep: string): string
    requires |pieces| >= 1
  {
    if |pieces| == 1 then pieces[0] else pieces[0] + sep + JoinStr(pieces[1..], sep)
  }

  /** Splitting loses nothing: joining the pieces gives back the text. */
  lemma {:induction false} SplitStrThenJoin(s: string, sep: string)
    requires |sep| > 0
    ensures JoinStr(SplitStr(s, sep), sep) == s
    decreases |s|
  {
    match FindFrom(s, sep, 0)
      case None =>
      case Some(i) =>
        var rest := s[i + |sep|..];
        SplitStrThenJoin(rest, sep);
        JoinStrCons(s[..i], SplitStr(rest, sep), sep);
        SplitAround(s, sep, i);
  }

  /** The text is what comes before an occurrence, the occurrence, and
      what comes after it. */
  lemma SplitAround(s: string, sep: string, i: nat)
    requires OccursAt(s, sep, i)
    ensures s == s[..i] + sep + s[i + |sep|..]
  {
    assert s == s[..i] + s[i..i + |sep|] + s[i + |sep|..];
  }

  /** Joining a piece ahead of other pieces puts `sep` between them. */
  lemma JoinStrCons(head: string, rest: seq<string>, sep: string)
    requires |rest| >= 1
    ensures JoinStr([head] + rest, sep) == head + sep + JoinStr(rest, sep)
  {
    assert ([head] + rest)[1..] == rest;
  }

  /** `s.split(sep).last().unwrap()`: the text after the last occurrence of
      `sep`, or all of `s` when there is none. */
  function LastPiece(s: string, sep: string): (t: string)
    requires |sep| > 0
    ensures forall i: nat :: !OccursAt(t, sep, i)
    ensures FindFrom(s, sep, 0).None? ==> t == s
  {
    var pieces := SplitStr(s, sep);
    pieces[|pieces| - 1]
  }

  /** `s.split_once(sep)` for a separator string: the text before and after
      the first occurrence of `sep`. */
  function SplitOnceStr(s: string, sep: string): (r: Option<(string, string)>)
    requires |sep| > 0
    ensures r.None? <==> forall i: nat :: !OccursAt(s, sep, i)
    ensures r.Some? ==> s == r.value.0 + sep + r.value.1
    ensures r.Some? ==> forall i: nat :: !OccursAt(r.value.0, sep, i)
  {
    match FindFrom(s, sep, 0)
      case None => None
      case Some(i) =>
        NoEarlierOccurrence(s, sep, i);
        SplitAround(s, sep, i);
        Some((s[..i], s[i + |sep|..]))
  }
}
