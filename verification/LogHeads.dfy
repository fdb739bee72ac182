// Which lines of the log have a head, and what it says, as a grammar.
// Source: src/bridges/qmllogbridge.cpp.
module LogHeads {
  import opened Common
  import opened LogParserSpec

  predicate Digits(s: string) { forall i :: 0 <= i < |s| ==> '0' <= s[i] <= '9' }

  predicate IsLetter(c: char) { '0' <= c <= '9' || 'a' <= c <= 'z' || 'A' <= c <= 'Z' || c == '_' }

  predicate Word(s: string) { s != "" && forall i :: 0 <= i < |s| ==> IsLetter(s[i]) }

  // Year, month and day, hours, minutes and seconds.
  predicate Clock(s: string) {
    && |s| == 19 && s[4] == s[7] == '-' && s[10] == 'T' && s[13] == s[16] == ':'
    && forall i :: 0 <= i < 19 && i != 4 && i != 7 && i != 10 && i != 13 && i != 16 ==> '0' <= s[i] <= '9'
  }

  // None of a second, or a point and some digits.
  predicate PartOfSecond(s: string) { s == "" || (|s| > 1 && s[0] == '.' && Digits(s[1..])) }

  // A stamp, a word in brackets, and more.
  predicate HasHead(line: string, clock: string, part: string, word: string, more: string) {
    && Clock(clock) && PartOfSecond(part) && Word(word)
    && line == clock + (part + ("Z [" + (word + ("]" + more))))
  }

  // The text is what comes after the brackets, but for a space there.
  function TextOf(more: string): string { if more != "" && more[0] == ' ' then more[1..] else more }

  lemma {:induction false} DigitsEnd(s: string, n: nat)
    requires n <= |s| && Digits(s[..n]) && (n < |s| ==> !('0' <= s[n] <= '9'))
    ensures DigitsAt(s) == n
    decreases n
  {
    if n > 0 {
      assert s[0] == s[..n][0] && s[1..][..n - 1] == s[..n][1..];
      DigitsEnd(s[1..], n - 1);
    }
  }

  lemma {:induction false} DigitsCounted(s: string)
    ensures Digits(s[..DigitsAt(s)])
  {
    if s != "" && Digit(s[0]) {
      DigitsCounted(s[1..]);
      var n := DigitsAt(s[1..]);
      assert s[..n + 1] == [s[0]] + s[1..][..n];
    }
  }

  lemma {:induction false} LettersEnd(s: string, n: nat)
    requires n <= |s| && (forall i :: 0 <= i < n ==> IsLetter(s[i])) && (n < |s| ==> !IsLetter(s[n]))
    ensures WordAt(s) == n
    decreases n
  {
    if n > 0 {
      LettersEnd(s[1..], n - 1);
    }
  }

  lemma {:induction false} WordCounted(s: string)
    ensures forall i :: 0 <= i < WordAt(s) ==> IsLetter(s[i])
  {
    if s != "" && WordChar(s[0]) {
      WordCounted(s[1..]);
      assert forall i :: 0 < i < WordAt(s) ==> s[i] == s[1..][i - 1];
    }
  }

  lemma ShapedIsClock(s: string)
    ensures Shaped(s) <==> |s| >= 19 && Clock(s[..19])
  {
    if |s| >= 19 {
      assert forall k :: 0 <= k < 19 ==> s[..19][k] == s[k];
      assert forall k :: 0 <= k < 19 && SHAPE[k] != '0' ==> k == 4 || k == 7 || k == 10 || k == 13 || k == 16;
    }
  }

  // The part of a second ends where "Z" or anything else follows.
  lemma FractionIs(part: string, more: string)
    requires PartOfSecond(part) && more != "" && !('0' <= more[0] <= '9') && more[0] != '.'
    ensures Fraction(part + more) == |part|
  {
    if part == "" {
      assert part + more == more;
    } else {
      var s := part + more;
      assert s[1..] == part[1..] + more && s[1..][..|part| - 1] == part[1..];
      DigitsEnd(s[1..], |part| - 1);
    }
  }

  lemma FractionCounted(s: string)
    ensures PartOfSecond(s[..Fraction(s)])
  {
    if Fraction(s) > 0 {
      var n := DigitsAt(s[1..]);
      DigitsCounted(s[1..]);
      assert s[..n + 1][1..] == s[1..][..n];
    }
  }

  // Where two parts of a line are.
  lemma Cut<T>(s: seq<T>, k: nat, a: seq<T>, b: seq<T>)
    requires k <= |s| && s[k..] == a + b
    ensures k + |a| <= |s| && s[k..k + |a|] == a && s[k + |a|..] == b
  {
    assert s[k..k + |a|] == s[k..][..|a|] && s[k + |a|..] == s[k..][|a|..];
  }

  lemma Joined<T>(s: seq<T>, k: nat, m: nat)
    requires k <= m <= |s|
    ensures s[k..] == s[k..m] + s[m..]
  {
  }

  lemma First(s: string, k: nat, c: char)
    requires k <= |s|
    ensures k < |s| && s[k] == c <==> s[k..] != "" && s[k..][0] == c
    ensures k < |s| && s[k] == c ==> s[k..] == [c] + s[k + 1..]
  {
  }

  // What the head is once its parts are found.
  lemma HeadAt(line: string, t: nat, close: nat)
    requires Shaped(line) && t == 19 + Fraction(line[19..]) && t + 3 < close < |line|
    requires line[t..t + 3] == "Z [" && WordAt(line[t + 3..]) == close - t - 3 && line[close] == ']'
    ensures Head(line) == Some((line[..t + 1], Upper(line[t + 3..close]), TextOf(line[close + 1..])))
  {
    hide Shaped, Fraction, WordAt, Upper;
    assert line[t..][..3] == line[t..t + 3];
    First(line, close + 1, ' ');
  }

  lemma HeadFound(line: string, clock: string, part: string, word: string, more: string)
    requires HasHead(line, clock, part, word, more)
    ensures Head(line) == Some((clock + part + "Z", Upper(word), TextOf(more)))
  {
    hide Clock, PartOfSecond, Word, Shaped, Fraction, WordAt, Upper, Head, TextOf;
    NineteenLong(clock);
    Pieces(line, clock, part, word, "]" + more);
    WordEnds(word, more);
    FractionEnds(part, word + ("]" + more));
    ShapedIsClock(line);
    hide *;
    Bracketed(line, 22 + |part| + |word|, more);
    HeadAt(line, 19 + |part|, 22 + |part| + |word|);
  }

  lemma Bracketed(line: string, close: nat, more: string)
    requires close <= |line| && line[close..] == "]" + more
    ensures close < |line| && line[close] == ']' && line[close + 1..] == more
  {
    Cut(line, close, "]", more);
    assert line[close] == line[close..][0];
  }

  lemma NineteenLong(clock: string)
    requires Clock(clock)
    ensures |clock| == 19
  {
  }

  lemma WordEnds(word: string, more: string)
    requires Word(word)
    ensures |word| > 0 && WordAt(word + ("]" + more)) == |word|
  {
    LettersEnd(word + ("]" + more), |word|);
  }

  lemma FractionEnds(part: string, more: string)
    requires PartOfSecond(part)
    ensures Fraction(part + ("Z [" + more)) == |part|
  {
    FractionIs(part, "Z [" + more);
  }

  lemma Pieces(line: string, clock: string, part: string, word: string, end: string)
    requires |clock| == 19 && line == clock + (part + ("Z [" + (word + end)))
    ensures var t := 19 + |part|; var close := t + 3 + |word|;
            && close <= |line| && line[..19] == clock && line[19..] == part + ("Z [" + (word + end))
            && line[t..t + 3] == "Z [" && line[t + 3..] == word + end && line[t + 3..close] == word
            && line[close..] == end && line[..t + 1] == clock + part + "Z"
  {
    var t := 19 + |part|;
    assert line[0..] == line && line[0..19] == line[..19];
    Cut(line, 0, clock, part + ("Z [" + (word + end)));
    Cut(line, 19, part, "Z [" + (word + end));
    Cut(line, t, "Z [", word + end);
    Cut(line, t + 3, word, end);
    assert line[..t + 1] == line[..19] + line[19..t] + [line[t..t + 3][0]];
  }

  // A head has its parts in these places.
  lemma HeadTaken(line: string)
    requires Head(line).Some?
    ensures Shaped(line) && |line| >= 19
    ensures var t := 19 + Fraction(line[19..]);
            t + 3 <= |line| && line[t..t + 3] == "Z [" && WordAt(line[t + 3..]) > 0
            && var close := t + 3 + WordAt(line[t + 3..]); close < |line| && line[close] == ']'
  {
    hide Fraction, WordAt, Upper;
    var t := 19 + Fraction(line[19..]);
    assert line[t..t + 3] == line[t..][..3];
  }

  lemma HeadParts(line: string) returns (clock: string, part: string, word: string, more: string)
    requires Head(line).Some?
    ensures HasHead(line, clock, part, word, more)
  {
    HeadTaken(line);
    hide Head, Shaped, Clock, PartOfSecond, Fraction, WordAt, Word;
    ShapedIsClock(line);
    var t := 19 + Fraction(line[19..]);
    var close := t + 3 + WordAt(line[t + 3..]);
    clock, part, word, more := line[..19], line[19..t], line[t + 3..close], line[close + 1..];
    FractionTaken(line, t);
    WordTaken(line, t + 3, close);
    Assembled(line, t, close);
  }

  lemma FractionTaken(line: string, t: nat)
    requires 19 <= t <= |line| && t - 19 == Fraction(line[19..])
    ensures PartOfSecond(line[19..t])
  {
    FractionCounted(line[19..]);
    assert line[19..t] == line[19..][..t - 19];
  }

  lemma Assembled(line: string, t: nat, close: nat)
    requires 19 <= t && t + 3 <= close < |line| && line[t..t + 3] == "Z [" && line[close] == ']'
    ensures line == line[..19] + (line[19..t] + ("Z [" + (line[t + 3..close] + ("]" + line[close + 1..]))))
  {
    Joined(line, 0, 19);
    Joined(line, 19, t);
    Joined(line, t, t + 3);
    Joined(line, t + 3, close);
    First(line, close, ']');
    assert line[0..] == line && line[0..19] == line[..19];
  }

  lemma WordTaken(line: string, at: nat, close: nat)
    requires at < close <= |line| && close - at == WordAt(line[at..])
    ensures Word(line[at..close])
  {
    WordCounted(line[at..]);
    assert forall i :: 0 <= i < close - at ==> line[at..close][i] == line[at..][i];
  }

  // A line has a head exactly if it is put together so, and then the head says the
  // stamp, the word in capitals and the text.
  lemma HeadExactly(line: string, stamp: string, name: string, text: string)
    ensures Head(line) == Some((stamp, name, text))
            <==> exists clock, part, word, more ::
                   HasHead(line, clock, part, word, more)
                   && stamp == clock + part + "Z" && name == Upper(word) && text == TextOf(more)
  {
    hide Head, HasHead, Upper, TextOf;
    if Head(line).Some? {
      var clock, part, word, more := HeadParts(line);
      HeadFound(line, clock, part, word, more);
    }
    forall clock, part, word, more | HasHead(line, clock, part, word, more)
      ensures Head(line) == Some((clock + part + "Z", Upper(word), TextOf(more)))
    {
      HeadFound(line, clock, part, word, more);
    }
  }

  // Small letters become capitals, and nothing else changes.
  lemma {:induction false} UpperIs(s: string)
    ensures |Upper(s)| == |s|
    ensures forall i :: 0 <= i < |s| ==>
              Upper(s)[i] as int == if 'a' <= s[i] <= 'z' then s[i] as int + ('A' as int - 'a' as int) else s[i] as int
  {
    if s != "" {
      UpperIs(s[1..]);
    }
  }
}
