// The name a title is grouped under: its words in lower case, one space between.
// Source: src/bridges/librarygroups.cpp.
module NameKeys {
  // QChar's tables: which characters make words, and their lower case.
  datatype Chars = Chars(isWord: char -> bool, lower: char -> char)

  // What is needed of them: lower case is still a word's and stays as it is.
  ghost predicate Sane(cs: Chars) {
    !cs.isWord(' ') && forall c: char :: cs.isWord(c) ==> cs.isWord(cs.lower(c)) && cs.lower(cs.lower(c)) == cs.lower(c)
  }

  // A title's words in lower case; `word` is what was read of the current one.
  function WordsFrom(cs: Chars, title: string, word: string): seq<string>
    decreases |title|
  {
    if title == "" then Ended(word)
    else if cs.isWord(title[0]) then WordsFrom(cs, title[1..], word + [cs.lower(title[0])])
    else Ended(word) + WordsFrom(cs, title[1..], "")
  }

  function Ended(word: string): seq<string> { if word == "" then [] else [word] }

  function Words(cs: Chars, title: string): seq<string> { WordsFrom(cs, title, "") }

  function Spaced(words: seq<string>): string {
    if words == [] then ""
    else if |words| == 1 then words[0]
    else Spaced(words[..|words| - 1]) + " " + words[|words| - 1]
  }

  function NameKey(cs: Chars, title: string): string { Spaced(Words(cs, title)) }

  // ---- What a key is, said of the key alone ----

  function Lowered(cs: Chars, title: string): (r: string)
    ensures |r| == |title| && forall i :: 0 <= i < |r| ==> r[i] == cs.lower(title[i])
  {
    seq(|title|, i requires 0 <= i < |title| => cs.lower(title[i]))
  }

  // A single word is its lower case.
  lemma KeyOfWord(cs: Chars, title: string)
    requires forall i :: 0 <= i < |title| ==> cs.isWord(title[i])
    ensures NameKey(cs, title) == Lowered(cs, title)
  {
    WordOnly(cs, title, "");
    assert "" + Lowered(cs, title) == Lowered(cs, title);
  }

  lemma {:induction false} WordOnly(cs: Chars, title: string, word: string)
    requires forall i :: 0 <= i < |title| ==> cs.isWord(title[i])
    ensures WordsFrom(cs, title, word) == Ended(word + Lowered(cs, title))
    decreases |title|
  {
    if title == "" {
      assert word + Lowered(cs, title) == word;
    } else {
      WordOnly(cs, title[1..], word + [cs.lower(title[0])]);
      assert (word + [cs.lower(title[0])]) + Lowered(cs, title[1..]) == word + Lowered(cs, title);
    }
  }

  // Two keys with one space between, or the one that is not empty.
  function Together(x: string, y: string): string { if x == "" then y else if y == "" then x else x + " " + y }

  // Any other character parts what is before it from what is after it: the key is
  // the two keys put together.
  lemma KeyOfTwo(cs: Chars, a: string, sep: char, b: string)
    requires !cs.isWord(sep)
    ensures var x, y := NameKey(cs, a), NameKey(cs, b);
            NameKey(cs, a + [sep] + b) == Together(x, y)
  {
    WordsOfTwo(cs, a, sep, b, "");
    NoneIsEmpty(cs, a, "");
    NoneIsEmpty(cs, b, "");
    hide WordsFrom;
    SpacedTwo(Words(cs, a), Words(cs, b));
  }

  lemma {:induction false} WordsOfTwo(cs: Chars, a: string, sep: char, b: string, word: string)
    requires !cs.isWord(sep)
    ensures WordsFrom(cs, a + [sep] + b, word) == WordsFrom(cs, a, word) + Words(cs, b)
    decreases |a|
  {
    var whole := a + [sep] + b;
    if a == "" {
      assert whole[0] == sep && whole[1..] == b;
    } else {
      assert whole[0] == a[0] && whole[1..] == a[1..] + [sep] + b;
      if cs.isWord(a[0]) {
        WordsOfTwo(cs, a[1..], sep, b, word + [cs.lower(a[0])]);
      } else {
        WordsOfTwo(cs, a[1..], sep, b, "");
        var first, more := Ended(word), WordsFrom(cs, a[1..], "");
        assert first + (more + Words(cs, b)) == (first + more) + Words(cs, b);
      }
    }
  }

  lemma {:induction false} NoneIsEmpty(cs: Chars, title: string, word: string)
    ensures NoneEmpty(WordsFrom(cs, title, word))
    decreases |title|
  {
    if title != "" {
      if cs.isWord(title[0]) {
        NoneIsEmpty(cs, title[1..], word + [cs.lower(title[0])]);
      } else {
        NoneIsEmpty(cs, title[1..], "");
      }
    }
  }

  lemma {:induction false} SpacedTwo(x: seq<string>, y: seq<string>)
    requires NoneEmpty(x) && NoneEmpty(y)
    ensures Spaced(x + y) == Together(Spaced(x), Spaced(y))
    decreases |y|
  {
    SpacedText(x);
    if y == [] {
      assert x + y == x && Spaced([]) == "";
    } else {
      var front, last := y[..|y| - 1], y[|y| - 1];
      FrontFull(y);
      SpacedTwo(x, front);
      SpacedText(front);
      LastApart(x, y);
      SpacedLast(x + front, last);
      SpacedLast(front, last);
      hide Spaced, NoneEmpty;
      if front == [] {
        assert x + front == x;
      } else {
        Joined(Spaced(x), Spaced(front), last);
      }
    }
  }

  lemma FrontFull(y: seq<string>)
    requires y != [] && NoneEmpty(y)
    ensures NoneEmpty(y[..|y| - 1]) && y[|y| - 1] != ""
  {
  }

  lemma LastApart<T>(x: seq<T>, y: seq<T>)
    requires y != []
    ensures y == y[..|y| - 1] + [y[|y| - 1]] && x + y == (x + y[..|y| - 1]) + [y[|y| - 1]]
  {
  }

  lemma Joined(a: string, b: string, c: string)
    ensures (a + " " + b) + " " + c == a + " " + (b + " " + c)
  {
  }

  lemma SpacedLast(front: seq<string>, last: string)
    ensures Spaced(front + [last]) == if front == [] then last else Spaced(front) + " " + last
  {
    assert (front + [last])[..|front|] == front;
  }

  predicate Plain(cs: Chars, word: string) {
    forall i :: 0 <= i < |word| ==> cs.isWord(word[i]) && cs.lower(word[i]) == word[i]
  }

  lemma {:induction false} WordsArePlain(cs: Chars, title: string, word: string)
    requires Sane(cs) && Plain(cs, word)
    ensures forall i :: 0 <= i < |WordsFrom(cs, title, word)| ==>
              WordsFrom(cs, title, word)[i] != "" && Plain(cs, WordsFrom(cs, title, word)[i])
    decreases |title|
  {
    if title != "" {
      if cs.isWord(title[0]) {
        WordsArePlain(cs, title[1..], word + [cs.lower(title[0])]);
      } else {
        WordsArePlain(cs, title[1..], "");
      }
    }
  }

  lemma {:induction false} WordReads(cs: Chars, x: string, word: string)
    requires Plain(cs, x)
    ensures WordsFrom(cs, x, word) == Ended(word + x)
    decreases |x|
  {
    if x == "" {
      assert word + x == word;
    } else {
      assert word + [cs.lower(x[0])] + x[1..] == word + x;
      WordReads(cs, x[1..], word + [cs.lower(x[0])]);
    }
  }

  lemma {:induction false} LastWordReads(cs: Chars, a: string, word: string, x: string)
    requires Sane(cs) && Plain(cs, x)
    ensures WordsFrom(cs, a + " " + x, word) == WordsFrom(cs, a, word) + Ended(x)
    decreases |a|
  {
    var whole := a + " " + x;
    if a == "" {
      assert whole[1..] == x;
      WordReads(cs, x, "");
      assert "" + x == x;
    } else {
      assert whole[1..] == a[1..] + " " + x;
      if cs.isWord(a[0]) {
        LastWordReads(cs, a[1..], word + [cs.lower(a[0])], x);
      } else {
        LastWordReads(cs, a[1..], "", x);
      }
    }
  }

  lemma {:induction false} SpacedReads(cs: Chars, words: seq<string>)
    requires Sane(cs) && forall i :: 0 <= i < |words| ==> words[i] != "" && Plain(cs, words[i])
    ensures Words(cs, Spaced(words)) == words
    decreases |words|
  {
    if words == [] {
    } else if |words| == 1 {
      WordReads(cs, words[0], "");
      assert "" + words[0] == words[0];
    } else {
      var n := |words| - 1;
      SpacedReads(cs, words[..n]);
      LastWordReads(cs, Spaced(words[..n]), "", words[n]);
    }
  }

  // Two titles are grouped together exactly when their words agree, whatever
  // stands between the words and whatever their case.
  lemma SameKeySameWords(cs: Chars, a: string, b: string)
    requires Sane(cs)
    ensures NameKey(cs, a) == NameKey(cs, b) <==> Words(cs, a) == Words(cs, b)
  {
    WordsArePlain(cs, a, "");
    WordsArePlain(cs, b, "");
    SpacedReads(cs, Words(cs, a));
    SpacedReads(cs, Words(cs, b));
  }

  // A key is its own key.
  lemma KeyOfKey(cs: Chars, title: string)
    requires Sane(cs)
    ensures NameKey(cs, NameKey(cs, title)) == NameKey(cs, title)
  {
    WordsArePlain(cs, title, "");
    SpacedReads(cs, Words(cs, title));
  }

  lemma SpacedWord(words: seq<string>, word: string)
    ensures Spaced(words + [word]) == if words == [] then word else Spaced(words) + " " + word
  {
    assert (words + [word])[..|words|] == words;
  }

  // One more letter: in the current word, or after a gap in a new one.
  lemma LetterAdded(done: seq<string>, word: string, c: char)
    ensures var out := Spaced(done + Ended(word));
            Spaced(done + Ended(word + [c])) == if word == "" && done != [] then (out + " ") + [c] else out + [c]
  {
    SpacedWord(done, word + [c]);
    hide Spaced;
    if word == "" {
      assert done + [] == done && word + [c] == [c];
      SpacedNone();
    } else {
      SpacedWord(done, word);
      if done != [] {
        assert Spaced(done) + " " + (word + [c]) == (Spaced(done) + " " + word) + [c];
      }
    }
  }

  lemma SpacedNone()
    ensures Spaced([]) == ""
  {
  }

  lemma WordsStep(cs: Chars, title: string, i: nat, done: seq<string>, word: string)
    requires i < |title|
    ensures done + WordsFrom(cs, title[i..], word)
            == if cs.isWord(title[i]) then done + WordsFrom(cs, title[i + 1..], word + [cs.lower(title[i])])
               else (done + Ended(word)) + WordsFrom(cs, title[i + 1..], "")
  {
    assert title[i..][0] == title[i] && title[i..][1..] == title[i + 1..];
    hide Ended;
    assert done + (Ended(word) + WordsFrom(cs, title[i + 1..], "")) == (done + Ended(word)) + WordsFrom(cs,
        title[i + 1..], "");
  }

  // `done` are the words that have ended, `word` the one being read.
  ghost predicate NoneEmpty(words: seq<string>) { forall k :: 0 <= k < |words| ==> words[k] != "" }

  lemma SpacedText(words: seq<string>)
    requires NoneEmpty(words)
    ensures Spaced(words) == "" <==> words == []
  {
    if words != [] {
      assert words[|words| - 1] != "";
    }
  }

  lemma EndedText(done: seq<string>, word: string)
    requires NoneEmpty(done)
    ensures NoneEmpty(done + Ended(word))
  {
  }

  method ComputeNameKey(cs: Chars, title: string) returns (out: string)
    ensures out == NameKey(cs, title)
  {
    out := "";
    var gap := false;
    ghost var done: seq<string>, word := [], "";
    for i := 0 to |title|
      invariant Words(cs, title) == done + WordsFrom(cs, title[i..], word)
      invariant out == Spaced(done + Ended(word))
      invariant NoneEmpty(done)
      invariant gap ==> word == ""
      invariant !gap && word == "" ==> done == []
    {
      var c := title[i];
      WordsStep(cs, title, i, done, word);
      LetterAdded(done, word, cs.lower(c));
      SpacedText(done);
      EndedText(done, word);
      hide Spaced, WordsFrom, NoneEmpty;
      if cs.isWord(c) {
        if gap && out != "" {
          out := out + " ";
        }
        out := out + [cs.lower(c)];
        word := word + [cs.lower(c)];
        gap := false;
      } else {
        assert done + Ended(word) + Ended("") == done + Ended(word);
        done, word := done + Ended(word), "";
        gap := true;
      }
    }
    assert title[|title|..] == "";
  }
}
