/** The word count of a text: the pieces between single spaces that are
    not empty. */
module Words {
  import opened Strings

  /** The `filter(word => word !== '')` step. */
  function NonEmpty(parts: seq<string>): (kept: seq<string>)
    ensures |kept| <= |parts|
    ensures forall i :: 0 <= i < |kept| ==> kept[i] != ""
  {
    if |parts| == 0 then []
    else if parts[0] == "" then NonEmpty(parts[1..])
    else [parts[0]] + NonEmpty(parts[1..])
  }

  /** `WordCount(text)`. */
  function WordCount(text: string): nat
  {
    |NonEmpty(Split(text, " "))|
  }

  /** The reference count: the positions where a run of characters other
      than ' ' begins, `afterSpace` saying whether the position before the
      text counts as a space. */
  function RunStarts(s: string, afterSpace: bool): nat
  {
    if |s| == 0 then 0
    else (if s[0] != ' ' && afterSpace then 1 else 0) + RunStarts(s[1..], s[0] == ' ')
  }

  /** The number of maximal runs of characters other than ' '. */
  function Runs(s: string): nat
  {
    RunStarts(s, true)
  }

  // ---------------------------------------------------------------------
  // Properties

  lemma {:induction false} PiecesAndRuns(t: string)
    ensures |NonEmpty(Split(t, " "))| == RunStarts(t, true)
    ensures |NonEmpty(Split(t, " ")[1..])| == RunStarts(t, false)
    decreases |t|
  {
    if |t| > 0 {
      PiecesAndRuns(t[1..]);
      var rest := Split(t[1..], " ");
      if t[0] == ' ' {
        assert t[..1] == " ";
        assert Split(t, " ") == [""] + rest;
        assert Split(t, " ")[1..] == rest;
      } else {
        assert t[..1] != " ";
        var parts := [[t[0]] + rest[0]] + rest[1..];
        assert Split(t, " ") == parts;
        assert parts[1..] == rest[1..];
        assert parts[0] != "";
      }
    }
  }

  /** Only the space character separates words: the count is the number of
      maximal runs of other characters. */
  lemma WordCountIsRuns(text: string)
    ensures WordCount(text) == Runs(text)
  {
    PiecesAndRuns(text);
  }

  lemma WordCountEmpty()
    ensures WordCount("") == 0
  {
    assert Split("", " ") == [""];
  }

  lemma {:induction false} RunStartsBound(s: string, afterSpace: bool)
    ensures RunStarts(s, afterSpace) <= |s|
    decreases |s|
  {
    if |s| > 0 {
      RunStartsBound(s[1..], s[0] == ' ');
    }
  }

  /** There are never more words than characters. */
  lemma WordCountBound(text: string)
    ensures WordCount(text) <= |text|
  {
    WordCountIsRuns(text);
    RunStartsBound(text, true);
  }

  lemma {:induction false} RunStartsAppend(a: string, b: string, afterSpace: bool)
    ensures RunStarts(a + " " + b, afterSpace) == RunStarts(a, afterSpace) + RunStarts(b, true)
    decreases |a|
  {
    if |a| == 0 {
      assert a + " " + b == [' '] + b;
      assert ([' '] + b)[1..] == b;
    } else {
      assert (a + " " + b)[0] == a[0];
      assert (a + " " + b)[1..] == a[1..] + " " + b;
      RunStartsAppend(a[1..], b, a[0] == ' ');
    }
  }

  /** Counts add up across a space. */
  lemma WordCountAdditive(a: string, b: string)
    ensures WordCount(a + " " + b) == WordCount(a) + WordCount(b)
  {
    WordCountIsRuns(a + " " + b);
    WordCountIsRuns(a);
    WordCountIsRuns(b);
    RunStartsAppend(a, b, true);
  }

  /** Extra spaces change nothing: doubling a space, or a space at either
      end. */
  lemma WordCountExtraSpaces(a: string, b: string)
    ensures WordCount(a + "  " + b) == WordCount(a + " " + b)
    ensures WordCount(" " + b) == WordCount(b)
    ensures WordCount(a + " ") == WordCount(a)
  {
    WordCountAdditive(a, " " + b);
    WordCountAdditive(a, b);
    WordCountAdditive("", b);
    WordCountAdditive(a, "");
    WordCountEmpty();
    assert a + "  " + b == a + " " + (" " + b);
    assert "" + " " + b == " " + b;
    assert a + " " + "" == a + " ";
  }

  lemma {:induction false} RunStartsNoSpace(s: string)
    requires ' ' !in s
    ensures RunStarts(s, false) == 0
    decreases |s|
  {
    if |s| > 0 {
      assert s[0] in s;
      RunStartsNoSpace(s[1..]);
    }
  }

  /** A non-empty text without a space is one word. */
  lemma WordCountOneWord(text: string)
    requires |text| > 0 && ' ' !in text
    ensures WordCount(text) == 1
  {
    WordCountIsRuns(text);
    assert text[0] in text;
    RunStartsNoSpace(text[1..]);
  }
}
