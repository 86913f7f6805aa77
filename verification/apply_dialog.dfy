/** The job application dialog: the cover letter's word count, the
  * 500-word limit, and the submit handler that sends the letter and notes
  * and clears them once the application is stored. */
module ApplyDialog {
  import opened Wrappers
  import opened JsStrings
  import opened Seqs

  const MaxWords := 500

  /** Whether `s` holds a white-space character, and where the first is. */
  function FirstSpace(s: string): (r: Option<nat>)
    ensures r.Some? ==> r.value < |s| && IsSpace(s[r.value]) && forall i :: 0 <= i < r.value ==> !IsSpace(s[i])
    ensures r.None? ==> forall i :: 0 <= i < |s| ==> !IsSpace(s[i])
  {
    FindFirst(IsSpace, s)
  }

  /** The end of the run of white space that starts at `k`. */
  function SpaceRunEnd(s: string, k: nat): (j: nat)
    requires k <= |s|
    ensures k <= j <= |s|
    ensures forall i :: k <= i < j ==> IsSpace(s[i])
    ensures j < |s| ==> !IsSpace(s[j])
    decreases |s| - k
  {
    if k < |s| && IsSpace(s[k]) then SpaceRunEnd(s, k + 1) else k
  }

  /** `s.split(/\s+/)`: the pieces between maximal runs of white space. */
  function SplitOnSpace(s: string): (r: seq<string>)
    ensures |r| >= 1
    decreases |s|
  {
    match FirstSpace(s)
    case None => [s]
    case Some(k) =>
      var j := SpaceRunEnd(s, k);
      [s[..k]] + SplitOnSpace(s[j..])
  }

  /** `coverLetter.trim().split(/\s+/).filter(Boolean).length`. */
  function WordCount(letter: string): nat {
    |Filter(NonEmpty, SplitOnSpace(Trim(letter)))|
  }

  /** The number of words in `s` counted directly: the characters that
    * are not white space and follow white space or, when `afterSpace`, the
    * start. */
  function RunsFrom(s: string, afterSpace: bool): nat
    decreases |s|
  {
    if |s| == 0 then 0
    else (if !IsSpace(s[0]) && afterSpace then 1 else 0) + RunsFrom(s[1..], IsSpace(s[0]))
  }

  function Words(s: string): nat { RunsFrom(s, true) }

  lemma {:induction false} RunsAppend(a: string, b: string, afterSpace: bool)
    ensures RunsFrom(a + b, afterSpace)
            == RunsFrom(a, afterSpace) + RunsFrom(b, if |a| == 0 then afterSpace else IsSpace(a[|a| - 1]))
    decreases |a|
  {
    if |a| > 0 {
      assert (a + b)[1..] == a[1..] + b;
      RunsAppend(a[1..], b, IsSpace(a[0]));
      assert |a| > 1 ==> a[1..][|a[1..]| - 1] == a[|a| - 1];
      assert RunsFrom(a + b, afterSpace)
             == (if !IsSpace(a[0]) && afterSpace then 1 else 0) + RunsFrom(a[1..] + b, IsSpace(a[0]));
    } else {
      assert a + b == b;
    }
  }

  lemma {:induction false} RunsNoSpace(s: string, afterSpace: bool)
    requires forall i :: 0 <= i < |s| ==> !IsSpace(s[i])
    ensures RunsFrom(s, afterSpace) == if |s| > 0 && afterSpace then 1 else 0
    decreases |s|
  {
    if |s| > 0 {
      RunsNoSpace(s[1..], false);
    }
  }

  lemma {:induction false} RunsAllSpace(s: string, afterSpace: bool)
    requires forall i :: 0 <= i < |s| ==> IsSpace(s[i])
    ensures RunsFrom(s, afterSpace) == 0
    decreases |s|
  {
    if |s| > 0 {
      RunsAllSpace(s[1..], true);
    }
  }

  /** The non-empty pieces of the split are exactly the words. */
  lemma {:induction false} SplitCountsWords(s: string)
    ensures |Filter(NonEmpty, SplitOnSpace(s))| == Words(s)
    decreases |s|
  {
    match FirstSpace(s)
    case None =>
      RunsNoSpace(s, true);
      assert SplitOnSpace(s) == [s];
      assert [s][1..] == [];
    case Some(k) =>
      var j := SpaceRunEnd(s, k);
      WordsAtFirstSpace(s, k, j);
      SplitCountsWords(s[j..]);
      PiecesAtFirstSpace(s, k, j);
  }

  /** Up to the first run of white space there is one word, or none when
    * the text starts with white space. */
  lemma {:induction false} WordsAtFirstSpace(s: string, k: nat, j: nat)
    requires k < |s| && IsSpace(s[k]) && forall i :: 0 <= i < k ==> !IsSpace(s[i])
    requires j == SpaceRunEnd(s, k)
    ensures Words(s) == (if k > 0 then 1 else 0) + Words(s[j..])
  {
    var head, gap, rest := s[..k], s[k..j], s[j..];
    assert s == head + gap + rest;
    RunsAppend(head + gap, rest, true);
    RunsAppend(head, gap, true);
    forall i | 0 <= i < |head| ensures !IsSpace(head[i]) {
      assert head[i] == s[i];
    }
    RunsNoSpace(head, true);
    forall i | 0 <= i < |gap| ensures IsSpace(gap[i]) {
      assert gap[i] == s[k + i];
    }
    RunsAllSpace(gap, if |head| == 0 then true else IsSpace(head[|head| - 1]));
    assert (head + gap)[|head + gap| - 1] == s[j - 1];
  }

  /** The split's first piece is the text before the first run of white
    * space, and it is kept exactly when it is not empty. */
  lemma {:induction false} PiecesAtFirstSpace(s: string, k: nat, j: nat)
    requires FirstSpace(s) == Some(k) && j == SpaceRunEnd(s, k)
    ensures |Filter(NonEmpty, SplitOnSpace(s))| == (if k > 0 then 1 else 0) + |Filter(NonEmpty, SplitOnSpace(s[j..]))|
  {
    var pieces := SplitOnSpace(s);
    assert pieces == [s[..k]] + SplitOnSpace(s[j..]);
    FilterAppend(NonEmpty, [s[..k]], SplitOnSpace(s[j..]));
  }

  /** The white space removed from either end of `s` holds no word. */
  lemma {:induction false} TrimStartWords(s: string)
    ensures RunsFrom(TrimStart(s), true) == RunsFrom(s, true)
    decreases |s|
  {
    if |s| > 0 && IsSpace(s[0]) {
      TrimStartWords(s[1..]);
    }
  }

  lemma {:induction false} TrimEndWords(s: string, afterSpace: bool)
    ensures RunsFrom(TrimEnd(s), afterSpace) == RunsFrom(s, afterSpace)
    decreases |s|
  {
    if |s| > 0 && IsSpace(s[|s| - 1]) {
      var t := s[..|s| - 1];
      assert s == t + [s[|s| - 1]];
      RunsAppend(t, [s[|s| - 1]], afterSpace);
      RunsAllSpace([s[|s| - 1]], if |t| == 0 then afterSpace else IsSpace(t[|t| - 1]));
      TrimEndWords(t, afterSpace);
    }
  }

  /** Trimming adds and removes no word. */
  lemma TrimWords(s: string)
    ensures Words(Trim(s)) == Words(s)
  {
    TrimStartWords(s);
    TrimEndWords(TrimStart(s), true);
  }

  /** The word count counts the runs of non-white-space characters. */
  lemma WordCountIsWords(letter: string)
    ensures WordCount(letter) == Words(letter)
  {
    SplitCountsWords(Trim(letter));
    TrimWords(letter);
  }

  /** `isValid`: some text, and at most 500 words. */
  predicate IsValid(letter: string) {
    |Trim(letter)| > 0 && WordCount(letter) <= MaxWords
  }

  /** A letter is valid exactly when it has between one and 500 words. */
  lemma ValidIffWordsInRange(letter: string)
    ensures IsValid(letter) <==> 1 <= Words(letter) <= MaxWords
  {
    WordCountIsWords(letter);
    HasTextIffTrimNonEmpty(letter);
    if HasText(letter) {
      var k :| 0 <= k < |letter| && !IsSpace(letter[k]);
      WordsWitnessAfterSpace(letter, k);
    } else {
      RunsAllSpace(letter, true);
    }
  }

  /** A string with a non-white-space character has a word. */
  lemma {:induction false} WordsWitnessAfterSpace(s: string, k: nat)
    requires k < |s| && !IsSpace(s[k])
    ensures RunsFrom(s, true) >= 1
    decreases k
  {
    if k > 0 && IsSpace(s[0]) {
      WordsWitnessAfterSpace(s[1..], k - 1);
    }
  }

  /** The dialog's state. */
  class Dialog {
    var coverLetter: string
    var notes: string
    var open: bool
    /** The applications sent, oldest first, as (cover letter, notes). */
    var sent: seq<(string, string)>

    constructor (isOpen: bool)
      ensures coverLetter == "" && notes == "" && open == isOpen && sent == []
    {
      coverLetter := "";
      notes := "";
      open := isOpen;
      sent := [];
    }

    /** `handleApply`: an invalid letter sends nothing; a valid one is sent
      * as typed, with the notes, and on success the dialog closes and both
      * fields are cleared. */
    method HandleApply(stored: bool)
      modifies this
      ensures !IsValid(old(coverLetter)) ==>
                coverLetter == old(coverLetter) && notes == old(notes) && open == old(open) && sent == old(sent)
      ensures IsValid(old(coverLetter)) ==> sent == old(sent) + [(old(coverLetter), old(notes))]
      ensures IsValid(old(coverLetter)) && stored ==> coverLetter == "" && notes == "" && !open
      ensures IsValid(old(coverLetter)) && !stored ==>
                coverLetter == old(coverLetter) && notes == old(notes) && open == old(open)
    {
      if !IsValid(coverLetter) {
        return;
      }
      sent := sent + [(coverLetter, notes)];
      if stored {
        open := false;
        coverLetter := "";
        notes := "";
      }
    }
  }
}
