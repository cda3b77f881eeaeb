/** What the checks at the top of both handlers accept. The number of fields of a cron expression is
    counted character by character; here it is tied to the words themselves. */
module Validation {
  import opened Cluster

  predicate IsWord(w: string) {
    w != "" && forall i :: 0 <= i < |w| ==> !IsSpace(w[i])
  }

  /** The words, each between two gaps. */
  ghost function Weave(gaps: seq<string>, words: seq<string>): string
    requires |gaps| == |words| + 1
  {
    var n := |words|;
    if n == 0 then gaps[0] else Weave(gaps[..n], words[..n - 1]) + words[n - 1] + gaps[n]
  }

  /** `s` is these words, with blank gaps around them and something in every gap between two words. */
  ghost predicate Splits(s: string, gaps: seq<string>, words: seq<string>) {
    && |gaps| == |words| + 1
    && (forall i :: 0 <= i < |words| ==> IsWord(words[i]))
    && (forall i :: 0 <= i < |gaps| ==> Blank(gaps[i]))
    && (forall i :: 0 < i < |words| ==> gaps[i] != "")
    && s == Weave(gaps, words)
  }

  ghost predicate HasFields(s: string, n: nat) {
    exists gaps, words :: |words| == n && Splits(s, gaps, words)
  }

  predicate EndsInWord(s: string) {
    s != "" && !IsSpace(s[|s| - 1])
  }

  lemma {:induction false} BlankAddsNothing(t: string, gap: string)
    requires Blank(gap)
    ensures CountFields(t + gap) == CountFields(t)
    ensures gap != "" ==> !EndsInWord(t + gap)
  {
    if gap == "" {
      assert t + gap == t;
    } else {
      var n := |gap| - 1;
      assert (t + gap)[..|t + gap| - 1] == t + gap[..n];
      BlankAddsNothing(t, gap[..n]);
    }
  }

  lemma {:induction false} WordAddsOne(t: string, w: string)
    requires IsWord(w) && !EndsInWord(t)
    ensures CountFields(t + w) == CountFields(t) + 1
    ensures EndsInWord(t + w)
  {
    var n := |w| - 1;
    assert (t + w)[..|t + w| - 1] == t + w[..n];
    if n > 0 {
      WordAddsOne(t, w[..n]);
    } else {
      assert t + w[..n] == t;
    }
  }

  lemma {:induction false} WordsAreCounted(gaps: seq<string>, words: seq<string>)
    requires |gaps| == |words| + 1 && Splits(Weave(gaps, words), gaps, words)
    ensures CountFields(Weave(gaps, words)) == |words|
    ensures EndsInWord(Weave(gaps, words)) <==> words != [] && gaps[|words|] == ""
  {
    var n := |words|;
    if n == 0 {
      BlankAddsNothing("", gaps[0]);
      assert "" + gaps[0] == gaps[0];
    } else {
      var front := Weave(gaps[..n], words[..n - 1]);
      WordsAreCounted(gaps[..n], words[..n - 1]);
      hide IsWord, Blank;
      WordAddsOne(front, words[n - 1]);
      BlankAddsNothing(front + words[n - 1], gaps[n]);
      if gaps[n] == "" {
        assert front + words[n - 1] + gaps[n] == front + words[n - 1];
      }
    }
  }

  lemma WeaveExtends(gaps: seq<string>, words: seq<string>, gap: string, word: string)
    requires |gaps| == |words| + 1
    ensures Weave(gaps + [gap], words + [word]) == Weave(gaps, words) + word + gap
  {
    assert (gaps + [gap])[..|words| + 1] == gaps && (words + [word])[..|words|] == words;
  }

  /** One more space lengthens the last gap. */
  lemma SpaceExtends(s: string, gaps: seq<string>, words: seq<string>, c: char) returns (gaps': seq<string>)
    requires Splits(s, gaps, words) && IsSpace(c)
    ensures Splits(s + [c], gaps', words)
  {
    var n := |words|;
    gaps' := gaps[n := gaps[n] + [c]];
    assert gaps'[..n] == gaps[..n];
    if n > 0 {
      assert s + [c] == Weave(gaps[..n], words[..n - 1]) + words[n - 1] + (gaps[n] + [c]);
    }
  }

  /** A letter after a word lengthens it. */
  lemma LetterExtends(s: string, gaps: seq<string>, words: seq<string>, c: char) returns (words': seq<string>)
    requires Splits(s, gaps, words) && EndsInWord(s) && !IsSpace(c)
    ensures Splits(s + [c], gaps, words') && |words'| == |words|
  {
    WordsAreCounted(gaps, words);
    var n := |words|;
    words' := words[n - 1 := words[n - 1] + [c]];
    assert words'[..n - 1] == words[..n - 1];
    assert s == Weave(gaps[..n], words[..n - 1]) + words[n - 1] + gaps[n];
    assert s + [c] == Weave(gaps[..n], words[..n - 1]) + words'[n - 1] + gaps[n];
  }

  /** Any other letter starts a word. */
  lemma LetterStarts(s: string, gaps: seq<string>, words: seq<string>, c: char)
    requires Splits(s, gaps, words) && !EndsInWord(s) && !IsSpace(c)
    ensures Splits(s + [c], gaps + [""], words + [[c]])
  {
    WordsAreCounted(gaps, words);
    WeaveExtends(gaps, words, "", [c]);
    assert Weave(gaps, words) + [c] + "" == s + [c];
  }

  lemma {:induction false} SomeSplit(s: string) returns (gaps: seq<string>, words: seq<string>)
    ensures Splits(s, gaps, words)
  {
    if s == "" {
      gaps, words := [""], [];
    } else {
      var n := |s| - 1;
      assert s == s[..n] + [s[n]];
      gaps, words := SomeSplit(s[..n]);
      hide Splits, IsSpace;
      if IsSpace(s[n]) {
        gaps := SpaceExtends(s[..n], gaps, words, s[n]);
      } else if EndsInWord(s[..n]) {
        words := LetterExtends(s[..n], gaps, words, s[n]);
      } else {
        LetterStarts(s[..n], gaps, words, s[n]);
        gaps, words := gaps + [""], words + [[s[n]]];
      }
    }
  }

  /** The count is the number of words, for every text and however it is split. */
  lemma CountFieldsIff(s: string, n: nat)
    ensures CountFields(s) == n <==> HasFields(s, n)
  {
    if HasFields(s, n) {
      var gaps, words :| |words| == n && Splits(s, gaps, words);
      WordsAreCounted(gaps, words);
    }
    var gaps, words := SomeSplit(s);
    WordsAreCounted(gaps, words);
  }

  lemma BlankIff(s: string)
    ensures Blank(s) <==> HasFields(s, 0)
  {
    if Blank(s) {
      assert Splits(s, [s], []);
    }
  }

  /** A spec is acted on exactly when its schedule has five fields and it names a storage and a database,
      and it is passed over without an error exactly when there is no field at all. */
  lemma AcceptedIff(spec: Spec)
    ensures Judge(spec) == Accepted <==>
            && spec.schedule.Some? && HasFields(spec.schedule.value.cron, 5)
            && spec.storageRefs != [] && spec.databaseRefs != []
    ensures Judge(spec) == Ignored <==> spec.schedule.None? || HasFields(spec.schedule.value.cron, 0)
  {
    if spec.schedule.Some? {
      var cron := spec.schedule.value.cron;
      BlankIff(cron);
      CountFieldsIff(cron, 0);
      CountFieldsIff(cron, 5);
      hide HasFields, CountFields, Blank;
    }
  }
}
