/** The text functions of the rendering: lower case, trimming, and the snake_case names of the keys that the
    loops rewrite. Each is tied to what it means letter by letter. */
module Naming {
  import opened Cluster

  predicate IsUpper(c: char) {
    'A' <= c <= 'Z'
  }

  function LowerChar(c: char): char {
    if IsUpper(c) then (c as int + 32) as char else c
  }

  /** `t` is `s` with each capital letter replaced by the small one, 32 places further. */
  ghost predicate IsLowerCase(s: string, t: string) {
    && |t| == |s|
    && forall i :: 0 <= i < |s| ==>
                     if 'A' <= s[i] <= 'Z' then t[i] as int - s[i] as int == 'a' as int - 'A' as int else t[i] == s[i]
  }

  /** `strings.ToLower` on ASCII. */
  function ToLower(s: string): (t: string)
    ensures IsLowerCase(s, t)
  {
    seq(|s|, i requires 0 <= i < |s| => LowerChar(s[i]))
  }

  lemma LowerCaseIsUnique(s: string, t: string)
    requires IsLowerCase(s, t)
    ensures t == ToLower(s)
  {
    assert forall i :: 0 <= i < |s| ==> t[i] == ToLower(s)[i];
  }

  // ----- Spaces -----

  /** The ASCII characters that count as spaces: tab to carriage return, and the blank. */
  lemma SpacesAre(c: char)
    ensures IsSpace(c) <==> 9 <= c as int <= 13 || c as int == 32
  {}

  function TrimLeft(s: string): string {
    if s != "" && IsSpace(s[0]) then TrimLeft(s[1..]) else s
  }

  function TrimRight(s: string): string {
    if s != "" && IsSpace(s[|s| - 1]) then TrimRight(s[..|s| - 1]) else s
  }

  /** `t` is `s` without the spaces around it. */
  ghost predicate IsTrimmed(s: string, t: string) {
    && (t != "" ==> !IsSpace(t[0]) && !IsSpace(t[|t| - 1]))
    && exists left, right :: Blank(left) && Blank(right) && s == left + t + right
  }

  lemma {:induction false} TrimLeftCuts(s: string) returns (left: string)
    ensures Blank(left) && s == left + TrimLeft(s)
    ensures TrimLeft(s) != "" ==> !IsSpace(TrimLeft(s)[0])
  {
    left := "";
    if s != "" && IsSpace(s[0]) {
      var rest := TrimLeftCuts(s[1..]);
      left := [s[0]] + rest;
    }
  }

  lemma {:induction false} TrimRightCuts(s: string) returns (right: string)
    ensures Blank(right) && s == TrimRight(s) + right
    ensures TrimRight(s) != "" ==> !IsSpace(TrimRight(s)[|TrimRight(s)| - 1]) && TrimRight(s)[0] == s[0]
  {
    right := "";
    if s != "" && IsSpace(s[|s| - 1]) {
      var rest := TrimRightCuts(s[..|s| - 1]);
      right := rest + [s[|s| - 1]];
    }
  }

  lemma TrimIsTrimmed(s: string)
    ensures IsTrimmed(s, TrimRight(TrimLeft(s)))
    ensures TrimRight(TrimLeft(s)) == "" ==> Blank(s)
  {
    var left := TrimLeftCuts(s);
    var right := TrimRightCuts(TrimLeft(s));
    assert s == left + TrimRight(TrimLeft(s)) + right;
  }

  lemma {:induction false} BlankPrefix(left: string, t: string)
    requires Blank(left) && (t != "" ==> !IsSpace(t[0]))
    ensures TrimLeft(left + t) == t
  {
    if left == "" {
      assert left + t == t;
    } else {
      assert (left + t)[1..] == left[1..] + t;
      BlankPrefix(left[1..], t);
    }
  }

  lemma {:induction false} BlankSuffix(t: string, right: string)
    requires Blank(right) && (t != "" ==> !IsSpace(t[|t| - 1]))
    ensures TrimRight(t + right) == t
  {
    if right == "" {
      assert t + right == t;
    } else {
      var n := |right| - 1;
      assert (t + right)[..|t + right| - 1] == t + right[..n];
      BlankSuffix(t, right[..n]);
    }
  }

  lemma TrimmedIsUnique(s: string, t: string)
    requires IsTrimmed(s, t) && t != ""
    ensures t == TrimRight(TrimLeft(s))
  {
    var left, right :| Blank(left) && Blank(right) && s == left + t + right;
    assert s == left + (t + right) && (t + right)[0] == t[0];
    BlankPrefix(left, t + right);
    BlankSuffix(t, right);
  }

  // ----- snake_case -----

  /** Every capital that follows another kind of letter begins a word, and words are joined by underscores. */
  function SnakeCase(s: string): string {
    if s == "" then ""
    else
      var n := |s| - 1;
      SnakeCase(s[..n]) + NextLetter(s[..n], s[n])
  }

  function NextLetter(before: string, c: char): string {
    (if before != "" && IsUpper(c) && !IsUpper(before[|before| - 1]) then "_" else "") + [LowerChar(c)]
  }

  lemma SnakeStep(s: string, c: char)
    ensures SnakeCase(s + [c]) == SnakeCase(s) + NextLetter(s, c)
  {
    var t := s + [c];
    assert t[..|t| - 1] == s && t[|t| - 1] == c;
    hide NextLetter;
  }

  predicate NoUpper(w: string) {
    forall i :: 0 <= i < |w| ==> !IsUpper(w[i])
  }

  lemma {:induction false} SnakeKeepsLower(s: string, w: string)
    requires NoUpper(w)
    ensures SnakeCase(s + w) == SnakeCase(s) + w
  {
    hide SnakeCase;
    if w == "" {
      assert s + w == s;
    } else {
      var n := |w| - 1;
      SnakeKeepsLower(s, w[..n]);
      SnakeStep(s + w[..n], w[n]);
      assert NextLetter(s + w[..n], w[n]) == [w[n]];
      assert s + w == s + w[..n] + [w[n]];
    }
  }

  lemma SnakeWord(s: string, c: char, w: string)
    requires s != "" && !IsUpper(s[|s| - 1]) && IsUpper(c) && NoUpper(w)
    ensures SnakeCase(s + [c] + w) == SnakeCase(s) + "_" + [LowerChar(c)] + w
  {
    hide SnakeCase;
    SnakeKeepsLower(s + [c], w);
    SnakeStep(s, c);
    assert NextLetter(s, c) == "_" + [LowerChar(c)];
  }

  lemma SnakeTwo(word: string, c: char, rest: string)
    requires word != "" && NoUpper(word) && IsUpper(c) && NoUpper(rest)
    ensures SnakeCase(word + [c] + rest) == word + "_" + [LowerChar(c)] + rest
  {
    SnakeKeepsLower("", word);
    assert "" + word == word;
    SnakeWord(word, c, rest);
  }

  lemma DatabaseKeys()
    ensures SnakeCase("excludeTables") == "exclude_tables"
    ensures SnakeCase("additionalOptions") == "additional_options"
  {
    SnakeTwo("exclude", 'T', "ables");
    SnakeTwo("additional", 'O', "ptions");
    hide SnakeCase;
    assert "exclude" + ['T'] + "ables" == "excludeTables";
    assert "additional" + ['O'] + "ptions" == "additionalOptions";
  }

  lemma TwoWordKeys()
    ensures SnakeCase("storageClass") == "storage_class"
    ensures SnakeCase("maxRetries") == "max_retries"
  {
    SnakeTwo("storage", 'C', "lass");
    SnakeTwo("max", 'R', "etries");
    hide SnakeCase;
    assert "storage" + ['C'] + "lass" == "storageClass";
    assert "max" + ['R'] + "etries" == "maxRetries";
  }

  lemma ThreeWordKeys()
    ensures SnakeCase("secretAccessKey") == "secret_access_key"
    ensures SnakeCase("forcePathStyle") == "force_path_style"
  {
    hide SnakeCase;
    SnakeTwo("secret", 'A', "ccess");
    assert "secret" + ['A'] + "ccess" == "secretAccess";
    SnakeWord("secretAccess", 'K', "ey");
    assert "secretAccess" + ['K'] + "ey" == "secretAccessKey";
    SnakeTwo("force", 'P', "ath");
    assert "force" + ['P'] + "ath" == "forcePath";
    SnakeWord("forcePath", 'S', "tyle");
    assert "forcePath" + ['S'] + "tyle" == "forcePathStyle";
  }

  lemma SnakeCapital(s: string, c: char)
    requires s != "" && IsUpper(s[|s| - 1]) && IsUpper(c)
    ensures SnakeCase(s + [c]) == SnakeCase(s) + [LowerChar(c)]
  {
    hide SnakeCase;
    SnakeStep(s, c);
    assert NextLetter(s, c) == [LowerChar(c)];
  }

  lemma AccessKeyId()
    ensures SnakeCase("accessKeyID") == "access_key_id"
  {
    hide SnakeCase;
    SnakeTwo("access", 'K', "ey");
    assert "access" + ['K'] + "ey" == "accessKey";
    SnakeWord("accessKey", 'I', "");
    assert "accessKey" + ['I'] + "" == "accessKeyI";
    SnakeCapital("accessKeyI", 'D');
    assert "accessKeyI" + ['D'] == "accessKeyID";
  }
}
