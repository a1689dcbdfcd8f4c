/** ASCII text: the few pieces of Go's strings package the driver relies on. */
module Text {
  import opened Results

  predicate IsSpace(c: char) {
    c == ' ' || 9 <= c as int <= 13
  }

  predicate AllSpace(s: string) {
    forall i | 0 <= i < |s| :: IsSpace(s[i])
  }

  function LowerChar(c: char): char {
    if 'A' <= c <= 'Z' then (c as int + 32) as char else c
  }

  function Lower(s: string): (r: string)
    ensures |r| == |s|
    ensures forall i | 0 <= i < |s| :: r[i] == LowerChar(s[i])
  {
    seq(|s|, i requires 0 <= i < |s| => LowerChar(s[i]))
  }

  /** strings.TrimSpace on ASCII text. */
  function Trim(s: string): string {
    if s != "" && IsSpace(s[0]) then Trim(s[1..])
    else if s != "" && IsSpace(s[|s| - 1]) then Trim(s[..|s| - 1])
    else s
  }

  /** Nothing left to trim. */
  predicate Tight(s: string) {
    s != "" ==> !IsSpace(s[0]) && !IsSpace(s[|s| - 1])
  }

  lemma {:induction false} TrimSplits(s: string) returns (left: string, right: string)
    ensures s == left + Trim(s) + right
    ensures AllSpace(left) && AllSpace(right) && Tight(Trim(s))
  {
    if s != "" && IsSpace(s[0]) {
      left, right := TrimSplits(s[1..]);
      left := [s[0]] + left;
    } else if s != "" && IsSpace(s[|s| - 1]) {
      left, right := TrimSplits(s[..|s| - 1]);
      assert s == s[..|s| - 1] + [s[|s| - 1]];
      right := right + [s[|s| - 1]];
    } else {
      left, right := "", "";
    }
  }

  lemma {:induction false} TrimStripsPadding(left: string, core: string, right: string)
    requires AllSpace(left) && AllSpace(right) && Tight(core)
    ensures Trim(left + core + right) == core
    decreases |left| + |right|
  {
    var s := left + core + right;
    if left != "" {
      assert s[1..] == left[1..] + core + right;
      TrimStripsPadding(left[1..], core, right);
    } else if right != "" {
      var rest := right[..|right| - 1];
      assert s[..|s| - 1] == left + core + rest;
      TrimStripsPadding(left, core, rest);
      if core == "" {
        assert s == right && s[1..] == left + core + right[1..];
        TrimStripsPadding(left, core, right[1..]);
      }
    } else {
      assert s == core;
    }
  }

  /** Trimming twice is trimming once. */
  lemma TrimIdempotent(s: string)
    ensures Trim(Trim(s)) == Trim(s)
  {
    var left, right := TrimSplits(s);
    assert "" + Trim(s) + "" == Trim(s);
    TrimStripsPadding("", Trim(s), "");
  }

  /** strings.Contains. */
  predicate Contains(s: string, part: string) {
    part <= s || (s != "" && Contains(s[1..], part))
  }

  lemma {:induction false} ContainsSplits(s: string, part: string) returns (before: string, after: string)
    requires Contains(s, part)
    ensures s == before + part + after
  {
    if part <= s {
      before, after := "", s[|part|..];
    } else {
      before, after := ContainsSplits(s[1..], part);
      before := [s[0]] + before;
    }
  }

  lemma {:induction false} SplitContains(before: string, part: string, after: string)
    ensures Contains(before + part + after, part)
  {
    var s := before + part + after;
    if before != "" {
      assert s[1..] == before[1..] + part + after;
      SplitContains(before[1..], part, after);
    } else {
      assert s == part + after;
    }
  }

  lemma LowerOfConcat(s: string, t: string)
    ensures Lower(s + t) == Lower(s) + Lower(t)
  {
  }

  /** strconv.ParseBool. */
  function ParseBool(s: string): Option<bool> {
    if s in {"1", "t", "T", "TRUE", "true", "True"} then Some(true)
    else if s in {"0", "f", "F", "FALSE", "false", "False"} then Some(false)
    else None
  }

  lemma LettersOf(s: string)
    ensures |s| == 1 ==> s == [s[0]] && Lower(s) == [LowerChar(s[0])]
    ensures |s| == 4 ==> s == [s[0], s[1], s[2], s[3]]
                         && Lower(s) == [LowerChar(s[0]), LowerChar(s[1]), LowerChar(s[2]), LowerChar(s[3])]
  {
  }

  /** The word in lower case, in upper case and capitalized is true, and nothing else is. */
  lemma TrueSpellings(s: string)
    ensures ParseBool(s) == Some(true) <==> Lower(s) in {"1", "t", "true"} && CasedAsOne(s)
  {
    LettersOf(s);
  }

  lemma FiveLettersOf(s: string)
    requires |s| == 5
    ensures s == [s[0], s[1], s[2], s[3], s[4]]
    ensures Lower(s) == [LowerChar(s[0]), LowerChar(s[1]), LowerChar(s[2]), LowerChar(s[3]), LowerChar(s[4])]
  {
  }

  lemma FalseSpellings(s: string)
    ensures ParseBool(s) == Some(false) <==> Lower(s) in {"0", "f", "false"} && CasedAsOne(s)
  {
    LettersOf(s);
    if |s| == 5 {
      FiveLettersOf(s);
    }
  }

  predicate IsUpper(c: char) {
    'A' <= c <= 'Z'
  }

  /** All in lower case, all in upper case, or with a capital first letter only. */
  predicate CasedAsOne(s: string) {
    || (forall i | 0 <= i < |s| :: !IsUpper(s[i]))
    || (forall i | 0 <= i < |s| :: IsUpper(s[i]) || s[i] in "01")
    || (s != "" && IsUpper(s[0]) && forall i | 1 <= i < |s| :: !IsUpper(s[i]))
  }

  /** The letters, and which are which. */
  lemma LowerExactly(c: char)
    ensures !IsUpper(LowerChar(c)) && (!IsUpper(c) ==> LowerChar(c) == c)
    ensures forall i | 0 <= i < 26 ::
              LowerChar("ABCDEFGHIJKLMNOPQRSTUVWXYZ"[i]) == "abcdefghijklmnopqrstuvwxyz"[i]
  {
  }

  /** Space, tab, line feed, vertical tab, form feed and carriage return. */
  lemma SpacesExactly(c: char)
    ensures IsSpace(c) <==> c in {' ', '\t', '\n', '\U{0B}', '\U{0C}', '\r'}
  {
  }
}
