/** The names the client derives for the policy and group of a (bucket, account) pair. */
module Names {
  import opened Text

  const POLICY_NAME_MAX := 128
  const GROUP_NAME_MAX := 64

  /** One character of a normalized name: lower case, with '/', ' ' and ':' turned into '-'. */
  function NormalChar(c: char): char {
    var lower := LowerChar(c);
    if lower == '/' || lower == ' ' || lower == ':' then '-' else lower
  }

  function Normalize(s: string): (r: string)
    ensures |r| == |s|
    ensures forall i | 0 <= i < |s| :: r[i] == NormalChar(s[i])
  {
    seq(|s|, i requires 0 <= i < |s| => NormalChar(s[i]))
  }

  /** What is turned into '-', which is itself left alone. */
  const SEPARATORS: set<char> := {'-', '/', ' ', ':'}

  /** Normalization forgets the case of letters and which separator was used, and nothing else. */
  lemma NormalizedAlikeExactly(c: char, d: char)
    ensures NormalChar(c) == NormalChar(d) <==> LowerChar(c) == LowerChar(d) || {c, d} <= SEPARATORS
    ensures NormalChar(c) == '-' <==> c in SEPARATORS
    ensures c !in SEPARATORS && !IsUpper(c) ==> NormalChar(c) == c
  {
  }

  function Cut(s: string, maxLen: nat): string {
    if |s| <= maxLen then s else s[..maxLen]
  }

  function NormalizedName(name: string, maxLen: nat): string {
    Cut(Normalize(name), maxLen)
  }

  function PolicyName(bucket: string, account: string): string {
    NormalizedName("cosi-" + bucket + "-" + account + "-policy", POLICY_NAME_MAX)
  }

  function GroupName(bucket: string, account: string): string {
    NormalizedName("cosi-" + bucket + "-" + account + "-group", GROUP_NAME_MAX)
  }

  /** A string normalization leaves alone. */
  predicate NormalForm(s: string) {
    Normalize(s) == s
  }

  /** The part of a name the pair decides, before the suffix and the cut. */
  function Stem(bucket: string, account: string): string {
    "cosi-" + Normalize(bucket) + "-" + Normalize(account)
  }

  lemma PolicyNameIsStem(bucket: string, account: string)
    ensures PolicyName(bucket, account) == Cut(Stem(bucket, account) + "-policy", POLICY_NAME_MAX)
  {
    assert Normalize("cosi-" + bucket + "-" + account + "-policy") == Stem(bucket, account) + "-policy";
  }

  lemma GroupNameIsStem(bucket: string, account: string)
    ensures GroupName(bucket, account) == Cut(Stem(bucket, account) + "-group", GROUP_NAME_MAX)
  {
    assert Normalize("cosi-" + bucket + "-" + account + "-group") == Stem(bucket, account) + "-group";
  }

  /** The names as documented, of normal-form inputs that leave them room. */
  lemma NamesSpelledOut(bucket: string, account: string)
    requires NormalForm(bucket) && NormalForm(account)
    ensures |bucket| + |account| <= 115 ==> PolicyName(bucket, account) == "cosi-" + bucket + "-" + account + "-policy"
    ensures |bucket| + |account| <= 52 ==> GroupName(bucket, account) == "cosi-" + bucket + "-" + account + "-group"
  {
    PolicyNameIsStem(bucket, account);
    GroupNameIsStem(bucket, account);
  }

  /** However long the inputs: pairs sharing a policy name share a group name. */
  lemma EqualPoliciesEqualGroups(b: string, a: string, b': string, a': string)
    requires PolicyName(b, a) == PolicyName(b', a')
    ensures GroupName(b, a) == GroupName(b', a')
  {
    PolicyNameIsStem(b, a);
    PolicyNameIsStem(b', a');
    GroupNameIsStem(b, a);
    GroupNameIsStem(b', a');
    var x, y := Stem(b, a), Stem(b', a');
    var p, q := x + "-policy", y + "-policy";
    if |p| <= POLICY_NAME_MAX && |q| <= POLICY_NAME_MAX {
      assert x == p[..|p| - 7] && y == q[..|q| - 7];
    } else {
      // Some stem has at least 121 characters, so both do, and the cut compared their first 64.
      assert |x| >= 121 && |y| >= 121;
      assert x[..64] == PolicyName(b, a)[..64];
      assert y[..64] == PolicyName(b', a')[..64];
      assert (x + "-group")[..64] == x[..64];
      assert (y + "-group")[..64] == y[..64];
    }
  }

  /** The converse fails: the group cut is the shorter one. */
  lemma EqualGroupsUnequalPolicies(bucket: string)
    requires |bucket| == 59
    ensures GroupName(bucket, "a") == GroupName(bucket, "b")
    ensures PolicyName(bucket, "a") != PolicyName(bucket, "b")
  {
    GroupNameIsStem(bucket, "a");
    GroupNameIsStem(bucket, "b");
    PolicyNameIsStem(bucket, "a");
    PolicyNameIsStem(bucket, "b");
    assert (Stem(bucket, "a") + "-group")[..64] == (Stem(bucket, "b") + "-group")[..64];
    assert (Stem(bucket, "a") + "-policy")[65] == 'a';
    assert (Stem(bucket, "b") + "-policy")[65] == 'b';
  }

  lemma StemInjective(b: string, a: string, b': string, a': string)
    requires |b| == |b'| && Stem(b, a) == Stem(b', a')
    ensures Normalize(b) == Normalize(b') && Normalize(a) == Normalize(a')
  {
    var x, y := Stem(b, a), Stem(b', a');
    assert Normalize(b) == x[5..5 + |b|] && Normalize(b') == y[5..5 + |b|];
    assert Normalize(a) == x[6 + |b|..] && Normalize(a') == y[6 + |b|..];
  }

  /** Normal-form inputs whose names fit uncut, with buckets of one length, never collide. */
  lemma NamesInjective(b: string, a: string, b': string, a': string)
    requires NormalForm(b) && NormalForm(a) && NormalForm(b') && NormalForm(a')
    requires |b| == |b'|
    requires |b| + |a| + 13 <= POLICY_NAME_MAX && |b'| + |a'| + 13 <= POLICY_NAME_MAX
    ensures PolicyName(b, a) == PolicyName(b', a') <==> b == b' && a == a'
    ensures |b| + |a| + 12 <= GROUP_NAME_MAX && |b'| + |a'| + 12 <= GROUP_NAME_MAX ==>
              (GroupName(b, a) == GroupName(b', a') <==> b == b' && a == a')
  {
    PolicyNameIsStem(b, a);
    PolicyNameIsStem(b', a');
    GroupNameIsStem(b, a);
    GroupNameIsStem(b', a');
    var x, y := Stem(b, a), Stem(b', a');
    if x == y {
      StemInjective(b, a, b', a');
    }
    assert (x + "-policy")[..|x + "-policy"| - 7] == x && (y + "-policy")[..|y + "-policy"| - 7] == y;
    assert (x + "-group")[..|x + "-group"| - 6] == x && (y + "-group")[..|y + "-group"| - 6] == y;
  }

  /** Buckets of different lengths, or inputs not in normal form, do collide. */
  lemma NamesCollide()
    ensures PolicyName("x-y", "z") == PolicyName("x", "y-z") && GroupName("x-y", "z") == GroupName("x", "y-z")
    ensures PolicyName("B", "z") == PolicyName("b", "z") && GroupName("a/b", "z") == GroupName("a:b", "z")
  {
    assert "cosi-" + "x-y" + "-" + "z" + "-policy" == "cosi-" + "x" + "-" + "y-z" + "-policy";
    assert "cosi-" + "x-y" + "-" + "z" + "-group" == "cosi-" + "x" + "-" + "y-z" + "-group";
    assert Normalize("B") == Normalize("b");
    assert Normalize("a/b") == Normalize("a:b");
    PolicyNameIsStem("B", "z");
    PolicyNameIsStem("b", "z");
    GroupNameIsStem("a/b", "z");
    GroupNameIsStem("a:b", "z");
  }

  /** What a cut group name still says about the account once the bucket took its share of the 64 characters. */
  function VisibleAccount(bucket: string, account: string): string
    requires |bucket| <= 58
  {
    Cut(Normalize(account) + "-group", 58 - |bucket|)
  }

  /**
   When the group name is cut, buckets of one length share it exactly when what is left of bucket and account agrees.
   */
  lemma CutGroupNamesCollideExactly(b: string, a: string, b': string, a': string)
    requires |b| == |b'|
    requires |b| + |a| + 12 > GROUP_NAME_MAX && |b'| + |a'| + 12 > GROUP_NAME_MAX
    ensures GroupName(b, a) == GroupName(b', a') <==>
              if |b| <= 58 then Normalize(b) == Normalize(b') && VisibleAccount(b, a) == VisibleAccount(b', a')
              else Normalize(b)[..59] == Normalize(b')[..59]
  {
    GroupNameIsStem(b, a);
    GroupNameIsStem(b', a');
    var x, y := GroupName(b, a), GroupName(b', a');
    if |b| <= 58 {
      assert x == "cosi-" + Normalize(b) + "-" + VisibleAccount(b, a);
      assert y == "cosi-" + Normalize(b') + "-" + VisibleAccount(b', a');
      assert x[5..5 + |b|] == Normalize(b) && y[5..5 + |b|] == Normalize(b');
      assert x[6 + |b|..] == VisibleAccount(b, a) && y[6 + |b|..] == VisibleAccount(b', a');
    } else {
      assert x == "cosi-" + Normalize(b)[..59];
      assert y == "cosi-" + Normalize(b')[..59];
      assert x[5..] == Normalize(b)[..59] && y[5..] == Normalize(b')[..59];
    }
  }

  /** With names of a three-letter prefix and a UUID, a group name tells accounts apart by 19 characters only. */
  lemma UuidGroupNamesCollideExactly(b: string, a: string, a': string)
    requires |b| == 39 && |a| == 39 && |a'| == 39
    ensures GroupName(b, a) == GroupName(b, a') <==> Normalize(a)[..19] == Normalize(a')[..19]
    ensures PolicyName(b, a) == PolicyName(b, a') <==> Normalize(a) == Normalize(a')
  {
    CutGroupNamesCollideExactly(b, a, b, a');
    assert VisibleAccount(b, a) == Normalize(a)[..19];
    assert VisibleAccount(b, a') == Normalize(a')[..19];
    PolicyNameIsStem(b, a);
    PolicyNameIsStem(b, a');
    var x, y := PolicyName(b, a), PolicyName(b, a');
    assert x[45..84] == Normalize(a) && y[45..84] == Normalize(a');
  }

  /** Every derived name starts with "cosi-". */
  lemma NamesArePrefixed(bucket: string, account: string)
    ensures "cosi-" <= PolicyName(bucket, account) && "cosi-" <= GroupName(bucket, account)
  {
    PolicyNameIsStem(bucket, account);
    GroupNameIsStem(bucket, account);
  }
}
