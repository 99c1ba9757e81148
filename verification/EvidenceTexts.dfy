/**
 The text operations of claim building (nexus_research.py), read by positions: the substring test and
 the contradictions it finds, stripping, and claim ids with their order as text.
 */
module EvidenceTexts {
  import opened Common
  import opened EvidenceClaims

  // ---------------------------------------------------------------------------------------------
  // Contradictions
  // ---------------------------------------------------------------------------------------------

  /** The pattern stands at a position of the text. */
  ghost predicate StandsAt(text: string, pattern: string, i: nat) {
    i + |pattern| <= |text| && text[i..i + |pattern|] == pattern
  }

  lemma {:induction false} ContainsIff(text: string, pattern: string)
    ensures Contains(text, pattern) <==> exists i: nat :: StandsAt(text, pattern, i)
  {
    assert pattern <= text <==> StandsAt(text, pattern, 0);
    if text != "" {
      ContainsIff(text[1..], pattern);
      forall i: nat ensures StandsAt(text[1..], pattern, i) <==> StandsAt(text, pattern, i + 1) {
        if i + 1 + |pattern| <= |text| {
          assert text[1..][i..i + |pattern|] == text[i + 1..i + 1 + |pattern|];
        }
      }
      if exists i: nat :: StandsAt(text, pattern, i) {
        var i: nat :| StandsAt(text, pattern, i);
        assert i > 0 ==> StandsAt(text[1..], pattern, i - 1);
      }
    }
  }

  /** The ids of the sources whose excerpt has the pattern somewhere. */
  ghost predicate AreMatches(sources: seq<Source>, pattern: string, ids: set<SourceId>) {
    forall id :: id in ids <==>
      exists k, i: nat :: 0 <= k < |sources| && sources[k].id == id && StandsAt(sources[k].excerpt, pattern, i)
  }

  lemma {:induction false} MatchingIs(sources: seq<Source>, pattern: string)
    ensures AreMatches(sources, pattern, Matching(sources, pattern))
  {
    forall s | s in sources ensures Contains(s.excerpt, pattern) <==> exists i: nat :: StandsAt(s.excerpt, pattern, i) {
      ContainsIff(s.excerpt, pattern);
    }
    forall id | id in Matching(sources, pattern)
      ensures exists k, i: nat :: 0 <= k < |sources| && sources[k].id == id && StandsAt(sources[k].excerpt, pattern, i)
    {
      var s :| s in sources && Contains(s.excerpt, pattern) && s.id == id;
      var k :| 0 <= k < |sources| && sources[k] == s;
      var i: nat :| StandsAt(s.excerpt, pattern, i);
      assert StandsAt(sources[k].excerpt, pattern, i);
    }
  }

  /** A contradiction says of a rule which sources are on either side, and there is one on both. */
  ghost predicate StandsFor(sources: seq<Source>, c: Contradiction, rule: Rule) {
    c.left != {} && c.right != {} && AreMatches(sources, rule.left, c.left) && AreMatches(sources, rule.right, c.right)
  }

  /** Both sides of a rule are found. */
  ghost predicate IsBroken(sources: seq<Source>, rule: Rule) {
    && (exists k, i: nat :: 0 <= k < |sources| && StandsAt(sources[k].excerpt, rule.left, i))
    && (exists k, i: nat :: 0 <= k < |sources| && StandsAt(sources[k].excerpt, rule.right, i))
  }

  lemma {:induction false} BrokenIff(sources: seq<Source>, rule: Rule)
    ensures IsBroken(sources, rule) <==> Matching(sources, rule.left) != {} && Matching(sources, rule.right) != {}
  {
    SideIsFound(sources, rule.left);
    SideIsFound(sources, rule.right);
  }

  lemma {:induction false} SideIsFound(sources: seq<Source>, pattern: string)
    ensures Matching(sources, pattern) != {} <==>
      exists k, i: nat :: 0 <= k < |sources| && StandsAt(sources[k].excerpt, pattern, i)
  {
    MatchingIs(sources, pattern);
    if Matching(sources, pattern) != {} {
      var id :| id in Matching(sources, pattern);
    }
    if exists k, i: nat :: 0 <= k < |sources| && StandsAt(sources[k].excerpt, pattern, i) {
      var k, i: nat :| 0 <= k < |sources| && StandsAt(sources[k].excerpt, pattern, i);
      assert sources[k].id in Matching(sources, pattern);
    }
  }

  /** Contradictions against rules: which rule each stands for, in the order of the rules. */
  ghost predicate FollowRules(sources: seq<Source>, rules: seq<Rule>, cs: seq<Contradiction>, of: seq<nat>) {
    && |of| == |cs|
    && (forall j, k :: 0 <= j < k < |of| ==> of[j] < of[k])
    && (forall i: nat :: i in of <==> i < |rules| && IsBroken(sources, rules[i]))
    && (forall j :: 0 <= j < |of| ==> of[j] < |rules| && StandsFor(sources, cs[j], rules[of[j]]))
  }

  lemma {:induction false} OneRuleMore(
    sources: seq<Source>, rules: seq<Rule>, cs: seq<Contradiction>, of: seq<nat>, c: Contradiction)
    requires rules != [] && FollowRules(sources, rules[..|rules| - 1], cs, of)
    ensures !IsBroken(sources, rules[|rules| - 1]) ==> FollowRules(sources, rules, cs, of)
    ensures IsBroken(sources, rules[|rules| - 1]) && StandsFor(sources, c, rules[|rules| - 1]) ==>
      FollowRules(sources, rules, cs + [c], of + [|rules| - 1])
  {
    var n := |rules| - 1;
    assert forall i :: 0 <= i < n ==> rules[..n][i] == rules[i];
    assert n !in of;
  }

  /**
   There is one contradiction for each rule whose two patterns both occur in the excerpts, in the order
   of the rules, and it names exactly the sources with the one and with the other; `of` says which rule.
   */
  lemma {:induction false} ContradictionsFollowRules(sources: seq<Source>, rules: seq<Rule>) returns (of: seq<nat>)
    ensures FollowRules(sources, rules, Contradictions(sources, rules), of)
  {
    of := [];
    if rules != [] {
      var n := |rules| - 1;
      of := ContradictionsFollowRules(sources, rules[..n]);
      var c := Contradiction(Matching(sources, rules[n].left), Matching(sources, rules[n].right));
      BrokenIff(sources, rules[n]);
      MatchingIs(sources, rules[n].left);
      MatchingIs(sources, rules[n].right);
      OneRuleMore(sources, rules, Contradictions(sources, rules[..n]), of, c);
      if IsBroken(sources, rules[n]) {
        of := of + [n];
      }
    }
  }

  const STORAGE := Rule("workspace/.nexus", "nexus_root/.nexus")

  const AUTHORITY := Rule("default runtime authority", "historical review")

  /** The two rules: where storage lives, and whether a surface is authority or history. */
  lemma {:induction false} ContradictionsOfSources(sources: seq<Source>)
    ensures var cs := Contradictions(sources, CONTRADICTION_RULES);
      match (IsBroken(sources, STORAGE), IsBroken(sources, AUTHORITY))
      case (true, true) => |cs| == 2 && StandsFor(sources, cs[0], STORAGE) && StandsFor(sources, cs[1], AUTHORITY)
      case (true, false) => |cs| == 1 && StandsFor(sources, cs[0], STORAGE)
      case (false, true) => |cs| == 1 && StandsFor(sources, cs[0], AUTHORITY)
      case (false, false) => cs == []
  {
    var rules := CONTRADICTION_RULES;
    assert rules[..2] == rules && rules[..2][..1] == [STORAGE] && [STORAGE][..0] == [];
    BrokenIff(sources, STORAGE);
    BrokenIff(sources, AUTHORITY);
    MatchingIs(sources, STORAGE.left);
    MatchingIs(sources, STORAGE.right);
    MatchingIs(sources, AUTHORITY.left);
    MatchingIs(sources, AUTHORITY.right);
    assert Contradictions(sources, [STORAGE]) ==
      if IsBroken(sources, STORAGE)
      then [Contradiction(Matching(sources, STORAGE.left), Matching(sources, STORAGE.right))] else [];
  }

  // ---------------------------------------------------------------------------------------------
  // Stripping
  // ---------------------------------------------------------------------------------------------

  ghost predicate IsBlank(c: char) { c == ' ' || c == '\t' || c == '\n' || c == '\r' || c == '\U{0B}' || c == '\U{0C}' }

  ghost predicate AllBlank(text: string) { forall i :: 0 <= i < |text| ==> IsBlank(text[i]) }

  lemma {:induction false} StripLeftSplits(text: string) returns (blanks: string)
    ensures text == blanks + StripLeft(text) && AllBlank(blanks)
    ensures StripLeft(text) != "" ==> !IsBlank(StripLeft(text)[0])
  {
    blanks := "";
    if text != "" && text[0] in WHITESPACE {
      var more := StripLeftSplits(text[1..]);
      blanks := [text[0]] + more;
    }
  }

  lemma {:induction false} StripRightSplits(text: string) returns (blanks: string)
    ensures text == StripRight(text) + blanks && AllBlank(blanks)
    ensures var r := StripRight(text); r != "" ==> !IsBlank(r[|r| - 1])
  {
    blanks := "";
    if text != "" && text[|text| - 1] in WHITESPACE {
      var n := |text| - 1;
      var more := StripRightSplits(text[..n]);
      blanks := more + [text[n]];
      Regroup(StripRight(text[..n]), more, text);
    }
  }

  lemma {:induction false} Regroup(a: string, b: string, text: string)
    requires text != "" && text[..|text| - 1] == a + b
    ensures text == a + (b + [text[|text| - 1]])
  {
    assert text == text[..|text| - 1] + [text[|text| - 1]];
  }

  /** A stripped query is the query without blanks at its ends: what it lost was blank, and its own ends are not. */
  lemma {:induction false} StrippedIsCore(q: Query) returns (before: string, after: string)
    ensures q.text == before + Stripped(q).text + after && AllBlank(before) && AllBlank(after)
    ensures var r := Stripped(q).text; r != "" ==> !IsBlank(r[0]) && !IsBlank(r[|r| - 1])
  {
    before := StripLeftSplits(q.text);
    after := StripRightSplits(StripLeft(q.text));
    var r := Stripped(q).text;
    assert r != "" ==> r[0] == StripLeft(q.text)[0];
  }

  // ---------------------------------------------------------------------------------------------
  // Claim ids as text
  // ---------------------------------------------------------------------------------------------

  ghost function DigitValue(c: char): int { c as int - '0' as int }

  ghost function ValueOf(digits: string): int {
    if digits == "" then 0 else 10 * ValueOf(digits[..|digits| - 1]) + DigitValue(digits[|digits| - 1])
  }

  /** The number of a claim id reads back as itself, in digits, without a leading zero. */
  lemma {:induction false} DecimalReadsBack(n: nat)
    ensures var d := Decimal(n);
      && ValueOf(d) == n
      && d != "" && (forall i :: 0 <= i < |d| ==> '0' <= d[i] <= '9')
      && (n > 0 ==> d[0] != '0')
  {
    DigitsAreDigits(n % 10);
    if n >= 10 {
      DecimalReadsBack(n / 10);
      assert Decimal(n)[..|Decimal(n)| - 1] == Decimal(n / 10);
    } else {
      assert Decimal(n)[..0] == "" && n % 10 == n;
    }
  }

  lemma {:induction false} DigitsAreDigits(k: nat)
    requires k < 10
    ensures '0' <= DIGITS[k] <= '9' && DigitValue(DIGITS[k]) == k
  {
  }

  /** One text is at most another when it is a prefix of it, or has the smaller character at the first difference. */
  lemma {:induction false} LexIff(a: string, b: string)
    ensures LexAtMost(a, b) <==>
      a <= b || exists i :: 0 <= i < |a| && i < |b| && a[..i] == b[..i] && a[i] < b[i]
  {
    if a != "" && b != "" {
      LexIff(a[1..], b[1..]);
      if a[0] == b[0] {
        LexTail(a, b);
      }
      if exists i :: 0 <= i < |a| && i < |b| && a[..i] == b[..i] && a[i] < b[i] {
        var i :| 0 <= i < |a| && i < |b| && a[..i] == b[..i] && a[i] < b[i];
        assert i > 0 ==> a[..i][0] == b[..i][0];
      }
      if a[0] < b[0] {
        assert a[..0] == b[..0];
      }
    }
  }

  lemma {:induction false} LexTail(a: string, b: string)
    requires a != "" && b != "" && a[0] == b[0]
    ensures a[1..] <= b[1..] <==> a <= b
    ensures (exists i :: 0 <= i < |a[1..]| && i < |b[1..]| && a[1..][..i] == b[1..][..i] && a[1..][i] < b[1..][i])
            <==> exists i :: 0 <= i < |a| && i < |b| && a[..i] == b[..i] && a[i] < b[i]
  {
    if i :| 0 <= i < |a[1..]| && i < |b[1..]| && a[1..][..i] == b[1..][..i] && a[1..][i] < b[1..][i] {
      assert a[..i + 1] == [a[0]] + a[1..][..i] && b[..i + 1] == [b[0]] + b[1..][..i];
      assert a[i + 1] < b[i + 1];
    }
    if j :| 0 <= j < |a| && j < |b| && a[..j] == b[..j] && a[j] < b[j] {
      var i := j - 1;
      assert a[1..][..i] == a[..j][1..] && b[1..][..i] == b[..j][1..];
      assert a[1..][i] < b[1..][i];
    }
  }
}
