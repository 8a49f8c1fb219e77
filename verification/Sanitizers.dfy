/** Sanitizers for label values and for alert text placed in a prompt. */
module Sanitizers {
  import opened Text
  import opened Names

  // ---------------------------------------------------------------- label values

  predicate IsAlnum(c: char) {
    'a' <= c <= 'z' || 'A' <= c <= 'Z' || '0' <= c <= '9'
  }

  /** A Kubernetes label value: empty, or at most 63 characters of [a-zA-Z0-9._-] that start
      and end with a letter or digit. */
  ghost predicate IsLabelValue(s: string) {
    s == "" ||
    (|s| <= MAX_LABEL_VALUE_LEN && IsAlnum(s[0]) && IsAlnum(s[|s| - 1]) &&
     forall i :: 0 <= i < |s| ==> IsLabelChar(s[i]))
  }

  predicate IsLabelChar(c: char) {
    IsAlnum(c) || c in CUTSET
  }

  function LabelClean(s: string): (r: string)
    ensures |r| == |s|
    ensures forall i :: 0 <= i < |r| ==> IsLabelChar(r[i])
    ensures forall i :: 0 <= i < |r| ==> r[i] == if IsLabelChar(s[i]) then s[i] else '-'
    ensures (forall i :: 0 <= i < |s| ==> IsLabelChar(s[i])) ==> r == s
  {
    seq(|s|, i requires 0 <= i < |s| => if IsLabelChar(s[i]) then s[i] else '-')
  }

  function CutTo(s: string, n: nat): (r: string)
    ensures r <= s && |r| <= n && (|s| <= n ==> r == s)
  {
    if |s| > n then s[..n] else s
  }

  function TrimBoth(s: string): string {
    TrimRight(TrimLeft(s, CUTSET), CUTSET)
  }

  function SanitizeLabelValue(s: string): string {
    if s == "" then s else TrimBoth(CutTo(LabelClean(s), MAX_LABEL_VALUE_LEN))
  }

  /** Trimming drops separators from both ends and nothing else. */
  lemma TrimSpan(s: string) returns (lo: nat, hi: nat)
    ensures lo <= hi <= |s|
    ensures TrimBoth(s) == s[lo..hi]
    ensures forall i :: 0 <= i < lo || hi <= i < |s| ==> s[i] in CUTSET
    ensures lo < hi ==> s[lo] !in CUTSET && s[hi - 1] !in CUTSET
  {
    lo := LeadingCount(s, CUTSET);
    var left := s[lo..];
    var r := TrimRight(left, CUTSET);
    hi := lo + |r|;
    assert r == left[..|r|] == s[lo..hi];
    forall i | hi <= i < |s| ensures s[i] in CUTSET {
      assert left[i - lo] in CUTSET;
    }
  }

  /** The output is always a label value, and only label values are left alone. */
  lemma LabelValueNormalForm(s: string)
    ensures IsLabelValue(SanitizeLabelValue(s))
    ensures SanitizeLabelValue(s) == s <==> IsLabelValue(s)
    ensures SanitizeLabelValue(SanitizeLabelValue(s)) == SanitizeLabelValue(s)
  {
    LabelValueValid(s);
    if IsLabelValue(s) { LabelValueFixed(s); }
    LabelValueFixed(SanitizeLabelValue(s));
  }

  lemma LabelValueValid(s: string)
    ensures IsLabelValue(SanitizeLabelValue(s))
  {
    if s != "" {
      var cut := CutTo(LabelClean(s), MAX_LABEL_VALUE_LEN);
      assert forall i :: 0 <= i < |cut| ==> cut[i] == LabelClean(s)[i];
      var lo, hi := TrimSpan(cut);
      assert IsLabelValue(cut[lo..hi]);
    }
  }

  lemma LabelValueFixed(s: string)
    requires IsLabelValue(s)
    ensures SanitizeLabelValue(s) == s
  {
    if s != "" {
      assert LabelClean(s) == s;
      assert !(s[0] in CUTSET) && !(s[|s| - 1] in CUTSET);
    }
  }

  /** A character that a label value may hold, and a hyphen for any other. */
  function LabelCharOf(c: char): char {
    if 'a' <= c <= 'z' || 'A' <= c <= 'Z' || '0' <= c <= '9' || c == '-' || c == '_' || c == '.' then c else '-'
  }

  /** Character by character the output is the input with invalid characters turned into hyphens.
      What is dropped is only the part beyond 63 characters and separators at the ends. */
  lemma LabelValueKeeps(s: string) returns (lo: nat, hi: nat)
    ensures lo <= hi <= |s|
    ensures |SanitizeLabelValue(s)| == hi - lo
    ensures forall i :: lo <= i < hi ==> SanitizeLabelValue(s)[i - lo] == LabelCharOf(s[i])
    ensures forall i :: 0 <= i < lo || (hi <= i < |s| && i < 63) ==> LabelCharOf(s[i]) in {'-', '_', '.'}
  {
    if s == "" { return 0, 0; }
    var valid := LabelClean(s);
    assert forall i :: 0 <= i < |s| ==> valid[i] == LabelCharOf(s[i]);
    var cut := CutTo(valid, MAX_LABEL_VALUE_LEN);
    lo, hi := TrimSpan(cut);
    assert forall i :: 0 <= i < |cut| ==> cut[i] == valid[i];
    assert SanitizeLabelValue(s) == cut[lo..hi];
    hide SanitizeLabelValue, LabelClean, LabelCharOf, TrimBoth, IsLabelChar;
    assert forall i :: lo <= i < hi ==> cut[lo..hi][i - lo] == valid[i];
  }

  // ---------------------------------------------------------------- prompt text

  /** `hidden` is Unicode's control and format classes, which are not modelled. */
  function Strip(s: string, hidden: char -> bool): (r: string)
    ensures forall c :: c in r ==> c in s && (c == '\n' || !hidden(c))
    ensures |r| <= |s|
    ensures (forall c :: c in s ==> c == '\n' || !hidden(c)) ==> r == s
  {
    if s == "" then ""
    else
      var tail := Strip(s[1..], hidden);
      if s[0] == '\n' || !hidden(s[0]) then [s[0]] + tail else tail
  }

  function LeadingTicks(s: string): (k: nat)
    ensures k <= |s|
    ensures forall i :: 0 <= i < k ==> s[i] == '`'
    ensures k < |s| ==> s[k] != '`'
  {
    if s != "" && s[0] == '`' then 1 + LeadingTicks(s[1..]) else 0
  }

  /** Deletes every maximal run of three or more backticks. */
  function RemoveRuns(s: string): (r: string)
    ensures forall c :: c in r ==> c in s
    decreases |s|
  {
    if s == "" then ""
    else
      var k := LeadingTicks(s);
      if k >= 3 then RemoveRuns(s[k..])
      else if k > 0 then s[..k] + RemoveRuns(s[k..])
      else [s[0]] + RemoveRuns(s[1..])
  }

  function SanitizePromptValue(s: string, hidden: char -> bool): string {
    RemoveRuns(Strip(s, hidden))
  }

  ghost predicate NoFence(s: string) {
    forall i :: 0 <= i < |s| - 2 ==> s[i] != '`' || s[i + 1] != '`' || s[i + 2] != '`'
  }

  ghost predicate IsCleanText(s: string, hidden: char -> bool) {
    (forall c :: c in s ==> c == '\n' || !hidden(c)) && NoFence(s)
  }

  lemma {:induction false} RemoveRunsNoFence(s: string)
    ensures NoFence(RemoveRuns(s))
    ensures s == "" || s[0] != '`' ==> RemoveRuns(s) == "" || RemoveRuns(s)[0] != '`'
    decreases |s|
  {
    if s != "" {
      var k := LeadingTicks(s);
      if k > 0 { RemoveRunsNoFence(s[k..]); } else { RemoveRunsNoFence(s[1..]); }
    }
  }

  lemma RemoveRunsFixed(s: string)
    requires NoFence(s)
    ensures RemoveRuns(s) == s
  {
    RemoveRunsFrom(s, 0);
    OutsideAll(s, 0);
    assert s[0..] == s;
  }

  lemma {:induction false} OutsideAll(s: string, i: nat)
    requires NoFence(s) && i <= |s|
    ensures OutsideFences(s, i) == s[i..]
    decreases |s| - i
  {
    if i < |s| {
      OutsideAll(s, i + 1);
      assert !InFence(s, i);
      hide InFence, NoFence;
      assert s[i..] == [s[i]] + s[i + 1..];
    }
  }

  /** The output has no hidden character and no fence, not even one that only appears once
      hidden characters are gone; and text is left alone exactly when it is clean. */
  lemma PromptValueNormalForm(s: string, hidden: char -> bool)
    ensures IsCleanText(SanitizePromptValue(s, hidden), hidden)
    ensures SanitizePromptValue(s, hidden) == s <==> IsCleanText(s, hidden)
    ensures SanitizePromptValue(SanitizePromptValue(s, hidden), hidden) == SanitizePromptValue(s, hidden)
  {
    var r := SanitizePromptValue(s, hidden);
    RemoveRunsNoFence(Strip(s, hidden));
    if IsCleanText(s, hidden) { RemoveRunsFixed(s); }
    RemoveRunsFixed(r);
  }

  /** Stripping goes character by character. */
  lemma {:induction false} StripConcat(a: string, b: string, hidden: char -> bool)
    ensures Strip(a + b, hidden) == Strip(a, hidden) + Strip(b, hidden)
  {
    if a == "" {
      assert a + b == b;
    } else {
      StripConcat(a[1..], b, hidden);
      assert (a + b)[1..] == a[1..] + b && (a + b)[0] == a[0];
      var x, y := Strip(a[1..], hidden), Strip(b, hidden);
      assert [a[0]] + (x + y) == [a[0]] + x + y;
    }
  }

  lemma StripOne(c: char, hidden: char -> bool)
    ensures Strip([c], hidden) == if c == '\n' || !hidden(c) then [c] else ""
  {
    assert [c][1..] == "" && Strip("", hidden) == "";
  }

  /** Position `i` lies in a run of at least three backticks. */
  ghost predicate InFence(s: string, i: int) {
    exists lo :: 0 <= lo <= i < lo + 3 <= |s| && s[lo] == '`' && s[lo + 1] == '`' && s[lo + 2] == '`'
  }

  /** What stands at positions outside fences, from position `i` on. */
  ghost function OutsideFences(s: string, i: nat): string
    requires i <= |s|
    decreases |s| - i
  {
    if i == |s| then "" else (if InFence(s, i) then "" else [s[i]]) + OutsideFences(s, i + 1)
  }

  /** The positions before `n` belong to one run of backticks that nothing extends. */
  ghost predicate WholeRun(s: string, i: nat, n: nat) {
    && i <= n <= |s|
    && (forall j :: i <= j < n ==> s[j] == '`')
    && (i > 0 && i < n ==> s[i - 1] != '`') && (n < |s| && i < n ==> s[n] != '`')
  }

  lemma FencedRun(s: string, i: nat, n: nat, j: int)
    requires WholeRun(s, i, n) && i <= j < n
    ensures InFence(s, j) <==> n - i >= 3
  {
    if n - i >= 3 {
      var lo := if j + 3 <= n then j else n - 3;
      assert s[lo] == '`' && s[lo + 1] == '`' && s[lo + 2] == '`';
    }
    forall lo | 0 <= lo <= j < lo + 3 <= |s| && s[lo] == '`' && s[lo + 1] == '`' && s[lo + 2] == '`'
      ensures i <= lo && lo + 3 <= n
    {
    }
  }

  lemma {:induction false} OutsideRun(s: string, i: nat, n: nat, j: nat)
    requires i <= j <= n <= |s| && WholeRun(s, i, n)
    ensures OutsideFences(s, j) == (if n - i >= 3 then "" else s[j..n]) + OutsideFences(s, n)
    decreases n - j
  {
    hide *;
    if j < n {
      FencedRun(s, i, n, j);
      OutsideUnfold(s, j);
      OutsideRun(s, i, n, j + 1);
      PushHead(s, j, n, OutsideFences(s, n));
    }
  }

  lemma OutsideUnfold(s: string, j: nat)
    requires j < |s|
    ensures OutsideFences(s, j) == (if InFence(s, j) then "" else [s[j]]) + OutsideFences(s, j + 1)
  {
  }

  lemma PushHead(s: string, j: nat, n: nat, rest: string)
    requires j < n <= |s|
    ensures [s[j]] + (s[j + 1..n] + rest) == s[j..n] + rest
  {
  }

  lemma {:induction false} RemoveRunsFrom(s: string, i: nat)
    requires i <= |s| && (0 < i < |s| && s[i] == '`' ==> s[i - 1] != '`')
    ensures RemoveRuns(s[i..]) == OutsideFences(s, i)
    decreases |s| - i
  {
    hide RemoveRuns, OutsideFences, InFence, LeadingTicks, WholeRun;
    if i == |s| {
      NothingLeft(s);
    } else {
      var k := LeadingTicks(s[i..]);
      RunStarts(s, i);
      RemoveRunsFrom(s, if k > 0 then i + k else i + 1);
      if k > 0 { AtRun(s, i, k); } else { AtOther(s, i); }
    }
  }

  lemma NothingLeft(s: string)
    ensures RemoveRuns(s[|s|..]) == OutsideFences(s, |s|)
  {
  }

  lemma AtRun(s: string, i: nat, k: nat)
    requires i < |s| && 0 < k == LeadingTicks(s[i..]) && i + k <= |s| && WholeRun(s, i, i + k)
    requires RemoveRuns(s[i + k..]) == OutsideFences(s, i + k)
    ensures RemoveRuns(s[i..]) == OutsideFences(s, i)
  {
    hide *;
    OutsideRun(s, i, i + k, i);
    RemoveStep(s[i..]);
    Slices(s, i, k);
  }

  lemma Slices(s: string, i: nat, k: nat)
    requires i + k <= |s|
    ensures s[i..][k..] == s[i + k..] && s[i..][..k] == s[i..i + k]
  {
  }

  lemma AtOther(s: string, i: nat)
    requires i < |s| && LeadingTicks(s[i..]) == 0 && !InFence(s, i)
    requires RemoveRuns(s[i + 1..]) == OutsideFences(s, i + 1)
    ensures RemoveRuns(s[i..]) == OutsideFences(s, i)
  {
    hide *;
    OutsideUnfold(s, i);
    RemoveStep(s[i..]);
    Slices(s, i, 1);
  }

  lemma RemoveStep(s: string)
    requires s != ""
    ensures var k := LeadingTicks(s);
            RemoveRuns(s) == if k > 0 then (if k >= 3 then "" else s[..k]) + RemoveRuns(s[k..])
                             else [s[0]] + RemoveRuns(s[1..])
  {
  }

  lemma RunStarts(s: string, i: nat)
    requires i < |s| && (i > 0 && s[i] == '`' ==> s[i - 1] != '`')
    ensures var k := LeadingTicks(s[i..]);
            && k <= |s| - i
            && (k > 0 ==> WholeRun(s, i, i + k) && s[i + k - 1] == '`' && (i + k < |s| ==> s[i + k] != '`'))
            && (k == 0 ==> s[i] != '`' && !InFence(s, i))
  {
    var rest := s[i..];
    assert forall j :: i <= j < |s| ==> s[j] == rest[j - i];
    hide LeadingTicks;
  }

  /** Exactly the backticks in runs of three or more are deleted, once what is hidden is gone. */
  lemma PromptValueIs(s: string, hidden: char -> bool)
    ensures SanitizePromptValue(s, hidden) == OutsideFences(Strip(s, hidden), 0)
  {
    var text := Strip(s, hidden);
    RemoveRunsFrom(text, 0);
    assert text[0..] == text;
  }

  /** The text without backticks and hidden characters. */
  function Visible(s: string, hidden: char -> bool): string {
    if s == "" then ""
    else (if s[0] != '`' && (s[0] == '\n' || !hidden(s[0])) then [s[0]] else "") + Visible(s[1..], hidden)
  }

  lemma {:induction false} VisibleConcat(a: string, b: string, hidden: char -> bool)
    ensures Visible(a + b, hidden) == Visible(a, hidden) + Visible(b, hidden)
  {
    if a == "" {
      assert a + b == b;
    } else {
      VisibleConcat(a[1..], b, hidden);
      assert (a + b)[1..] == a[1..] + b && (a + b)[0] == a[0];
    }
  }

  lemma {:induction false} TicksInvisible(s: string, hidden: char -> bool)
    requires forall i :: 0 <= i < |s| ==> s[i] == '`'
    ensures Visible(s, hidden) == ""
  {
    if s != "" { TicksInvisible(s[1..], hidden); }
  }

  lemma {:induction false} StripKeepsVisible(s: string, hidden: char -> bool)
    ensures Visible(Strip(s, hidden), hidden) == Visible(s, hidden)
  {
    if s != "" {
      StripKeepsVisible(s[1..], hidden);
      var tail := Strip(s[1..], hidden);
      assert ([s[0]] + tail)[1..] == tail;
    }
  }

  lemma {:induction false} RemoveRunsKeepsVisible(s: string, hidden: char -> bool)
    ensures Visible(RemoveRuns(s), hidden) == Visible(s, hidden)
    decreases |s|
  {
    if s != "" {
      var k := LeadingTicks(s);
      if k > 0 {
        RemoveRunsKeepsVisible(s[k..], hidden);
        TicksInvisible(s[..k], hidden);
        VisibleConcat(s[..k], s[k..], hidden);
        VisibleConcat(s[..k], RemoveRuns(s[k..]), hidden);
        assert s == s[..k] + s[k..];
      } else {
        RemoveRunsKeepsVisible(s[1..], hidden);
        assert ([s[0]] + RemoveRuns(s[1..]))[1..] == RemoveRuns(s[1..]);
      }
    }
  }

  /** Nothing but hidden characters and backticks is deleted, and the rest keeps its order. */
  lemma PromptValueKeepsText(s: string, hidden: char -> bool)
    ensures Visible(SanitizePromptValue(s, hidden), hidden) == Visible(s, hidden)
  {
    RemoveRunsKeepsVisible(Strip(s, hidden), hidden);
    StripKeepsVisible(s, hidden);
  }
}
