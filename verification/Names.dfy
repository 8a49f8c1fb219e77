/** Names: of runs (base and retry form) and of spoke targets. */
module Names {
  import opened Text

  const MAX_LABEL_VALUE_LEN := 63
  const STARTS_AT_HASH_LEN := 8
  const MAX_INT := 0x7FFF_FFFF_FFFF_FFFF
  const CUTSET := {'-', '_', '.'}

  /** A SHA-256 digest in hex; the digest itself is not modelled. */
  type ShaHex = s: string | |s| == 64 && (forall i :: 0 <= i < |s| ==> IsHexChar(s[i])) witness HexPad(0, 64)

  predicate IsDnsChar(c: char) {
    'a' <= c <= 'z' || '0' <= c <= '9' || c == '-'
  }

  ghost predicate IsDns(s: string) {
    forall i :: 0 <= i < |s| ==> IsDnsChar(s[i])
  }

  /** Character by character, `r` has what a DNS label allows of `s` and a hyphen elsewhere. */
  ghost predicate Cleaned(s: string, r: string) {
    && |r| == |s|
    && forall i :: 0 <= i < |s| ==>
         r[i] == if 'a' <= s[i] <= 'z' || '0' <= s[i] <= '9' || s[i] == '-' then s[i] else '-'
  }

  /** The longest prefix of at most `maxLen` characters that may end a name. */
  ghost predicate LongestCut(s: string, r: string, maxLen: int) {
    && r <= s
    && (|s| <= maxLen ==> r == s)
    && (|s| > maxLen ==>
          && |r| <= maxLen && (r != "" ==> r[|r| - 1] !in {'-', '_', '.'})
          && forall i :: |r| <= i < maxLen ==> s[i] in {'-', '_', '.'})
  }

  /** Every rune outside [a-z0-9-] becomes one hyphen. */
  function DnsClean(s: string): (r: string)
    ensures IsDns(r) && Cleaned(s, r)
    ensures IsDns(s) ==> r == s
  {
    seq(|s|, i requires 0 <= i < |s| => if IsDnsChar(s[i]) then s[i] else '-')
  }

  /** Cuts to `maxLen` and trims what a label may not end in; a fitting string is left alone.
      The original panics on a negative `maxLen`, which RetryNameFits shows is never passed. */
  function Truncate(s: string, maxLen: int): (r: string)
    ensures r <= s
    ensures maxLen >= 0 ==> |r| <= maxLen
    ensures maxLen >= 0 ==> LongestCut(s, r, maxLen)
    ensures |s| > maxLen && r != "" ==> r[|r| - 1] !in CUTSET
  {
    if |s| <= maxLen then s
    else if maxLen < 0 then ""
    else TrimRight(s[..maxLen], CUTSET)
  }

  // ---------------------------------------------------------------- base names

  function HashInput(startsAt: string, targetID: string): string {
    if targetID != "" then startsAt + "\0" + targetID else startsAt
  }

  function OccurrenceHash(startsAt: string, targetID: string, sha: string -> ShaHex): (h: string)
    ensures |h| == STARTS_AT_HASH_LEN && IsHex(h)
  {
    sha(HashInput(startsAt, targetID))[..STARTS_AT_HASH_LEN]
  }

  /** Different occurrences or targets feed different strings to the digest. */
  lemma HashInputInjective(s1: string, id1: string, s2: string, id2: string)
    requires '\0' !in s1 && '\0' !in s2
    ensures HashInput(s1, id1) == HashInput(s2, id2) ==> s1 == s2 && id1 == id2
  {
    var a, b := HashInput(s1, id1), HashInput(s2, id2);
    HashInputParts(s1, id1);
    HashInputParts(s2, id2);
    if a == b {
      assert |s1| == |s2|;
      assert a[..|s1|] == b[..|s2|];
      assert id1 != "" ==> a[|s1| + 1..] == id1 && b[|s1| + 1..] == id2;
    }
  }

  lemma HashInputParts(s: string, id: string)
    requires '\0' !in s
    ensures var a := HashInput(s, id);
            && s <= a
            && (forall k :: 0 <= k < |s| ==> a[k] != '\0')
            && (id != "" ==> |a| > |s| && a[|s|] == '\0' && a[|s| + 1..] == id)
  {
  }

  /** `lower` is Go's strings.ToLower followed by decoding to runes. */
  function BuildName(alertName: string, namespace: string, hash: string, lower: string -> string): string {
    var name := DnsClean(lower(alertName));
    if namespace != "" then
      var ns := DnsClean(lower(namespace));
      var combined := name + "-" + ns + "-" + hash;
      if |combined| <= MAX_LABEL_VALUE_LEN then combined
      else
        var room := MAX_LABEL_VALUE_LEN - |ns| - |hash| - 2;
        Truncate(name, if room > 1 then room else 1) + "-" + ns + "-" + hash
    else
      var combined := name + "-" + hash;
      if |combined| <= MAX_LABEL_VALUE_LEN then combined
      else Truncate(name, MAX_LABEL_VALUE_LEN - |hash| - 1) + "-" + hash
  }

  ghost predicate EndsWith(s: string, suffix: string) {
    |s| >= |suffix| && s[|s| - |suffix|..] == suffix
  }

  /** For all inputs: only [a-z0-9-], ends in a dash and the hash, and bounded length. */
  lemma BuildNameShape(alertName: string, namespace: string, hash: string, lower: string -> string)
    requires |hash| == STARTS_AT_HASH_LEN && IsHex(hash)
    ensures var n := BuildName(alertName, namespace, hash, lower);
            && IsDns(n)
            && EndsWith(n, "-" + hash)
            && |n| <= (if namespace == "" || |lower(namespace)| <= 52 then MAX_LABEL_VALUE_LEN
                       else |lower(namespace)| + 11)
  {
    HexIsDns(hash);
    var n := BuildName(alertName, namespace, hash, lower);
    assert n[|n| - 9..] == "-" + hash;
  }

  lemma HexIsDns(hash: string)
    requires IsHex(hash)
    ensures IsDns(hash)
    ensures forall i :: 0 <= i < |hash| ==> hash[i] != '-'
  {
    forall i | 0 <= i < |hash| ensures IsDnsChar(hash[i]) && hash[i] != '-' {
      assert IsHexChar(hash[i]);
    }
  }

  lemma LayoutPlain(alertName: string, hash: string, lower: string -> string) returns (head: string)
    requires |hash| == STARTS_AT_HASH_LEN
    ensures BuildName(alertName, "", hash, lower) == head + ("-" + hash)
    ensures LongestCut(DnsClean(lower(alertName)), head, 54)
  {
    var name := DnsClean(lower(alertName));
    hide DnsClean, Truncate;
    head := if |name| <= 54 then name else Truncate(name, 54);
    WholeIsCut(name, 54);
    hide LongestCut;
    assert head + "-" + hash == head + ("-" + hash);
  }

  lemma LayoutSpaced(alertName: string, namespace: string, hash: string, lower: string -> string)
    returns (head: string)
    requires |hash| == STARTS_AT_HASH_LEN && namespace != ""
    ensures var rest := "-" + DnsClean(lower(namespace)) + "-" + hash;
            && BuildName(alertName, namespace, hash, lower) == head + rest
            && LongestCut(DnsClean(lower(alertName)), head, if |rest| < 62 then 63 - |rest| else 1)
  {
    var name, ns := DnsClean(lower(alertName)), DnsClean(lower(namespace));
    hide DnsClean, Truncate;
    var room := 53 - |ns|;
    head := if |name| <= room then name else Truncate(name, if room > 1 then room else 1);
    WholeIsCut(name, room);
    hide LongestCut;
    Joined(name, ns, hash);
    Joined(head, ns, hash);
  }

  lemma Joined(a: string, ns: string, hash: string)
    ensures a + ("-" + ns + "-" + hash) == a + "-" + ns + "-" + hash
    ensures |a + "-" + ns + "-" + hash| == |a| + |ns| + |hash| + 2
  {
  }

  /** How a name is put together: the cleaned alert name, cut only as far as the rest needs,
      then the cleaned namespace if there is one, then the hash. */
  lemma BuildNameLayout(alertName: string, namespace: string, hash: string, lower: string -> string)
    returns (name: string, ns: string, head: string)
    requires |hash| == STARTS_AT_HASH_LEN
    ensures Cleaned(lower(alertName), name) && Cleaned(lower(namespace), ns)
    ensures var rest := (if namespace == "" then "" else "-" + ns) + "-" + hash;
            && BuildName(alertName, namespace, hash, lower) == head + rest
            && LongestCut(name, head, if |rest| < 62 then 63 - |rest| else 1)
  {
    name, ns := DnsClean(lower(alertName)), DnsClean(lower(namespace));
    hide DnsClean, Cleaned, LongestCut, BuildName;
    if namespace == "" {
      head := LayoutPlain(alertName, hash, lower);
    } else {
      head := LayoutSpaced(alertName, namespace, hash, lower);
    }
    assert "" + "-" + hash == "-" + hash;
  }

  lemma WholeIsCut(s: string, maxLen: int)
    ensures |s| <= maxLen ==> LongestCut(s, s, maxLen)
    ensures |s| <= maxLen <= 1 ==> LongestCut(s, s, 1)
  {
  }

  /** Exactly when the name fits a label value: always without a namespace or with one of at
      most 52 characters, never beyond 53, and at 53 only when the alert name vanishes. */
  lemma BuildNameFits(alertName: string, namespace: string, hash: string, lower: string -> string)
    requires |hash| == STARTS_AT_HASH_LEN
    ensures var name := DnsClean(lower(alertName));
            |BuildName(alertName, namespace, hash, lower)| <= MAX_LABEL_VALUE_LEN <==>
            || namespace == ""
            || |lower(namespace)| <= 52
            || (|lower(namespace)| == 53 && (name == "" || (|name| >= 2 && name[0] == '-')))
  {
    var name := DnsClean(lower(alertName));
    if namespace != "" && |lower(namespace)| >= 53 && |name| >= 2 {
      assert name[..1] == [name[0]];
      assert IsDnsChar(name[0]);
      assert name[..1][..0] == "";
      assert TrimRight(name[..1], CUTSET) == if name[0] == '-' then "" else name[..1];
    }
  }

  /** Names of occurrences or targets with different hashes differ. */
  lemma BaseNamesDiffer(n1: string, h1: string, n2: string, h2: string)
    requires |h1| == |h2| && h1 != h2
    requires EndsWith(n1, "-" + h1) && EndsWith(n2, "-" + h2)
    ensures n1 != n2
  {
    assert n1[|n1| - |h1|..] == n1[|n1| - |h1| - 1..][1..] == h1;
    assert n2[|n2| - |h2|..] == n2[|n2| - |h2| - 1..][1..] == h2;
  }

  // ---------------------------------------------------------------- retry names

  function Suffix(i: nat): string {
    "-retry-" + Decimal(i)
  }

  function Candidate(base: string, i: nat): string {
    Truncate(base, MAX_LABEL_VALUE_LEN - |Suffix(i)|) + Suffix(i)
  }

  /** The digits behind the last dash determine the retry number, whatever was truncated. */
  lemma CandidateInjective(b1: string, i: nat, b2: string, j: nat)
    ensures Candidate(b1, i) == Candidate(b2, j) ==> i == j
  {
    RetryTail(b1, i);
    RetryTail(b2, j);
    if Candidate(b1, i) == Candidate(b2, j) {
      assert |Decimal(i)| == |Decimal(j)|;
      DecimalInjective(i, j);
    }
  }

  /** A retry name ends in its last dash and the digits of the number. */
  lemma RetryTail(base: string, i: nat)
    ensures var c, s := Candidate(base, i), Decimal(i);
            && |c| > |s| && c[|c| - |s| - 1] == '-' && c[|c| - |s|..] == s
            && forall k :: |c| - |s| <= k < |c| ==> c[k] != '-'
  {
    var c, s := Candidate(base, i), Decimal(i);
    assert c[|c| - |s|..] == s;
    forall k | |c| - |s| <= k < |c| ensures c[k] != '-' {
      assert c[k] == s[k - (|c| - |s|)];
    }
  }

  /** The first `n` retry names, as a set, has `n` members. */
  lemma {:induction false} CandidatesCount(base: string, n: nat, names: set<string>)
    requires forall j :: 1 <= j <= n ==> Candidate(base, j) in names
    ensures n <= |names|
  {
    if n > 0 {
      forall j | 1 <= j <= n - 1 ensures Candidate(base, j) in names - {Candidate(base, n)} {
        CandidateInjective(base, j, base, n);
      }
      CandidatesCount(base, n - 1, names - {Candidate(base, n)});
    }
  }

  /** The first retry number from `i` on whose name is free. */
  function FirstFree(base: string, existing: set<string>, i: nat): (k: nat)
    requires i > 0 && forall j :: 1 <= j < i ==> Candidate(base, j) in existing
    ensures i <= k <= |existing| + 1
    ensures Candidate(base, k) !in existing
    ensures forall j :: 1 <= j < k ==> Candidate(base, j) in existing
    decreases |existing| + 1 - i
  {
    CandidatesCount(base, i - 1, existing);
    if Candidate(base, i) !in existing then i else FirstFree(base, existing, i + 1)
  }

  function NextName(base: string, existing: set<string>): (r: string)
    ensures r !in existing
    ensures base !in existing ==> r == base
    ensures base in existing ==>
              exists k :: 1 <= k <= |existing| + 1 && r == Candidate(base, k) &&
                          forall j :: 1 <= j < k ==> Candidate(base, j) in existing
  {
    if base !in existing then base else Candidate(base, FirstFree(base, existing, 1))
  }

  /** The retry search: it terminates, and finds the first free name in retry order. */
  method NextAvailableName(baseName: string, existingNames: seq<string>) returns (name: string)
    ensures name == NextName(baseName, set n | n in existingNames)
  {
    hide FirstFree, Truncate, Decimal;
    var existing := NameSet(existingNames);
    if baseName !in existing {
      return baseName;
    }
    var i := 1;
    while true
      invariant 1 <= i <= FirstFree(baseName, existing, 1)
      decreases FirstFree(baseName, existing, 1) - i
    {
      var suffix := "-retry-" + Decimal(i);
      var candidate := Truncate(baseName, MAX_LABEL_VALUE_LEN - |suffix|) + suffix;
      assert candidate == Candidate(baseName, i);
      FirstFreeStep(baseName, existing, i);
      if candidate !in existing {
        return candidate;
      }
      i := i + 1;
    }
  }

  lemma FirstFreeStep(base: string, existing: set<string>, i: nat)
    requires 1 <= i <= FirstFree(base, existing, 1)
    ensures Candidate(base, i) !in existing <==> i == FirstFree(base, existing, 1)
  {
  }

  method NameSet(names: seq<string>) returns (all: set<string>)
    ensures all == set n | n in names
  {
    all := {};
    for n := 0 to |names|
      invariant forall x :: x in all <==> x in names[..n]
    {
      all := all + {names[n]};
      assert names[..n + 1] == names[..n] + [names[n]];
    }
    assert names[..|names|] == names;
  }

  /** No slice holds enough names to make a retry suffix overrun the label limit. */
  lemma RetryNameFits(base: string, existing: set<string>)
    requires base in existing && |existing| < MAX_INT
    ensures |NextName(base, existing)| <= MAX_LABEL_VALUE_LEN
    ensures |Suffix(FirstFree(base, existing, 1))| < MAX_LABEL_VALUE_LEN
  {
    var k := FirstFree(base, existing, 1);
    assert MAX_INT < Pow(10, 19) by { PowTen(); }
    DecimalLength(k, 19);
  }

  lemma PowTen()
    ensures Pow(10, 7) == 10_000_000
    ensures Pow(10, 19) == 10_000_000_000_000_000_000
  {
    assert Pow(10, 3) == 1000;
    assert Pow(10, 7) == 10_000_000;
    assert Pow(10, 11) == 100_000_000_000;
    assert Pow(10, 15) == 1_000_000_000_000_000;
  }

  function Room(i: nat): int {
    MAX_LABEL_VALUE_LEN - |Suffix(i)|
  }

  /** A retry name: the base, cut only as far as the suffix needs, then the suffix. */
  lemma RetryLayout(base: string, i: nat) returns (cut: string)
    requires |Decimal(i)| <= 56
    ensures LongestCut(base, cut, 56 - |Decimal(i)|) && Candidate(base, i) == cut + "-retry-" + Decimal(i)
  {
    cut := Truncate(base, 56 - |Decimal(i)|);
    assert |Suffix(i)| == 7 + |Decimal(i)|;
    assert cut + ("-retry-" + Decimal(i)) == cut + "-retry-" + Decimal(i);
  }

  /** What stands before and behind the last dash is determined by the whole. */
  lemma LastDash(a: string, s: string, b: string, h: string)
    requires '-' !in s && '-' !in h
    ensures a + "-" + s == b + "-" + h ==> a == b && s == h
  {
    var c, d := a + "-" + s, b + "-" + h;
    assert c[|a|] == '-' && forall k :: |a| < k < |c| ==> c[k] == s[k - |a| - 1];
    assert d[|b|] == '-' && forall k :: |b| < k < |d| ==> d[k] == h[k - |b| - 1];
    if c == d {
      assert |a| == |b|;
      assert c[..|a|] == a && d[..|b|] == b && c[|a| + 1..] == s && d[|b| + 1..] == h;
    }
  }

  lemma CandidateParts(base: string, i: nat)
    ensures Candidate(base, i) == Truncate(base, Room(i)) + "-retry" + "-" + Decimal(i)
  {
    var t, s := Truncate(base, Room(i)), Decimal(i);
    assert "-retry-" == "-retry" + "-";
    assert t + (("-retry" + "-") + s) == t + "-retry" + "-" + s;
  }

  /** Exactly when a base name is spelled like a retry name: its hash reads as the number, and
      what precedes the hash ends in "-retry" behind the truncated base. */
  lemma BaseIsRetryIff(name: string, hash: string, base: string, i: nat)
    requires |hash| == STARTS_AT_HASH_LEN && IsHex(hash)
    requires EndsWith(name, "-" + hash)
    ensures name == Candidate(base, i) <==>
            hash == Decimal(i) && name[..|name| - 9] == Truncate(base, Room(i)) + "-retry"
  {
    HexIsDns(hash);
    CandidateParts(base, i);
    hide Candidate, Truncate, Decimal, IsHex;
    var stem := name[..|name| - 9];
    assert name == stem + name[|name| - 9..];
    assert name == stem + "-" + hash;
    LastDash(Truncate(base, Room(i)) + "-retry", Decimal(i), stem, hash);
  }

  /** Exactly when retry names of bases with different hashes clash: they have the same number,
      one of the bases does not leave room for it, and truncation makes the bases equal. */
  lemma RetryNamesClashIff(n1: string, h1: string, i: nat, n2: string, h2: string, j: nat)
    requires |h1| == |h2| && h1 != h2
    requires EndsWith(n1, "-" + h1) && EndsWith(n2, "-" + h2)
    ensures Candidate(n1, i) == Candidate(n2, j) <==>
            i == j && (|n1| > Room(i) || |n2| > Room(i)) && Truncate(n1, Room(i)) == Truncate(n2, Room(i))
  {
    CandidateInjective(n1, i, n2, j);
    BaseNamesDiffer(n1, h1, n2, h2);
    if i == j {
      var t1, t2 := Truncate(n1, Room(i)), Truncate(n2, Room(i));
      assert (t1 + Suffix(i))[..|t1|] == t1 && (t2 + Suffix(i))[..|t2|] == t2;
    }
  }

  /** Truncation does cut the hash off: two full-length bases that differ only in their hash
      share every retry name. */
  lemma TruncatedRetriesClash(stem: string, h1: string, h2: string, i: nat)
    requires |h1| == |h2| == STARTS_AT_HASH_LEN
    requires |stem| + STARTS_AT_HASH_LEN == MAX_LABEL_VALUE_LEN
    ensures Candidate(stem + h1, i) == Candidate(stem + h2, i)
  {
    var room := Room(i);
    if room >= 0 {
      assert (stem + h1)[..room] == stem[..room] == (stem + h2)[..room];
    }
  }

  // ---------------------------------------------------------------- spoke target identities

  const SPOKE_TARGET_PREFIX := "spoke-"
  const TARGET_HASH_LEN := 12
  const TARGET_ID_MAX_LEN := 63
  const NAME_KEPT_LEN := 44

  function Digest12(name: string, sha: string -> ShaHex): string {
    sha(name)[..TARGET_HASH_LEN]
  }

  function SpokeTargetID(name: string, sha: string -> ShaHex): (id: string)
    ensures |id| <= TARGET_ID_MAX_LEN
    ensures SPOKE_TARGET_PREFIX <= id
    ensures id != "" && id != "local"
  {
    var room := TARGET_ID_MAX_LEN - |SPOKE_TARGET_PREFIX|;
    var id := SPOKE_TARGET_PREFIX + (if |name| <= room then name
                                     else name[..room - TARGET_HASH_LEN - 1] + "-" + Digest12(name, sha));
    assert id[0] == 's';
    id
  }

  /** An identity keeps a name of at most 57 bytes, and otherwise its first 44 bytes and the first
      12 digits of its digest. */
  lemma SpokeIdLayout(name: string, sha: string -> ShaHex)
    ensures SpokeTargetID(name, sha) ==
            if |name| <= 57 then "spoke-" + name else "spoke-" + name[..44] + "-" + sha(name)[..12]
  {
    if |name| > 57 {
      assert "spoke-" + (name[..44] + "-" + sha(name)[..12]) == "spoke-" + name[..44] + "-" + sha(name)[..12];
    }
  }

  /** What follows the prefix in an identity. */
  function IdBody(name: string, sha: string -> ShaHex): string {
    if |name| <= 57 then name
    else name[..NAME_KEPT_LEN] + "-" + Digest12(name, sha)
  }

  /** Exactly when two spokes share an identity.  Names of at most 57 bytes never clash with
      each other, and longer ones only with equal digests; but a 57-byte name can be spelled
      like the shortened form of a longer one. */
  lemma SpokeIdsClash(a: string, b: string, sha: string -> ShaHex)
    ensures SpokeTargetID(a, sha) == SpokeTargetID(b, sha) <==>
            || a == b
            || (|a| > 57 && |b| > 57 && a[..NAME_KEPT_LEN] == b[..NAME_KEPT_LEN] &&
                Digest12(a, sha) == Digest12(b, sha))
            || (|a| <= 57 < |b| && a == IdBody(b, sha))
            || (|b| <= 57 < |a| && b == IdBody(a, sha))
  {
    IdIsPrefixed(a, sha);
    IdIsPrefixed(b, sha);
    LongBody(a, sha);
    LongBody(b, sha);
  }

  lemma IdIsPrefixed(name: string, sha: string -> ShaHex)
    ensures SpokeTargetID(name, sha)[6..] == IdBody(name, sha)
  {
    assert SpokeTargetID(name, sha) == SPOKE_TARGET_PREFIX + IdBody(name, sha);
  }

  lemma LongBody(name: string, sha: string -> ShaHex)
    ensures |name| > 57 ==>
              && |IdBody(name, sha)| == 57
              && IdBody(name, sha)[..NAME_KEPT_LEN] == name[..NAME_KEPT_LEN]
              && IdBody(name, sha)[NAME_KEPT_LEN + 1..] == Digest12(name, sha)
  {
  }
}
