/** The group key of an alert: its labels minus the ignored ones, as a sorted,
    length-prefixed byte stream fed to a 64-bit hash whose top 8 hex digits are kept. */
module Fingerprints {
  import opened Text

  type Labels = map<string, string>
  type Word64 = n: nat | n < 0x1_0000_0000_0000_0000
  /** FNV-64a as a function of everything written to it; its mixing is not modelled. */
  type Sum64 = string -> Word64

  const FINGERPRINT_LEN := 8
  const MAX_VARINT_LEN := 10

  // ---------------------------------------------------------------- specification

  function Kept(labels: Labels, ignored: seq<string>): Labels {
    map k | k in labels && k !in ignored :: labels[k]
  }

  ghost predicate IsLeast(k: string, keys: set<string>) {
    k in keys && forall x :: x in keys ==> x == k || Less(k, x)
  }

  lemma {:induction false} LeastExists(keys: set<string>)
    requires keys != {}
    ensures exists k :: IsLeast(k, keys)
    decreases |keys|
  {
    var k :| k in keys;
    if keys == {k} {
      assert IsLeast(k, keys);
    } else {
      var rest := keys - {k};
      LeastExists(rest);
      var m :| IsLeast(m, rest);
      LessTotal(k, m);
      if Less(k, m) {
        forall x | x in keys ensures x == k || Less(k, x) {
          if x in rest && x != m { LessTransitive(k, m, x); }
        }
        assert IsLeast(k, keys);
      } else {
        assert IsLeast(m, keys);
      }
    }
  }

  /** The keys in increasing order. */
  ghost function SortedKeys(keys: set<string>): (s: seq<string>)
    ensures Increasing(s)
    ensures forall x :: x in s <==> x in keys
    decreases |keys|
  {
    if keys == {} then []
    else
      LeastExists(keys);
      var k :| IsLeast(k, keys);
      var rest := SortedKeys(keys - {k});
      assert forall i :: 0 <= i < |rest| ==> rest[i] in rest;
      [k] + rest
  }

  /** Unsigned base-128 varint, least significant group first. */
  function Uvarint(n: nat): (s: string)
    ensures |s| > 0
  {
    if n < 128 then [n as char] else [(n % 128 + 128) as char] + Uvarint(n / 128)
  }

  function Field(s: string): string {
    Uvarint(|s|) + s
  }

  function Pair(k: string, v: string): string {
    Field(k) + Field(v)
  }

  function EncodePairs(keys: seq<string>, m: Labels): string
    requires forall k :: k in keys ==> k in m
  {
    if keys == [] then ""
    else Pair(keys[0], m[keys[0]]) + EncodePairs(keys[1..], m)
  }

  /** The byte stream hashed for a label map. */
  ghost function Stream(m: Labels): string {
    EncodePairs(SortedKeys(m.Keys), m)
  }

  /** The byte stream hashed for an alert's labels. */
  ghost function Hashed(labels: Labels, ignored: seq<string>): string {
    Stream(Kept(labels, ignored))
  }

  ghost function Fingerprint(labels: Labels, ignored: seq<string>, sum64: Sum64): (fp: string)
    ensures |fp| == FINGERPRINT_LEN && IsHex(fp)
  {
    HexPad(sum64(Hashed(labels, ignored)), 16)[..FINGERPRINT_LEN]
  }

  // ---------------------------------------------------------------- decoding

  function DecodeUvarint(b: string): (r: Option<(nat, string)>)
    ensures r.Some? ==> |r.value.1| < |b|
  {
    if b == "" then None
    else if b[0] as int < 128 then Some((b[0] as int, b[1..]))
    else
      match DecodeUvarint(b[1..])
      case None => None
      case Some((n, rest)) => Some((b[0] as int - 128 + 128 * n, rest))
  }

  function DecodeField(b: string): (r: Option<(string, string)>)
    ensures r.Some? ==> |r.value.1| < |b|
  {
    match DecodeUvarint(b)
    case None => None
    case Some((n, rest)) => if n <= |rest| then Some((rest[..n], rest[n..])) else None
  }

  function DecodeLabels(b: string): Option<Labels>
    decreases |b|
  {
    if b == "" then Some(map[])
    else
      match DecodeField(b)
      case None => None
      case Some((k, afterKey)) =>
        match DecodeField(afterKey)
        case None => None
        case Some((v, rest)) =>
          match DecodeLabels(rest)
          case None => None
          case Some(m) => Some(m[k := v])
  }

  /** A varint is read back whatever follows it, so no varint is a proper prefix of another. */
  lemma {:induction false} UvarintRoundTrip(n: nat, rest: string)
    ensures DecodeUvarint(Uvarint(n) + rest) == Some((n, rest))
  {
    var b := Uvarint(n) + rest;
    if n < 128 {
      assert b[1..] == rest;
    } else {
      assert b[1..] == Uvarint(n / 128) + rest;
      UvarintRoundTrip(n / 128, rest);
    }
  }

  lemma FieldRoundTrip(s: string, rest: string)
    ensures DecodeField(Field(s) + rest) == Some((s, rest))
  {
    UvarintRoundTrip(|s|, s + rest);
    assert Field(s) + rest == Uvarint(|s|) + (s + rest);
    assert (s + rest)[..|s|] == s && (s + rest)[|s|..] == rest;
  }

  lemma PairRoundTrip(k: string, v: string, tail: string)
    requires DecodeLabels(tail).Some?
    ensures DecodeLabels(Pair(k, v) + tail) == Some(DecodeLabels(tail).value[k := v])
  {
    FieldRoundTrip(k, Field(v) + tail);
    FieldRoundTrip(v, tail);
    assert Pair(k, v) + tail == Field(k) + (Field(v) + tail);
    assert |Field(k)| > 0;
  }

  lemma {:induction false} PairsRoundTrip(keys: seq<string>, m: Labels)
    requires forall k :: k in keys ==> k in m
    ensures DecodeLabels(EncodePairs(keys, m)) == Some(map k | k in keys :: m[k])
  {
    if keys == [] {
      assert (map k | k in keys :: m[k]) == map[];
    } else {
      PairsRoundTrip(keys[1..], m);
      PairRoundTrip(keys[0], m[keys[0]], EncodePairs(keys[1..], m));
      assert (map x | x in keys[1..] :: m[x])[keys[0] := m[keys[0]]] == map x | x in keys :: m[x];
    }
  }

  /** Nothing of the kept labels is lost in the byte stream. */
  lemma StreamRoundTrip(m: Labels)
    ensures DecodeLabels(Stream(m)) == Some(m)
  {
    PairsRoundTrip(SortedKeys(m.Keys), m);
    assert (map k | k in SortedKeys(m.Keys) :: m[k]) == m;
  }

  /** What can be read back from the hashed bytes: every label that is not ignored, with its
      value, and no other. */
  lemma HashedDecodes(labels: Labels, ignored: seq<string>)
    ensures DecodeLabels(Hashed(labels, ignored)).Some?
    ensures var m := DecodeLabels(Hashed(labels, ignored)).value;
            && (forall k :: k in m <==> k in labels && k !in ignored)
            && (forall k :: k in m ==> m[k] == labels[k])
  {
    StreamRoundTrip(Kept(labels, ignored));
  }

  /** The two label maps have the same labels, apart from the ignored ones, with the same values. */
  ghost predicate SameUnignored(a: Labels, ignoredA: seq<string>, b: Labels, ignoredB: seq<string>) {
    forall k :: (k in a && k !in ignoredA <==> k in b && k !in ignoredB) && (k in a && k !in ignoredA ==> a[k] == b[k])
  }

  /** Two label maps feed the same bytes to the hash iff they agree on every label not ignored. */
  lemma StreamCanonical(a: Labels, ignoredA: seq<string>, b: Labels, ignoredB: seq<string>)
    ensures Hashed(a, ignoredA) == Hashed(b, ignoredB) <==> SameUnignored(a, ignoredA, b, ignoredB)
  {
    HashedDecodes(a, ignoredA);
    HashedDecodes(b, ignoredB);
    if SameUnignored(a, ignoredA, b, ignoredB) {
      assert Kept(a, ignoredA) == Kept(b, ignoredB);
    }
  }

  /** Two alerts have one group key iff they agree on every label not ignored, or else their
      different byte streams collide in the upper 32 bits of the hash. */
  lemma SameKeyIff(a: Labels, b: Labels, ignored: seq<string>, sum64: Sum64)
    ensures var x, y := Hashed(a, ignored), Hashed(b, ignored);
            Fingerprint(a, ignored, sum64) == Fingerprint(b, ignored, sum64) <==>
            SameUnignored(a, ignored, b, ignored) ||
            (x != y && sum64(x) / 0x1_0000_0000 == sum64(y) / 0x1_0000_0000)
  {
    StreamCanonical(a, ignored, b, ignored);
    FingerprintCollides(a, b, ignored, sum64);
    hide SameUnignored, Hashed, Fingerprint;
  }

  /** The layout of the stream: the least key with its value first, each behind its length, then
      the rest.  No labels give no bytes. */
  lemma StreamLayout(m: Labels, k: string)
    ensures Stream(map[]) == ""
    ensures IsLeast(k, m.Keys) ==>
              Stream(m) == Uvarint(|k|) + k + Uvarint(|m[k]|) + m[k] + Stream(map x | x in m && x != k :: m[x])
  {
    EmptyStream();
    if IsLeast(k, m.Keys) {
      var keys, rest := SortedKeys(m.Keys), map x | x in m && x != k :: m[x];
      FirstIsLeast(keys, k);
      RestSorted(keys, k, rest);
      assert EncodePairs(keys, m) == Pair(k, m[k]) + EncodePairs(keys[1..], m);
      EncodeAgrees(keys[1..], m, rest);
      hide SortedKeys, Uvarint, EncodePairs, IsLeast;
      JoinParts(Uvarint(|k|), k, Uvarint(|m[k]|), m[k], Stream(rest));
    }
  }

  lemma JoinParts(a: string, b: string, c: string, d: string, e: string)
    ensures ((a + b) + (c + d)) + e == a + b + c + d + e
  {
  }

  lemma EmptyStream()
    ensures Stream(map[]) == ""
  {
    assert SortedKeys({}) == [];
  }

  /** The sorted keys behind the least one are the sorted keys of the rest. */
  lemma RestSorted(keys: seq<string>, k: string, rest: Labels)
    requires Increasing(keys) && keys != [] && keys[0] == k
    requires forall x :: x in rest <==> x in keys && x != k
    ensures keys[1..] == SortedKeys(rest.Keys)
  {
    TailIncreasing(keys);
    forall x ensures x in keys[1..] <==> x in SortedKeys(rest.Keys) {
      TailMembers(keys, x);
    }
    IncreasingUnique(keys[1..], SortedKeys(rest.Keys));
  }

  lemma TailIncreasing(keys: seq<string>)
    requires Increasing(keys) && keys != []
    ensures Increasing(keys[1..])
  {
    forall i, j | 0 <= i < j < |keys[1..]| ensures Less(keys[1..][i], keys[1..][j]) {
      assert Less(keys[i + 1], keys[j + 1]);
    }
  }

  lemma FirstIsLeast(keys: seq<string>, k: string)
    requires Increasing(keys) && k in keys && forall x :: x in keys ==> x == k || Less(k, x)
    ensures keys[0] == k
  {
    var i :| 0 <= i < |keys| && keys[i] == k;
    if i > 0 {
      assert keys[0] in keys && Less(keys[0], k) && (keys[0] == k || Less(k, keys[0]));
      LessIrreflexive(k);
      if keys[0] != k { LessTransitive(k, keys[0], k); }
      assert false;
    }
  }

  /** The bytes of a length prefix: base 128, least significant digit first, the high bit set on
      all but the last, and no more digits than needed. */
  lemma {:induction false} UvarintDigits(n: nat, k: nat)
    requires k < |Uvarint(n)|
    ensures Uvarint(n)[k] as int == (n / Pow(128, k)) % 128 + (if k < |Uvarint(n)| - 1 then 128 else 0)
    ensures n < Pow(128, |Uvarint(n)|) && (|Uvarint(n)| > 1 ==> Pow(128, |Uvarint(n)| - 1) <= n)
  {
    assert Pow(128, 0) == 1 && Pow(128, 1) == 128;
    if n >= 128 {
      UvarintDigits(n / 128, if k > 0 then k - 1 else 0);
      if k > 0 { DivDiv(n, 128, Pow(128, k - 1)); }
    }
  }

  /** Group keys collide exactly when the hashes agree in their upper 32 bits. */
  lemma FingerprintCollides(a: Labels, b: Labels, ignored: seq<string>, sum64: Sum64)
    ensures Fingerprint(a, ignored, sum64) == Fingerprint(b, ignored, sum64) <==>
            sum64(Hashed(a, ignored)) / 0x1_0000_0000 == sum64(Hashed(b, ignored)) / 0x1_0000_0000
  {
    var m, n := sum64(Hashed(a, ignored)), sum64(Hashed(b, ignored));
    assert Pow(16, 8) == 0x1_0000_0000 by { PowSteps(); }
    HexPadPrefix(m, 8, 8);
    HexPadPrefix(n, 8, 8);
    HexPadInjective(m / 0x1_0000_0000, n / 0x1_0000_0000, 8);
  }

  /** A group key is the first eight of the hash's sixteen hex digits. */
  lemma FingerprintDigits(labels: Labels, ignored: seq<string>, sum64: Sum64, k: nat)
    requires k < 8
    ensures Fingerprint(labels, ignored, sum64)[k] ==
            "0123456789abcdef"[(sum64(Hashed(labels, ignored)) / Pow(16, 15 - k)) % 16]
  {
    HexPadDigits(sum64(Hashed(labels, ignored)), 16, 15 - k);
  }

  lemma PowSteps()
    ensures Pow(16, 8) == 0x1_0000_0000
  {
    assert Pow(16, 2) == 256;
    assert Pow(16, 4) == 65536;
    assert Pow(16, 6) == 0x100_0000;
  }

  // ---------------------------------------------------------------- the program

  /** The hash object: what has been written so far. */
  class Hasher {
    var written: string

    constructor ()
      ensures written == ""
    {
      written := "";
    }

    method Write(p: string)
      modifies this
      ensures written == old(written) + p
    {
      written := written + p;
    }
  }

  lemma {:induction false} UvarintLength(n: nat, groups: nat)
    requires groups > 0 && n < Pow(128, groups)
    ensures |Uvarint(n)| <= groups
  {
    if n >= 128 {
      assert groups > 1;
      UvarintLength(n / 128, groups - 1);
    }
  }

  /** Writes `x` at the front of the buffer; ten bytes are enough for any 64-bit length. */
  method PutUvarint(buf: array<char>, x: Word64) returns (n: nat)
    requires buf.Length == MAX_VARINT_LEN
    modifies buf
    ensures n <= buf.Length && buf[..n] == Uvarint(x)
  {
    var rest: nat := x;
    n := 0;
    WordFitsTenGroups();
    UvarintLength(x, MAX_VARINT_LEN);
    while rest >= 128
      invariant 0 <= n < buf.Length
      invariant Uvarint(x) == buf[..n] + Uvarint(rest)
      decreases rest
    {
      ghost var done := buf[..n];
      var c := (rest % 128 + 128) as char;
      ghost var tail := Uvarint(rest / 128);
      assert Uvarint(rest) == [c] + tail;
      assert done + ([c] + tail) == done + [c] + tail;
      buf[n] := c;
      rest := rest / 128;
      n := n + 1;
      assert buf[..n] == done + [c];
    }
    buf[n] := rest as char;
    n := n + 1;
  }

  lemma WordFitsTenGroups()
    ensures 0x1_0000_0000_0000_0000 < Pow(128, MAX_VARINT_LEN)
  {
    assert Pow(128, 2) == 0x4000;
    assert Pow(128, 4) == 0x1000_0000;
    assert Pow(128, 6) == 0x400_0000_0000;
    assert Pow(128, 8) == 0x100_0000_0000_0000;
  }

  /** Sorts a slice of distinct strings. */
  method SortStrings(keys: seq<string>) returns (sorted: seq<string>)
    requires forall i, j :: 0 <= i < j < |keys| ==> keys[i] != keys[j]
    ensures Increasing(sorted)
    ensures forall x :: x in sorted <==> x in keys
  {
    sorted := [];
    for n := 0 to |keys|
      invariant Increasing(sorted)
      invariant forall x :: x in sorted <==> x in keys[..n]
    {
      var k := keys[n];
      assert k !in keys[..n];
      var at := 0;
      while at < |sorted| && Less(sorted[at], k)
        invariant 0 <= at <= |sorted|
        invariant forall i :: 0 <= i < at ==> Less(sorted[i], k)
      {
        at := at + 1;
      }
      InsertIncreasing(sorted, at, k);
      sorted := sorted[..at] + [k] + sorted[at..];
      assert keys[..n + 1] == keys[..n] + [k];
    }
    assert keys[..|keys|] == keys;
  }

  lemma InsertIncreasing(s: seq<string>, at: nat, k: string)
    requires Increasing(s) && at <= |s| && k !in s
    requires forall i :: 0 <= i < at ==> Less(s[i], k)
    requires at < |s| ==> !Less(s[at], k)
    ensures Increasing(s[..at] + [k] + s[at..])
    ensures forall x :: x in s[..at] + [k] + s[at..] <==> x in s || x == k
  {
    var r := s[..at] + [k] + s[at..];
    forall i | at <= i < |s| ensures Less(k, s[i]) {
      LessTotal(s[at], k);
      if i > at { LessTransitive(k, s[at], s[i]); }
    }
    forall i, j | 0 <= i < j < |r| ensures Less(r[i], r[j]) {
      if i < at && at < j { LessTransitive(s[i], k, s[j - 1]); }
    }
    assert s == s[..at] + s[at..];
  }

  /** Collects the kept keys, in whatever order the map is iterated. */
  method CollectKeys(labels: Labels, ignored: seq<string>) returns (keys: seq<string>)
    ensures forall k :: k in keys <==> k in Kept(labels, ignored)
    ensures forall i, j :: 0 <= i < j < |keys| ==> keys[i] != keys[j]
  {
    keys := [];
    var pending := labels.Keys;
    while pending != {}
      invariant pending <= labels.Keys
      invariant forall k :: k in keys <==> k in labels && k !in pending && k !in ignored
      invariant forall i, j :: 0 <= i < j < |keys| ==> keys[i] != keys[j]
      decreases |pending|
    {
      var k :| k in pending;
      pending := pending - {k};
      if k in ignored {
        continue;
      }
      keys := keys + [k];
    }
  }

  method WriteField(h: Hasher, length: array<char>, s: string)
    requires length.Length == MAX_VARINT_LEN && |s| < 0x8000_0000_0000_0000
    modifies h, length
    ensures h.written == old(h.written) + Field(s)
  {
    var n := PutUvarint(length, |s|);
    h.Write(length[..n]);
    h.Write(s);
  }

  /** Feeds the pairs to the hash in key order. */
  method HashPairs(keys: seq<string>, labels: Labels, h: Hasher)
    requires forall k :: k in keys ==> k in labels && |k| < 0x8000_0000_0000_0000 && |labels[k]| < 0x8000_0000_0000_0000
    modifies h
    ensures h.written == old(h.written) + EncodePairs(keys, labels)
  {
    hide Field;
    var length := new char[MAX_VARINT_LEN];
    ghost var start := h.written;
    for i := 0 to |keys|
      invariant h.written == start + EncodePairs(keys[..i], labels)
    {
      ghost var before := h.written;
      WriteField(h, length, keys[i]);
      WriteField(h, length, labels[keys[i]]);
      assert h.written == before + Pair(keys[i], labels[keys[i]]);
      EncodeSnoc(keys[..i], keys[i], labels);
      assert keys[..i + 1] == keys[..i] + [keys[i]];
    }
    assert keys[..|keys|] == keys;
  }

  lemma {:induction false} EncodeSnoc(keys: seq<string>, k: string, m: Labels)
    requires k in m && forall x :: x in keys ==> x in m
    ensures EncodePairs(keys + [k], m) == EncodePairs(keys, m) + Pair(k, m[k])
  {
    if keys == [] {
      assert keys + [k] == [k] && [k][1..] == [];
      assert EncodePairs([k], m) == Pair(k, m[k]) + EncodePairs([], m);
    } else {
      EncodeSnoc(keys[1..], k, m);
      assert (keys + [k])[1..] == keys[1..] + [k] && (keys + [k])[0] == keys[0];
      var head, tail := Pair(keys[0], m[keys[0]]), EncodePairs(keys[1..], m);
      assert head + (tail + Pair(k, m[k])) == (head + tail) + Pair(k, m[k]);
    }
  }

  lemma {:induction false} EncodeAgrees(keys: seq<string>, a: Labels, b: Labels)
    requires forall k :: k in keys ==> k in a && k in b && a[k] == b[k]
    ensures EncodePairs(keys, a) == EncodePairs(keys, b)
  {
    if keys != [] { EncodeAgrees(keys[1..], a, b); }
  }

  method StableFingerprint(labels: Labels, ignored: seq<string>, sum64: Sum64) returns (fp: string)
    requires forall k :: k in labels ==> |k| < 0x8000_0000_0000_0000 && |labels[k]| < 0x8000_0000_0000_0000
    ensures fp == Fingerprint(labels, ignored, sum64)
  {
    var keys := CollectKeys(labels, ignored);
    keys := SortStrings(keys);
    ghost var kept := Kept(labels, ignored);
    IncreasingUnique(keys, SortedKeys(kept.Keys));
    EncodeAgrees(keys, labels, kept);

    var h := new Hasher();
    HashPairs(keys, labels, h);
    assert h.written == Stream(kept);
    return HexPad(sum64(h.written), 16)[..FINGERPRINT_LEN];
  }
}
