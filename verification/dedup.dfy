/** Preparing the configured network prefixes: whitespace trimming as Go's
    strings.TrimSpace does it, and removal of repeated prefixes keeping the
    first occurrence of each. */
module Prefixes {

  /** Unicode white space as Go's unicode.IsSpace defines it. */
  predicate IsSpace(c: char)
  {
    || c == '\t' || c == '\n' || c == '\U{0B}' || c == '\U{0C}' || c == '\r' || c == ' '
    || c == '\U{85}' || c == '\U{A0}' || c == '\U{1680}'
    || ('\U{2000}' <= c <= '\U{200A}')
    || c == '\U{2028}' || c == '\U{2029}' || c == '\U{202F}' || c == '\U{205F}' || c == '\U{3000}'
  }

  /** Below U+0100 the white space is exactly \t, \n, \v, \f, \r, the space,
      NEL (U+0085) and NBSP (U+00A0). */
  lemma IsSpaceLatin1(c: char)
    requires c <= '\U{FF}'
    ensures IsSpace(c) <==> c in {'\t', '\n', '\U{0B}', '\U{0C}', '\r', ' ', '\U{85}', '\U{A0}'}
  {
  }

  /** The length of the white-space run that starts `s`. */
  function LeadingSpace(s: string): (n: nat)
    ensures n <= |s|
    ensures forall i :: 0 <= i < n ==> IsSpace(s[i])
    ensures n < |s| ==> !IsSpace(s[n])
  {
    if |s| == 0 || !IsSpace(s[0]) then 0 else 1 + LeadingSpace(s[1..])
  }

  /** The length of the white-space run that ends `s`. */
  function TrailingSpace(s: string): (n: nat)
    ensures n <= |s|
    ensures forall i :: |s| - n <= i < |s| ==> IsSpace(s[i])
    ensures n < |s| ==> !IsSpace(s[|s| - n - 1])
  {
    if |s| == 0 || !IsSpace(s[|s| - 1]) then 0 else 1 + TrailingSpace(s[..|s| - 1])
  }

  /** `s` without its leading and trailing white space. */
  function TrimSpace(s: string): (t: string)
    ensures LeadingSpace(s) + |t| <= |s|
    ensures t == s[LeadingSpace(s)..LeadingSpace(s) + |t|]
    ensures forall i :: LeadingSpace(s) + |t| <= i < |s| ==> IsSpace(s[i])
    ensures t == "" || (!IsSpace(t[0]) && !IsSpace(t[|t| - 1]))
  {
    var rest := s[LeadingSpace(s)..];
    rest[..|rest| - TrailingSpace(rest)]
  }

  /** Trimming twice is trimming once. */
  lemma TrimSpaceIdempotent(s: string)
    ensures TrimSpace(TrimSpace(s)) == TrimSpace(s)
  {
    var t := TrimSpace(s);
    assert LeadingSpace(t) == 0;
    if |t| > 0 {
      assert TrailingSpace(t) == 0;
    }
  }

  /** The index of the first occurrence of `x` in `s`. */
  function FirstIndex(s: seq<string>, x: string): (i: nat)
    requires x in s
    ensures i < |s| && s[i] == x && x !in s[..i]
  {
    if s[0] == x then 0 else 1 + FirstIndex(s[1..], x)
  }

  /** The trimmed form of every prefix, in order. */
  function Trimmed(prefixes: seq<string>): (t: seq<string>)
    ensures |t| == |prefixes|
    ensures forall i :: 0 <= i < |prefixes| ==> t[i] == TrimSpace(prefixes[i])
  {
    seq(|prefixes|, i requires 0 <= i < |prefixes| => TrimSpace(prefixes[i]))
  }

  /** `unique` lists every trimmed prefix exactly once, in the order of first
      occurrence. */
  ghost predicate IsDedupOf(unique: seq<string>, prefixes: seq<string>)
  {
    var t := Trimmed(prefixes);
    && (forall i, j :: 0 <= i < j < |unique| ==> unique[i] != unique[j])
    && (forall x :: x in unique <==> x in t)
    && (forall i, j :: 0 <= i < j < |unique| ==> FirstIndex(t, unique[i]) < FirstIndex(t, unique[j]))
  }

  /** What the de-duplication loop knows after reading `t[..k]`: `unique`
      lists each value of `t[..k]` once, in the order of first occurrence. */
  ghost predicate DedupInvariant(t: seq<string>, k: nat, unique: seq<string>)
  {
    && k <= |t|
    && (forall x :: x in unique <==> x in t[..k])
    && (forall i, j :: 0 <= i < j < |unique| ==> unique[i] != unique[j])
    && (forall i :: 0 <= i < |unique| ==> unique[i] in t && FirstIndex(t, unique[i]) < k)
    && (forall i, j :: 0 <= i < j < |unique| ==> FirstIndex(t, unique[i]) < FirstIndex(t, unique[j]))
  }

  /** Reading `t[k]` keeps the invariant: a value already listed is skipped,
      a new one is appended. */
  lemma DedupStep(t: seq<string>, k: nat, unique: seq<string>)
    requires k < |t| && DedupInvariant(t, k, unique)
    ensures t[k] in unique ==> DedupInvariant(t, k + 1, unique)
    ensures t[k] !in unique ==> DedupInvariant(t, k + 1, unique + [t[k]])
  {
    assert t[..k + 1] == t[..k] + [t[k]];
    if t[k] !in unique {
      assert FirstIndex(t, t[k]) == k;
    }
  }

  /** Membership in the trimmed prefixes, stated in terms of the raw prefixes. */
  lemma TrimmedMembers(prefixes: seq<string>, unique: seq<string>)
    requires forall x :: x in unique <==> x in Trimmed(prefixes)
    ensures forall p :: p in prefixes ==> TrimSpace(p) in unique
    ensures forall x :: x in unique ==> exists p :: p in prefixes && TrimSpace(p) == x
  {
    var t := Trimmed(prefixes);
    forall p | p in prefixes
      ensures TrimSpace(p) in unique
    {
      var i :| 0 <= i < |prefixes| && prefixes[i] == p;
      assert t[i] == TrimSpace(p);
    }
    forall x | x in unique
      ensures exists p :: p in prefixes && TrimSpace(p) == x
    {
      var i :| 0 <= i < |t| && t[i] == x;
      assert prefixes[i] in prefixes;
    }
  }

  /** Trims each prefix and keeps the first occurrence of each trimmed value,
      remembering the values already kept in a set. */
  method Dedup(prefixes: seq<string>) returns (unique: seq<string>)
    ensures forall p :: p in prefixes ==> TrimSpace(p) in unique
    ensures forall x :: x in unique ==> exists p :: p in prefixes && TrimSpace(p) == x
    ensures IsDedupOf(unique, prefixes)
  {
    ghost var t := Trimmed(prefixes);
    unique := [];
    var seen: set<string> := {};
    var k := 0;
    while k < |prefixes|
      invariant 0 <= k <= |prefixes|
      invariant forall x :: x in seen <==> x in unique
      invariant DedupInvariant(t, k, unique)
    {
      var network := TrimSpace(prefixes[k]);
      DedupStep(t, k, unique);
      if network !in seen {
        seen := seen + {network};
        unique := unique + [network];
      }
      k := k + 1;
    }
    assert t[..k] == t;
    TrimmedMembers(prefixes, unique);
  }
}
