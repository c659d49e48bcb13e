/**
 * `network_scope` of src/config/network_scope.rs, as far as it names a bouncer's child: a prefix, a digest of the
 * bouncer and its account settings, and the network. It keeps child ids apart for the ids a registry can hold.
 */
module NetworkScopes {
  import opened Wrappers
  import opened Text
  import opened Codecs
  import opened BouncerChildren
  import opened ChildrenRuns

  const SCOPE_PREFIX := "bouncer:v1:"
  const U64_MAX: nat := 0xFFFF_FFFF_FFFF_FFFF

  /** The hexadecimal SHA-256 of a bouncer's id and its account settings. */
  type Digest = (string, string) -> string

  function NetworkPart(id: string): string {
    match ParseUnsigned(id, U64_MAX) case Some(n) => NatToDecimal(n) case None => id
  }

  function NetworkScope(digest: Digest): Scope {
    (parent, account, network) => SCOPE_PREFIX + digest(parent, account) + ":" + NetworkPart(network)
  }

  ghost predicate IsHexDigest(digest: Digest) {
    forall p, a :: |digest(p, a)| == 64
  }

  /** No two bouncers have had settings with the same digest. */
  predicate CollisionFree(digest: Digest, known: Accounts) {
    forall x, y | x in known && y in known && digest(x.0, x.1) == digest(y.0, y.1) :: x.0 == y.0
  }

  /** Canonical ids go into a scope as they are. */
  lemma CanonicalPart(id: string)
    requires Canonical(id)
    ensures NetworkPart(id) == id && ':' !in id
  {
    var n: nat :| n > 0 && id == NatToDecimal(n);
    DigitsOfDecimal(n);
    assert id[0] in id;
  }

  /** Normalising twice changes nothing more, whatever zeros the id began with. */
  lemma NormalizedIsStable(value: string)
    requires NormalizeNetworkId(value).Some?
    ensures var id := NormalizeNetworkId(value).value; Canonical(id) && NormalizeNetworkId(id) == Some(id)
  {
    hide Digits;
    DigitsOfDecimal(ParseUnsigned(value, I64_MAX).value);
    var id := NormalizeNetworkId(value).value;
    assert id[0] in id;
  }

  /** Exactly the positive numbers of 64 bits, with or without leading zeros, are network ids; they lose the zeros. */
  lemma NormalizesIff(value: string, id: string)
    ensures NormalizeNetworkId(value) == Some(id) <==>
            exists zeros: nat, n: nat :: IsPadded(value, zeros, n) && id == NatToDecimal(n)
  {
    hide NatToDecimal, Digits;
    if NormalizeNetworkId(value) == Some(id) {
      var n := ParseUnsigned(value, I64_MAX).value;
      var zeros := DigitsAre(value, n);
      assert IsPadded(value, zeros, n);
    }
    forall zeros: nat, n: nat | IsPadded(value, zeros, n)
      ensures NormalizeNetworkId(value) == Some(NatToDecimal(n))
    {
      NoughtsCount(zeros);
      DigitsOfDecimal(n);
      DigitsConcat(Noughts(zeros), NatToDecimal(n), 0);
      assert NatToDecimal(n)[0] in NatToDecimal(n);
      assert value[0] != '+';
    }
  }

  predicate IsPadded(value: string, zeros: nat, n: nat) {
    0 < n < 0x8000_0000_0000_0000 && value == Noughts(zeros) + NatToDecimal(n)
  }

  function Suffix(k: nat): string { if k == 0 then "" else ":" + NatToDecimal(k) }

  lemma CandidateIs(digest: Digest, p: string, a: string, n: string, k: nat)
    requires Canonical(n)
    ensures Candidate(Base(NetworkScope(digest)(p, a, n)), k) ==
            ("_bouncer:" + SCOPE_PREFIX) + (digest(p, a) + (":" + (n + Suffix(k))))
  {
    hide Canonical, NetworkPart, NatToDecimal;
    CanonicalPart(n);
    var front, d := "_bouncer:" + SCOPE_PREFIX, digest(p, a);
    assert Base(NetworkScope(digest)(p, a, n)) == front + (d + (":" + n));
    assert Candidate(front + (d + (":" + n)), k) == front + (d + (":" + n)) + Suffix(k);
    assert front + (d + (":" + n)) + Suffix(k) == front + (d + (":" + (n + Suffix(k))));
  }

  lemma SameFront(front: string, s: string, t: string)
    requires front + s == front + t
    ensures s == t
  {
    assert (front + s)[|front|..] == s && (front + t)[|front|..] == t;
  }

  lemma SameParts(a: string, s: string, b: string, t: string)
    requires |a| == |b| && a + s == b + t
    ensures a == b && s == t
  {
    assert (a + s)[..|a|] == a && (b + t)[..|b|] == b;
    SameFront(a, s, t);
  }

  /** What comes before the first colon of an id with its suffix. */
  lemma NetworkIsFirst(n: string, k: nat)
    requires ':' !in n
    ensures Split(n + Suffix(k), ':')[0] == n
  {
    hide NatToDecimal, Split;
    SplitField(n, ':', if k == 0 then "" else NatToDecimal(k));
    assert n + Suffix(k) == if k == 0 then n else n + [':'] + NatToDecimal(k);
  }

  /** The program's scopes keep the children of any accounts without a digest collision apart. */
  lemma ProgramScopeSeparates(digest: Digest, known: Accounts)
    requires IsHexDigest(digest) && CollisionFree(digest, known)
    ensures Separates(NetworkScope(digest), known)
  {
    hide Candidate, Base, Canonical, NetworkPart, Suffix, Split;
    var scope, front := NetworkScope(digest), "_bouncer:" + SCOPE_PREFIX;
    forall p, a, n, j: nat, q, b, m, k: nat
      | (p, a) in known && (q, b) in known && Canonical(n) && Canonical(m)
        && Candidate(Base(scope(p, a, n)), j) == Candidate(Base(scope(q, b, m)), k)
      ensures p == q && n == m
    {
      CandidateIs(digest, p, a, n, j);
      CandidateIs(digest, q, b, m, k);
      SameFront(front, digest(p, a) + (":" + (n + Suffix(j))), digest(q, b) + (":" + (m + Suffix(k))));
      SameParts(digest(p, a), ":" + (n + Suffix(j)), digest(q, b), ":" + (m + Suffix(k)));
      SameFront(":", n + Suffix(j), m + Suffix(k));
      CanonicalPart(n);
      CanonicalPart(m);
      NetworkIsFirst(n, j);
      NetworkIsFirst(m, k);
      assert digest((p, a).0, (p, a).1) == digest((q, b).0, (q, b).1);
    }
  }

  /** Without the normalisation they would not: these two ids share a scope. */
  lemma RawIdsCollide(digest: Digest, parent: string, account: string)
    ensures NetworkScope(digest)(parent, account, "00042") == NetworkScope(digest)(parent, account, "42")
  {
    DigitsConcat("000", "42", 0);
    assert "00042" == "000" + "42";
    assert Digits("000", 0) == Some(0) by {
      assert "000"[1..] == "00" && "00"[1..] == "0" && "0"[1..] == "";
    }
    assert Digits("42", 0) == Some(42) by {
      assert "42"[1..] == "2" && "2"[1..] == "";
    }
  }
}
