/** Namespace patterns of bearer tokens (internal/bearertoken/namespace.go). */
module Namespaces {

  predicate NameChar(c: char)
  {
    'a' <= c <= 'z' || 'A' <= c <= 'Z' || '0' <= c <= '9' || c == '_' || c == '-' || c == '.'
  }

  predicate HasDots(s: string) { exists i :: 0 <= i < |s| - 1 && s[i] == '.' && s[i + 1] == '.' }

  predicate HasPrefix(s: string, p: string) { |p| <= |s| && s[..|p|] == p }

  predicate Starred(p: string) { p != "" && p[|p| - 1] == '*' }

  /** strings.TrimSuffix(p, "*"). */
  function Stem(p: string): string { if Starred(p) then p[..|p| - 1] else p }

  /** ValidatePattern: exact names, one trailing star, or the universal star. */
  predicate Valid(p: string)
  {
    p == "*" || ValidStem(Stem(p))
  }

  predicate ValidStem(s: string)
  {
    s != "" && s != "." && !HasPrefix(s, "__") && !HasDots(s) && forall c <- s :: NameChar(c)
  }

  predicate Exact(ns: string) { '*' !in ns && Valid(ns) }

  /** One pattern grants one namespace. */
  predicate Grants(p: string, ns: string) { p == ns || (Starred(p) && HasPrefix(ns, Stem(p))) }

  /** One ceiling pattern covers one requested pattern. */
  predicate Covers(c: string, r: string) { c == r || (Starred(c) && HasPrefix(Stem(r), Stem(c))) }

  /** What Allows answers. */
  predicate AllowsAll(patterns: seq<string>, ns: string)
  {
    Exact(ns) && (forall p <- patterns :: Valid(p)) && exists p <- patterns :: Grants(p, ns)
  }

  /** What Contains answers. */
  predicate ContainsAll(ceiling: seq<string>, requested: seq<string>)
  {
    && (forall p <- ceiling :: Valid(p)) && (forall r <- requested :: Valid(r))
    && forall r <- requested :: exists c <- ceiling :: Covers(c, r)
  }

  method Allows(patterns: seq<string>, ns: string) returns (allowed: bool)
    ensures allowed == AllowsAll(patterns, ns)
  {
    if !Exact(ns) { return false; }
    allowed := false;
    var i := 0;
    while i < |patterns|
      invariant 0 <= i <= |patterns| && forall j | 0 <= j < i :: Valid(patterns[j])
      invariant allowed <==> exists j | 0 <= j < i :: Grants(patterns[j], ns)
    {
      var p := patterns[i];
      if !Valid(p) {
        assert p in patterns;
        return false;
      }
      if p == ns || (Starred(p) && HasPrefix(ns, Stem(p))) { allowed := true; }
      i := i + 1;
    }
  }

  method Contains(ceiling: seq<string>, requested: seq<string>) returns (ok: bool)
    ensures ok == ContainsAll(ceiling, requested)
  {
    var i := 0;
    while i < |ceiling|
      invariant 0 <= i <= |ceiling| && forall j | 0 <= j < i :: Valid(ceiling[j])
    {
      if !Valid(ceiling[i]) {
        assert ceiling[i] in ceiling;
        return false;
      }
      i := i + 1;
    }
    var k := 0;
    while k < |requested|
      invariant 0 <= k <= |requested|
      invariant forall j | 0 <= j < k :: Valid(requested[j]) && exists c <- ceiling :: Covers(c, requested[j])
    {
      var r := requested[k];
      if !Valid(r) {
        assert r in requested;
        return false;
      }
      var covered := Covered(ceiling, r);
      if !covered {
        assert r in requested;
        return false;
      }
      k := k + 1;
    }
    return true;
  }

  method Covered(ceiling: seq<string>, r: string) returns (covered: bool)
    ensures covered <==> exists c <- ceiling :: Covers(c, r)
  {
    covered := false;
    var i := 0;
    while i < |ceiling|
      invariant 0 <= i <= |ceiling| && !covered && forall j | 0 <= j < i :: !Covers(ceiling[j], r)
    {
      var c := ceiling[i];
      if c == r || (Starred(c) && HasPrefix(Stem(r), Stem(c))) {
        assert c in ceiling;
        return true;
      }
      i := i + 1;
    }
  }

  // ------------------------------------------------------------------ one ceiling, one request

  lemma ExactIsUnstarred(ns: string)
    requires '*' !in ns
    ensures !Starred(ns) && Stem(ns) == ns
  {
  }

  lemma PrefixTrans(s: string, p: string, q: string)
    requires HasPrefix(s, p) && HasPrefix(p, q)
    ensures HasPrefix(s, q)
  {
    assert s[..|q|] == s[..|p|][..|q|];
  }

  /** A covered request grants nothing the ceiling does not. */
  lemma CoversIsSound(c: string, r: string, ns: string)
    requires Valid(c) && Valid(r) && Exact(ns) && Covers(c, r) && Grants(r, ns)
    ensures Grants(c, ns)
  {
    if c != r {
      if r == ns { ExactIsUnstarred(ns); } else { PrefixTrans(ns, Stem(r), Stem(c)); }
    }
  }

  lemma StemIsExact(r: string)
    requires Valid(r) && r != "*"
    ensures Exact(Stem(r)) && Grants(r, Stem(r))
  {
    var s := Stem(r);
    assert forall c <- s :: NameChar(c) && c != '*';
    ExactIsUnstarred(s);
    if Starred(r) { assert s[..|s|] == s; }
  }

  /** A longer name under the same stem. */
  lemma LongerName(s: string)
    requires ValidStem(s)
    ensures Exact(s + "a") && HasPrefix(s + "a", s)
  {
    var t := s + "a";
    assert forall c <- t :: c in s || c == 'a';
    assert forall c <- t :: NameChar(c) && c != '*';
    ExactIsUnstarred(t);
    assert t[|t| - 1] == 'a' && t != ".";
    assert if |s| >= 2 then t[..2] == s[..2] else t[1] == 'a';
    assert forall i | 0 <= i < |s| :: t[i] == s[i];
  }

  /** A plain name whose first letter is not that of x. */
  lemma OtherName(x: string) returns (ns: string)
    requires x != ""
    ensures Exact(ns) && ns != x && !HasPrefix(ns, x)
  {
    ns := if x[0] == 'a' then "b" else "a";
    ExactIsUnstarred(ns);
    assert forall c <- ns :: NameChar(c);
    if |x| == 1 { assert ns[..1][0] == ns[0] != x[0]; }
  }

  /** A request that is not covered grants a namespace the ceiling does not. */
  lemma Escapes(c: string, r: string) returns (ns: string)
    requires Valid(c) && Valid(r) && !Covers(c, r)
    ensures Exact(ns) && Grants(r, ns) && !Grants(c, ns)
  {
    if r == "*" {
      ns := OtherName(Stem(c));
      assert Stem(r) == "" && ns[..0] == "";
      if !Starred(c) { assert Stem(c) == c; } else { assert c != ns by { ExactIsUnstarred(ns); } }
    } else {
      StemIsExact(r);
      ns := Stem(r);
      if c == ns {
        assert Starred(r);
        LongerName(Stem(r));
        ns := Stem(r) + "a";
        ExactIsUnstarred(c);
      }
    }
  }

  lemma Single(p: string, ns: string)
    ensures AllowsAll([p], ns) <==> Exact(ns) && Valid(p) && Grants(p, ns)
  {
    hide Exact, Valid, Grants;
    assert p in [p];
  }

  lemma SingleContains(c: string, r: string)
    requires Valid(c) && Valid(r)
    ensures ContainsAll([c], [r]) <==> Covers(c, r)
  {
    hide Valid, Covers;
    assert c in [c] && r in [r];
  }

  /** One ceiling contains one request exactly when it allows every namespace the request allows. */
  lemma ContainsExactly(c: string, r: string)
    requires Valid(c) && Valid(r)
    ensures ContainsAll([c], [r]) <==> forall ns | AllowsAll([r], ns) :: AllowsAll([c], ns)
  {
    SingleContains(c, r);
    if Covers(c, r) {
      forall ns | AllowsAll([r], ns) ensures AllowsAll([c], ns) {
        Single(r, ns);
        Single(c, ns);
        CoversIsSound(c, r, ns);
      }
    } else {
      var ns := Escapes(c, r);
      Single(r, ns);
      Single(c, ns);
    }
  }

  // ------------------------------------------------------------------ lists

  /** A contained list allows nothing the ceiling does not. */
  lemma ContainsIsSound(ceiling: seq<string>, requested: seq<string>, ns: string)
    requires ContainsAll(ceiling, requested) && AllowsAll(requested, ns)
    ensures AllowsAll(ceiling, ns)
  {
    var r :| r in requested && Grants(r, ns);
    var c :| c in ceiling && Covers(c, r);
    CoversIsSound(c, r, ns);
  }

  function Letters(first: char, n: nat): seq<string>
    requires first as int + n <= 128
  {
    seq(n, i requires 0 <= i < n => ['_', (first as int + i) as char, '*'])
  }

  /** The names under an underscore, one pattern for each character that may follow it. */
  function Narrow(): seq<string>
  {
    ["_", "_-*", "_.*"] + Letters('a', 26) + Letters('A', 26) + Letters('0', 10)
  }

  lemma NarrowAre(p: string)
    requires p in Narrow()
    ensures p == "_" || (|p| == 3 && p[0] == '_' && p[2] == '*' && NameChar(p[1]) && p[1] != '_')
  {
  }

  lemma NarrowHas(c: char)
    requires NameChar(c) && c != '_'
    ensures ['_', c, '*'] in Narrow()
  {
    var all := Narrow();
    if 'a' <= c <= 'z' { assert all[3 + (c as int - 'a' as int)] == ['_', c, '*']; }
    else if 'A' <= c <= 'Z' { assert all[29 + (c as int - 'A' as int)] == ['_', c, '*']; }
    else if '0' <= c <= '9' { assert all[55 + (c as int - '0' as int)] == ['_', c, '*']; }
    else if c == '-' { assert all[1] == ['_', c, '*']; }
    else { assert all[2] == ['_', c, '*']; }
  }

  lemma NarrowValid(p: string)
    requires p in Narrow()
    ensures Valid(p) && !Covers(p, "_*")
  {
    NarrowAre(p);
    hide Narrow;
    var s := Stem(p);
    assert forall c <- s :: c == s[0] || c == s[|s| - 1];
    assert Stem("_*") == "_";
  }

  lemma NarrowGrants(ns: string)
    requires Exact(ns) && HasPrefix(ns, "_")
    ensures exists p <- Narrow() :: Grants(p, ns)
  {
    assert Narrow()[0] == "_" && "_" in Narrow();
    hide Narrow;
    ExactIsUnstarred(ns);
    if |ns| == 1 {
      assert ns == "_";
    } else {
      assert ns[1] in ns;
      assert ns[..2] == [ns[0], ns[1]];
      NarrowHas(ns[1]);
      var p := ['_', ns[1], '*'];
      assert Stem(p) == ['_', ns[1]] == ns[..2];
      assert Grants(p, ns);
    }
  }

  /**
   Against lists the answer is not complete: no name starts with two underscores, so these patterns
   together allow all that one wider pattern does, and yet do not contain it.
   */
  lemma ContainsIsIncomplete()
    ensures !ContainsAll(Narrow(), ["_*"])
    ensures forall ns | AllowsAll(["_*"], ns) :: AllowsAll(Narrow(), ns)
  {
    hide Narrow;
    forall p | p in Narrow() ensures Valid(p) && !Covers(p, "_*") { NarrowValid(p); }
    assert "_*" in ["_*"];
    forall ns | AllowsAll(["_*"], ns) ensures AllowsAll(Narrow(), ns) {
      Single("_*", ns);
      assert Stem("_*") == "_";
      NarrowGrants(ns);
    }
  }

  lemma CoversTransitive(a: string, b: string, c: string)
    requires Covers(a, b) && Covers(b, c)
    ensures Covers(a, c)
  {
    if a != b && b != c { PrefixTrans(Stem(c), Stem(b), Stem(a)); }
  }

  /** Delegating twice never widens: containment is transitive. */
  lemma ContainsTransitive(a: seq<string>, b: seq<string>, c: seq<string>)
    requires ContainsAll(a, b) && ContainsAll(b, c)
    ensures ContainsAll(a, c)
  {
    forall z | z in c ensures exists x <- a :: Covers(x, z) {
      var y :| y in b && Covers(y, z);
      var x :| x in a && Covers(x, y);
      CoversTransitive(x, y, z);
    }
  }
}
