/** The name of an Argo application (pkg/apps/application/pathref.go). Strings are byte strings, so `|s|` is len(s). */
module PathRef {
  import opened Dashes

  /** The eight hexadecimal digits cut from an MD5 sum; which digits they are is left to the digest. */
  type Hash = h: string | |h| == 8 witness "00000000"

  const BASE_ENV := "base"
  const MAX_LENGTH := 53

  function Join(a: string, b: string, c: string, d: string): string {
    a + "-" + b + "-" + c + "-" + d
  }

  datatype PathRef = PathRef(tenant: string, project: string, env: string, name: string) {
    /** An empty environment means the base one. */
    function Normal(): PathRef {
      if env == "" then this.(env := BASE_ENV) else this
    }

    function Joined(): string {
      Join(tenant, project, Normal().env, name)
    }
  }

  function Concat(ss: seq<string>): string {
    if ss == [] then "" else Concat(ss[..|ss| - 1]) + ss[|ss| - 1]
  }

  function Prefix(s: string, length: nat): string {
    if length > |s| || length == 0 then s else s[..length]
  }

  /** Every component cut to its length, each after a dash. */
  function Cut(ss: seq<string>, everylen: seq<nat>): string
    requires |everylen| <= |ss|
  {
    if everylen == [] then ""
    else
      var last := |everylen| - 1;
      Cut(ss, everylen[..last]) + "-" + Prefix(ss[last], everylen[last])
  }

  method ShortStrWithHashPrefix(digest: string -> Hash, ss: seq<string>, everylen: seq<nat>) returns (ret: string)
    requires |everylen| <= |ss|
    ensures ret == digest(Concat(ss)) + Cut(ss, everylen)
  {
    var hashed := "";
    for i := 0 to |ss|
      invariant hashed == Concat(ss[..i])
    {
      hashed := hashed + ss[i];
      assert ss[..i + 1][..i] == ss[..i];
    }
    assert ss[..|ss|] == ss;
    ret := digest(hashed);
    for i := 0 to |everylen|
      invariant ret == digest(hashed) + Cut(ss, everylen[..i])
    {
      var vl := everylen[i];
      if vl > |ss[i]| || vl == 0 {
        vl := |ss[i]|;
      }
      ret := ret + "-" + ss[i][..vl];
      assert everylen[..i + 1][..i] == everylen[..i];
    }
    assert everylen[..|everylen|] == everylen;
  }

  // ---- Shortened names ----

  /** The three components that are always cut. */
  function Parts(p: PathRef): seq<string> {
    var q := p.Normal();
    [q.tenant, q.project, q.env]
  }

  /** Cutting the first three components is enough; how long the name gets does not depend on the digest. */
  predicate NameFits(p: PathRef) {
    8 + |Cut(Parts(p), [3, 3, 3])| + 1 + |p.name| <= MAX_LENGTH
  }

  /** What is hashed: the components in one piece, without separators. */
  function Hashed(p: PathRef): string {
    Concat(if NameFits(p) then Parts(p) else Parts(p) + [p.name])
  }

  /** What follows the digest. */
  function Tail(p: PathRef): string {
    if NameFits(p) then Cut(Parts(p), [3, 3, 3]) + "-" + p.name else Cut(Parts(p) + [p.name], [3, 3, 3, 32])
  }

  function FullNameOf(digest: string -> Hash, p: PathRef): string {
    if |p.Joined()| <= MAX_LENGTH then p.Joined() else digest(Hashed(p)) + Tail(p)
  }

  /** The result has at most 53 bytes, and is the plain join of the components whenever that fits. */
  method FullName(digest: string -> Hash, p: PathRef) returns (name: string)
    ensures |name| <= MAX_LENGTH
    ensures |p.Joined()| <= MAX_LENGTH ==> name == p.Joined()
    ensures name == FullNameOf(digest, p)
  {
    var q := p.Normal();
    name := q.tenant + "-" + q.project + "-" + q.env + "-" + q.name;
    if |name| > MAX_LENGTH {
      var parts := [q.tenant, q.project, q.env];
      var tpe := ShortStrWithHashPrefix(digest, parts, [3, 3, 3]);
      name := tpe + "-" + q.name;
      assert name == digest(Concat(parts)) + (Cut(parts, [3, 3, 3]) + "-" + q.name);
      if |name| > MAX_LENGTH {
        name := ShortStrWithHashPrefix(digest, parts + [q.name], [3, 3, 3, 32]);
        CutBound(parts + [q.name], [3, 3, 3, 32]);
        assert Budget([3, 3, 3, 32]) == 45 by {
          assert [3, 3, 3, 32][..3] == [3, 3, 3] && [3, 3, 3][..2] == [3, 3] && [3, 3][..1] == [3];
          assert Budget([3]) == 4 && Budget([3, 3]) == 8 && Budget([3, 3, 3]) == 12;
        }
      }
    }
  }

  /** The first `n` bytes, or all there are. */
  function FirstBytes(s: string, n: nat): string {
    if |s| < n then s else s[..n]
  }

  /** A name that does not fit, spelled out: the digest of tenant, project and environment, three bytes of each, and the
      application's own name; if that is still too long, a digest of all four and the name cut to 32 bytes. */
  lemma ShortenedIs(digest: string -> Hash, p: PathRef)
    requires |p.Joined()| > MAX_LENGTH
    ensures var env := if p.env == "" then "base" else p.env;
            var cut := "-" + FirstBytes(p.tenant, 3) + "-" + FirstBytes(p.project, 3) + "-" + FirstBytes(env, 3) + "-";
            var short := digest(p.tenant + p.project + env) + (cut + p.name);
            FullNameOf(digest, p) ==
            if |short| <= 53 then short
            else digest(p.tenant + p.project + env + p.name) + (cut + FirstBytes(p.name, 32))
  {
    var env := p.Normal().env;
    var a, b, c := FirstBytes(p.tenant, 3), FirstBytes(p.project, 3), FirstBytes(env, 3);
    ConcatThree(p.tenant, p.project, env);
    CutThree(p.tenant, p.project, env, []);
    assert Parts(p) + [] == Parts(p);
    DashJoin(a, b, c, p.name);
    DashJoin(a, b, c, FirstBytes(p.name, 32));
    TailPieces(p);
    assert (Parts(p) + [p.name])[..3] == Parts(p);
    var cut := "-" + a + "-" + b + "-" + c + "-";
    assert cut + p.name == "-" + Join(a, b, c, p.name);
    assert cut + FirstBytes(p.name, 32) == "-" + Join(a, b, c, FirstBytes(p.name, 32));
  }

  /** The digest takes eight bytes, so two shortened names are equal if and only if their digests and tails are. */
  lemma ShortenedEqual(digest: string -> Hash, p: PathRef, q: PathRef)
    requires |p.Joined()| > MAX_LENGTH && |q.Joined()| > MAX_LENGTH
    ensures FullNameOf(digest, p) == FullNameOf(digest, q) <==>
            digest(Hashed(p)) == digest(Hashed(q)) && Tail(p) == Tail(q)
  {
    var a, b := digest(Hashed(p)), digest(Hashed(q));
    assert (a + Tail(p))[..8] == a && (a + Tail(p))[8..] == Tail(p);
    assert (b + Tail(q))[..8] == b && (b + Tail(q))[8..] == Tail(q);
  }

  /** Some digest tells any two different strings apart. */
  lemma DigestSplits(a: string, b: string) returns (digest: string -> Hash)
    requires a != b
    ensures digest(a) != digest(b)
  {
    digest := s => if s == a then "00000000" else "11111111";
    assert "00000000"[0] != "11111111"[0];
  }

  /** Two applications get the same shortened name under every digest if and only if their components run together to
      the same string and their tails agree: no digest can tell these apart, as it never sees where a component ends. */
  lemma SameUnderEveryDigest(p: PathRef, q: PathRef)
    requires |p.Joined()| > MAX_LENGTH && |q.Joined()| > MAX_LENGTH
    ensures (forall digest: string -> Hash :: FullNameOf(digest, p) == FullNameOf(digest, q)) <==>
            Hashed(p) == Hashed(q) && Tail(p) == Tail(q)
  {
    if Hashed(p) != Hashed(q) {
      var digest := DigestSplits(Hashed(p), Hashed(q));
      ShortenedEqual(digest, p, q);
    } else {
      forall digest: string -> Hash
        ensures FullNameOf(digest, p) == FullNameOf(digest, q) <==> Tail(p) == Tail(q)
      {
        ShortenedEqual(digest, p, q);
      }
      var zeros: string -> Hash := s => "00000000";
      assert FullNameOf(zeros, p) == FullNameOf(zeros, q) <==> Tail(p) == Tail(q);
    }
  }

  lemma CutThree(a: string, b: string, c: string, more: seq<string>)
    ensures Cut([a, b, c] + more, [3, 3, 3]) == "-" + Prefix(a, 3) + "-" + Prefix(b, 3) + "-" + Prefix(c, 3)
  {
    var ss := [a, b, c] + more;
    assert [3, 3, 3][..2] == [3, 3] && [3, 3][..1] == [3] && [3][..0] == [];
    assert Cut(ss, []) == "" && "" + "-" == "-";
    assert Cut(ss, [3]) == "-" + Prefix(a, 3);
  }

  /** How much of the application's own name is left. */
  function NameCut(p: PathRef): string {
    if NameFits(p) then p.name else Prefix(p.name, 32)
  }

  lemma CutFour(ss: seq<string>)
    requires |ss| == 4
    ensures Cut(ss, [3, 3, 3, 32]) == Cut(ss, [3, 3, 3]) + "-" + Prefix(ss[3], 32)
  {
    assert [3, 3, 3, 32][..3] == [3, 3, 3];
  }

  lemma DashJoin(a: string, b: string, c: string, d: string)
    ensures "-" + a + "-" + b + "-" + c + "-" + d == "-" + Join(a, b, c, d)
  {
  }

  lemma TailPieces(p: PathRef)
    ensures Tail(p) == "-" + Join(Prefix(p.tenant, 3), Prefix(p.project, 3), Prefix(p.Normal().env, 3), NameCut(p))
  {
    DashJoin(Prefix(p.tenant, 3), Prefix(p.project, 3), Prefix(p.Normal().env, 3), NameCut(p));
    if NameFits(p) {
      CutThree(p.tenant, p.project, p.Normal().env, []);
      assert Parts(p) + [] == Parts(p);
    } else {
      CutThree(p.tenant, p.project, p.Normal().env, [p.name]);
      CutFour(Parts(p) + [p.name]);
    }
  }

  /** So applications whose tenants, projects and environments hold no dash share a shortened name, whatever the digest,
      if and only if every component is cut to the same and what is hashed runs together to the same string. */
  lemma ShortenedCollision(p: PathRef, q: PathRef)
    requires |p.Joined()| > MAX_LENGTH && |q.Joined()| > MAX_LENGTH
    requires forall r: PathRef :: r in {p, q} ==> DashFree(r.tenant) && DashFree(r.project) && DashFree(r.Normal().env)
    ensures (forall digest: string -> Hash :: FullNameOf(digest, p) == FullNameOf(digest, q)) <==>
            && Hashed(p) == Hashed(q)
            && Prefix(p.tenant, 3) == Prefix(q.tenant, 3) && Prefix(p.project, 3) == Prefix(q.project, 3)
            && Prefix(p.Normal().env, 3) == Prefix(q.Normal().env, 3) && NameCut(p) == NameCut(q)
  {
    assert p in {p, q} && q in {p, q};
    SameUnderEveryDigest(p, q);
    TailPieces(p);
    TailPieces(q);
    if Tail(p) == Tail(q) {
      JoinPieces(Prefix(p.tenant, 3), Prefix(p.project, 3), Prefix(p.Normal().env, 3), NameCut(p),
                 Prefix(q.tenant, 3), Prefix(q.project, 3), Prefix(q.Normal().env, 3), NameCut(q));
    }
  }

  lemma SameHashed(p: PathRef, q: PathRef)
    requires p.name == q.name && Concat(Parts(p)) == Concat(Parts(q)) && (NameFits(p) <==> NameFits(q))
    ensures Hashed(p) == Hashed(q)
  {
    assert (Parts(p) + [p.name])[..3] == Parts(p) && (Parts(q) + [q.name])[..3] == Parts(q);
  }

  /** With the same cuts the names are cut alike. */
  lemma SameTails(p: PathRef, q: PathRef)
    requires p.name == q.name && Prefix(p.tenant, 3) == Prefix(q.tenant, 3)
    requires Prefix(p.project, 3) == Prefix(q.project, 3) && Prefix(p.Normal().env, 3) == Prefix(q.Normal().env, 3)
    ensures (NameFits(p) <==> NameFits(q)) && Tail(p) == Tail(q)
  {
    CutThree(p.tenant, p.project, p.Normal().env, []);
    CutThree(q.tenant, q.project, q.Normal().env, []);
    assert Parts(p) + [] == Parts(p) && Parts(q) + [] == Parts(q);
    TailPieces(p);
    TailPieces(q);
  }

  /** Letters may move between tenant and project: these two never get different names once they are shortened. */
  lemma BoundaryLost(env: string, name: string)
    ensures var p, q := PathRef("aaaa", "aaaaa", env, name), PathRef("aaaaa", "aaaa", env, name);
            && p != q
            && (|p.Joined()| > MAX_LENGTH ==>
                  forall digest: string -> Hash :: FullNameOf(digest, p) == FullNameOf(digest, q))
  {
    var p, q := PathRef("aaaa", "aaaaa", env, name), PathRef("aaaaa", "aaaa", env, name);
    assert Prefix(p.tenant, 3) == Prefix(q.tenant, 3) == Prefix(p.project, 3) == Prefix(q.project, 3);
    SameTails(p, q);
    ConcatThree(p.tenant, p.project, p.Normal().env);
    ConcatThree(q.tenant, q.project, q.Normal().env);
    SameHashed(p, q);
    if |p.Joined()| > MAX_LENGTH {
      SameUnderEveryDigest(p, q);
    }
  }

  lemma ConcatThree(a: string, b: string, c: string)
    ensures Concat([a, b, c]) == a + b + c
  {
    assert [a, b, c][..2] == [a, b] && [a, b][..1] == [a] && [a][..0] == [];
    assert Concat([a]) == a;
  }

  function Budget(everylen: seq<nat>): nat {
    if everylen == [] then 0 else Budget(everylen[..|everylen| - 1]) + 1 + everylen[|everylen| - 1]
  }

  lemma {:induction false} CutBound(ss: seq<string>, everylen: seq<nat>)
    requires |everylen| <= |ss| && 0 !in everylen
    ensures |Cut(ss, everylen)| <= Budget(everylen)
  {
    if everylen != [] {
      var last := |everylen| - 1;
      assert everylen[last] in everylen;
      CutBound(ss, everylen[..last]);
    }
  }

  /** The plain join tells two applications apart as long as tenant, project and environment hold no dash; the
      application's own name may hold any. */
  lemma JoinedInjective(p: PathRef, q: PathRef)
    requires forall r: PathRef :: r in {p, q} ==> DashFree(r.tenant) && DashFree(r.project) && DashFree(r.env)
    ensures p.Joined() == q.Joined() <==> p.Normal() == q.Normal()
  {
    assert p in {p, q} && q in {p, q};
    var u, v := p.Normal(), q.Normal();
    if p.Joined() == q.Joined() {
      var ue, ve := u.env + "-" + u.name, v.env + "-" + v.name;
      assert p.Joined() == u.tenant + "-" + (u.project + "-" + ue);
      assert q.Joined() == v.tenant + "-" + (v.project + "-" + ve);
      TwoHeads(u.tenant, u.project, ue, v.tenant, v.project, ve);
      HeadOfJoin(u.env, u.name, v.env, v.name);
    }
  }

  /** Dash-free components are determined by the join, the last one in any case. */
  lemma JoinPieces(a: string, b: string, c: string, d: string, a': string, b': string, c': string, d': string)
    requires DashFree(a) && DashFree(b) && DashFree(c) && DashFree(a') && DashFree(b') && DashFree(c')
    requires "-" + Join(a, b, c, d) == "-" + Join(a', b', c', d')
    ensures a == a' && b == b' && c == c' && d == d'
  {
    var x, y := Join(a, b, c, d), Join(a', b', c', d');
    assert ("-" + x)[1..] == x && ("-" + y)[1..] == y;
    assert x == a + "-" + (b + "-" + (c + "-" + d)) && y == a' + "-" + (b' + "-" + (c' + "-" + d'));
    TwoHeads(a, b, c + "-" + d, a', b', c' + "-" + d');
    HeadOfJoin(c, d, c', d');
  }

  lemma TwoHeads(a: string, b: string, x: string, c: string, d: string, y: string)
    requires DashFree(a) && DashFree(b) && DashFree(c) && DashFree(d)
    requires a + "-" + (b + "-" + x) == c + "-" + (d + "-" + y)
    ensures a == c && b == d && x == y
  {
    HeadOfJoin(a, b + "-" + x, c, d + "-" + y);
    HeadOfJoin(b, x, d, y);
  }

  // ---- Which names collide ----

  /** Another application has the same plain join. */
  ghost predicate Collides(p: PathRef) {
    exists q: PathRef :: q.Joined() == p.Joined() && q.Normal() != p.Normal()
  }

  function DashCount(s: string): nat {
    multiset(s)['-']
  }

  lemma NoDashes(s: string)
    ensures DashFree(s) <==> DashCount(s) == 0
  {
  }

  lemma JoinedDashes(p: PathRef)
    ensures var u := p.Normal();
            DashCount(p.Joined()) ==
            DashCount(u.tenant) + DashCount(u.project) + DashCount(u.env) + DashCount(u.name) + 3
  {
    var u := p.Normal();
    assert multiset("-")['-'] == 1;
  }

  /** The other application, given by its components. */
  lemma Shares(p: PathRef, q: PathRef)
    requires q.env != "" && q.Joined() == p.Joined() && q != p.Normal()
    ensures Collides(p)
  {
  }

  lemma SplitDash(s: string) returns (a: string, b: string)
    requires !DashFree(s)
    ensures s == a + "-" + b
  {
    var i :| 0 <= i < |s| && s[i] == '-';
    a, b := s[..i], s[i + 1..];
  }

  /** A dash in the tenant can move over to the project. */
  lemma TenantCollides(p: PathRef)
    requires !DashFree(p.tenant)
    ensures Collides(p)
  {
    var u := p.Normal();
    var a, b := SplitDash(u.tenant);
    var q := PathRef(a, b + "-" + u.project, u.env, u.name);
    assert q.Joined() == p.Joined();
    assert |a| < |u.tenant|;
    Shares(p, q);
  }

  /** A dash in the project can move over to the tenant. */
  lemma ProjectCollides(p: PathRef)
    requires !DashFree(p.project)
    ensures Collides(p)
  {
    var u := p.Normal();
    var a, b := SplitDash(u.project);
    var q := PathRef(u.tenant + "-" + a, b, u.env, u.name);
    assert q.Joined() == p.Joined();
    assert |q.tenant| > |u.tenant|;
    Shares(p, q);
  }

  /** A dash in the name can move over to the environment. */
  lemma NameCollides(p: PathRef)
    requires !DashFree(p.name)
    ensures Collides(p)
  {
    var u := p.Normal();
    var a, b := SplitDash(u.name);
    var q := PathRef(u.tenant, u.project, u.env + "-" + a, b);
    assert q.Joined() == p.Joined();
    assert |q.env| > |u.env|;
    Shares(p, q);
  }

  /** A dash in the environment can move out of it, as long as something is left. */
  lemma EnvironmentCollides(p: PathRef)
    requires !DashFree(p.Normal().env) && p.Normal().env != "-"
    ensures Collides(p)
  {
    var u := p.Normal();
    var a, b := SplitDash(u.env);
    var q := if b != "" then PathRef(u.tenant, u.project + "-" + a, b, u.name)
             else PathRef(u.tenant, u.project, a, b + "-" + u.name);
    assert "" + "-" + "" == "-";
    assert q.Joined() == p.Joined();
    assert |q.env| < |u.env|;
    Shares(p, q);
  }

  /** Dash-free pieces are determined by their join. */
  lemma FivePieces(a: string, b: string, c: string, d: string, e: string,
                   a': string, b': string, c': string, d': string, e': string)
    requires DashFree(a) && DashFree(b) && DashFree(c) && DashFree(d)
    requires DashFree(a') && DashFree(b') && DashFree(c') && DashFree(d')
    requires a + "-" + (b + "-" + (c + "-" + (d + "-" + e))) == a' + "-" + (b' + "-" + (c' + "-" + (d' + "-" + e')))
    ensures a == a' && b == b' && c == c' && d == d' && e == e'
  {
    TwoHeads(a, b, c + "-" + (d + "-" + e), a', b', c' + "-" + (d' + "-" + e'));
    TwoHeads(c, d, e, c', d', e');
  }

  lemma OneDash(s: string) returns (a: string, b: string)
    requires DashCount(s) == 1
    ensures s == a + "-" + b && DashFree(a) && DashFree(b)
  {
    NoDashes(s);
    a, b := SplitDash(s);
    assert DashCount(s) == DashCount(a) + 1 + DashCount(b) by {
      assert multiset("-")['-'] == 1;
    }
    NoDashes(a);
    NoDashes(b);
  }

  lemma SingleDashPieces(t: string, p: string, n: string)
    ensures Join(t, p, "-", n) == t + "-" + (p + "-" + ("" + "-" + ("" + "-" + n)))
  {
  }

  lemma DashInFirst(t: string, p: string, n: string, a: string, b: string, c: string, d: string)
    requires DashFree(t) && DashFree(p) && DashCount(a) == 1 && DashFree(b) && DashFree(c)
    requires Join(a, b, c, d) == Join(t, p, "-", n)
    ensures c == ""
  {
    var x, y := OneDash(a);
    SingleDashPieces(t, p, n);
    assert Join(a, b, c, d) == x + "-" + (y + "-" + (b + "-" + (c + "-" + d)));
    FivePieces(x, y, b, c, d, t, p, "", "", n);
  }

  lemma DashInSecond(t: string, p: string, n: string, a: string, b: string, c: string, d: string)
    requires DashFree(t) && DashFree(p) && DashFree(a) && DashCount(b) == 1 && DashFree(c)
    requires Join(a, b, c, d) == Join(t, p, "-", n)
    ensures c == ""
  {
    var x, y := OneDash(b);
    SingleDashPieces(t, p, n);
    assert Join(a, b, c, d) == a + "-" + (x + "-" + (y + "-" + (c + "-" + d)));
    FivePieces(a, x, y, c, d, t, p, "", "", n);
  }

  lemma DashInThird(t: string, p: string, n: string, a: string, b: string, c: string, d: string)
    requires DashFree(t) && DashFree(p) && DashFree(a) && DashFree(b) && DashCount(c) == 1
    requires Join(a, b, c, d) == Join(t, p, "-", n)
    ensures a == t && b == p && c == "-" && d == n
  {
    var x, y := OneDash(c);
    SingleDashPieces(t, p, n);
    assert Join(a, b, c, d) == a + "-" + (b + "-" + (x + "-" + (y + "-" + d)));
    FivePieces(a, b, x, y, d, t, p, "", "", n);
    assert "" + "-" + "" == "-";
  }

  lemma DashInFourth(t: string, p: string, n: string, a: string, b: string, c: string, d: string)
    requires DashFree(t) && DashFree(p) && DashFree(a) && DashFree(b) && DashFree(c) && DashCount(d) == 1
    requires Join(a, b, c, d) == Join(t, p, "-", n)
    ensures c == ""
  {
    var x, y := OneDash(d);
    SingleDashPieces(t, p, n);
    assert Join(a, b, c, d) == a + "-" + (b + "-" + (c + "-" + (x + "-" + y)));
    FivePieces(a, b, c, x, y, t, p, "", "", n);
  }

  /** Whichever component holds the one dash, an environment that is not empty is that dash. */
  lemma SingleDashPlaces(t: string, p: string, n: string, a: string, b: string, c: string, d: string)
    requires DashFree(t) && DashFree(p) && c != ""
    requires DashCount(a) + DashCount(b) + DashCount(c) + DashCount(d) == 1
    requires Join(a, b, c, d) == Join(t, p, "-", n)
    ensures a == t && b == p && c == "-" && d == n
  {
    NoDashes(a);
    NoDashes(b);
    NoDashes(c);
    if !DashFree(a) {
      DashInFirst(t, p, n, a, b, c, d);
    } else if !DashFree(b) {
      DashInSecond(t, p, n, a, b, c, d);
    } else if !DashFree(c) {
      DashInThird(t, p, n, a, b, c, d);
    } else {
      DashInFourth(t, p, n, a, b, c, d);
    }
  }

  /** An environment that is a single dash stays where it is: moving it would leave an empty environment. */
  lemma SingleDash(p: PathRef, q: PathRef)
    requires DashFree(p.tenant) && DashFree(p.project) && DashFree(p.name) && p.Normal().env == "-"
    requires q.Joined() == p.Joined()
    ensures q.Normal() == p.Normal()
  {
    var u, v := p.Normal(), q.Normal();
    JoinedDashes(p);
    JoinedDashes(q);
    NoDashes(u.tenant);
    NoDashes(u.project);
    NoDashes(u.name);
    assert DashCount("-") == 1;
    SingleDashPlaces(u.tenant, u.project, u.name, v.tenant, v.project, v.env, v.name);
  }

  /** Without dashes nothing else has the same join, whatever the other one looks like. */
  lemma PlainIsUnique(p: PathRef, q: PathRef)
    requires DashFree(p.tenant) && DashFree(p.project) && DashFree(p.Normal().env) && DashFree(p.name)
    requires q.Joined() == p.Joined()
    ensures q.Normal() == p.Normal()
  {
    JoinedDashes(p);
    JoinedDashes(q);
    NoDashes(p.tenant);
    NoDashes(p.project);
    NoDashes(p.Normal().env);
    NoDashes(p.name);
    NoDashes(q.tenant);
    NoDashes(q.project);
    NoDashes(q.Normal().env);
    NoDashes(q.name);
    JoinedInjective(p.Normal(), q.Normal());
  }

  /** An application shares its plain join with another if and only if some component of it holds a dash, the single
      exception being an environment that is nothing but a dash. A dash in the application's name alone suffices. */
  lemma CollidesExactlyWhen(p: PathRef)
    ensures Collides(p) <==>
            !DashFree(p.tenant) || !DashFree(p.project) || !DashFree(p.name) ||
            (!DashFree(p.Normal().env) && p.Normal().env != "-")
  {
    if !DashFree(p.tenant) {
      TenantCollides(p);
    } else if !DashFree(p.project) {
      ProjectCollides(p);
    } else if !DashFree(p.name) {
      NameCollides(p);
    } else if DashFree(p.Normal().env) {
      forall q: PathRef | q.Joined() == p.Joined()
        ensures q.Normal() == p.Normal()
      {
        PlainIsUnique(p, q);
      }
    } else if p.Normal().env == "-" {
      forall q: PathRef | q.Joined() == p.Joined()
        ensures q.Normal() == p.Normal()
      {
        SingleDash(p, q);
      }
    } else {
      EnvironmentCollides(p);
    }
  }
}
