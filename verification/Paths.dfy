/** Relative paths and the strings the client and the server build from them.  A path is a string of
    components separated by '/'; `Under` is the strict ancestor relation between two such strings. */
module Paths {

  const SEPARATOR: char := '/'

  /** boost's `path{base}.append(path)` for a relative path. */
  function Join(base: string, path: string): string {
    base + [SEPARATOR] + path
  }

  /** `a` is a strict ancestor of `p`: `p` continues `a` after a separator. */
  predicate Under(a: string, p: string) {
    |a| < |p| && p[|a|] == SEPARATOR && p[..|a|] == a
  }

  /** The string before the last separator, or "" when there is none. */
  function Parent(v: string): string {
    if v == "" then ""
    else if v[|v| - 1] == SEPARATOR then v[..|v| - 1]
    else Parent(v[..|v| - 1])
  }

  /** `s.substr(s.find('/') + 1)`: everything after the first separator, all of `s` when there is none. */
  function Strip(s: string): string {
    if SEPARATOR !in s then s
    else if s[0] == SEPARATOR then s[1..]
    else Strip(s[1..])
  }

  /** A user name as the server needs it: it becomes the first component of every stored path. */
  predicate ValidUser(u: string) {
    u != "" && SEPARATOR !in u
  }

  lemma {:induction false} ParentOfName(name: string)
    requires SEPARATOR !in name
    ensures Parent(name) == ""
  {
    if name == "" {
    } else {
      ParentOfName(name[..|name| - 1]);
    }
  }

  lemma JoinInjective(b: string, p: string, q: string)
    requires Join(b, p) == Join(b, q)
    ensures p == q
  {
    assert Join(b, p)[|b| + 1..] == p;
    assert Join(b, q)[|b| + 1..] == q;
  }

  lemma JoinUnder(b: string, p: string)
    ensures Under(b, Join(b, p))
    ensures Join(b, p)[|b| + 1..] == p
  {
  }

  lemma UnderTransitive(a: string, b: string, c: string)
    requires Under(a, b) && Under(b, c)
    ensures Under(a, c)
  {
    assert c[..|b|][..|a|] == c[..|a|];
    assert c[|a|] == c[..|b|][|a|];
  }

  /** Joining with one base keeps and reflects the ancestor relation. */
  lemma UnderJoin(b: string, p: string, q: string)
    ensures Under(Join(b, p), Join(b, q)) <==> Under(p, q)
  {
    var vp, vq := Join(b, p), Join(b, q);
    assert vp[|b| + 1..] == p && vq[|b| + 1..] == q;
    if Under(vp, vq) {
      assert vq[..|vp|][|b| + 1..] == p;
      assert vq[..|vp|][|b| + 1..] == q[..|p|];
    }
    if Under(p, q) {
      assert vq[..|vp|] == b + [SEPARATOR] + q[..|p|];
    }
  }

  lemma {:induction false} ParentOfJoin(b: string, a: string)
    ensures SEPARATOR !in a ==> Parent(Join(b, a)) == b
    ensures SEPARATOR in a ==> Under(Parent(a), a) && Parent(Join(b, a)) == Join(b, Parent(a))
  {
    var v := Join(b, a);
    if a == "" {
      assert v[..|v| - 1] == b;
    } else {
      var a' := a[..|a| - 1];
      assert v[..|v| - 1] == Join(b, a');
      assert a == a' + [a[|a| - 1]];
      if a[|a| - 1] != SEPARATOR {
        ParentOfJoin(b, a');
      }
    }
  }

  /** Stripping the first component inverts the user prefix on every relative path, and leaves a single one. */
  lemma {:induction false} StripJoin(u: string, p: string)
    requires SEPARATOR !in u
    ensures Strip(Join(u, p)) == p && Strip(u) == u
  {
    var v := Join(u, p);
    assert v[|u|] == SEPARATOR;
    if u == "" {
      assert v[1..] == p;
    } else {
      assert v[1..] == Join(u[1..], p);
      StripJoin(u[1..], p);
    }
  }

  /** Strings below one user's directory are neither equal to, nor above, strings below another's. */
  lemma UsersDisjoint(u: string, w: string, p: string, q: string)
    requires ValidUser(u) && ValidUser(w) && u != w
    ensures Join(u, p) != Join(w, q)
    ensures !Under(Join(u, p), Join(w, q))
    ensures !Under(u, Join(w, q))
    ensures u != Join(w, q)
  {
    var vp, vq := Join(u, p), Join(w, q);
    assert vp[|u|] == SEPARATOR && vq[|w|] == SEPARATOR;
    assert vp[..|u|] == u && vq[..|w|] == w;
  }
}
