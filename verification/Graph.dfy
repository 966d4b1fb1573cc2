/**
 Connectedness in a finite undirected graph whose nodes are the numbers below n.
 */
module Graph {
  type Link = (nat, nat) -> bool

  ghost predicate IsPath(n: nat, link: Link, p: seq<nat>) {
    && p != []
    && (forall k | 0 <= k < |p| :: p[k] < n)
    && (forall k: nat | k < |p| - 1 :: link(p[k], p[k + 1]))
  }

  ghost predicate Connected(n: nat, link: Link, i: nat, j: nat) {
    exists p :: IsPath(n, link, p) && p[0] == i && p[|p| - 1] == j
  }

  lemma ConnectedToSelf(n: nat, link: Link, i: nat)
    requires i < n
    ensures Connected(n, link, i, i)
  {
    assert IsPath(n, link, [i]);
  }

  lemma ConnectedByLink(n: nat, link: Link, i: nat, j: nat)
    requires i < n && j < n && link(i, j)
    ensures Connected(n, link, i, j)
  {
    assert IsPath(n, link, [i, j]);
  }

  lemma ConnectedThrough(n: nat, link: Link, i: nat, j: nat, k: nat)
    requires Connected(n, link, i, j) && Connected(n, link, j, k)
    ensures Connected(n, link, i, k)
  {
    var p :| IsPath(n, link, p) && p[0] == i && p[|p| - 1] == j;
    var q :| IsPath(n, link, q) && q[0] == j && q[|q| - 1] == k;
    var r := p + q[1..];
    assert r[|r| - 1] == k;
    assert IsPath(n, link, r);
  }

  // Connected nodes share every set that links cannot leave.
  lemma {:induction false} SetsAreClosed(n: nat, link: Link, inside: set<nat>, p: seq<nat>)
    requires IsPath(n, link, p) && p[0] in inside
    requires forall a: nat, b: nat | a in inside && b < n && link(a, b) :: b in inside
    ensures p[|p| - 1] in inside
    decreases |p|
  {
    if |p| > 1 {
      assert link(p[0], p[1]);
      var rest := p[1..];
      assert IsPath(n, link, rest) by {
        forall k: nat | k < |rest| - 1 ensures link(rest[k], rest[k + 1]) {
          assert rest[k] == p[k + 1] && rest[k + 1] == p[k + 2];
        }
      }
      SetsAreClosed(n, link, inside, rest);
    }
  }

  /** A set of nodes that no link leaves holds whatever is connected to its members. */
  lemma ConnectedStaysInside(n: nat, link: Link, inside: set<nat>, i: nat, j: nat)
    requires Connected(n, link, i, j) && i in inside
    requires forall a: nat, b: nat | a in inside && b < n && link(a, b) :: b in inside
    ensures j in inside
  {
    var p :| IsPath(n, link, p) && p[0] == i && p[|p| - 1] == j;
    SetsAreClosed(n, link, inside, p);
  }
}
