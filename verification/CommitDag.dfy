/** Git commits as the kernel sees them.  A commit id is a hash of its content, so a commit
    is modelled as that content: its parents, its tree, and `stamp` for everything else. */
module CommitDag {

  type Tree = nat

  datatype Commit = Commit(parents: seq<Commit>, tree: Tree, stamp: nat)

  /** What `git merge-base --is-ancestor a b` answers. */
  predicate IsAncestor(a: Commit, b: Commit) {
    a == b || exists p | p in b.parents :: IsAncestor(a, p)
  }

  lemma {:induction false} AncestorTransitive(a: Commit, b: Commit, c: Commit)
    requires IsAncestor(a, b) && IsAncestor(b, c)
    ensures IsAncestor(a, c)
    decreases c
  {
    if b != c {
      var p :| p in c.parents && IsAncestor(b, p);
      AncestorTransitive(a, b, p);
    }
  }
}
