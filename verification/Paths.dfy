/** Remote paths as strings, and what the string tests of pkg/agent/filesystem say about path components. */
module Paths {
  /** Components of a clean relative path: not empty, without a separator. The root is the empty list. */
  predicate Clean(components: seq<string>) {
    forall i :: 0 <= i < |components| ==> components[i] != "" && '/' !in components[i]
  }

  function Join(components: seq<string>): string {
    if components == [] then ""
    else if |components| == 1 then components[0]
    else components[0] + "/" + Join(components[1..])
  }

  /** pathPrefix: the candidate lies strictly below the parent. */
  predicate PathPrefix(candidate: string, parent: string) {
    if parent == "" then candidate != ""
    else |candidate| > |parent| && candidate[..|parent|] == parent && candidate[|parent|] == '/'
  }

  /** The test that every invalidation and every node sweep makes. */
  predicate Covers(path: string, candidate: string) {
    candidate == path || PathPrefix(candidate, path)
  }

  /** The index of the last separator, or -1. */
  function LastSlash(path: string): (i: int)
    ensures -1 <= i < |path|
    ensures i >= 0 ==> path[i] == '/'
    ensures forall k :: i < k < |path| ==> path[k] != '/'
  {
    if path == "" then -1
    else if path[|path| - 1] == '/' then |path| - 1
    else LastSlash(path[..|path| - 1])
  }

  /** parentAndName: path.Split without the separator that ends the parent. */
  function ParentAndName(path: string): (r: (string, string)) {
    var i := LastSlash(path);
    if i < 0 then ("", path) else (path[..i], path[i + 1..])
  }

  function Parent(path: string): string {
    ParentAndName(path).0
  }

  /** path.Dir of a clean relative path. */
  function Dir(path: string): string {
    var i := LastSlash(path);
    if i < 0 then "." else path[..i]
  }

  lemma LastSlashUnique(path: string, i: int)
    requires -1 <= i < |path|
    requires i >= 0 ==> path[i] == '/'
    requires forall k :: i < k < |path| ==> path[k] != '/'
    ensures LastSlash(path) == i
  {
  }

  lemma JoinNotEmpty(components: seq<string>)
    requires Clean(components) && components != []
    ensures Join(components) != ""
  {
  }

  /** The first component of a joined path ends at its first separator. */
  lemma JoinHead(components: seq<string>)
    requires Clean(components) && components != []
    ensures var s := Join(components); var n := |components[0]|;
            && n <= |s| && s[..n] == components[0]
            && (|components| == 1 <==> n == |s|)
            && (|components| > 1 ==> s[n] == '/' && s[n + 1..] == Join(components[1..]))
  {
  }

  lemma FirstSlashUnique(s: string, m: nat, n: nat)
    requires m <= |s| && n < |s| && s[n] == '/'
    requires m < |s| ==> s[m] == '/'
    requires forall k :: 0 <= k < n ==> s[k] != '/'
    requires forall k :: 0 <= k < m ==> s[k] != '/'
    ensures m == n
  {
  }

  lemma SameHeadLength(a: seq<string>, b: seq<string>)
    requires Clean(a) && Clean(b) && a != [] && b != []
    requires PathPrefix(Join(a), Join(b))
    ensures |a| > 1 && a[0] == b[0]
  {
    JoinNotEmpty(b);
    JoinHead(a);
    JoinHead(b);
    var s, t, m, n := Join(a), Join(b), |a[0]|, |b[0]|;
    assert s[n] == '/' by {
      if |b| > 1 {
        assert s[..|t|][n] == t[n];
      }
    }
    forall k | 0 <= k < n ensures s[k] != '/' {
      assert s[k] == s[..|t|][k] == t[..n][k] == b[0][k];
    }
    forall k | 0 <= k < m ensures s[k] != '/' {
      assert s[k] == s[..m][k] == a[0][k];
    }
    FirstSlashUnique(s, m, n);
    assert s[..m] == s[..|t|][..m] == t[..n];
  }

  /** pathPrefix on strings is the proper-prefix relation on components. */
  lemma {:induction false} PathPrefixIsComponentPrefix(a: seq<string>, b: seq<string>)
    requires Clean(a) && Clean(b)
    ensures PathPrefix(Join(a), Join(b)) <==> |b| < |a| && a[..|b|] == b
  {
    if b == [] {
      if a != [] {
        JoinNotEmpty(a);
      }
    } else if a == [] {
      JoinNotEmpty(b);
    } else {
      JoinNotEmpty(b);
      JoinHead(a);
      JoinHead(b);
      var s, t, n := Join(a), Join(b), |b[0]|;
      if |a| > 1 && a[0] == b[0] {
        PathPrefixIsComponentPrefix(a[1..], b[1..]);
        assert a == [a[0]] + a[1..] && b == [b[0]] + b[1..];
        if |b| > 1 {
          JoinNotEmpty(b[1..]);
          TailPrefix(s, t, n);
        } else {
          JoinNotEmpty(a[1..]);
        }
      } else if PathPrefix(s, t) {
        SameHeadLength(a, b);
      }
    }
  }

  /** Dropping a common first component and its separator keeps the prefix test. */
  lemma TailPrefix(s: string, t: string, n: nat)
    requires n + 1 < |t| && n < |s| && s[..n] == t[..n] && s[n] == t[n] == '/'
    ensures PathPrefix(s, t) <==> PathPrefix(s[n + 1..], t[n + 1..])
  {
  }

  lemma {:induction false} JoinLast(components: seq<string>)
    requires |components| > 1
    ensures Join(components) == Join(components[..|components| - 1]) + "/" + components[|components| - 1]
  {
    if |components| > 2 {
      var front := components[..|components| - 1];
      JoinLast(components[1..]);
      assert front[1..] == components[1..][..|components| - 2];
    }
  }

  lemma SplitLast(front: string, last: string)
    requires '/' !in last
    ensures ParentAndName(front + "/" + last) == (front, last)
  {
    var s := front + "/" + last;
    LastSlashUnique(s, |front|);
    assert s[..|front|] == front && s[|front| + 1..] == last;
  }

  /** Splitting off the last component undoes joining it on. */
  lemma ParentAndNameOfJoin(components: seq<string>)
    requires Clean(components) && components != []
    ensures ParentAndName(Join(components)) == (Join(components[..|components| - 1]), components[|components| - 1])
  {
    var s := Join(components);
    if |components| == 1 {
      LastSlashUnique(s, -1);
    } else {
      JoinLast(components);
      SplitLast(Join(components[..|components| - 1]), components[|components| - 1]);
    }
  }

  /** The parent as invalidateChange computes it. */
  function DirOrRoot(path: string): string {
    if Dir(path) == "." then "" else Dir(path)
  }

  /** The two ways the code finds a parent agree, as no parent of a clean path is called ".". */
  lemma DirAgrees(path: string)
    ensures DirOrRoot(path) == Parent(path) <==> Parent(path) != "."
  {
  }

  /** Whatever lies below a path has its parent at that path or below it. */
  lemma ParentStaysBelow(path: string, candidate: string)
    requires PathPrefix(candidate, path)
    ensures Covers(path, Parent(candidate))
  {
  }

  lemma BelowParent(path: string)
    ensures Parent(path) != "" ==> PathPrefix(path, Parent(path))
    ensures path != "" ==> |Parent(path)| < |path|
  {
  }

  lemma CoversTransitive(a: string, b: string, c: string)
    requires Covers(a, b) && Covers(b, c)
    ensures Covers(a, c)
  {
  }

  /** Neither path lies at or below the other. */
  predicate Apart(a: string, b: string) {
    !Covers(a, b) && !Covers(b, a)
  }

  /** What renameNodes makes of a path at or below the old one: the new path and what followed. */
  function Rebase(path: string, from: string, to: string): string
    requires |from| <= |path|
  {
    to + path[|from|..]
  }

  lemma CoversLength(path: string, candidate: string)
    requires Covers(path, candidate)
    ensures |path| <= |candidate| && candidate[..|path|] == path
  {
  }

  /** Two paths above a third are comparable: the subtrees of paths that are apart have nothing in common. */
  lemma Comparable(a: string, b: string, candidate: string)
    requires Covers(a, candidate) && Covers(b, candidate)
    ensures !Apart(a, b)
  {
  }

  /** Moving a path from one subtree to the other and back. */
  lemma RebaseBack(path: string, from: string, to: string)
    requires Covers(from, path) && from != "" && to != ""
    ensures Covers(to, Rebase(path, from, to)) && Rebase(Rebase(path, from, to), to, from) == path
  {
  }

  /** Clean relative paths never name the current directory and do not begin at a root. */
  predicate Proper(path: string) {
    path != "." && Parent(path) != "." && (path == "" || path[0] != '/')
  }

  /** The path of an entry of a directory. */
  function Child(dir: string, name: string): string {
    if dir == "" then name else dir + "/" + name
  }

  /** A path is the entry of its name in its parent directory. */
  lemma ChildOfParent(path: string)
    requires Proper(path)
    ensures path == Child(Parent(path), ParentAndName(path).1)
  {
    var i := LastSlash(path);
    if i >= 0 {
      assert path == path[..i] + "/" + path[i + 1..];
    }
  }

  lemma RebaseProper(path: string, from: string, to: string)
    requires Covers(from, path) && from != "" && to != "" && Proper(to)
    ensures Proper(Rebase(path, from, to))
  {
    var moved := Rebase(path, from, to);
    RebaseBack(path, from, to);
    if moved != to {
      assert moved[|to|] == '/';
      assert LastSlash(moved) >= |to|;
      if LastSlash(moved) == |to| {
        assert Parent(moved) == to;
      } else {
        assert Parent(moved)[|to|] == '/';
      }
    }
  }

  /** The parent moves along with what is below it. */
  lemma RebaseParent(path: string, from: string, to: string)
    requires PathPrefix(path, from) && from != "" && to != ""
    ensures Covers(from, Parent(path)) && Parent(Rebase(path, from, to)) == Rebase(Parent(path), from, to)
  {
    ParentStaysBelow(from, path);
    var i := LastSlash(path);
    var moved := Rebase(path, from, to);
    LastSlashUnique(moved, i - |from| + |to|);
    assert moved[..i - |from| + |to|] == to + path[|from|..i];
    assert path[..i][|from|..] == path[|from|..i];
  }
}
