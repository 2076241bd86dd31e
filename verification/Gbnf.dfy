/** The grammar that `make_gbnf_excluding` builds to keep forbidden strings out of an argument value. */
module Gbnf {
  import opened Text

  /** An alternative of one character outside a class, or of a literal character and what follows it.
      Without a class there is no alternative at all. */
  datatype Expr = Expr(except: string, branches: seq<(char, Expr)>)

  predicate IsEmpty(e: Expr) {
    e.except == ""
  }

  predicate Matches(e: Expr, w: string)
    decreases |w|, 0
  {
    || (|w| == 1 && e.except != "" && w[0] !in e.except)
    || (|w| > 0 && BranchMatches(e.branches, w[0], w[1..]))
  }

  predicate BranchMatches(branches: seq<(char, Expr)>, c: char, w: string)
    decreases |w|, 1
  {
    exists i :: 0 <= i < |branches| && branches[i].0 == c && Matches(branches[i].1, w)
  }

  /** The order of `std::sort` on strings. */
  predicate Leq(a: string, b: string) {
    a == "" || (b != "" && (a[0] < b[0] || (a[0] == b[0] && Leq(a[1..], b[1..]))))
  }

  predicate Sorted(forbids: seq<string>) {
    forall i, j :: 0 <= i < j < |forbids| ==> Leq(forbids[i], forbids[j])
  }

  /** No non-empty forbidden string is the beginning of another one. */
  predicate PrefixFree(forbids: seq<string>) {
    forall i, j :: 0 <= i < |forbids| && 0 <= j < |forbids| && forbids[i] != "" && forbids[i] <= forbids[j] ==>
      forbids[i] == forbids[j]
  }

  predicate SharePrefix(forbids: seq<string>, l: nat, r: nat, depth: nat) {
    l <= r <= |forbids| && forall i, j :: l <= i < r && l <= j < r ==>
      depth <= |forbids[i]| && depth <= |forbids[j]| && forbids[i][..depth] == forbids[j][..depth]
  }

  /** From depth on, w leaves the k-th string exactly at its last character. */
  predicate LeavesAtLast(f: string, depth: nat, w: string) {
    w != "" && depth + |w| - 1 < |f| && f[depth..depth + |w| - 1] == w[..|w| - 1]
  }

  predicate Continues(f: string, depth: nat, w: string) {
    depth + |w| <= |f| && f[depth..depth + |w|] == w
  }

  /** The words that walk along some string of the range and leave all of them with the last character. */
  ghost predicate IsBlockIn(forbids: seq<string>, l: nat, r: nat, depth: nat, w: string)
    requires r <= |forbids|
  {
    && (exists k :: l <= k < r && LeavesAtLast(forbids[k], depth, w))
    && (forall k :: l <= k < r ==> !Continues(forbids[k], depth, w))
  }

  lemma {:induction false} LeqAtDepth(a: string, b: string, depth: nat)
    requires Leq(a, b) && depth < |a| && depth < |b| && a[..depth] == b[..depth]
    ensures a[depth] <= b[depth]
  {
    if depth > 0 {
      assert a[0] == a[..depth][0] == b[..depth][0] == b[0];
      assert a[1..][..depth - 1] == a[..depth][1..] == b[..depth][1..] == b[1..][..depth - 1];
      LeqAtDepth(a[1..], b[1..], depth - 1);
    }
  }

  /** A class of strings of the range that go on with the same character. */
  datatype Child = Child(c: char, l: nat, r: nat)

  predicate IsChild(forbids: seq<string>, l: nat, r: nat, depth: nat, ch: Child) {
    && l <= ch.l < ch.r <= r <= |forbids|
    && forall k :: ch.l <= k < ch.r ==> depth < |forbids[k]| && forbids[k][depth] == ch.c
  }

  /** The children found so far cover [l, i), in order. */
  predicate Covered(forbids: seq<string>, l: nat, i: nat, depth: nat, children: seq<Child>) {
    && l <= i <= |forbids|
    && (forall m :: 0 <= m < |children| ==> IsChild(forbids, l, i, depth, children[m]))
    && (forall k :: l <= k < i && depth < |forbids[k]| ==>
        exists m :: 0 <= m < |children| && children[m].l <= k < children[m].r)
  }

  /** Strings of the range that go on with the character of a child are in that child. */
  predicate Complete(forbids: seq<string>, l: nat, r: nat, depth: nat, children: seq<Child>)
    requires r <= |forbids|
  {
    forall m, k :: 0 <= m < |children| && l <= k < r && depth < |forbids[k]| && forbids[k][depth] == children[m].c ==>
      children[m].l <= k < children[m].r
  }

  /** Groups the strings of the range by their next character. */
  method Children(forbids: seq<string>, l: nat, r: nat, depth: nat) returns (children: seq<Child>)
    requires Sorted(forbids) && SharePrefix(forbids, l, r, depth)
    ensures Covered(forbids, l, r, depth, children) && Complete(forbids, l, r, depth, children)
  {
    children := [];
    var i := l;
    while i < r
      invariant l <= i <= r
      invariant Covered(forbids, l, i, depth, children)
      invariant Complete(forbids, l, r, depth, children)
    {
      if |forbids[i]| == depth {
        i := i + 1;
        continue;
      }
      var c := forbids[i][depth];
      var j := i;
      while j < r && |forbids[j]| > depth && forbids[j][depth] == c
        invariant i <= j <= r
        invariant j == i ==> |forbids[i]| > depth && forbids[i][depth] == c
        invariant forall k :: i <= k < j ==> depth < |forbids[k]| && forbids[k][depth] == c
      {
        j := j + 1;
      }
      AddChild(forbids, l, r, depth, children, i, j);
      children := children + [Child(c, i, j)];
      i := j;
    }
  }

  lemma AddChild(forbids: seq<string>, l: nat, r: nat, depth: nat, children: seq<Child>, i: nat, j: nat)
    requires Sorted(forbids) && SharePrefix(forbids, l, r, depth) && l <= i < j <= r && depth < |forbids[i]|
    requires Covered(forbids, l, i, depth, children) && Complete(forbids, l, r, depth, children)
    requires forall k :: i <= k < j ==> depth < |forbids[k]| && forbids[k][depth] == forbids[i][depth]
    requires j < r && depth < |forbids[j]| ==> forbids[j][depth] != forbids[i][depth]
    ensures Covered(forbids, l, j, depth, children + [Child(forbids[i][depth], i, j)])
    ensures Complete(forbids, l, r, depth, children + [Child(forbids[i][depth], i, j)])
  {
    var c := forbids[i][depth];
    var next := children + [Child(c, i, j)];
    forall k: nat | l <= k < r && depth < |forbids[k]| && forbids[k][depth] == c
      ensures i <= k < j
    {
      if j <= k {
        GroupEnds(forbids, l, r, depth, i, j, k);
      }
    }
    CoveredOneMore(forbids, l, depth, children, i, j);
  }

  lemma CoveredOneMore(forbids: seq<string>, l: nat, depth: nat, children: seq<Child>, i: nat, j: nat)
    requires Covered(forbids, l, i, depth, children) && i < j <= |forbids| && depth < |forbids[i]|
    requires forall k :: i <= k < j ==> depth < |forbids[k]| && forbids[k][depth] == forbids[i][depth]
    ensures Covered(forbids, l, j, depth, children + [Child(forbids[i][depth], i, j)])
  {
    var next := children + [Child(forbids[i][depth], i, j)];
    forall k | l <= k < j && depth < |forbids[k]|
      ensures exists m :: 0 <= m < |next| && next[m].l <= k < next[m].r
    {
      if k < i {
        var m :| 0 <= m < |children| && children[m].l <= k < children[m].r;
        assert next[m].l <= k < next[m].r;
      } else {
        assert next[|children|].l <= k < next[|children|].r;
      }
    }
  }

  /** In a sorted range the strings with one next character stand together. */
  lemma GroupEnds(forbids: seq<string>, l: nat, r: nat, depth: nat, i: nat, j: nat, k: nat)
    requires Sorted(forbids) && SharePrefix(forbids, l, r, depth) && l <= i < j <= k < r
    requires depth < |forbids[i]| && depth < |forbids[k]| && forbids[k][depth] == forbids[i][depth]
    ensures depth < |forbids[j]| && forbids[j][depth] == forbids[i][depth]
  {
    var a, b, c := forbids[i], forbids[j], forbids[k];
    assert Leq(a, b);
    LeqLonger(a, b, depth);
    LeqAtDepth(a, b, depth);
    if j < k {
      assert Leq(b, c);
      LeqAtDepth(b, c, depth);
    }
  }

  lemma {:induction false} LeqLonger(a: string, b: string, depth: nat)
    requires Leq(a, b) && depth < |a| && depth <= |b| && a[..depth] == b[..depth]
    ensures depth < |b|
  {
    if depth > 0 {
      assert a[0] == a[..depth][0] == b[..depth][0] == b[0];
      assert a[1..][..depth - 1] == a[..depth][1..] == b[..depth][1..] == b[1..][..depth - 1];
      LeqLonger(a[1..], b[1..], depth - 1);
    }
  }

  function MaxLength(forbids: seq<string>): (r: nat)
    ensures forall f :: f in forbids ==> |f| <= r
  {
    if forbids == [] then 0
    else
      var rest := MaxLength(forbids[1..]);
      if |forbids[0]| <= rest then rest else |forbids[0]|
  }

  function ClassOf(children: seq<Child>): string {
    seq(|children|, m requires 0 <= m < |children| => children[m].c)
  }

  /** A word that goes on, behind the character c, as a block of the child for c. */
  ghost predicate ChildMatches(forbids: seq<string>, depth: nat, children: seq<Child>, c: char, w: string) {
    exists m :: 0 <= m < |children| && children[m].c == c && InChild(forbids, depth, children[m], w)
  }

  /** The branches built for a prefix of the children. */
  ghost predicate BranchesFor(forbids: seq<string>, depth: nat, children: seq<Child>, branches: seq<(char, Expr)>) {
    forall c, w :: BranchMatches(branches, c, w) <==> ChildMatches(forbids, depth, children, c, w)
  }

  ghost predicate InChild(forbids: seq<string>, depth: nat, ch: Child, w: string) {
    ch.r <= |forbids| && IsBlockIn(forbids, ch.l, ch.r, depth + 1, w)
  }

  /** The recursive construction: what it matches are exactly the blocks of the range. */
  method BuildExpr(forbids: seq<string>, l: nat, r: nat, depth: nat) returns (e: Expr)
    requires Sorted(forbids) && SharePrefix(forbids, l, r, depth)
    ensures forall w :: Matches(e, w) <==> IsBlockIn(forbids, l, r, depth, w)
    ensures IsEmpty(e) <==> forall k :: l <= k < r ==> |forbids[k]| == depth
    decreases MaxLength(forbids) - depth, 1
  {
    var children := Children(forbids, l, r, depth);
    var branches := [];
    var m := 0;
    while m < |children|
      invariant 0 <= m <= |children|
      invariant BranchesFor(forbids, depth, children[..m], branches)
    {
      var ch := children[m];
      assert IsChild(forbids, l, r, depth, ch);
      ChildSharesPrefix(forbids, l, r, depth, ch);
      assert forbids[ch.l] in forbids;
      var child := BuildExpr(forbids, ch.l, ch.r, depth + 1);
      var next := branches;
      if !IsEmpty(child) {
        next := branches + [(ch.c, child)];
      }
      AddBranch(forbids, depth, children, m, branches, child, next);
      branches := next;
      m := m + 1;
    }
    assert children[..m] == children;
    e := Expr(ClassOf(children), branches);
    forall w
      ensures Matches(e, w) <==> IsBlockIn(forbids, l, r, depth, w)
    {
      NodeMatches(forbids, l, r, depth, children, branches, w);
    }
    EmptyNode(forbids, l, r, depth, children);
  }

  lemma EmptyNode(forbids: seq<string>, l: nat, r: nat, depth: nat, children: seq<Child>)
    requires SharePrefix(forbids, l, r, depth) && Covered(forbids, l, r, depth, children)
    ensures children == [] <==> forall k :: l <= k < r ==> |forbids[k]| == depth
  {
    if children != [] {
      assert IsChild(forbids, l, r, depth, children[0]);
      assert depth < |forbids[children[0].l]|;
    } else {
      forall k | l <= k < r
        ensures |forbids[k]| == depth
      {
        assert depth <= |forbids[k]|;
      }
    }
  }

  lemma ChildSharesPrefix(forbids: seq<string>, l: nat, r: nat, depth: nat, ch: Child)
    requires SharePrefix(forbids, l, r, depth) && IsChild(forbids, l, r, depth, ch)
    ensures SharePrefix(forbids, ch.l, ch.r, depth + 1)
  {
    forall i, j | ch.l <= i < ch.r && ch.l <= j < ch.r
      ensures forbids[i][..depth + 1] == forbids[j][..depth + 1]
    {
      assert forbids[i][..depth + 1] == forbids[i][..depth] + [ch.c];
      assert forbids[j][..depth + 1] == forbids[j][..depth] + [ch.c];
    }
  }

  lemma OneMoreBranch(branches: seq<(char, Expr)>, b: (char, Expr), c: char, w: string)
    ensures BranchMatches(branches + [b], c, w) <==> BranchMatches(branches, c, w) || (b.0 == c && Matches(b.1, w))
  {
    var next := branches + [b];
    assert next[|branches|] == b;
    assert forall i :: 0 <= i < |branches| ==> next[i] == branches[i];
  }

  lemma OneMoreChild(forbids: seq<string>, depth: nat, children: seq<Child>, ch: Child, c: char, w: string)
    ensures ChildMatches(forbids, depth, children + [ch], c, w)
            <==> ChildMatches(forbids, depth, children, c, w) || (ch.c == c && InChild(forbids, depth, ch, w))
  {
    hide InChild;
    var next := children + [ch];
    assert next[|children|] == ch;
    assert forall i :: 0 <= i < |children| ==> next[i] == children[i];
  }

  lemma AddBranch(forbids: seq<string>, depth: nat, children: seq<Child>, m: nat,
                  branches: seq<(char, Expr)>, child: Expr, next: seq<(char, Expr)>)
    requires m < |children| && children[m].r <= |forbids|
    requires BranchesFor(forbids, depth, children[..m], branches)
    requires forall w :: Matches(child, w) <==> IsBlockIn(forbids, children[m].l, children[m].r, depth + 1, w)
    requires next == if IsEmpty(child) then branches else branches + [(children[m].c, child)]
    requires IsEmpty(child) ==> forall k :: children[m].l <= k < children[m].r ==> |forbids[k]| == depth + 1
    ensures BranchesFor(forbids, depth, children[..m + 1], next)
  {
    hide Matches;
    hide BranchMatches;
    hide ChildMatches;
    var ch := children[m];
    assert children[..m + 1] == children[..m] + [ch];
    forall c, w
      ensures BranchMatches(next, c, w) <==> ChildMatches(forbids, depth, children[..m + 1], c, w)
    {
      OneMoreBranch(branches, (ch.c, child), c, w);
      OneMoreChild(forbids, depth, children[..m], ch, c, w);
      assert Matches(child, w) <==> InChild(forbids, depth, ch, w);
      if IsEmpty(child) {
        NoBlockInside(forbids, ch, depth, w);
      }
    }
  }

  lemma NoBlockInside(forbids: seq<string>, ch: Child, depth: nat, w: string)
    requires ch.r <= |forbids| && forall k :: ch.l <= k < ch.r ==> |forbids[k]| == depth + 1
    ensures !InChild(forbids, depth, ch, w)
  {
  }

  /** Dropping the first character of a word along a string that starts with it at depth. */
  lemma OneDeeper(f: string, depth: nat, w: string)
    requires |w| > 1 && depth < |f| && f[depth] == w[0]
    ensures LeavesAtLast(f, depth, w) <==> LeavesAtLast(f, depth + 1, w[1..])
    ensures Continues(f, depth, w) <==> Continues(f, depth + 1, w[1..])
  {
    var v := w[1..];
    if depth + |w| - 1 <= |f| {
      assert f[depth..depth + |w| - 1] == [f[depth]] + f[depth + 1..depth + |w| - 1];
      assert w[..|w| - 1] == [w[0]] + v[..|v| - 1];
    }
    if depth + |w| <= |f| {
      assert f[depth..depth + |w|] == [f[depth]] + f[depth + 1..depth + |w|];
      assert w == [w[0]] + v;
    }
  }

  lemma FirstCharacter(f: string, depth: nat, w: string)
    requires |w| > 1
    ensures LeavesAtLast(f, depth, w) || Continues(f, depth, w) ==> depth < |f| && f[depth] == w[0]
  {
    if LeavesAtLast(f, depth, w) {
      assert f[depth..depth + |w| - 1][0] == w[..|w| - 1][0];
    }
    if Continues(f, depth, w) {
      assert f[depth..depth + |w|][0] == w[0];
    }
  }

  lemma NodeMatches(forbids: seq<string>, l: nat, r: nat, depth: nat, children: seq<Child>,
      branches: seq<(char, Expr)>, w: string)
    requires SharePrefix(forbids, l, r, depth)
    requires Covered(forbids, l, r, depth, children) && Complete(forbids, l, r, depth, children)
    requires BranchesFor(forbids, depth, children, branches)
    ensures Matches(Expr(ClassOf(children), branches), w) <==> IsBlockIn(forbids, l, r, depth, w)
  {
    if w == "" {
    } else if |w| == 1 {
      NodeMatchesOne(forbids, l, r, depth, children, branches, w);
    } else {
      NodeMatchesMore(forbids, l, r, depth, children, branches, w);
    }
  }

  lemma NoEmptyBlock(forbids: seq<string>, depth: nat, children: seq<Child>, c: char)
    ensures !ChildMatches(forbids, depth, children, c, "")
  {
  }

  /** The characters of the class are those with which some string of the range goes on. */
  lemma ClassIsNextCharacters(forbids: seq<string>, l: nat, r: nat, depth: nat, children: seq<Child>, c: char)
    requires r <= |forbids| && Covered(forbids, l, r, depth, children)
    ensures c in ClassOf(children) <==> exists k :: l <= k < r && depth < |forbids[k]| && forbids[k][depth] == c
  {
    var cls := ClassOf(children);
    if c in cls {
      var m :| 0 <= m < |cls| && cls[m] == c;
      assert IsChild(forbids, l, r, depth, children[m]);
      assert forbids[children[m].l][depth] == c;
    }
    if k :| l <= k < r && depth < |forbids[k]| && forbids[k][depth] == c {
      var m :| 0 <= m < |children| && children[m].l <= k < children[m].r;
      assert IsChild(forbids, l, r, depth, children[m]);
      assert cls[m] == c;
    }
  }

  lemma OneCharacter(f: string, depth: nat, w: string)
    requires |w| == 1
    ensures LeavesAtLast(f, depth, w) <==> depth < |f|
    ensures Continues(f, depth, w) <==> depth < |f| && f[depth] == w[0]
  {
    if depth < |f| {
      assert f[depth..depth + 1] == [f[depth]];
      assert f[depth..depth] == "" == w[..0];
      assert w == [w[0]];
    }
  }

  lemma NodeMatchesOne(forbids: seq<string>, l: nat, r: nat, depth: nat, children: seq<Child>,
      branches: seq<(char, Expr)>, w: string)
    requires SharePrefix(forbids, l, r, depth) && |w| == 1
    requires Covered(forbids, l, r, depth, children)
    requires BranchesFor(forbids, depth, children, branches)
    ensures Matches(Expr(ClassOf(children), branches), w) <==> IsBlockIn(forbids, l, r, depth, w)
  {
    hide BranchMatches;
    hide ChildMatches;
    hide LeavesAtLast;
    hide Continues;
    hide Covered;
    assert w[1..] == "";
    NoEmptyBlock(forbids, depth, children, w[0]);
    EmptyNode(forbids, l, r, depth, children);
    ClassIsNextCharacters(forbids, l, r, depth, children, w[0]);
    forall k | l <= k < r
      ensures LeavesAtLast(forbids[k], depth, w) <==> depth < |forbids[k]|
      ensures Continues(forbids[k], depth, w) <==> depth < |forbids[k]| && forbids[k][depth] == w[0]
    {
      OneCharacter(forbids[k], depth, w);
    }
    assert ClassOf(children) == "" <==> children == [];
  }

  /** Blocks of more than one character are those of the child for their first one. */
  lemma BlockOfChild(forbids: seq<string>, l: nat, r: nat, depth: nat, children: seq<Child>, w: string)
    requires r <= |forbids| && |w| > 1
    requires Covered(forbids, l, r, depth, children) && Complete(forbids, l, r, depth, children)
    ensures ChildMatches(forbids, depth, children, w[0], w[1..]) <==> IsBlockIn(forbids, l, r, depth, w)
  {
    hide LeavesAtLast;
    hide Continues;
    forall k | l <= k < r
      ensures LeavesAtLast(forbids[k], depth, w) || Continues(forbids[k], depth, w) ==>
          depth < |forbids[k]| && forbids[k][depth] == w[0]
      ensures depth < |forbids[k]| && forbids[k][depth] == w[0] ==>
              && (LeavesAtLast(forbids[k], depth, w) <==> LeavesAtLast(forbids[k], depth + 1, w[1..]))
              && (Continues(forbids[k], depth, w) <==> Continues(forbids[k], depth + 1, w[1..]))
    {
      FirstCharacter(forbids[k], depth, w);
      if depth < |forbids[k]| && forbids[k][depth] == w[0] {
        OneDeeper(forbids[k], depth, w);
      }
    }
    if m :| 0 <= m < |children| && children[m].c == w[0] && InChild(forbids, depth, children[m], w[1..]) {
      assert IsChild(forbids, l, r, depth, children[m]);
      var k :| children[m].l <= k < children[m].r && LeavesAtLast(forbids[k], depth + 1, w[1..]);
      assert LeavesAtLast(forbids[k], depth, w);
    }
    if IsBlockIn(forbids, l, r, depth, w) {
      var k :| l <= k < r && LeavesAtLast(forbids[k], depth, w);
      var m :| 0 <= m < |children| && children[m].l <= k < children[m].r;
      assert IsChild(forbids, l, r, depth, children[m]);
      assert LeavesAtLast(forbids[k], depth + 1, w[1..]);
      assert InChild(forbids, depth, children[m], w[1..]);
    }
  }

  lemma {:induction false} NodeMatchesMore(forbids: seq<string>, l: nat, r: nat, depth: nat, children: seq<Child>,
          branches: seq<(char, Expr)>, w: string)
    requires SharePrefix(forbids, l, r, depth) && |w| > 1
    requires Covered(forbids, l, r, depth, children) && Complete(forbids, l, r, depth, children)
    requires BranchesFor(forbids, depth, children, branches)
    ensures Matches(Expr(ClassOf(children), branches), w) <==> IsBlockIn(forbids, l, r, depth, w)
  {
    hide BranchMatches;
    hide ChildMatches;
    hide IsBlockIn;
    BlockOfChild(forbids, l, r, depth, children, w);
  }

  // ---- The language

  /** A walk along some forbidden string that leaves all of them with its last character. */
  ghost predicate IsBlock(forbids: seq<string>, w: string) {
    IsBlockIn(forbids, 0, |forbids|, 0, w)
  }

  /** Any number of blocks. */
  ghost predicate Accepts(forbids: seq<string>, s: string)
    decreases |s|
  {
    s == "" || exists k :: 0 < k <= |s| && IsBlock(forbids, s[..k]) && Accepts(forbids, s[k..])
  }

  /** `EmptyClass` repeats a negated class of no characters. */
  datatype Grammar = AnyText | Repeat(e: Expr) | EmptyClass

  predicate InRepeat(e: Expr, s: string)
    decreases |s|
  {
    s == "" || exists k :: 0 < k <= |s| && Matches(e, s[..k]) && InRepeat(e, s[k..])
  }

  predicate InGrammar(g: Grammar, s: string)
    requires !g.EmptyClass?
  {
    g.AnyText? || InRepeat(g.e, s)
  }

  /** `make_gbnf_excluding`; `sorted` is what `std::sort` makes of the strings. The grammar accepts exactly the
      sequences of blocks; only when there are strings, but none with a character, there is nothing to build it of. */
  method MakeGbnfExcluding(forbids: seq<string>, sorted: seq<string>) returns (g: Grammar)
    requires multiset(sorted) == multiset(forbids) && Sorted(sorted)
    ensures g.EmptyClass? <==> forbids != [] && forall f :: f in forbids ==> f == ""
    ensures forbids == [] ==> g.AnyText? && forall s :: InGrammar(g, s)
    ensures forbids != [] && !g.EmptyClass? ==> forall s :: InGrammar(g, s) <==> Accepts(forbids, s)
  {
    if forbids == [] {
      return AnyText;
    }
    SameStrings(forbids, sorted);
    var e := BuildExpr(sorted, 0, |sorted|, 0);
    if IsEmpty(e) {
      return EmptyClass;
    }
    ghost var k :| 0 <= k < |sorted| && |sorted[k]| != 0;
    assert sorted[k] in forbids;
    g := Repeat(e);
    forall s
      ensures InGrammar(g, s) <==> Accepts(forbids, s)
    {
      SameBlocks(forbids, sorted);
      RepeatIsAccepts(forbids, e, s);
    }
  }

  lemma SameStrings(forbids: seq<string>, sorted: seq<string>)
    requires multiset(sorted) == multiset(forbids)
    ensures forall f :: f in forbids <==> f in sorted
  {
    forall f
      ensures f in forbids <==> f in sorted
    {
      assert f in forbids <==> f in multiset(forbids);
      assert f in sorted <==> f in multiset(sorted);
    }
  }

  lemma BlockMeans(forbids: seq<string>, w: string)
    ensures IsBlock(forbids, w) <==>
            && (exists f :: f in forbids && LeavesAtLast(f, 0, w))
            && (forall f :: f in forbids ==> !Continues(f, 0, w))
  {
    if f :| f in forbids && LeavesAtLast(f, 0, w) {
      var k :| 0 <= k < |forbids| && forbids[k] == f;
    }
  }

  lemma SameBlocks(forbids: seq<string>, sorted: seq<string>)
    requires multiset(sorted) == multiset(forbids)
    ensures forall w :: IsBlock(forbids, w) <==> IsBlockIn(sorted, 0, |sorted|, 0, w)
  {
    SameStrings(forbids, sorted);
    forall w
      ensures IsBlock(forbids, w) <==> IsBlockIn(sorted, 0, |sorted|, 0, w)
    {
      BlockMeans(forbids, w);
      BlockMeans(sorted, w);
      assert IsBlockIn(sorted, 0, |sorted|, 0, w) <==> IsBlock(sorted, w);
    }
  }

  lemma {:induction false} RepeatIsAccepts(forbids: seq<string>, e: Expr, s: string)
    requires forall w :: Matches(e, w) <==> IsBlock(forbids, w)
    ensures InRepeat(e, s) <==> Accepts(forbids, s)
    decreases |s|
  {
    hide Matches;
    hide IsBlock;
    forall k | 0 < k <= |s|
      ensures InRepeat(e, s[k..]) <==> Accepts(forbids, s[k..])
    {
      RepeatIsAccepts(forbids, e, s[k..]);
    }
  }

  // ---- What the language excludes

  /** Blocks are never beginnings of one another: a text splits into blocks in one way only. */
  lemma BlocksArePrefixFree(forbids: seq<string>, u: string, v: string)
    requires IsBlock(forbids, u) && IsBlock(forbids, v) && u <= v
    ensures u == v
  {
    BlockMeans(forbids, u);
    BlockMeans(forbids, v);
    var f :| f in forbids && LeavesAtLast(f, 0, v);
    if |u| < |v| {
      LeavingPasses(f, u, v);
    }
  }

  lemma LeavingPasses(f: string, u: string, v: string)
    requires LeavesAtLast(f, 0, v) && u < v
    ensures Continues(f, 0, u) && u <= f
  {
    assert f[0..|u|] == f[0..|v| - 1][..|u|] == v[..|v| - 1][..|u|] == u;
  }

  ghost predicate IsBoundary(forbids: seq<string>, s: string, i: nat)
    requires i <= |s|
  {
    Accepts(forbids, s[..i]) && Accepts(forbids, s[i..])
  }

  /** A text that starts with a block does not start with a forbidden string. */
  lemma BlockStartsNoForbidden(forbids: seq<string>, w: string, s: string, f: string)
    requires PrefixFree(forbids) && IsBlock(forbids, w) && w <= s && f in forbids && f != ""
    ensures !(f <= s)
  {
    BlockMeans(forbids, w);
    var g :| g in forbids && LeavesAtLast(g, 0, w);
    if f <= s {
      if |f| < |w| {
        assert f < w;
        LeavingPasses(g, f, w);
        PrefixFreeMeans(forbids, f, g);
      } else {
        ContinuesFromStart(f, w);
      }
    }
  }

  lemma PrefixFreeMeans(forbids: seq<string>, f: string, g: string)
    requires PrefixFree(forbids) && f in forbids && g in forbids && f != "" && f <= g
    ensures f == g
  {
    var i :| 0 <= i < |forbids| && forbids[i] == f;
    var j :| 0 <= j < |forbids| && forbids[j] == g;
  }


  /** No forbidden string starts at a boundary between blocks of an accepted text. */
  lemma NoForbiddenAtBoundary(forbids: seq<string>, s: string, i: nat, f: string)
    requires PrefixFree(forbids) && i <= |s| && IsBoundary(forbids, s, i)
    requires f in forbids && f != ""
    ensures !OccursAt(s, f, i)
  {
    hide IsBlock;
    var rest := s[i..];
    if OccursAt(s, f, i) {
      assert f <= rest;
      var k :| 0 < k <= |rest| && IsBlock(forbids, rest[..k]) && Accepts(forbids, rest[k..]);
      BlockStartsNoForbidden(forbids, rest[..k], rest, f);
    }
  }

  /** A beginning of a forbidden string that is not all of it. */
  ghost predicate IsPending(forbids: seq<string>, rest: string) {
    exists f :: f in forbids && rest < f
  }

  /** Walks as far as some forbidden string goes along. */
  lemma {:induction false} WalkEnds(forbids: seq<string>, s: string, k: nat)
    requires k <= |s| && (exists f :: f in forbids && s[..k] <= f)
    ensures (exists f :: f in forbids && s <= f) ||
            exists n :: k < n <= |s| && (exists f :: f in forbids && s[..n - 1] <= f) && forall f :: f in forbids ==>
                !(s[..n] <= f)
    decreases |s| - k
  {
    if k == |s| {
      assert s[..k] == s;
    } else if exists f :: f in forbids && s[..k + 1] <= f {
      WalkEnds(forbids, s, k + 1);
    } else {
      assert s[..k + 1 - 1] == s[..k];
    }
  }

  /** A text without forbidden strings is pending, or starts with a block. */
  lemma BlockOrPending(forbids: seq<string>, s: string) returns (n: nat)
    requires exists f :: f in forbids && f != ""
    requires forall f :: f in forbids && f != "" ==> !Contains(s, f)
    ensures n <= |s|
    ensures if n == 0 then IsPending(forbids, s) else IsBlock(forbids, s[..n])
  {
    hide IsBlock;
    var f0 :| f0 in forbids && f0 != "";
    assert s[..0] <= f0;
    WalkEnds(forbids, s, 0);
    if f :| f in forbids && s <= f {
      n := 0;
      BeginningIsContained(s, s);
      assert s == "" ==> s < f0;
      assert s != "" ==> s != f;
    } else {
      n :| 0 < n <= |s| && (exists f :: f in forbids && s[..n - 1] <= f) && forall f :: f in forbids ==> !(s[..n] <= f);
      WalkIsBlock(forbids, s, n);
    }
  }

  lemma BeginningIsContained(s: string, f: string)
    requires f <= s
    ensures Contains(s, f)
  {
    assert s[0..|f|] == f;
    assert OccursAt(s, f, 0);
  }

  lemma ContinuesFromStart(f: string, w: string)
    ensures Continues(f, 0, w) <==> w <= f
  {
    assert |w| <= |f| ==> f[0..|w|] == f[..|w|];
  }

  lemma WalkIsBlock(forbids: seq<string>, s: string, n: nat)
    requires exists f :: f in forbids && f != ""
    requires forall f :: f in forbids && f != "" ==> !Contains(s, f)
    requires 0 < n <= |s| && (exists f :: f in forbids && s[..n - 1] <= f) && forall f :: f in forbids ==>
        !(s[..n] <= f)
    ensures IsBlock(forbids, s[..n])
  {
    var w := s[..n];
    var p := s[..n - 1];
    assert w[..n - 1] == p;
    var f :| f in forbids && p <= f;
    if f == p {
      if f == "" {
        f :| f in forbids && f != "";
      } else {
        BeginningIsContained(s, f);
      }
    }
    assert LeavesAtLast(f, 0, w) by { assert f[0..n - 1] == p; }
    forall g | g in forbids
      ensures !Continues(g, 0, w)
    {
      assert g[0..] == g && (Continues(g, 0, w) <==> w <= g) by { ContinuesFromStart(g, w); }
    }
    BlockMeans(forbids, w);
  }

  lemma ContainsBehind(s: string, n: nat, f: string)
    requires n <= |s|
    ensures Contains(s[n..], f) ==> Contains(s, f)
  {
    if Contains(s[n..], f) {
      var i :| 0 <= i <= |s[n..]| && OccursAt(s[n..], f, i);
      SliceOfSlice(s, n, |s|, i, i + |f|);
      assert s[n..] == s[n..|s|];
      assert OccursAt(s, f, n + i);
    }
  }

  lemma AcceptsOneMore(forbids: seq<string>, s: string, k: nat, m: nat)
    requires 0 < k <= m <= |s| && IsBlock(forbids, s[..k]) && Accepts(forbids, s[k..][..m - k])
    ensures Accepts(forbids, s[..m])
  {
    assert s[..m][..k] == s[..k];
    assert s[..m][k..] == s[k..][..m - k];
  }

  /** Every text without forbidden strings splits into blocks and a pending rest... */
  lemma {:induction false} FreeTextFactors(forbids: seq<string>, s: string) returns (m: nat)
    requires exists f :: f in forbids && f != ""
    requires forall f :: f in forbids && f != "" ==> !Contains(s, f)
    ensures m <= |s| && Accepts(forbids, s[..m]) && IsPending(forbids, s[m..])
    decreases |s|
  {
    hide IsBlock;
    var n := BlockOrPending(forbids, s);
    if n == 0 {
      m := 0;
      assert s[..0] == "" && s[0..] == s;
    } else {
      forall f | f in forbids && f != ""
        ensures !Contains(s[n..], f)
      {
        ContainsBehind(s, n, f);
      }
      var rest := FreeTextFactors(forbids, s[n..]);
      m := n + rest;
      assert s[n..][rest..] == s[m..];
      AcceptsOneMore(forbids, s, n, m);
    }
  }

  lemma PendingHasNoBlock(forbids: seq<string>, rest: string, k: nat)
    requires IsPending(forbids, rest) && 0 < k <= |rest|
    ensures !IsBlock(forbids, rest[..k])
  {
    BlockMeans(forbids, rest[..k]);
    var f :| f in forbids && rest < f;
    assert f[0..k] == rest[..k];
    assert Continues(f, 0, rest[..k]);
  }

  /** ... and in one way only. */
  lemma {:induction false} FactorsUniquely(forbids: seq<string>, s: string, m: nat, n: nat)
    requires m <= n <= |s|
    requires Accepts(forbids, s[..m]) && IsPending(forbids, s[m..])
    requires Accepts(forbids, s[..n]) && IsPending(forbids, s[n..])
    ensures m == n
    decreases |s|
  {
    hide IsBlock;
    if n > 0 {
      var t := s[..n];
      var k :| 0 < k <= |t| && IsBlock(forbids, t[..k]) && Accepts(forbids, t[k..]);
      assert t[..k] == s[..k];
      if m == 0 {
        assert s[m..] == s;
        PendingHasNoBlock(forbids, s, k);
      } else {
        var u := s[..m];
        var j :| 0 < j <= |u| && IsBlock(forbids, u[..j]) && Accepts(forbids, u[j..]);
        assert u[..j] == s[..j];
        if j <= k {
          BlocksArePrefixFree(forbids, s[..j], s[..k]);
        } else {
          BlocksArePrefixFree(forbids, s[..k], s[..j]);
        }
        assert j == k by { assert |s[..j]| == j && |s[..k]| == k; }
        assert u[k..] == s[k..][..m - k] && t[k..] == s[k..][..n - k];
        assert s[k..][m - k..] == s[m..] && s[k..][n - k..] == s[n..];
        FactorsUniquely(forbids, s[k..], m - k, n - k);
      }
    }
  }

  // ---- The promise "accepts no text with the forbidden string", for one forbidden string

  predicate IsRepetition(f: string) {
    forall i :: 0 <= i < |f| ==> f[i] == f[0]
  }

  lemma OneForbidden(f: string, w: string)
    ensures IsBlock([f], w) <==> w != "" && w[..|w| - 1] < f && !(w <= f)
  {
    BlockMeans([f], w);
    assert f in [f];
    if w != "" && |w| - 1 < |f| {
      assert f[0..|w| - 1] == f[..|w| - 1];
    }
    if |w| <= |f| {
      assert f[0..|w|] == f[..|w|];
    }
  }

  /** A text too short to hold f can be completed to an accepted one. */
  lemma {:induction false} CanBeCompleted(f: string, t: string) returns (more: string)
    requires |t| < |f|
    ensures Accepts([f], t + more)
    decreases |t|
  {
    hide IsBlock;
    if t == "" {
      more := "";
      assert t + more == "";
    } else if t <= f {
      var c := if f[|t|] == 'a' then 'b' else 'a';
      more := [c];
      var w := t + more;
      assert w[..|w| - 1] == t && w[|t|] == c;
      OneForbidden(f, w);
      assert w[..|w|] == w && w[|w|..] == "";
    } else {
      var k := 1;
      while t[..k] <= f
        invariant 1 <= k <= |t| && t[..k - 1] <= f
        decreases |t| - k
      {
        assert t[..|t|] == t;
        k := k + 1;
        assert t[..k - 1] <= f;
      }
      var w := t[..k];
      assert w[..|w| - 1] == t[..k - 1];
      OneForbidden(f, w);
      more := CanBeCompleted(f, t[k..]);
      var all := t + more;
      assert all[..k] == w && all[k..] == t[k..] + more;
    }
  }

  lemma {:induction false} RepetitionIsExcluded(f: string, s: string, i: nat)
    requires f != "" && IsRepetition(f) && Accepts([f], s)
    ensures !OccursAt(s, f, i)
    decreases |s|
  {
    hide IsBlock;
    if OccursAt(s, f, i) {
      var k :| 0 < k <= |s| && IsBlock([f], s[..k]) && Accepts([f], s[k..]);
      OneForbidden(f, s[..k]);
      assert s[..k][..k - 1] == s[..k - 1];
      if i < k {
        RunIsPrefix(f, s, i, k);
      } else {
        OccursBehind(s, f, i, k);
        RepetitionIsExcluded(f, s[k..], i - k);
      }
    }
  }

  lemma OccursBehind(s: string, f: string, i: nat, k: nat)
    requires OccursAt(s, f, i) && k <= i
    ensures OccursAt(s[k..], f, i - k)
  {
    SliceOfSlice(s, k, |s|, i - k, i - k + |f|);
    assert s[k..] == s[k..|s|];
  }

  /** A run of the repeated character, and one more that an occurrence covers, are still a beginning of the string. */
  lemma RunIsPrefix(f: string, s: string, i: nat, k: nat)
    requires f != "" && IsRepetition(f) && OccursAt(s, f, i) && i < k <= |s| && s[..k - 1] < f
    ensures s[..k] <= f
  {
    assert s[k - 1] == s[i..i + |f|][k - 1 - i] == f[k - 1 - i] == f[0];
    forall j | 0 <= j < k
      ensures s[..k][j] == f[j]
    {
      if j < k - 1 {
        assert s[..k - 1][j] == f[j];
      }
    }
  }

  /** For a string that is no repetition, one extra copy of its first run is accepted in front of it. */
  lemma OtherStringSlipsThrough(f: string) returns (s: string)
    requires f != "" && !IsRepetition(f)
    ensures Accepts([f], s) && OccursAt(s, f, 1)
  {
    hide IsBlock;
    var n := 1;
    while f[n] == f[0]
      invariant 1 <= n < |f| && forall j :: 0 <= j < n ==> f[j] == f[0]
      invariant exists j :: n <= j < |f| && f[j] != f[0]
      decreases |f| - n
    {
      n := n + 1;
    }
    var w := f[..n] + [f[0]];
    assert w[..|w| - 1] == f[..n] && w[n] != f[n];
    OneForbidden(f, w);
    var more := CanBeCompleted(f, f[n..]);
    var rest := f[n..] + more;
    s := w + rest;
    assert s[..|w|] == w && s[|w|..] == rest;
    assert s[1..1 + |f|] == f by {
      forall j | 0 <= j < |f|
        ensures s[1 + j] == f[j]
      {
        if j < n {
          assert s[1 + j] == w[1 + j];
        } else {
          assert s[1 + j] == rest[j - n];
        }
      }
    }
  }

  /** Strings without a character change nothing: only the others count. */
  lemma EmptyStringsDoNotCount(a: seq<string>, b: seq<string>, w: string)
    requires forall f :: f != "" ==> (f in a <==> f in b)
    ensures w != "" ==> (IsBlock(a, w) <==> IsBlock(b, w))
  {
    BlockMeans(a, w);
    BlockMeans(b, w);
  }

  lemma {:induction false} OnlyTheOthersCount(a: seq<string>, b: seq<string>, s: string)
    requires forall f :: f != "" ==> (f in a <==> f in b)
    ensures Accepts(a, s) <==> Accepts(b, s)
    decreases |s|
  {
    hide IsBlock;
    forall k | 0 < k <= |s|
      ensures IsBlock(a, s[..k]) <==> IsBlock(b, s[..k])
      ensures Accepts(a, s[k..]) <==> Accepts(b, s[k..])
    {
      EmptyStringsDoNotCount(a, b, s[..k]);
      OnlyTheOthersCount(a, b, s[k..]);
    }
  }

  /** The promise: no accepted text contains a forbidden string. */
  ghost predicate Excludes(forbids: seq<string>) {
    forall s, f :: Accepts(forbids, s) && f in forbids && f != "" ==> !Contains(s, f)
  }

  /** For one string, and an empty one beside it or not, the promise is kept exactly if the string repeats one
      character; a closing tag is not of that kind. */
  lemma ExcludesExactlyRepetitions(f: string, forbids: seq<string>)
    requires f != "" && (forbids == [f] || forbids == [f, ""] || forbids == ["", f])
    ensures Excludes(forbids) <==> IsRepetition(f)
  {
    assert forall g :: g != "" ==> (g in forbids <==> g in [f]);
    if IsRepetition(f) {
      forall s, g | Accepts(forbids, s) && g in forbids && g != ""
        ensures !Contains(s, g)
      {
        OnlyTheOthersCount(forbids, [f], s);
        if Contains(s, f) {
          var i :| 0 <= i <= |s| && OccursAt(s, f, i);
          RepetitionIsExcluded(f, s, i);
        }
      }
    } else {
      var s := OtherStringSlipsThrough(f);
      OnlyTheOthersCount(forbids, [f], s);
      assert OccursAt(s, f, 1) && Contains(s, f) && f in forbids;
    }
  }

  // ---- The same promise for a list of strings

  /** Inside a block begins a forbidden string that ends in the block, or that an accepted text can go on with. */
  ghost predicate SlipsIn(forbids: seq<string>, w: string, i: nat, f: string)
    requires i <= |w|
  {
    f <= w[i..] || (w[i..] <= f && CanGoOn(forbids, f[|w| - i..]))
  }

  ghost predicate CanGoOn(forbids: seq<string>, u: string) {
    exists s :: u <= s && Accepts(forbids, s)
  }

  lemma BlockIsAccepted(forbids: seq<string>, w: string)
    requires IsBlock(forbids, w) && w != ""
    ensures Accepts(forbids, w)
  {
    hide IsBlock;
    assert w[..|w|] == w && w[|w|..] == "";
  }

  lemma GoesOnBehindBlock(forbids: seq<string>, u: string, k: nat)
    requires 0 < k < |u| && IsBlock(forbids, u[..k]) && CanGoOn(forbids, u[k..])
    ensures CanGoOn(forbids, u)
  {
    hide IsBlock;
    var s :| u[k..] <= s && Accepts(forbids, s);
    var all := u[..k] + s;
    assert all[..k] == u[..k] && all[k..] == s;
    assert u <= all && Accepts(forbids, all);
  }

  /** What an accepted text can begin with: blocks, and the beginning of one more block. */
  lemma CanGoOnExactly(forbids: seq<string>, u: string)
    ensures CanGoOn(forbids, u) <==>
            || u == ""
            || (exists w :: IsBlock(forbids, w) && u <= w)
            || (exists k :: 0 < k < |u| && IsBlock(forbids, u[..k]) && CanGoOn(forbids, u[k..]))
  {
    hide IsBlock;
    if u == "" {
      assert u <= "" && Accepts(forbids, "");
    } else {
      if s :| u <= s && Accepts(forbids, s) {
        var k :| 0 < k <= |s| && IsBlock(forbids, s[..k]) && Accepts(forbids, s[k..]);
        assert if k < |u| then u[..k] == s[..k] && u[k..] <= s[k..] else u <= s[..k];
      }
      forall w | IsBlock(forbids, w) && u <= w
        ensures CanGoOn(forbids, u)
      {
        BlockIsAccepted(forbids, w);
      }
      forall k | 0 < k < |u| && IsBlock(forbids, u[..k]) && CanGoOn(forbids, u[k..])
        ensures CanGoOn(forbids, u)
      {
        GoesOnBehindBlock(forbids, u, k);
      }
    }
  }

  /** In no block anything slips through. */
  ghost predicate NothingSlipsIn(forbids: seq<string>) {
    forall w, i, f ::
      IsBlock(forbids, w) && 0 <= i < |w| && f in forbids && f != "" ==> !SlipsIn(forbids, w, i, f)
  }

  lemma {:induction false} OccurrenceSlipsIn(forbids: seq<string>, s: string, at: nat, f: string)
    requires NothingSlipsIn(forbids)
    requires Accepts(forbids, s) && f in forbids && f != ""
    ensures !OccursAt(s, f, at)
    decreases |s|
  {
    hide IsBlock;
    if OccursAt(s, f, at) {
      var k :| 0 < k <= |s| && IsBlock(forbids, s[..k]) && Accepts(forbids, s[k..]);
      if k <= at {
        OccursBehind(s, f, at, k);
        OccurrenceSlipsIn(forbids, s[k..], at - k, f);
      } else {
        OccurrenceInBlock(forbids, s, f, at, k);
      }
    }
  }

  /** An occurrence that begins in front of k either ends there or is cut in two. */
  lemma CutOccurrence(s: string, f: string, at: nat, k: nat)
    requires OccursAt(s, f, at) && at <= k <= |s|
    ensures f <= s[..k][at..] || (s[..k][at..] <= f && f[k - at..] + s[at + |f|..] == s[k..])
  {
    if at + |f| <= k {
      assert s[..k][at..][..|f|] == s[at..at + |f|];
    } else {
      assert s[..k][at..] == s[at..at + |f|][..k - at];
      assert s[at..at + |f|][k - at..] + s[at + |f|..] == s[k..];
    }
  }

  lemma OccurrenceInBlock(forbids: seq<string>, s: string, f: string, at: nat, k: nat)
    requires OccursAt(s, f, at) && at <= k <= |s| && Accepts(forbids, s[k..])
    ensures SlipsIn(forbids, s[..k], at, f)
  {
    CutOccurrence(s, f, at, k);
    if s[..k][at..] <= f {
      assert f[k - at..] <= s[k..];
    }
  }

  /** What slips in is contained in an accepted text. */
  lemma SlippingIsAccepted(forbids: seq<string>, w: string, i: nat, f: string) returns (s: string)
    requires IsBlock(forbids, w) && i < |w| && SlipsIn(forbids, w, i, f)
    ensures Accepts(forbids, s) && Contains(s, f)
  {
    hide IsBlock;
    var rest := "";
    if !(f <= w[i..]) {
      rest :| f[|w| - i..] <= rest && Accepts(forbids, rest);
      s := w + rest;
      assert s[i..i + |f|] == w[i..] + rest[..|f| - (|w| - i)] == w[i..] + f[|w| - i..] == f;
    } else {
      s := w + rest;
      assert s[i..i + |f|] == w[i..][..|f|] == f;
    }
    assert s[..|w|] == w && s[|w|..] == rest;
    assert OccursAt(s, f, i);
  }

  /** For every list, the promise is kept exactly if nothing slips in. */
  lemma ExcludesExactly(forbids: seq<string>)
    ensures Excludes(forbids) <==> NothingSlipsIn(forbids)
  {
    hide IsBlock;
    hide SlipsIn;
    if NothingSlipsIn(forbids) {
      forall s, f | Accepts(forbids, s) && f in forbids && f != ""
        ensures !Contains(s, f)
      {
        forall i: nat
          ensures !OccursAt(s, f, i)
        {
          OccurrenceSlipsIn(forbids, s, i, f);
        }
      }
    } else {
      var w, i, f :| IsBlock(forbids, w) && 0 <= i < |w| && f in forbids && f != "" && SlipsIn(forbids, w, i, f);
      var s := SlippingIsAccepted(forbids, w, i, f);
    }
  }

  /** When no string begins another, none begins where a block begins. */
  lemma NothingSlipsAtTheStart(forbids: seq<string>, w: string, f: string)
    requires PrefixFree(forbids) && IsBlock(forbids, w) && f in forbids && f != ""
    ensures !SlipsIn(forbids, w, 0, f)
  {
    assert w[0..] == w;
    BlockStartsNoForbidden(forbids, w, w, f);
    BlockMeans(forbids, w);
    ContinuesFromStart(f, w);
  }

  /** No string of the list is contained in another one. */
  ghost predicate ContainFree(forbids: seq<string>) {
    forall f, g, k :: f in forbids && g in forbids && f != "" && OccursAt(g, f, k) ==> f == g
  }

  ghost predicate IsFresh(c: char, forbids: seq<string>) {
    forall f :: f in forbids ==> c !in f
  }

  lemma {:induction false} AcceptsBoth(forbids: seq<string>, a: string, b: string)
    requires Accepts(forbids, a) && Accepts(forbids, b)
    ensures Accepts(forbids, a + b)
    decreases |a|
  {
    hide IsBlock;
    if a == "" {
      assert a + b == b;
    } else {
      var k :| 0 < k <= |a| && IsBlock(forbids, a[..k]) && Accepts(forbids, a[k..]);
      AcceptsBoth(forbids, a[k..], b);
      assert (a + b)[..k] == a[..k] && (a + b)[k..] == a[k..] + b;
    }
  }

  /** A fresh character ends what is pending. */
  lemma FreshEndsBlock(forbids: seq<string>, rest: string, c: char)
    requires IsPending(forbids, rest) && IsFresh(c, forbids)
    ensures Accepts(forbids, rest + [c])
  {
    var w := rest + [c];
    var g :| g in forbids && rest < g;
    assert w[..|w| - 1] == rest && g[0..|rest|] == rest;
    assert LeavesAtLast(g, 0, w);
    forall f | f in forbids
      ensures !Continues(f, 0, w)
    {
      ContinuesFromStart(f, w);
      BeginsWithLast(w, f);
    }
    BlockMeans(forbids, w);
    assert w[..|w|] == w && w[|w|..] == "";
  }

  lemma BeginsWithLast(w: string, f: string)
    requires w != ""
    ensures w <= f ==> w[|w| - 1] in f
  {
    assert w <= f ==> f[|w| - 1] == w[|w| - 1];
  }

  lemma OccursBefore(f: string, g: string, from: nat, i: nat)
    requires from <= |f|
    ensures OccursAt(f[from..], g, i) ==> OccursAt(f, g, from + i)
  {
    if OccursAt(f[from..], g, i) {
      SliceOfSlice(f, from, |f|, i, i + |g|);
      assert f[from..|f|] == f[from..];
    }
  }

  lemma RestCanGoOn(forbids: seq<string>, f: string, from: nat, c: char)
    requires ContainFree(forbids) && IsFresh(c, forbids) && f in forbids && 0 < from <= |f|
    ensures Accepts(forbids, f[from..] + [c])
  {
    hide IsBlock;
    var u := f[from..];
    forall g | g in forbids && g != ""
      ensures !Contains(u, g)
    {
      if Contains(u, g) {
        var i :| 0 <= i <= |u| && OccursAt(u, g, i);
        OccursBefore(f, g, from, i);
      }
    }
    var m := FreeTextFactors(forbids, u);
    FreshEndsBlock(forbids, u[m..], c);
    AcceptsBoth(forbids, u[..m], u[m..] + [c]);
    assert u[..m] + (u[m..] + [c]) == u + [c];
  }

  /** In such a list, with some character in none of the strings, slipping in is plain overlapping. */
  lemma SlippingIsOverlapping(forbids: seq<string>, w: string, i: nat, f: string, c: char)
    requires ContainFree(forbids) && IsFresh(c, forbids)
    requires IsBlock(forbids, w) && 0 < i < |w| && f in forbids && f != ""
    ensures SlipsIn(forbids, w, i, f) <==> w[i..] <= f
  {
    if w[i..] <= f {
      RestCanGoOn(forbids, f, |w| - i, c);
    } else if f <= w[i..] {
      BlockMeans(forbids, w);
      var g :| g in forbids && LeavesAtLast(g, 0, w);
      assert i + |f| < |w|;
      assert g[i..i + |f|] == g[0..|w| - 1][i..i + |f|] == w[..|w| - 1][i..i + |f|] == w[i..][..|f|] == f;
      assert OccursAt(g, f, i);
    }
  }

  /** No block ends, behind its first character, with the beginning of a forbidden string. */
  ghost predicate NoBlockOverlaps(forbids: seq<string>) {
    forall w, i, f :: IsBlock(forbids, w) && 0 < i < |w| && f in forbids && f != "" ==> !(w[i..] <= f)
  }

  /** For such a list the promise is kept exactly if no block overlaps a forbidden string. */
  lemma ExcludesExactlyWithoutOverlap(forbids: seq<string>, c: char)
    requires ContainFree(forbids) && IsFresh(c, forbids)
    ensures Excludes(forbids) <==> NoBlockOverlaps(forbids)
  {
    hide IsBlock;
    hide SlipsIn;
    ContainFreeIsPrefixFree(forbids);
    forall w, i, f | IsBlock(forbids, w) && 0 <= i < |w| && f in forbids && f != ""
      ensures SlipsIn(forbids, w, i, f) <==> 0 < i && w[i..] <= f
    {
      if i == 0 {
        NothingSlipsAtTheStart(forbids, w, f);
      } else {
        SlippingIsOverlapping(forbids, w, i, f, c);
      }
    }
    ExcludesExactly(forbids);
  }

  lemma ContainFreeIsPrefixFree(forbids: seq<string>)
    requires ContainFree(forbids)
    ensures PrefixFree(forbids)
  {
    forall i, j | 0 <= i < |forbids| && 0 <= j < |forbids| && forbids[i] != "" && forbids[i] <= forbids[j]
      ensures forbids[i] == forbids[j]
    {
      assert forbids[j][0..|forbids[i]|] == forbids[i];
      assert OccursAt(forbids[j], forbids[i], 0);
    }
  }
}
