/** CXDeque<T>: a doubly linked deque whose nodes are recycled through a free
    list.  Nodes live in one pool of slots; a slot index stands for the address of a
    node (`CLink*`) and -1 for NULL.  The names keep the source's
    orientation: PushBack/PopBack work at the head, PushFront/PopFront at the
    tail, so `Contents` lists the elements from head to tail. */
module XDequeModel {

  /** CLink: the successor and predecessor slots and the stored element. */
  datatype Link<T> = Link(next: int, prev: int, data: T)

  /** The number of slots the free list grows by when asked for `n`. */
  function Grow(n: nat): (k: nat)
    ensures k >= 1 && (n > 0 ==> k == n)
  {
    if n == 0 then 1 else n
  }

  // ---------------------------------------------------------------------------
  // Shapes of linked lists inside a pool snapshot
  //
  // The facts about one position of a list sit behind a predicate of that
  // position, so the quantifiers over positions only fire where a proof names
  // a position.

  /** Position `i` of the list `c`: a slot of the pool whose successor is the
      slot at position i + 1, or null at the last position. */
  ghost predicate Linked<T>(p: seq<Link<T>>, c: seq<int>, i: int)
    requires 0 <= i < |c|
  {
    0 <= c[i] < |p| && p[c[i]].next == (if i + 1 < |c| then c[i + 1] else -1)
  }

  /** `c` lists the slots reached from `start` along `next`, ending at null. */
  ghost predicate Chain<T>(p: seq<Link<T>>, start: int, c: seq<int>) {
    && start == (if c == [] then -1 else c[0])
    && forall i :: 0 <= i < |c| ==> Linked(p, c, i)
  }

  /** Position `i` of a live list also points back at position i - 1 (null at
      the first position) and holds the i-th element. */
  ghost predicate LiveLink<T>(p: seq<Link<T>>, c: seq<int>, vs: seq<T>, i: int)
    requires 0 <= i < |c| == |vs|
  {
    && Linked(p, c, i)
    && p[c[i]].prev == (if i > 0 then c[i - 1] else -1)
    && p[c[i]].data == vs[i]
  }

  /** A live list: linked both ways from `head` to `tail`, holding `vs`. */
  ghost predicate LiveShape<T>(p: seq<Link<T>>, head: int, tail: int, c: seq<int>, vs: seq<T>) {
    && |vs| == |c|
    && head == (if c == [] then -1 else c[0])
    && tail == (if c == [] then -1 else c[|c| - 1])
    && forall i :: 0 <= i < |c| ==> LiveLink(p, c, vs, i)
  }

  /** Position `i` of a free list also holds `blank`. */
  ghost predicate FreeLink<T>(p: seq<Link<T>>, c: seq<int>, blank: T, i: int)
    requires 0 <= i < |c|
  {
    Linked(p, c, i) && p[c[i]].data == blank
  }

  /** A free list: linked forward from `free`, every slot holding `blank`. */
  ghost predicate FreeShape<T>(p: seq<Link<T>>, free: int, c: seq<int>, blank: T) {
    && free == (if c == [] then -1 else c[0])
    && forall i :: 0 <= i < |c| ==> FreeLink(p, c, blank, i)
  }

  ghost predicate Distinct(s: seq<int>) {
    forall i, j :: 0 <= i < j < |s| ==> s[i] != s[j]
  }

  ghost predicate Apart(a: seq<int>, b: seq<int>) {
    forall k :: k in a ==> k !in b
  }

  lemma LiveChain<T>(p: seq<Link<T>>, head: int, tail: int, c: seq<int>, vs: seq<T>)
    requires LiveShape(p, head, tail, c, vs)
    ensures Chain(p, head, c)
  {
    forall i | 0 <= i < |c|
      ensures Linked(p, c, i)
    {
      assert LiveLink(p, c, vs, i);
    }
  }

  lemma FreeChain<T>(p: seq<Link<T>>, free: int, c: seq<int>, blank: T)
    requires FreeShape(p, free, c, blank)
    ensures Chain(p, free, c)
  {
    forall i | 0 <= i < |c|
      ensures Linked(p, c, i)
    {
      assert FreeLink(p, c, blank, i);
    }
  }

  /** A chain visits no slot twice: were c[i] == c[j] with i < j, the two
      nodes would agree on every later link, and the node at position
      i + (|c| - 1 - j) would end the chain although it is not last. */
  lemma {:induction false} ChainNoRepeat<T>(p: seq<Link<T>>, start: int, c: seq<int>, i: int, j: int)
    requires Chain(p, start, c) && 0 <= i < j < |c|
    ensures c[i] != c[j]
    decreases |c| - j
  {
    assert Linked(p, c, i) && Linked(p, c, j);
    if j < |c| - 1 {
      ChainNoRepeat(p, start, c, i + 1, j + 1);
    } else {
      assert Linked(p, c, i + 1);
    }
  }

  lemma ChainDistinct<T>(p: seq<Link<T>>, start: int, c: seq<int>)
    requires Chain(p, start, c)
    ensures Distinct(c)
  {
    forall i, j | 0 <= i < j < |c|
      ensures c[i] != c[j]
    {
      ChainNoRepeat(p, start, c, i, j);
    }
  }

  /** The ends of a live list, and the fact that its slots lie in the pool. */
  lemma LiveEnds<T>(p: seq<Link<T>>, head: int, tail: int, nodes: seq<int>, vs: seq<T>)
    requires LiveShape(p, head, tail, nodes, vs)
    ensures head == -1 <==> nodes == []
    ensures tail == -1 <==> nodes == []
    ensures forall k :: k in nodes ==> 0 <= k < |p|
    ensures nodes != [] ==> head in nodes && tail in nodes && (head == tail <==> |nodes| == 1)
    ensures nodes != [] ==> p[head].data == vs[0] && p[tail].data == vs[|vs| - 1]
    ensures |nodes| > 1 ==> 0 <= nodes[1] < |p| && 0 <= nodes[|nodes| - 2] < |p|
    ensures |nodes| > 1 ==> p[head].next == nodes[1] && p[tail].prev == nodes[|nodes| - 2]
  {
    forall k | k in nodes
      ensures 0 <= k < |p|
    {
      var i :| 0 <= i < |nodes| && nodes[i] == k;
      assert LiveLink(p, nodes, vs, i);
    }
    if nodes != [] {
      assert LiveLink(p, nodes, vs, 0) && LiveLink(p, nodes, vs, |nodes| - 1);
      if |nodes| > 1 {
        assert LiveLink(p, nodes, vs, 1) && LiveLink(p, nodes, vs, |nodes| - 2);
        LiveChain(p, head, tail, nodes, vs);
        ChainNoRepeat(p, head, nodes, 0, |nodes| - 1);
      }
    }
  }

  /** The first node of a free list, and the fact that its slots lie in the pool. */
  lemma FreeEnds<T>(p: seq<Link<T>>, free: int, c: seq<int>, blank: T)
    requires FreeShape(p, free, c, blank)
    ensures free == -1 <==> c == []
    ensures forall k :: k in c ==> 0 <= k < |p|
    ensures c != [] ==> 0 <= free < |p| && p[free].data == blank
  {
    forall k | k in c
      ensures 0 <= k < |p|
    {
      var i :| 0 <= i < |c| && c[i] == k;
      assert FreeLink(p, c, blank, i);
    }
    if c != [] {
      assert FreeLink(p, c, blank, 0);
    }
  }

  /** A pool that agrees on the slots of a list keeps that list's shape. */
  lemma LiveFrame<T>(p: seq<Link<T>>, q: seq<Link<T>>, head: int, tail: int, c: seq<int>, vs: seq<T>)
    requires LiveShape(p, head, tail, c, vs) && |p| <= |q|
    requires forall k :: 0 <= k < |p| && k in c ==> q[k] == p[k]
    ensures LiveShape(q, head, tail, c, vs)
  {
    forall i | 0 <= i < |c|
      ensures LiveLink(q, c, vs, i)
    {
      assert LiveLink(p, c, vs, i);
      assert c[i] in c;
    }
  }

  lemma FreeFrame<T>(p: seq<Link<T>>, q: seq<Link<T>>, free: int, c: seq<int>, blank: T)
    requires FreeShape(p, free, c, blank) && |p| <= |q|
    requires forall k :: 0 <= k < |p| && k in c ==> q[k] == p[k]
    ensures FreeShape(q, free, c, blank)
  {
    forall i | 0 <= i < |c|
      ensures FreeLink(q, c, blank, i)
    {
      assert FreeLink(p, c, blank, i);
      assert c[i] in c;
    }
  }

  /** Pushing slot `x` on the front of a free list. */
  lemma FreePush<T>(p: seq<Link<T>>, q: seq<Link<T>>, free: int, c: seq<int>, blank: T, x: int)
    requires FreeShape(p, free, c, blank) && |p| <= |q|
    requires 0 <= x < |q| && q[x].next == free && q[x].data == blank
    requires forall k :: 0 <= k < |p| && k in c ==> q[k] == p[k]
    ensures FreeShape(q, x, [x] + c, blank)
  {
    FreeFrame(p, q, free, c, blank);
    var c' := [x] + c;
    forall i | 0 <= i < |c'|
      ensures FreeLink(q, c', blank, i)
    {
      if i == 0 {
        if c != [] {
          assert c'[1] == c[0];
        }
      } else {
        assert FreeLink(q, c, blank, i - 1);
        assert c'[i] == c[i - 1];
        if i < |c| {
          assert c'[i + 1] == c[i];
        }
      }
    }
  }

  /** Taking the first slot off a free list. */
  lemma FreePop<T>(p: seq<Link<T>>, free: int, c: seq<int>, blank: T)
    requires FreeShape(p, free, c, blank) && c != []
    ensures 0 <= free < |p| && p[free].data == blank
    ensures FreeShape(p, p[free].next, c[1..], blank)
    ensures c[0] !in c[1..] && forall k :: k in c[1..] ==> k in c
  {
    assert FreeLink(p, c, blank, 0);
    var c' := c[1..];
    forall i | 0 <= i < |c'|
      ensures FreeLink(p, c', blank, i)
    {
      assert FreeLink(p, c, blank, i + 1);
      assert c'[i] == c[i + 1];
      if i + 1 < |c'| {
        assert c'[i + 1] == c[i + 2];
      }
    }
    if |c| > 1 {
      assert c'[0] == c[1];
    }
    FreeChain(p, free, c, blank);
    ChainDistinct(p, free, c);
    forall k | k in c'
      ensures k in c && k != c[0]
    {
      var j :| 0 <= j < |c'| && c'[j] == k;
      assert c'[j] == c[j + 1];
    }
  }

  /** Linking a detached slot `x` in front of the head of a live list. */
  lemma PushHead<T>(p: seq<Link<T>>, q: seq<Link<T>>, head: int, tail: int, c: seq<int>, vs: seq<T>, x: int, v: T)
    requires LiveShape(p, head, tail, c, vs) && |q| == |p|
    requires 0 <= x < |q| && x !in c && q[x] == Link(head, -1, v)
    requires c != [] ==> 0 <= c[0] < |p| && q[c[0]] == p[c[0]].(prev := x)
    requires forall k :: 0 <= k < |p| && k != x && k != head ==> q[k] == p[k]
    ensures LiveShape(q, x, if c == [] then x else tail, [x] + c, [v] + vs)
  {
    LiveChain(p, head, tail, c, vs);
    ChainDistinct(p, head, c);
    var c', vs' := [x] + c, [v] + vs;
    forall i | 0 <= i < |c'|
      ensures LiveLink(q, c', vs', i)
    {
      if i == 0 {
        if c != [] {
          assert c'[1] == c[0];
        }
      } else {
        assert LiveLink(p, c, vs, i - 1);
        assert c'[i] == c[i - 1] && vs'[i] == vs[i - 1];
        assert c[i - 1] in c;
        if i > 1 {
          assert c[i - 1] != c[0];
          assert c'[i - 1] == c[i - 2];
        }
        if i < |c| {
          assert c'[i + 1] == c[i];
        }
      }
    }
    if c != [] {
      assert c'[|c'| - 1] == c[|c| - 1];
    }
  }

  /** Linking a detached slot `x` after the tail of a live list. */
  lemma PushTail<T>(p: seq<Link<T>>, q: seq<Link<T>>, head: int, tail: int, c: seq<int>, vs: seq<T>, x: int, v: T)
    requires LiveShape(p, head, tail, c, vs) && |q| == |p|
    requires 0 <= x < |q| && x !in c && q[x] == Link(-1, tail, v)
    requires c != [] ==> 0 <= c[|c| - 1] < |p| && q[c[|c| - 1]] == p[c[|c| - 1]].(next := x)
    requires forall k :: 0 <= k < |p| && k != x && k != tail ==> q[k] == p[k]
    ensures LiveShape(q, if c == [] then x else head, x, c + [x], vs + [v])
  {
    LiveChain(p, head, tail, c, vs);
    ChainDistinct(p, head, c);
    var c', vs' := c + [x], vs + [v];
    forall i | 0 <= i < |c'|
      ensures LiveLink(q, c', vs', i)
    {
      if i == |c| {
        if c != [] {
          assert c'[i - 1] == c[|c| - 1];
        }
      } else {
        assert LiveLink(p, c, vs, i);
        assert c'[i] == c[i] && vs'[i] == vs[i];
        assert c[i] in c;
        if i < |c| - 1 {
          assert c[i] != c[|c| - 1];
          assert c'[i + 1] == c[i + 1];
        } else {
          assert c'[i + 1] == x;
        }
        if i > 0 {
          assert c'[i - 1] == c[i - 1];
        }
      }
    }
    if c != [] {
      assert c'[0] == c[0];
    }
  }

  /** Unlinking the head of a non-empty live list. */
  lemma PopHead<T>(p: seq<Link<T>>, q: seq<Link<T>>, head: int, tail: int, c: seq<int>, vs: seq<T>)
    requires LiveShape(p, head, tail, c, vs) && c != [] && |q| == |p|
    requires |c| > 1 ==> 0 <= c[1] < |p| && q[c[1]] == p[c[1]].(prev := -1)
    requires forall k :: 0 <= k < |p| && k != head && (|c| == 1 || k != c[1]) ==> q[k] == p[k]
    ensures LiveShape(q, if |c| == 1 then -1 else c[1], if |c| == 1 then -1 else tail, c[1..], vs[1..])
    ensures head !in c[1..] && forall k :: k in c[1..] ==> k in c
  {
    LiveChain(p, head, tail, c, vs);
    ChainDistinct(p, head, c);
    var c', vs' := c[1..], vs[1..];
    forall i | 0 <= i < |c'|
      ensures LiveLink(q, c', vs', i)
    {
      assert LiveLink(p, c, vs, i + 1);
      assert c'[i] == c[i + 1] && vs'[i] == vs[i + 1];
      assert c[i + 1] != c[0];
      if i > 0 {
        assert c[i + 1] != c[1];
        assert c'[i - 1] == c[i];
      }
      if i + 1 < |c'| {
        assert c'[i + 1] == c[i + 2];
      }
    }
    if |c| > 1 {
      assert c'[0] == c[1] && c'[|c'| - 1] == c[|c| - 1];
    }
    forall k | k in c'
      ensures k in c && k != head
    {
      var j :| 0 <= j < |c'| && c'[j] == k;
      assert c'[j] == c[j + 1];
    }
  }

  /** Unlinking the tail of a non-empty live list. */
  lemma PopTail<T>(p: seq<Link<T>>, q: seq<Link<T>>, head: int, tail: int, c: seq<int>, vs: seq<T>)
    requires LiveShape(p, head, tail, c, vs) && c != [] && |q| == |p|
    requires |c| > 1 ==> 0 <= c[|c| - 2] < |p| && q[c[|c| - 2]] == p[c[|c| - 2]].(next := -1)
    requires forall k :: 0 <= k < |p| && k != tail && (|c| == 1 || k != c[|c| - 2]) ==> q[k] == p[k]
    ensures LiveShape(q, if |c| == 1 then -1 else head, if |c| == 1 then -1 else c[|c| - 2], c[..|c| - 1], vs[..|vs| - 1])
    ensures tail !in c[..|c| - 1] && forall k :: k in c[..|c| - 1] ==> k in c
  {
    LiveChain(p, head, tail, c, vs);
    ChainDistinct(p, head, c);
    var c', vs' := c[..|c| - 1], vs[..|vs| - 1];
    forall i | 0 <= i < |c'|
      ensures LiveLink(q, c', vs', i)
    {
      assert LiveLink(p, c, vs, i);
      assert c'[i] == c[i] && vs'[i] == vs[i];
      assert c[i] != c[|c| - 1];
      if i < |c'| - 1 {
        assert c[i] != c[|c| - 2];
        assert c'[i + 1] == c[i + 1];
      }
      if i > 0 {
        assert c'[i - 1] == c[i - 1];
      }
    }
    if |c| > 1 {
      assert c'[0] == c[0] && c'[|c'| - 1] == c[|c| - 2];
    }
    forall k | k in c'
      ensures k in c && k != tail
    {
      var j :| 0 <= j < |c'| && c'[j] == k;
      assert c'[j] == c[j];
    }
  }

  // ---------------------------------------------------------------------------
  // The whole pool, and how each operation changes it

  /** Both lists are well formed and share no slot (each list is free of
      repeats by ChainDistinct); `cap` counts every slot. */
  ghost predicate Shaped<T>(p: seq<Link<T>>, head: int, tail: int, free: int, cap: nat,
                            nodes: seq<int>, fnodes: seq<int>, vs: seq<T>, blank: T) {
    && cap == |p|
    && LiveShape(p, head, tail, nodes, vs)
    && FreeShape(p, free, fnodes, blank)
    && Apart(nodes, fnodes)
  }

  /** The state of a deque with no node at all. */
  lemma NoNodes<T>(blank: T)
    ensures Shaped([], -1, -1, -1, 0, [], [], [], blank)
  {
  }

  /** Walking a live list backwards from its tail: the node at position `k`
      holds the k-th element and points back at position k - 1. */
  lemma LiveAt<T>(p: seq<Link<T>>, head: int, tail: int, nodes: seq<int>, vs: seq<T>, k: int)
    requires LiveShape(p, head, tail, nodes, vs) && 0 <= k < |nodes|
    ensures 0 <= nodes[k] < |p| && p[nodes[k]].data == vs[k]
    ensures p[nodes[k]].prev == if k > 0 then nodes[k - 1] else -1
    ensures k > 0 ==> 0 <= nodes[k - 1] < |p|
    ensures vs[k..] == [vs[k]] + vs[k + 1..]
  {
    assert LiveLink(p, nodes, vs, k);
    if k > 0 {
      assert LiveLink(p, nodes, vs, k - 1);
    }
  }

  /** CreateFreeList's loop body: a new slot `cap` joins the front of the free list. */
  lemma StepAddFree<T>(p: seq<Link<T>>, head: int, tail: int, free: int, cap: nat,
                       nodes: seq<int>, fnodes: seq<int>, vs: seq<T>, blank: T)
    requires Shaped(p, head, tail, free, cap, nodes, fnodes, vs, blank)
    ensures Shaped(p + [Link(free, -1, blank)], head, tail, cap, cap + 1, nodes, [cap] + fnodes, vs, blank)
  {
    var q := p + [Link(free, -1, blank)];
    assert forall k :: 0 <= k < |p| ==> q[k] == p[k];
    LiveEnds(p, head, tail, nodes, vs);
    FreeEnds(p, free, fnodes, blank);
    LiveFrame(p, q, head, tail, nodes, vs);
    FreePush(p, q, free, fnodes, blank, cap);
  }

  /** CreateNode: the first free slot leaves the free list with new links. */
  lemma StepCreate<T>(p: seq<Link<T>>, q: seq<Link<T>>, head: int, tail: int, free: int, cap: nat,
                      nodes: seq<int>, fnodes: seq<int>, vs: seq<T>, blank: T, prev: int, next: int)
    requires Shaped(p, head, tail, free, cap, nodes, fnodes, vs, blank) && fnodes != []
    requires |q| == |p| && 0 <= free < |p| && q[free] == p[free].(prev := prev, next := next)
    requires forall k :: 0 <= k < |p| && k != free ==> q[k] == p[k]
    ensures Shaped(q, head, tail, p[free].next, cap, nodes, fnodes[1..], vs, blank)
    ensures 0 <= free < cap && free !in nodes && free !in fnodes[1..]
    ensures q[free] == Link(next, prev, blank)
  {
    FreePop(p, free, fnodes, blank);
    assert free in fnodes;
    LiveFrame(p, q, head, tail, nodes, vs);
    FreeFrame(p, q, p[free].next, fnodes[1..], blank);
  }

  /** FreeNode: a detached slot, reset to `blank`, joins the front of the free list. */
  lemma StepFree<T>(p: seq<Link<T>>, q: seq<Link<T>>, head: int, tail: int, free: int, cap: nat,
                    nodes: seq<int>, fnodes: seq<int>, vs: seq<T>, blank: T, x: int)
    requires Shaped(p, head, tail, free, cap, nodes, fnodes, vs, blank)
    requires 0 <= x < cap && x !in nodes && x !in fnodes
    requires |q| == |p| && q[x] == p[x].(data := blank, next := free)
    requires forall k :: 0 <= k < |p| && k != x ==> q[k] == p[k]
    ensures Shaped(q, head, tail, x, cap, nodes, [x] + fnodes, vs, blank)
  {
    LiveFrame(p, q, head, tail, nodes, vs);
    FreePush(p, q, free, fnodes, blank, x);
  }

  /** PushBack: a detached slot linked in front of the head. */
  lemma StepPushHead<T>(p: seq<Link<T>>, q: seq<Link<T>>, head: int, tail: int, free: int, cap: nat,
                        nodes: seq<int>, fnodes: seq<int>, vs: seq<T>, blank: T, x: int, v: T)
    requires Shaped(p, head, tail, free, cap, nodes, fnodes, vs, blank)
    requires 0 <= x < cap && x !in nodes && x !in fnodes
    requires |q| == |p| && q[x] == Link(head, -1, v)
    requires nodes != [] ==> 0 <= nodes[0] < |p| && q[nodes[0]] == p[nodes[0]].(prev := x)
    requires forall k :: 0 <= k < |p| && k != x && k != head ==> q[k] == p[k]
    ensures Shaped(q, x, if nodes == [] then x else tail, free, cap, [x] + nodes, fnodes, [v] + vs, blank)
  {
    LiveEnds(p, head, tail, nodes, vs);
    PushHead(p, q, head, tail, nodes, vs, x, v);
    FreeFrame(p, q, free, fnodes, blank);
  }

  /** PushFront: a detached slot linked after the tail. */
  lemma StepPushTail<T>(p: seq<Link<T>>, q: seq<Link<T>>, head: int, tail: int, free: int, cap: nat,
                        nodes: seq<int>, fnodes: seq<int>, vs: seq<T>, blank: T, x: int, v: T)
    requires Shaped(p, head, tail, free, cap, nodes, fnodes, vs, blank)
    requires 0 <= x < cap && x !in nodes && x !in fnodes
    requires |q| == |p| && q[x] == Link(-1, tail, v)
    requires nodes != [] ==> 0 <= nodes[|nodes| - 1] < |p| && q[nodes[|nodes| - 1]] == p[nodes[|nodes| - 1]].(next := x)
    requires forall k :: 0 <= k < |p| && k != x && k != tail ==> q[k] == p[k]
    ensures Shaped(q, if nodes == [] then x else head, x, free, cap, nodes + [x], fnodes, vs + [v], blank)
  {
    LiveEnds(p, head, tail, nodes, vs);
    PushTail(p, q, head, tail, nodes, vs, x, v);
    FreeFrame(p, q, free, fnodes, blank);
  }

  /** PopBack: the head is unlinked and left detached. */
  lemma StepPopHead<T>(p: seq<Link<T>>, q: seq<Link<T>>, head: int, tail: int, free: int, cap: nat,
                       nodes: seq<int>, fnodes: seq<int>, vs: seq<T>, blank: T)
    requires Shaped(p, head, tail, free, cap, nodes, fnodes, vs, blank) && nodes != []
    requires |q| == |p|
    requires |nodes| > 1 ==> 0 <= nodes[1] < |p| && q[nodes[1]] == p[nodes[1]].(prev := -1)
    requires forall k :: 0 <= k < |p| && (|nodes| == 1 || k != nodes[1]) ==> q[k] == p[k]
    ensures Shaped(q, if |nodes| == 1 then -1 else nodes[1], if |nodes| == 1 then -1 else tail,
                   free, cap, nodes[1..], fnodes, vs[1..], blank)
    ensures 0 <= head < cap && head !in nodes[1..] && head !in fnodes
  {
    LiveEnds(p, head, tail, nodes, vs);
    PopHead(p, q, head, tail, nodes, vs);
    FreeFrame(p, q, free, fnodes, blank);
  }

  /** PopFront: the tail is unlinked and left detached. */
  lemma StepPopTail<T>(p: seq<Link<T>>, q: seq<Link<T>>, head: int, tail: int, free: int, cap: nat,
                       nodes: seq<int>, fnodes: seq<int>, vs: seq<T>, blank: T)
    requires Shaped(p, head, tail, free, cap, nodes, fnodes, vs, blank) && nodes != []
    requires |q| == |p|
    requires |nodes| > 1 ==> 0 <= nodes[|nodes| - 2] < |p| && q[nodes[|nodes| - 2]] == p[nodes[|nodes| - 2]].(next := -1)
    requires forall k :: 0 <= k < |p| && (|nodes| == 1 || k != nodes[|nodes| - 2]) ==> q[k] == p[k]
    ensures Shaped(q, if |nodes| == 1 then -1 else head, if |nodes| == 1 then -1 else nodes[|nodes| - 2],
                   free, cap, nodes[..|nodes| - 1], fnodes, vs[..|vs| - 1], blank)
    ensures 0 <= tail < cap && tail !in nodes[..|nodes| - 1] && tail !in fnodes
  {
    LiveEnds(p, head, tail, nodes, vs);
    PopTail(p, q, head, tail, nodes, vs);
    FreeFrame(p, q, free, fnodes, blank);
  }

  // ---------------------------------------------------------------------------
  // The container

  class XDeque<T> {
    /** Every node ever allocated and not yet deleted, by slot. */
    var pool: seq<Link<T>>
    var head: int
    var tail: int
    var free: int
    var size: nat
    var capacity: nat
    /** The value of T(), which FreeNode writes into a released slot. */
    const blank: T

    /** The elements from head to tail. */
    ghost var Contents: seq<T>
    /** The slots of the live list, from head to tail. */
    ghost var Nodes: seq<int>
    /** The slots of the free list, from its first node on. */
    ghost var FreeNodes: seq<int>

    ghost predicate Lists()
      reads this
    {
      Shaped(pool, head, tail, free, capacity, Nodes, FreeNodes, Contents, blank)
    }

    /** Every allocated node is either live or free: size + free == capacity. */
    ghost predicate Valid()
      reads this
    {
      && Lists()
      && size == |Nodes|
      && size + |FreeNodes| == capacity
    }

    /** Slot `x` has been taken off the free list and counted in `size`, but is
        not linked into the live list: the state between CreateNode and the
        linking in a push, and between the unlinking in a pop and FreeNode. */
    ghost predicate Detached(x: int)
      reads this
    {
      && Lists()
      && 0 <= x < capacity && x !in Nodes && x !in FreeNodes
      && size == |Nodes| + 1
      && size + |FreeNodes| == capacity
    }

    /** CXDeque(nCapacity = 1): an empty deque whose free list holds
        max(nCapacity, 1) nodes. */
    constructor(blank: T, n: nat := 1)
      ensures Valid()
      ensures Contents == [] && capacity == Grow(n) && this.blank == blank
    {
      this.blank := blank;
      size, capacity := 0, 0;
      head, tail, free := -1, -1, -1;
      pool := [];
      Contents, Nodes, FreeNodes := [], [], [];
      new;
      CreateFreeList(n);
    }

    /** The copy constructor: the same elements in the same order and the same
        capacity as `other`. */
    constructor CopyOf(other: XDeque<T>)
      requires other.Valid() && other.capacity > 0
      ensures Valid()
      ensures Contents == other.Contents && capacity == other.capacity && blank == other.blank
    {
      blank := other.blank;
      size, capacity := 0, 0;
      head, tail, free := -1, -1, -1;
      pool := [];
      Contents, Nodes, FreeNodes := [], [], [];
      new;
      Copy(other);
    }

    /** operator=: a no-op on itself; otherwise Empty, then Copy. */
    method Assign(other: XDeque<T>)
      requires Valid() && other.Valid() && other.blank == blank
      modifies this
      ensures Valid()
      ensures Contents == old(other.Contents) && capacity == old(other.capacity)
      ensures other == this ==> unchanged(this)
    {
      if this != other {
        Empty();
        Copy(other);
      }
    }

    /** Inserts at the head. */
    method PushBack(x: T) returns (ok: bool)
      requires Valid()
      modifies this
      ensures Valid() && ok
      ensures Contents == [x] + old(Contents) && size == old(size) + 1
      ensures capacity == if old(size) == old(capacity) then old(capacity) + Grow(old(capacity)) else old(capacity)
    {
      var node := CreateNode(-1, head);
      ghost var p, h, t, ns, vs := pool, head, tail, Nodes, Contents;
      LiveEnds(p, h, t, ns, vs);
      pool := pool[node := pool[node].(data := x)];
      if head != -1 {
        pool := pool[head := pool[head].(prev := node)];
      } else {
        tail := node;
        pool := pool[tail := pool[tail].(next := -1)];
      }
      head := node;
      pool := pool[head := pool[head].(prev := -1)];
      Nodes := [node] + Nodes;
      Contents := [x] + Contents;
      StepPushHead(p, pool, h, t, free, capacity, ns, FreeNodes, vs, blank, node, x);
      ok := true;
    }

    /** Inserts at the tail. */
    method PushFront(x: T) returns (ok: bool)
      requires Valid()
      modifies this
      ensures Valid() && ok
      ensures Contents == old(Contents) + [x] && size == old(size) + 1
      ensures capacity == if old(size) == old(capacity) then old(capacity) + Grow(old(capacity)) else old(capacity)
    {
      var node := CreateNode(tail, -1);
      ghost var p, h, t, ns, vs := pool, head, tail, Nodes, Contents;
      LiveEnds(p, h, t, ns, vs);
      pool := pool[node := pool[node].(data := x)];
      if tail != -1 {
        pool := pool[tail := pool[tail].(next := node)];
      } else {
        head := node;
        pool := pool[head := pool[head].(prev := -1)];
      }
      tail := node;
      pool := pool[tail := pool[tail].(next := -1)];
      Nodes := Nodes + [node];
      Contents := Contents + [x];
      StepPushTail(p, pool, h, t, free, capacity, ns, FreeNodes, vs, blank, node, x);
      ok := true;
    }

    /** Removes the head element; on an empty deque fails and leaves the
        caller's `prior` value in place. */
    method PopBack(prior: T) returns (ok: bool, elem: T)
      requires Valid()
      modifies this
      ensures Valid() && capacity == old(capacity)
      ensures ok <==> old(Contents) != []
      ensures ok ==> elem == old(Contents)[0] && Contents == old(Contents)[1..] && size == old(size) - 1
      ensures ok ==> free == old(head) && 0 <= free < |pool| && pool[free].data == blank
      ensures !ok ==> elem == prior && unchanged(this)
    {
      ghost var p, h, t, ns, vs := pool, head, tail, Nodes, Contents;
      LiveEnds(p, h, t, ns, vs);
      if head == -1 {
        return false, prior;
      }
      elem := pool[head].data;
      var oldNode := head;
      head := if head == tail then -1 else pool[oldNode].next;
      if head != -1 {
        pool := pool[head := pool[head].(prev := -1)];
      } else {
        tail := -1;
      }
      Nodes := Nodes[1..];
      Contents := Contents[1..];
      StepPopHead(p, pool, h, t, free, capacity, ns, FreeNodes, vs, blank);
      FreeNode(oldNode);
      ok := true;
    }

    /** Removes the tail element; on an empty deque fails and leaves the
        caller's `prior` value in place. */
    method PopFront(prior: T) returns (ok: bool, elem: T)
      requires Valid()
      modifies this
      ensures Valid() && capacity == old(capacity)
      ensures ok <==> old(Contents) != []
      ensures ok ==> elem == old(Contents)[|old(Contents)| - 1] && Contents == old(Contents)[..|old(Contents)| - 1]
      ensures ok ==> size == old(size) - 1
      ensures ok ==> free == old(tail) && 0 <= free < |pool| && pool[free].data == blank
      ensures !ok ==> elem == prior && unchanged(this)
    {
      ghost var p, h, t, ns, vs := pool, head, tail, Nodes, Contents;
      LiveEnds(p, h, t, ns, vs);
      if tail == -1 {
        return false, prior;
      }
      elem := pool[tail].data;
      var oldNode := tail;
      tail := if head == tail then -1 else pool[oldNode].prev;
      if tail != -1 {
        pool := pool[tail := pool[tail].(next := -1)];
      } else {
        head := -1;
      }
      Nodes := Nodes[..|Nodes| - 1];
      Contents := Contents[..|Contents| - 1];
      StepPopTail(p, pool, h, t, free, capacity, ns, FreeNodes, vs, blank);
      FreeNode(oldNode);
      ok := true;
    }

    method GetSize() returns (n: nat)
      requires Valid()
      ensures n == |Contents|
    {
      n := size;
    }

    /** Deletes every node, live or free: the deque is empty with capacity 0. */
    method Empty()
      requires Valid()
      modifies this
      ensures Valid()
      ensures Contents == [] && size == 0 && capacity == 0
    {
      LiveChain(pool, head, tail, Nodes, Contents);
      FreeChain(pool, free, FreeNodes, blank);
      DestroyNodeList(head, Nodes);
      DestroyNodeList(free, FreeNodes);
      // both lists together held every node, so nothing is left to count
      assert capacity == 0;
      pool := [];
      head, tail, free := -1, -1, -1;
      size, capacity := 0, 0;
      Nodes, FreeNodes, Contents := [], [], [];
    }

    method IsEmpty() returns (e: bool)
      requires Valid()
      ensures e <==> Contents == []
    {
      e := size == 0;
    }

    /** Only when the free list is exhausted: allocates max(n, 1) new nodes,
        each pushed on the front of the free list. */
    method CreateFreeList(n: nat)
      requires Valid()
      modifies this
      ensures Valid()
      ensures Contents == old(Contents) && Nodes == old(Nodes) && head == old(head) && tail == old(tail)
      ensures old(free) != -1 ==> unchanged(this)
      ensures old(free) == -1 ==> capacity == old(capacity) + Grow(n) && |FreeNodes| == Grow(n)
    {
      FreeEnds(pool, free, FreeNodes, blank);
      if free == -1 {
        var count := Grow(n);
        var i := 0;
        while i < count
          invariant 0 <= i <= count
          invariant capacity == old(capacity) + i && |FreeNodes| == i && size == old(size)
          invariant Contents == old(Contents) && Nodes == old(Nodes)
          invariant head == old(head) && tail == old(tail)
          invariant Valid()
        {
          StepAddFree(pool, head, tail, free, capacity, Nodes, FreeNodes, Contents, blank);
          pool := pool + [Link(free, -1, blank)];
          free := capacity;
          FreeNodes := [capacity] + FreeNodes;
          capacity := capacity + 1;
          i := i + 1;
        }
      }
    }

    /** Walks the chain from `start`, releasing one node per step; Empty then
        drops the released slots from the pool. */
    method DestroyNodeList(start: int, ghost chain: seq<int>)
      requires Chain(pool, start, chain) && |chain| <= capacity
      modifies this
      ensures capacity == old(capacity) - |chain|
      ensures pool == old(pool) && size == old(size) && head == old(head) && tail == old(tail) && free == old(free)
      ensures Contents == old(Contents) && Nodes == old(Nodes) && FreeNodes == old(FreeNodes)
    {
      if start == -1 {
        assert chain != [] ==> Linked(pool, chain, 0);
        return;
      }
      var cur := start;
      ghost var k := 0;
      while cur != -1
        invariant 0 <= k <= |chain|
        invariant cur == if k < |chain| then chain[k] else -1
        invariant k < |chain| ==> Linked(pool, chain, k)
        invariant capacity == old(capacity) - k
        invariant pool == old(pool) && size == old(size) && head == old(head) && tail == old(tail) && free == old(free)
        invariant Contents == old(Contents) && Nodes == old(Nodes) && FreeNodes == old(FreeNodes)
        decreases |chain| - k
      {
        var next := pool[cur].next;
        cur := next;
        capacity := capacity - 1;
        k := k + 1;
      }
    }

    /** Takes the first free node, growing the free list by the current capacity
        (by one when the capacity is 0) if it is exhausted, and links it to
        `prev` and `next`; the caller links the neighbours to it. */
    method CreateNode(prev: int, next: int) returns (x: int)
      requires Valid()
      modifies this
      ensures Detached(x)
      ensures pool[x] == Link(next, prev, blank)
      ensures Contents == old(Contents) && Nodes == old(Nodes) && head == old(head) && tail == old(tail)
      ensures old(size) < old(capacity) ==> x == old(free) && capacity == old(capacity)
      ensures old(size) == old(capacity) ==> capacity == old(capacity) + Grow(old(capacity))
    {
      FreeEnds(pool, free, FreeNodes, blank);
      if free == -1 {
        CreateFreeList(capacity);
      }
      ghost var p, fs := pool, FreeNodes;
      FreeEnds(p, free, fs, blank);
      x := free;
      free := pool[free].next;
      pool := pool[x := pool[x].(prev := prev, next := next)];
      FreeNodes := FreeNodes[1..];
      size := size + 1;
      StepCreate(p, pool, head, tail, x, capacity, Nodes, fs, Contents, blank, prev, next);
    }

    /** Resets the node's element to T() and pushes it on the free list; a null
        node is ignored. */
    method FreeNode(x: int)
      requires x == -1 ==> Valid()
      requires x != -1 ==> Detached(x)
      modifies this
      ensures Valid() && capacity == old(capacity)
      ensures Contents == old(Contents) && Nodes == old(Nodes) && head == old(head) && tail == old(tail)
      ensures x == -1 ==> unchanged(this)
      ensures x != -1 ==> free == x && pool[x].data == blank
    {
      if x != -1 {
        ghost var p, fs := pool, FreeNodes;
        pool := pool[x := pool[x].(data := blank, next := free)];
        StepFree(p, pool, head, tail, free, capacity, Nodes, fs, Contents, blank, x);
        free := x;
        FreeNodes := [x] + FreeNodes;
        size := size - 1;
      }
    }

    /** Rebuilds this deque as a copy of `other`: a free list of other's
        capacity, then other's elements pushed at the head from other's tail
        backwards.  A source of capacity 0 leaves this deque as it was. */
    method Copy(other: XDeque<T>)
      requires Valid() && other.Valid() && other != this && other.blank == blank
      modifies this
      ensures Valid()
      ensures other.capacity > 0 ==> Contents == other.Contents && capacity == other.capacity
      ensures other.capacity == 0 ==> unchanged(this)
    {
      var n := other.capacity;
      if n <= 0 {
        return;
      }
      size, capacity := 0, 0;
      head, tail, free := -1, -1, -1;
      pool := [];
      Contents, Nodes, FreeNodes := [], [], [];
      NoNodes(blank);
      CreateFreeList(n);
      var cur := other.tail;
      LiveEnds(other.pool, other.head, other.tail, other.Nodes, other.Contents);
      if cur == -1 {
        return;
      }
      ghost var k := |other.Nodes|;
      while cur != -1
        invariant 0 <= k <= |other.Nodes|
        invariant cur == if k > 0 then other.Nodes[k - 1] else -1
        invariant k > 0 ==> 0 <= other.Nodes[k - 1]
        invariant Valid()
        invariant Contents == other.Contents[k..] && capacity == n
        decreases k
      {
        LiveAt(other.pool, other.head, other.tail, other.Nodes, other.Contents, k - 1);
        var _ := PushBack(other.pool[cur].data);
        cur := other.pool[cur].prev;
        k := k - 1;
      }
    }
  }

  // ---------------------------------------------------------------------------
  // How the operations combine

  /** PopBack undoes PushBack: the pushed element comes back out and the deque
      holds what it held before. */
  method PushBackThenPopBack<T>(d: XDeque<T>, x: T) returns (y: T)
    requires d.Valid()
    modifies d
    ensures d.Valid() && y == x && d.Contents == old(d.Contents)
  {
    var _ := d.PushBack(x);
    var ok;
    ok, y := d.PopBack(d.blank);
  }

  /** Used as a queue (PushBack in, PopFront out), the deque hands back the
      oldest element, and the element just pushed only when it was empty. */
  method PushBackThenPopFront<T>(d: XDeque<T>, x: T) returns (y: T)
    requires d.Valid()
    modifies d
    ensures d.Valid()
    ensures old(d.Contents) == [] ==> y == x && d.Contents == []
    ensures old(d.Contents) != [] ==> var n := |old(d.Contents)|;
      y == old(d.Contents)[n - 1] && d.Contents == [x] + old(d.Contents)[..n - 1]
  {
    var _ := d.PushBack(x);
    var ok;
    ok, y := d.PopFront(d.blank);
  }
}
