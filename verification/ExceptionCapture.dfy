/** Flattening a failure into a list: the traversal of a possibly cyclic graph of
    causes, contexts and group members. */
module ExceptionCapture {
  import opened Options
  import opened Digraphs

  type Id = nat

  /** An exception object; `children` are the members of a group. */
  datatype Exc = Exc(children: seq<Id>, cause: Option<Id>, context: Option<Id>, suppressContext: bool)

  type Heap = map<Id, Exc>

  ghost predicate ValidHeap(heap: Heap) {
    forall id, s, t :: id in heap && LeadsTo(heap[id], s, t) ==> t in heap
  }

  /** The parts of a dotted path. */
  datatype Segment = Root | Branch(index: nat) | Cause | Context

  type Path = seq<Segment>

  const ROOT: Path := [Root]

  /** What an exception leads to: each member of its group under its index, its cause, and
      its context unless there is a cause or it is suppressed. */
  ghost predicate LeadsTo(e: Exc, s: Segment, t: Id) {
    match s
    case Root => false
    case Branch(k) => k < |e.children| && e.children[k] == t
    case Cause => e.cause == Some(t)
    case Context => e.cause == None && !e.suppressContext && e.context == Some(t)
  }

  ghost function Degree(e: Exc): nat {
    |e.children| + if e.cause.Some? || (!e.suppressContext && e.context.Some?) then 1 else 0
  }

  datatype Link = Link(segment: Segment, target: Id)

  /** Group members from the last to the first: the order in which they are pushed. */
  function Branches(children: seq<Id>): (links: seq<Link>)
    ensures |links| == |children|
  {
    if children == [] then []
    else [Link(Branch(|children| - 1), children[|children| - 1])] + Branches(children[..|children| - 1])
  }

  /** Every link the traversal follows from an exception, in push order.  A context
      counts only without a cause and unless suppressed. */
  function Links(e: Exc): seq<Link> {
    Branches(e.children) +
    (if e.cause.Some? then [Link(Cause, e.cause.value)]
     else if !e.suppressContext && e.context.Some? then [Link(Context, e.context.value)]
     else [])
  }

  /** Causes and contexts of the root drop the root's name from their path. */
  function Child(path: Path, segment: Segment): Path {
    if path == ROOT && !segment.Branch? then [segment] else path + [segment]
  }

  datatype Item = Item(path: Path, segment: Segment, id: Id)

  /** `previous` is the path of the full entry that an alias repeats. */
  datatype Entry = Entry(path: Path, segment: Segment, id: Id, previous: Option<Path>)

  function Followers(path: Path, links: seq<Link>): (items: seq<Item>)
    ensures |items| == |links|
  {
    seq(|links|, i requires 0 <= i < |links| => Item(Child(path, links[i].segment), links[i].segment, links[i].target))
  }

  // ----- what the result has to be -----

  ghost function LinkGraph(heap: Heap): Graph<Id> {
    map id | id in heap :: set t | t in heap && exists s :: LeadsTo(heap[id], s, t)
  }

  ghost predicate IsFull(chain: seq<Entry>, i: int, id: Id) {
    0 <= i < |chain| && chain[i].id == id && chain[i].previous.None?
  }

  ghost predicate OneFullEntryEach(heap: Heap, root: Id, chain: seq<Entry>) {
    && (forall id :: Reaches(LinkGraph(heap), root, id) <==> exists i :: IsFull(chain, i, id))
    && (forall i, j, id :: IsFull(chain, i, id) && IsFull(chain, j, id) ==> i == j)
  }

  ghost predicate AliasesPointBack(chain: seq<Entry>) {
    forall i :: 0 <= i < |chain| && chain[i].previous.Some? ==>
      exists j :: j < i && IsFull(chain, j, chain[i].id) && chain[j].path == chain[i].previous.value
  }

  ghost predicate PathsUnique(chain: seq<Entry>) {
    forall i, j :: 0 <= i < j < |chain| ==> chain[i].path != chain[j].path
  }

  /** Links of all full entries together. */
  ghost function LinkCount(heap: Heap, chain: seq<Entry>): nat {
    if chain == [] then 0
    else
      var last := chain[|chain| - 1];
      LinkCount(heap, chain[..|chain| - 1]) + if last.previous.None? && last.id in heap then Degree(heap[last.id]) else 0
  }

  ghost predicate HasItem(chain: seq<Entry>, x: Item) {
    exists i :: 0 <= i < |chain| && Plain(chain[i]) == x
  }

  ghost function Plain(e: Entry): Item {
    Item(e.path, e.segment, e.id)
  }

  /** The path of a link: below its parent's, but causes and contexts of the root stand alone. */
  ghost predicate IsBelow(parent: Path, s: Segment, path: Path) {
    path == if parent == [Root] && (s == Cause || s == Context) then [s] else parent + [s]
  }

  ghost predicate ListedBelow(chain: seq<Entry>, i: int, s: Segment, t: Id) {
    exists j :: 0 <= j < |chain| && IsBelowAt(chain, i, j, s, t)
  }

  ghost predicate IsBelowAt(chain: seq<Entry>, i: int, j: int, s: Segment, t: Id) {
    && 0 <= i < |chain| && 0 <= j < |chain|
    && chain[j].segment == s && chain[j].id == t && IsBelow(chain[i].path, s, chain[j].path)
  }

  /** The list is the root and, under each full entry, one entry for each thing the exception
      leads to, under its path, and no others. */
  ghost predicate EveryLinkListed(heap: Heap, root: Id, chain: seq<Entry>) {
    && |chain| == 1 + LinkCount(heap, chain)
    && chain[0] == Entry(ROOT, Root, root, None)
    && (forall i, id, s, t :: IsFull(chain, i, id) && id in heap && LeadsTo(heap[id], s, t) ==> ListedBelow(chain, i, s, t))
    && (forall j :: 0 < j < |chain| ==> HasParent(heap, chain, j))
  }

  ghost predicate HasParent(heap: Heap, chain: seq<Entry>, j: int)
    requires 0 <= j < |chain|
  {
    exists i, id :: IsFull(chain, i, id) && id in heap && LeadsTo(heap[id], chain[j].segment, chain[j].id)
                    && IsBelowAt(chain, i, j, chain[j].segment, chain[j].id)
  }

  // ----- paths -----

  predicate ValidPath(path: Path) {
    path == ROOT || (path != [] && !path[|path| - 1].Root?)
  }

  lemma AppendIsInjective(p: Path, s: Segment, q: Path, t: Segment)
    requires p + [s] == q + [t]
    ensures p == q && s == t
  {
    assert (p + [s])[..|p|] == p && (p + [s])[|p|] == s;
    assert (q + [t])[..|q|] == q && (q + [t])[|q|] == t;
  }

  lemma ChildIsInjective(p: Path, s: Segment, q: Path, t: Segment)
    requires ValidPath(p) && ValidPath(q) && !s.Root? && !t.Root?
    ensures Child(p, s) == Child(q, t) ==> p == q && s == t
    ensures Child(p, s) != ROOT && ValidPath(Child(p, s))
  {
    var c, d := Child(p, s), Child(q, t);
    assert c[|c| - 1] == s && d[|d| - 1] == t;
    if c == d && p != ROOT && q != ROOT {
      AppendIsInjective(p, s, q, t);
    } else if c == d && |c| > 1 {
      assert p == ROOT ==> c[0] == Root;
      assert q == ROOT ==> d[0] == Root;
      AppendIsInjective(p, s, q, t);
    }
  }

  lemma {:induction false} BranchAt(children: seq<Id>, i: nat)
    requires i < |children|
    ensures Branches(children)[i] == Link(Branch(|children| - 1 - i), children[|children| - 1 - i])
  {
    if i > 0 {
      BranchAt(children[..|children| - 1], i - 1);
    }
  }

  lemma LinksAreDistinct(e: Exc)
    ensures forall i :: 0 <= i < |Links(e)| ==> !Links(e)[i].segment.Root?
    ensures forall i, j :: 0 <= i < j < |Links(e)| ==> Links(e)[i].segment != Links(e)[j].segment
  {
    hide Branches;
    forall i | 0 <= i < |e.children|
      ensures Branches(e.children)[i].segment == Branch(|e.children| - 1 - i)
    {
      BranchAt(e.children, i);
    }
  }

  // ----- paths as text -----

  /** The decimal numeral. */
  function Digits(n: nat): string {
    if n < 10 then ['0' + n as char] else Digits(n / 10) + ['0' + (n % 10) as char]
  }

  function SegmentText(s: Segment): string {
    match s
    case Root => "root"
    case Branch(index) => "branch[" + Digits(index) + "]"
    case Cause => "cause"
    case Context => "context"
  }

  /** The dotted text that stands for a path. */
  function PathText(path: Path): string {
    if path == [] then ""
    else if |path| == 1 then SegmentText(path[0])
    else PathText(path[..|path| - 1]) + "." + SegmentText(path[|path| - 1])
  }

  /** The number a decimal numeral stands for. */
  ghost function ReadBack(digits: string): int {
    if digits == "" then 0 else 10 * ReadBack(digits[..|digits| - 1]) + (digits[|digits| - 1] as int - '0' as int)
  }

  lemma {:induction false} DigitsReadBack(n: nat)
    ensures ReadBack(Digits(n)) == n
  {
    var d := Digits(n);
    assert d[|d| - 1] == '0' + (n % 10) as char;
    if n < 10 {
      assert d[..|d| - 1] == "";
    } else {
      assert d[..|d| - 1] == Digits(n / 10);
      DigitsReadBack(n / 10);
    }
  }

  lemma DigitsAreInjective(m: nat, n: nat)
    requires Digits(m) == Digits(n)
    ensures m == n
  {
    DigitsReadBack(m);
    DigitsReadBack(n);
  }

  lemma {:induction false} DigitsAreSome(n: nat)
    ensures Digits(n) != "" && forall i :: 0 <= i < |Digits(n)| ==> '0' <= Digits(n)[i] <= '9'
  {
    if n >= 10 {
      DigitsAreSome(n / 10);
    }
  }

  lemma SegmentTextIsInjective(s: Segment, t: Segment)
    requires SegmentText(s) == SegmentText(t)
    ensures s == t
  {
    hide Digits;
    var a, b := SegmentText(s), SegmentText(t);
    assert a[0] == b[0] && a[1] == b[1];
    if s.Branch? && t.Branch? {
      assert a[7..|a| - 1] == Digits(s.index) && b[7..|b| - 1] == Digits(t.index);
      DigitsAreInjective(s.index, t.index);
    }
  }

  lemma SegmentTextHasNoDot(s: Segment)
    ensures '.' !in SegmentText(s)
  {
    hide Digits;
    if s.Branch? {
      DigitsAreSome(s.index);
    }
  }

  lemma NoDotBehind(a: string, x: string)
    requires '.' !in x
    ensures forall k :: |a| < k < |a + "." + x| ==> (a + "." + x)[k] != '.'
  {
    forall k | |a| < k < |a + "." + x|
      ensures (a + "." + x)[k] != '.'
    {
      assert (a + "." + x)[k] == x[k - |a| - 1];
    }
  }

  /** A text is cut in one way at its last dot. */
  lemma LastDotDivides(a: string, x: string, b: string, y: string)
    requires a + "." + x == b + "." + y && '.' !in x && '.' !in y
    ensures a == b && x == y
  {
    var t := a + "." + x;
    NoDotBehind(a, x);
    NoDotBehind(b, y);
    assert t[|a|] == '.' && t[|b|] == '.';
    assert t[..|a|] == a && t[|a| + 1..] == x;
    assert t[..|b|] == b && t[|b| + 1..] == y;
  }

  /** Different paths have different texts. */
  lemma {:induction false} PathTextIsInjective(p: Path, q: Path)
    requires p != [] && q != [] && PathText(p) == PathText(q)
    ensures p == q
  {
    hide SegmentText;
    var m, n := |p| - 1, |q| - 1;
    SegmentTextHasNoDot(p[m]);
    SegmentTextHasNoDot(q[n]);
    assert m > 0 ==> '.' in PathText(p);
    assert n > 0 ==> '.' in PathText(q);
    if m > 0 && n > 0 {
      LastDotDivides(PathText(p[..m]), SegmentText(p[m]), PathText(q[..n]), SegmentText(q[n]));
      PathTextIsInjective(p[..m], q[..n]);
      assert p == p[..m] + [p[m]] && q == q[..n] + [q[n]];
    }
    SegmentTextIsInjective(p[m], q[n]);
  }

  lemma AppendedText(p: Path, s: Segment)
    requires p != []
    ensures PathText(p + [s]) == PathText(p) + "." + SegmentText(s)
  {
    assert (p + [s])[..|p|] == p;
  }

  lemma RootText(p: Path)
    requires p != []
    ensures PathText(p) == "root" <==> p == ROOT
  {
    if PathText(p) == "root" {
      PathTextIsInjective(p, ROOT);
    }
  }

  /** The texts are built as the traversal builds them, the root told by its text. */
  lemma ChildText(p: Path, s: Segment)
    requires p != [] && !s.Root?
    ensures PathText(Child(p, s)) == match s
      case Root => ""
      case Branch(index) => PathText(p) + "." + ("branch[" + Digits(index) + "]")
      case Cause => if PathText(p) == "root" then "cause" else PathText(p) + "." + "cause"
      case Context => if PathText(p) == "root" then "context" else PathText(p) + "." + "context"
  {
    RootText(p);
    AppendedText(p, s);
    assert PathText([s]) == SegmentText(s);
    hide PathText, Digits;
  }

  ghost predicate TextsUnique(chain: seq<Entry>) {
    forall i, j :: 0 <= i < j < |chain| ==> PathText(chain[i].path) != PathText(chain[j].path)
  }

  lemma ListedTextsAreUnique(heap: Heap, root: Id, s: State)
    requires AllBorn(heap, root, s) && PathsUnique(s.chain)
    ensures TextsUnique(s.chain)
  {
    hide PathText;
    forall i, j | 0 <= i < j < |s.chain|
      ensures PathText(s.chain[i].path) != PathText(s.chain[j].path)
    {
      BornPathIsValid(heap, root, s, Plain(s.chain[i]));
      BornPathIsValid(heap, root, s, Plain(s.chain[j]));
      if PathText(s.chain[i].path) == PathText(s.chain[j].path) {
        PathTextIsInjective(s.chain[i].path, s.chain[j].path);
      }
    }
  }

  /** The links are what an exception leads to, each once. */
  lemma LinksAreAll(e: Exc)
    ensures |Links(e)| == Degree(e)
    ensures forall k :: 0 <= k < |Links(e)| ==> LeadsTo(e, Links(e)[k].segment, Links(e)[k].target)
    ensures forall s, t :: LeadsTo(e, s, t) ==> exists k :: 0 <= k < |Links(e)| && Links(e)[k] == Link(s, t)
  {
    hide Branches;
    var links, n := Links(e), |e.children|;
    forall i | 0 <= i < n
      ensures links[i] == Link(Branch(n - 1 - i), e.children[n - 1 - i])
    {
      BranchAt(e.children, i);
    }
    forall s, t | LeadsTo(e, s, t)
      ensures exists k :: 0 <= k < |links| && links[k] == Link(s, t)
    {
      var k := if s.Branch? then n - 1 - s.index else n;
      assert links[k] == Link(s, t);
    }
  }

  // ----- the state of the traversal -----

  datatype State = State(chain: seq<Entry>, pending: seq<Item>, seen: map<Id, Path>)

  /** `seen` is the table of full entries. */
  ghost predicate SeenMatches(s: State) {
    && (forall i, id :: IsFull(s.chain, i, id) ==> id in s.seen && s.chain[i].path == s.seen[id])
    && (forall id :: id in s.seen ==> exists i :: IsFull(s.chain, i, id))
  }

  /** Nothing listed or pending has the path of anything else. */
  ghost predicate AllPathsUnique(s: State) {
    && PathsUnique(s.chain)
    && (forall i, j :: 0 <= i < j < |s.pending| ==> s.pending[i].path != s.pending[j].path)
    && (forall i, j :: 0 <= i < |s.chain| && 0 <= j < |s.pending| ==> s.chain[i].path != s.pending[j].path)
  }

  /** x is the root or one of the links of a full entry. */
  ghost predicate Born(heap: Heap, root: Id, seen: map<Id, Path>, x: Item) {
    x == Item(ROOT, Root, root) || exists id, k :: IsFollower(heap, seen, id, k, x)
  }

  ghost predicate IsFollower(heap: Heap, seen: map<Id, Path>, id: Id, k: int, x: Item) {
    && id in seen && id in heap && 0 <= k < |Links(heap[id])| && Followers(seen[id], Links(heap[id]))[k] == x
  }

  ghost predicate AllBorn(heap: Heap, root: Id, s: State) {
    && (forall i :: 0 <= i < |s.chain| ==> Born(heap, root, s.seen, Plain(s.chain[i])))
    && (forall i :: 0 <= i < |s.pending| ==> Born(heap, root, s.seen, s.pending[i]))
    && (forall id :: id in s.seen ==> ValidPath(s.seen[id]))
  }

  /** Every link of a full entry is listed or pending. */
  ghost predicate AllKept(heap: Heap, s: State) {
    forall id, k, x :: IsFollower(heap, s.seen, id, k, x) ==> HasItem(s.chain, x) || x in s.pending
  }

  ghost predicate AllReachable(heap: Heap, root: Id, s: State) {
    && s.seen.Keys <= heap.Keys
    && (forall id :: id in s.seen ==> Reaches(LinkGraph(heap), root, id))
    && (forall i :: 0 <= i < |s.pending| ==> s.pending[i].id in heap && Reaches(LinkGraph(heap), root, s.pending[i].id))
    && (forall i :: 0 <= i < |s.chain| ==> s.chain[i].id in s.seen)
  }

  ghost predicate Inv(heap: Heap, root: Id, s: State) {
    && SeenMatches(s) && AliasesPointBack(s.chain) && AllPathsUnique(s) && AllBorn(heap, root, s) && AllKept(heap, s)
    && AllReachable(heap, root, s)
    && |s.chain| + |s.pending| == 1 + LinkCount(heap, s.chain)
    && (if s.chain == [] then s.pending == [Item(ROOT, Root, root)] else s.chain[0] == Entry(ROOT, Root, root, None))
  }

  // ----- one turn of the loop -----

  function AliasTurn(s: State): State
    requires s.pending != [] && s.pending[|s.pending| - 1].id in s.seen
  {
    var x := s.pending[|s.pending| - 1];
    State(s.chain + [Entry(x.path, x.segment, x.id, Some(s.seen[x.id]))], s.pending[..|s.pending| - 1], s.seen)
  }

  function FullTurn(heap: Heap, s: State): State
    requires s.pending != [] && s.pending[|s.pending| - 1].id in heap
  {
    var x := s.pending[|s.pending| - 1];
    State(s.chain + [Entry(x.path, x.segment, x.id, None)],
          s.pending[..|s.pending| - 1] + Followers(x.path, Links(heap[x.id])), s.seen[x.id := x.path])
  }

  lemma ListedStaysListed(chain: seq<Entry>, e: Entry)
    ensures forall i, id :: IsFull(chain + [e], i, id) <==> IsFull(chain, i, id) || (i == |chain| && e.previous.None? && e.id == id)
    ensures forall x :: HasItem(chain, x) ==> HasItem(chain + [e], x)
    ensures HasItem(chain + [e], Plain(e))
  {
    var longer := chain + [e];
    assert longer[|chain|] == e;
    forall x | HasItem(chain, x) ensures HasItem(longer, x) {
      var i :| 0 <= i < |chain| && Plain(chain[i]) == x;
      assert longer[i] == chain[i];
    }
  }

  lemma AliasTurnKeepsInv(heap: Heap, root: Id, s: State)
    requires ValidHeap(heap) && Inv(heap, root, s) && s.pending != [] && s.pending[|s.pending| - 1].id in s.seen
    ensures Inv(heap, root, AliasTurn(s))
  {
    hide SeenMatches, AliasesPointBack, AllPathsUnique, AllBorn, AllKept, AllReachable;
    var x := s.pending[|s.pending| - 1];
    var e := Entry(x.path, x.segment, x.id, Some(s.seen[x.id]));
    assert (s.chain + [e])[..|s.chain|] == s.chain;
    assert s.chain == [] ==> x == Item(ROOT, Root, root);
    SomethingSeenIsListed(s, x.id);
    TurnKeepsPaths(s, e);
    AliasKeepsTable(s, e);
    TurnKeepsBorn(heap, root, s, e, s.seen);
    TurnKeepsKept(heap, s, e);
    TurnKeepsReachable(heap, root, s, e);
    SeenMatchesIgnoresPending(s.(chain := s.chain + [e]), s.pending[..|s.pending| - 1]);
  }

  lemma SomethingSeenIsListed(s: State, id: Id)
    requires SeenMatches(s) && id in s.seen
    ensures s.chain != []
  {
    var i :| IsFull(s.chain, i, id);
  }

  lemma SeenMatchesIgnoresPending(s: State, pending: seq<Item>)
    requires SeenMatches(s)
    ensures SeenMatches(s.(pending := pending))
  {
  }

  lemma TurnKeepsBorn(heap: Heap, root: Id, s: State, e: Entry, seen: map<Id, Path>)
    requires AllBorn(heap, root, s) && s.pending != [] && Plain(e) == s.pending[|s.pending| - 1]
    requires forall id :: id in s.seen ==> id in seen && seen[id] == s.seen[id]
    requires forall id :: id in seen && id !in s.seen ==> ValidPath(seen[id])
    ensures AllBorn(heap, root, State(s.chain + [e], s.pending[..|s.pending| - 1], seen))
  {
    forall x | Born(heap, root, s.seen, x) ensures Born(heap, root, seen, x) {
      if x != Item(ROOT, Root, root) {
        var id, k :| IsFollower(heap, s.seen, id, k, x);
        assert IsFollower(heap, seen, id, k, x);
      }
    }
  }

  lemma TurnKeepsReachable(heap: Heap, root: Id, s: State, e: Entry)
    requires AllReachable(heap, root, s) && s.pending != [] && Plain(e) == s.pending[|s.pending| - 1] && e.id in s.seen
    ensures AllReachable(heap, root, State(s.chain + [e], s.pending[..|s.pending| - 1], s.seen))
  {
    hide Reaches;
  }

  lemma AliasKeepsTable(s: State, e: Entry)
    requires SeenMatches(s) && AliasesPointBack(s.chain) && e.id in s.seen && e.previous == Some(s.seen[e.id])
    ensures AliasesPointBack(s.chain + [e]) && SeenMatches(s.(chain := s.chain + [e]))
  {
    var longer := s.chain + [e];
    ListedStaysListed(s.chain, e);
    var n :| IsFull(s.chain, n, e.id);
    forall i | 0 <= i < |longer| && longer[i].previous.Some?
      ensures exists j :: j < i && IsFull(longer, j, longer[i].id) && longer[j].path == longer[i].previous.value
    {
      if i == |s.chain| {
        assert IsFull(longer, n, e.id);
      } else {
        var j :| j < i && IsFull(s.chain, j, s.chain[i].id) && s.chain[j].path == s.chain[i].previous.value;
        assert IsFull(longer, j, longer[i].id);
      }
    }
    forall id | id in s.seen ensures exists i :: IsFull(longer, i, id) {
      var i :| IsFull(s.chain, i, id);
      assert IsFull(longer, i, id);
    }
  }

  lemma TurnKeepsPaths(s: State, e: Entry)
    requires AllPathsUnique(s) && s.pending != [] && e.path == s.pending[|s.pending| - 1].path
    ensures AllPathsUnique(s.(chain := s.chain + [e], pending := s.pending[..|s.pending| - 1]))
  {
  }

  lemma TurnKeepsKept(heap: Heap, s: State, e: Entry)
    requires AllKept(heap, s) && s.pending != [] && Plain(e) == s.pending[|s.pending| - 1]
    ensures AllKept(heap, s.(chain := s.chain + [e], pending := s.pending[..|s.pending| - 1]))
  {
    ListedStaysListed(s.chain, e);
    var last := |s.pending| - 1;
    forall id, k, x | IsFollower(heap, s.seen, id, k, x) ensures HasItem(s.chain + [e], x) || x in s.pending[..last] {
      if x in s.pending && x != Plain(e) {
        var i :| 0 <= i < |s.pending| && s.pending[i] == x;
        assert s.pending[..last][i] == x;
      }
    }
  }

  /** A new full entry's path belongs to no full entry so far, so its links get paths
      that nothing has. */
  lemma NewPathsAreFresh(heap: Heap, root: Id, s: State, x: Item, e: Exc, k: int, y: Item)
    requires AllBorn(heap, root, s) && ValidPath(x.path) && forall id :: id in s.seen ==> s.seen[id] != x.path
    requires 0 <= k < |Links(e)| && Born(heap, root, s.seen, y)
    ensures Followers(x.path, Links(e))[k].path != y.path
  {
    LinksAreDistinct(e);
    var segment := Links(e)[k].segment;
    ChildIsInjective(x.path, segment, x.path, segment);
    if y != Item(ROOT, Root, root) {
      var id, m :| IsFollower(heap, s.seen, id, m, y);
      LinksAreDistinct(heap[id]);
      ChildIsInjective(x.path, segment, s.seen[id], Links(heap[id])[m].segment);
    }
  }

  lemma FollowersAreDistinct(path: Path, e: Exc)
    requires ValidPath(path)
    ensures forall i, j :: 0 <= i < j < |Links(e)| ==> Followers(path, Links(e))[i].path != Followers(path, Links(e))[j].path
    ensures forall i :: 0 <= i < |Links(e)| ==> ValidPath(Followers(path, Links(e))[i].path)
  {
    LinksAreDistinct(e);
    forall i | 0 <= i < |Links(e)| ensures ValidPath(Followers(path, Links(e))[i].path) {
      ChildIsInjective(path, Links(e)[i].segment, path, Links(e)[i].segment);
    }
    forall i, j | 0 <= i < j < |Links(e)| ensures Followers(path, Links(e))[i].path != Followers(path, Links(e))[j].path {
      ChildIsInjective(path, Links(e)[i].segment, path, Links(e)[j].segment);
    }
  }

  lemma BornPathIsValid(heap: Heap, root: Id, s: State, x: Item)
    requires AllBorn(heap, root, s) && Born(heap, root, s.seen, x)
    ensures ValidPath(x.path)
  {
    if x != Item(ROOT, Root, root) {
      var id, k :| IsFollower(heap, s.seen, id, k, x);
      FollowersAreDistinct(s.seen[id], heap[id]);
    }
  }

  lemma FullKeepsTable(s: State, e: Entry, pending: seq<Item>)
    requires SeenMatches(s) && AliasesPointBack(s.chain) && e.id !in s.seen && e.previous == None
    ensures AliasesPointBack(s.chain + [e])
    ensures SeenMatches(State(s.chain + [e], pending, s.seen[e.id := e.path]))
  {
    var longer := s.chain + [e];
    ListedStaysListed(s.chain, e);
    forall i | 0 <= i < |longer| && longer[i].previous.Some?
      ensures exists j :: j < i && IsFull(longer, j, longer[i].id) && longer[j].path == longer[i].previous.value
    {
      var j :| j < i && IsFull(s.chain, j, s.chain[i].id) && s.chain[j].path == s.chain[i].previous.value;
      assert IsFull(longer, j, longer[i].id);
    }
    var seen := s.seen[e.id := e.path];
    forall id | id in seen ensures exists i :: IsFull(longer, i, id) {
      if id == e.id {
        assert IsFull(longer, |s.chain|, id);
      } else {
        var i :| IsFull(s.chain, i, id);
        assert IsFull(longer, i, id);
      }
    }
  }

  /** The popped path is nobody's in the table. */
  lemma PoppedPathIsNew(s: State, x: Item)
    requires SeenMatches(s) && AllPathsUnique(s) && s.pending != [] && x == s.pending[|s.pending| - 1]
    ensures forall id :: id in s.seen ==> s.seen[id] != x.path
  {
    forall id | id in s.seen ensures s.seen[id] != x.path {
      var i :| IsFull(s.chain, i, id);
      assert s.chain[i].path == s.seen[id];
    }
  }

  lemma FullKeepsPaths(heap: Heap, root: Id, s: State, e: Entry)
    requires SeenMatches(s) && AllPathsUnique(s) && AllBorn(heap, root, s) && s.pending != []
    requires Plain(e) == s.pending[|s.pending| - 1] && e.id in heap
    ensures AllPathsUnique(State(s.chain + [e], s.pending[..|s.pending| - 1] + Followers(e.path, Links(heap[e.id])), s.seen[e.id := e.path]))
  {
    var x := s.pending[|s.pending| - 1];
    var last := |s.pending| - 1;
    var links := Links(heap[e.id]);
    var fresh' := Followers(e.path, links);
    TurnKeepsPaths(s, e);
    PoppedPathIsNew(s, x);
    BornPathIsValid(heap, root, s, x);
    FollowersAreDistinct(e.path, heap[e.id]);
    forall k, i | 0 <= k < |fresh'| && 0 <= i < last ensures fresh'[k].path != s.pending[i].path {
      NewPathsAreFresh(heap, root, s, x, heap[e.id], k, s.pending[i]);
    }
    forall k, i | 0 <= k < |fresh'| && 0 <= i < |s.chain| + 1 ensures fresh'[k].path != (s.chain + [e])[i].path {
      if i < |s.chain| {
        NewPathsAreFresh(heap, root, s, x, heap[e.id], k, Plain(s.chain[i]));
      } else {
        NewPathsAreFresh(heap, root, s, x, heap[e.id], k, x);
      }
    }
    AppendKeepsUnique(State(s.chain + [e], s.pending[..last], s.seen), fresh');
  }

  lemma AppendKeepsUnique(s: State, more: seq<Item>)
    requires AllPathsUnique(s)
    requires forall i, j :: 0 <= i < j < |more| ==> more[i].path != more[j].path
    requires forall k, i :: 0 <= k < |more| && 0 <= i < |s.pending| ==> more[k].path != s.pending[i].path
    requires forall k, i :: 0 <= k < |more| && 0 <= i < |s.chain| ==> more[k].path != s.chain[i].path
    ensures forall seen :: AllPathsUnique(State(s.chain, s.pending + more, seen))
  {
  }

  lemma FullKeepsBorn(heap: Heap, root: Id, s: State, e: Entry)
    requires SeenMatches(s) && AllBorn(heap, root, s) && s.pending != [] && e.id !in s.seen
    requires Plain(e) == s.pending[|s.pending| - 1] && e.id in heap
    ensures AllBorn(heap, root, State(s.chain + [e], s.pending[..|s.pending| - 1] + Followers(e.path, Links(heap[e.id])), s.seen[e.id := e.path]))
  {
    hide SeenMatches;
    var seen := s.seen[e.id := e.path];
    BornPathIsValid(heap, root, s, Plain(e));
    TurnKeepsBorn(heap, root, s, e, seen);
    var more := Followers(e.path, Links(heap[e.id]));
    forall k | 0 <= k < |more| ensures Born(heap, root, seen, more[k]) {
      assert IsFollower(heap, seen, e.id, k, more[k]);
    }
  }

  lemma FullKeepsKept(heap: Heap, s: State, e: Entry)
    requires AllKept(heap, s) && s.pending != [] && e.id !in s.seen
    requires Plain(e) == s.pending[|s.pending| - 1] && e.id in heap
    ensures AllKept(heap, State(s.chain + [e], s.pending[..|s.pending| - 1] + Followers(e.path, Links(heap[e.id])), s.seen[e.id := e.path]))
  {
    var seen := s.seen[e.id := e.path];
    var more := Followers(e.path, Links(heap[e.id]));
    TurnKeepsKept(heap, s, e);
    forall id, k, x | IsFollower(heap, seen, id, k, x)
      ensures HasItem(s.chain + [e], x) || x in s.pending[..|s.pending| - 1] + more
    {
      if id == e.id {
        assert more[k] == x;
      } else {
        assert IsFollower(heap, s.seen, id, k, x);
      }
    }
  }

  lemma FullKeepsReachable(heap: Heap, root: Id, s: State, e: Entry)
    requires ValidHeap(heap) && AllReachable(heap, root, s) && s.pending != []
    requires Plain(e) == s.pending[|s.pending| - 1] && e.id in heap
    ensures AllReachable(heap, root, State(s.chain + [e], s.pending[..|s.pending| - 1] + Followers(e.path, Links(heap[e.id])), s.seen[e.id := e.path]))
  {
    hide Reaches;
    var links := Links(heap[e.id]);
    LinksAreAll(heap[e.id]);
    forall k | 0 <= k < |links| ensures links[k].target in heap && Reaches(LinkGraph(heap), root, links[k].target) {
      assert links[k].target in Succ(LinkGraph(heap), e.id);
      ReachesThenStep(LinkGraph(heap), root, e.id, links[k].target);
    }
  }

  lemma FullKeepsCount(heap: Heap, root: Id, s: State)
    requires Inv(heap, root, s) && s.pending != [] && s.pending[|s.pending| - 1].id in heap
    ensures var t := FullTurn(heap, s);
      && |t.chain| + |t.pending| == 1 + LinkCount(heap, t.chain)
      && t.chain != [] && t.chain[0] == Entry(ROOT, Root, root, None)
  {
    hide SeenMatches, AliasesPointBack, AllPathsUnique, AllBorn, AllKept, AllReachable, Followers, Links;
    var x := s.pending[|s.pending| - 1];
    var e := Entry(x.path, x.segment, x.id, None);
    LinksAreAll(heap[x.id]);
    assert (s.chain + [e])[..|s.chain|] == s.chain;
  }

  lemma FullTurnKeepsInv(heap: Heap, root: Id, s: State)
    requires ValidHeap(heap) && Inv(heap, root, s) && s.pending != []
    requires s.pending[|s.pending| - 1].id !in s.seen && s.pending[|s.pending| - 1].id in heap
    ensures Inv(heap, root, FullTurn(heap, s))
  {
    hide SeenMatches, AliasesPointBack, AllPathsUnique, AllBorn, AllKept, AllReachable, Followers, Links, LinkCount;
    var x := s.pending[|s.pending| - 1];
    var e := Entry(x.path, x.segment, x.id, None);
    FullKeepsCount(heap, root, s);
    FullKeepsTable(s, e, FullTurn(heap, s).pending);
    FullKeepsPaths(heap, root, s, e);
    FullKeepsBorn(heap, root, s, e);
    FullKeepsKept(heap, s, e);
    FullKeepsReachable(heap, root, s, e);
  }

  // ----- the list as a recursive walk -----

  /** What an exception leads to in the order of the list: its cause or context, then the members
      of its group from the first to the last. */
  ghost function Below(path: Path, e: Exc): seq<Item> {
    (if e.cause.Some? then [ItemBelow(path, Cause, e.cause.value)]
     else if e.suppressContext || e.context.None? then []
     else [ItemBelow(path, Context, e.context.value)])
    + seq(|e.children|, i requires 0 <= i < |e.children| => ItemBelow(path, Branch(i), e.children[i]))
  }

  ghost function ItemBelow(path: Path, s: Segment, id: Id): Item {
    Item(if path == [Root] && (s == Cause || s == Context) then [s] else path + [s], s, id)
  }

  ghost predicate AllKnown(heap: Heap, items: seq<Item>) {
    forall i :: 0 <= i < |items| ==> items[i].id in heap
  }

  lemma BelowIsKnown(heap: Heap, path: Path, id: Id)
    requires ValidHeap(heap) && id in heap
    ensures AllKnown(heap, Below(path, heap[id]))
  {
    var items := Below(path, heap[id]);
    forall i | 0 <= i < |items|
      ensures items[i].id in heap
    {
      assert LeadsTo(heap[id], items[i].segment, items[i].id);
    }
  }

  /** The entries for some items, each with everything below it before the next one; an exception
      that was listed already is an alias.  With them, the table of full entries afterwards. */
  ghost function Walk(heap: Heap, items: seq<Item>, seen: map<Id, Path>): (r: (seq<Entry>, map<Id, Path>))
    requires ValidHeap(heap) && AllKnown(heap, items)
    ensures seen.Keys <= r.1.Keys
    decreases heap.Keys - seen.Keys, |items|
  {
    if items == [] then ([], seen)
    else
      var x := items[0];
      if x.id in seen then
        var rest := Walk(heap, items[1..], seen);
        ([Entry(x.path, x.segment, x.id, Some(seen[x.id]))] + rest.0, rest.1)
      else
        BelowIsKnown(heap, x.path, x.id);
        assert x.id in heap.Keys - seen.Keys;
        var below := Walk(heap, Below(x.path, heap[x.id]), seen[x.id := x.path]);
        assert x.id in below.1.Keys;
        var rest := Walk(heap, items[1..], below.1);
        ([Entry(x.path, x.segment, x.id, None)] + below.0 + rest.0, rest.1)
  }

  lemma NextOfWalk(heap: Heap, x: Item, rest: seq<Item>, seen: map<Id, Path>)
    requires ValidHeap(heap) && x.id in heap && AllKnown(heap, rest) && x.id !in seen
    ensures AllKnown(heap, [x] + rest) && AllKnown(heap, Below(x.path, heap[x.id]))
    ensures var below := Walk(heap, Below(x.path, heap[x.id]), seen[x.id := x.path]); var after := Walk(heap, rest, below.1);
      Walk(heap, [x] + rest, seen) == ([Entry(x.path, x.segment, x.id, None)] + below.0 + after.0, after.1)
  {
    BelowIsKnown(heap, x.path, x.id);
    assert ([x] + rest)[1..] == rest;
  }

  lemma AliasOfWalk(heap: Heap, x: Item, rest: seq<Item>, seen: map<Id, Path>)
    requires ValidHeap(heap) && x.id in heap && AllKnown(heap, rest) && x.id in seen
    ensures AllKnown(heap, [x] + rest)
    ensures var after := Walk(heap, rest, seen);
      Walk(heap, [x] + rest, seen) == ([Entry(x.path, x.segment, x.id, Some(seen[x.id]))] + after.0, after.1)
  {
    assert ([x] + rest)[1..] == rest;
  }

  ghost predicate InTurn(heap: Heap, a: seq<Item>, b: seq<Item>, seen: map<Id, Path>)
    requires ValidHeap(heap) && AllKnown(heap, a) && AllKnown(heap, b)
  {
    && AllKnown(heap, a + b)
    && var first := Walk(heap, a, seen); var second := Walk(heap, b, first.1);
       Walk(heap, a + b, seen) == (first.0 + second.0, second.1)
  }

  lemma AliasInTurn(heap: Heap, x: Item, a: seq<Item>, b: seq<Item>, seen: map<Id, Path>)
    requires ValidHeap(heap) && x.id in heap && x.id in seen && AllKnown(heap, a) && AllKnown(heap, b) && InTurn(heap, a, b, seen)
    ensures AllKnown(heap, [x] + a) && InTurn(heap, [x] + a, b, seen)
  {
    hide Walk;
    AliasOfWalk(heap, x, a, seen);
    AliasOfWalk(heap, x, a + b, seen);
    assert [x] + a + b == [x] + (a + b);
    var first, e := Walk(heap, a, seen), [Entry(x.path, x.segment, x.id, Some(seen[x.id]))];
    assert e + (first.0 + Walk(heap, b, first.1).0) == (e + first.0) + Walk(heap, b, first.1).0;
  }

  lemma FullInTurn(heap: Heap, x: Item, a: seq<Item>, b: seq<Item>, seen: map<Id, Path>)
    requires ValidHeap(heap) && x.id in heap && x.id !in seen && AllKnown(heap, a) && AllKnown(heap, b)
    requires AllKnown(heap, Below(x.path, heap[x.id]))
    requires InTurn(heap, a, b, Walk(heap, Below(x.path, heap[x.id]), seen[x.id := x.path]).1)
    ensures AllKnown(heap, [x] + a) && InTurn(heap, [x] + a, b, seen)
  {
    hide Walk, Below;
    NextOfWalk(heap, x, a, seen);
    NextOfWalk(heap, x, a + b, seen);
    assert [x] + a + b == [x] + (a + b);
    var below := Walk(heap, Below(x.path, heap[x.id]), seen[x.id := x.path]);
    var first, e := Walk(heap, a, below.1), [Entry(x.path, x.segment, x.id, None)] + below.0;
    assert e + (first.0 + Walk(heap, b, first.1).0) == (e + first.0) + Walk(heap, b, first.1).0;
  }

  lemma NothingFirst(heap: Heap, b: seq<Item>, seen: map<Id, Path>)
    requires ValidHeap(heap) && AllKnown(heap, b)
    ensures InTurn(heap, [], b, seen)
  {
    assert [] + b == b && Walk(heap, [], seen) == ([], seen);
    assert [] + Walk(heap, b, seen).0 == Walk(heap, b, seen).0;
  }

  lemma {:induction false} WalkInTurn(heap: Heap, a: seq<Item>, b: seq<Item>, seen: map<Id, Path>)
    requires ValidHeap(heap) && AllKnown(heap, a) && AllKnown(heap, b)
    ensures InTurn(heap, a, b, seen)
    decreases heap.Keys - seen.Keys, |a|
  {
    hide Walk, Below, InTurn;
    if a == [] {
      NothingFirst(heap, b, seen);
    } else {
      var x := a[0];
      assert a == [x] + a[1..];
      if x.id in seen {
        WalkInTurn(heap, a[1..], b, seen);
        AliasInTurn(heap, x, a[1..], b, seen);
      } else {
        BelowIsKnown(heap, x.path, x.id);
        assert x.id in heap.Keys - seen.Keys;
        var below := Walk(heap, Below(x.path, heap[x.id]), seen[x.id := x.path]);
        assert x.id in below.1.Keys && x.id !in heap.Keys - below.1.Keys;
        WalkInTurn(heap, a[1..], b, below.1);
        FullInTurn(heap, x, a[1..], b, seen);
      }
    }
  }

  /** The stack from its top down. */
  ghost function FromTop(pending: seq<Item>): seq<Item> {
    seq(|pending|, i requires 0 <= i < |pending| => pending[|pending| - 1 - i])
  }

  lemma PushedAreBelow(path: Path, e: Exc)
    ensures FromTop(Followers(path, Links(e))) == Below(path, e)
  {
    hide Branches;
    var links, items := Links(e), FromTop(Followers(path, Links(e)));
    forall i | 0 <= i < |e.children|
      ensures links[i] == Link(Branch(|e.children| - 1 - i), e.children[|e.children| - 1 - i])
    {
      BranchAt(e.children, i);
    }
    assert |items| == |Below(path, e)|;
    forall i | 0 <= i < |items|
      ensures items[i] == Below(path, e)[i]
    {
    }
  }

  /** What is listed and what the stack still stands for add up to the whole list. */
  ghost predicate OnTheWay(heap: Heap, root: Id, s: State)
    requires ValidHeap(heap) && root in heap && AllKnown(heap, s.pending)
  {
    Walk(heap, [Item(ROOT, Root, root)], map[]).0 == s.chain + Walk(heap, FromTop(s.pending), s.seen).0
  }

  lemma AliasStaysOnTheWay(heap: Heap, root: Id, s: State)
    requires ValidHeap(heap) && root in heap && AllKnown(heap, s.pending) && OnTheWay(heap, root, s)
    requires s.pending != [] && s.pending[|s.pending| - 1].id in s.seen
    ensures AllKnown(heap, AliasTurn(s).pending) && OnTheWay(heap, root, AliasTurn(s))
  {
    hide Walk, FromTop;
    var x, rest := s.pending[|s.pending| - 1], s.pending[..|s.pending| - 1];
    assert s.pending == rest + [x];
    KnownFromTop(heap, rest);
    KnownFromTop(heap, s.pending);
    Stacked(rest, [], x);
    AliasOfWalk(heap, x, FromTop(rest), s.seen);
    var e := [Entry(x.path, x.segment, x.id, Some(s.seen[x.id]))];
    assert s.chain + (e + Walk(heap, FromTop(rest), s.seen).0) == s.chain + e + Walk(heap, FromTop(rest), s.seen).0;
  }

  lemma FullStaysOnTheWay(heap: Heap, root: Id, s: State)
    requires ValidHeap(heap) && root in heap && AllKnown(heap, s.pending) && OnTheWay(heap, root, s)
    requires s.pending != [] && s.pending[|s.pending| - 1].id !in s.seen
    ensures s.pending[|s.pending| - 1].id in heap
    ensures AllKnown(heap, FullTurn(heap, s).pending) && OnTheWay(heap, root, FullTurn(heap, s))
  {
    hide Walk, Below, Followers, Links, FromTop, LeadsTo;
    var x, rest := s.pending[|s.pending| - 1], s.pending[..|s.pending| - 1];
    assert s.pending == rest + [x];
    var more, seen := Followers(x.path, Links(heap[x.id])), s.seen[x.id := x.path];
    BelowIsKnown(heap, x.path, x.id);
    PushedAreBelow(x.path, heap[x.id]);
    KnownFromTop(heap, more);
    KnownFromTop(heap, rest);
    KnownFromTop(heap, s.pending);
    Stacked(rest, more, x);
    NextOfWalk(heap, x, FromTop(rest), s.seen);
    WalkInTurn(heap, FromTop(more), FromTop(rest), seen);
    var below := Walk(heap, FromTop(more), seen);
    SameList(s.chain, [Entry(x.path, x.segment, x.id, None)], below.0, Walk(heap, FromTop(rest), below.1).0);
  }

  lemma SameList<T>(a: seq<T>, b: seq<T>, c: seq<T>, d: seq<T>)
    ensures a + (b + c + d) == (a + b) + (c + d)
  {
  }

  lemma Stacked(rest: seq<Item>, more: seq<Item>, x: Item)
    ensures FromTop(rest + more) == FromTop(more) + FromTop(rest)
    ensures FromTop(rest + [x]) == [x] + FromTop(rest)
  {
  }

  lemma KnownFromTop(heap: Heap, items: seq<Item>)
    ensures AllKnown(heap, items) <==> AllKnown(heap, FromTop(items))
  {
    if AllKnown(heap, FromTop(items)) {
      forall i | 0 <= i < |items|
        ensures items[i].id in heap
      {
        assert FromTop(items)[|items| - 1 - i] == items[i];
      }
    }
  }

  // ----- the loop -----

  lemma TraversalBegins(heap: Heap, root: Id)
    requires root in heap
    ensures Inv(heap, root, State([], [Item(ROOT, Root, root)], map[]))
  {
    ReachesSelf(LinkGraph(heap), root);
  }

  /** With nothing pending the table is closed under links. */
  lemma SeenIsClosed(heap: Heap, s: State)
    requires SeenMatches(s) && AllKept(heap, s) && s.pending == []
    requires forall i :: 0 <= i < |s.chain| ==> s.chain[i].id in s.seen
    ensures ClosedUnder(LinkGraph(heap), s.seen.Keys)
  {
    var g := LinkGraph(heap);
    forall id | id in s.seen ensures Succ(g, id) <= s.seen.Keys {
      forall target | target in Succ(g, id) ensures target in s.seen {
        LinksAreAll(heap[id]);
        var segment :| LeadsTo(heap[id], segment, target);
        var k :| 0 <= k < |Links(heap[id])| && Links(heap[id])[k] == Link(segment, target);
        var x := Followers(s.seen[id], Links(heap[id]))[k];
        assert IsFollower(heap, s.seen, id, k, x);
        var i :| 0 <= i < |s.chain| && Plain(s.chain[i]) == x;
        assert s.chain[i].id in s.seen;
      }
    }
  }

  lemma FullEntriesAreReachable(heap: Heap, root: Id, s: State)
    requires SeenMatches(s) && AllKept(heap, s) && AllReachable(heap, root, s) && PathsUnique(s.chain) && s.pending == []
    requires s.chain != [] && s.chain[0] == Entry(ROOT, Root, root, None)
    ensures OneFullEntryEach(heap, root, s.chain)
  {
    SeenIsClosed(heap, s);
    assert IsFull(s.chain, 0, root);
    forall i, j, id | IsFull(s.chain, i, id) && IsFull(s.chain, j, id) ensures i == j {
      assert s.chain[i].path == s.seen[id] == s.chain[j].path;
    }
  }

  lemma LinksAreListed(heap: Heap, root: Id, s: State)
    requires SeenMatches(s) && AllKept(heap, s) && s.pending == []
    ensures forall i, id, seg, t :: IsFull(s.chain, i, id) && id in heap && LeadsTo(heap[id], seg, t) ==> ListedBelow(s.chain, i, seg, t)
  {
    forall i, id, seg, t | IsFull(s.chain, i, id) && id in heap && LeadsTo(heap[id], seg, t)
      ensures ListedBelow(s.chain, i, seg, t)
    {
      LinksAreAll(heap[id]);
      var k :| 0 <= k < |Links(heap[id])| && Links(heap[id])[k] == Link(seg, t);
      var x := Followers(s.seen[id], Links(heap[id]))[k];
      assert IsFollower(heap, s.seen, id, k, x);
      var j :| 0 <= j < |s.chain| && Plain(s.chain[j]) == x;
      assert IsBelowAt(s.chain, i, j, seg, t);
    }
  }

  lemma ListedAreLinks(heap: Heap, root: Id, s: State)
    requires SeenMatches(s) && AllBorn(heap, root, s) && PathsUnique(s.chain)
    requires s.chain != [] && s.chain[0] == Entry(ROOT, Root, root, None)
    ensures forall j :: 0 < j < |s.chain| ==> HasParent(heap, s.chain, j)
  {
    forall j | 0 < j < |s.chain|
      ensures HasParent(heap, s.chain, j)
    {
      assert s.chain[0].path != s.chain[j].path;
      var id, k :| IsFollower(heap, s.seen, id, k, Plain(s.chain[j]));
      LinksAreAll(heap[id]);
      var i :| IsFull(s.chain, i, id);
      assert IsBelowAt(s.chain, i, j, s.chain[j].segment, s.chain[j].id);
    }
  }

  lemma TraversalEnds(heap: Heap, root: Id, s: State)
    requires SeenMatches(s) && AliasesPointBack(s.chain) && AllPathsUnique(s) && AllBorn(heap, root, s) && AllKept(heap, s) && AllReachable(heap, root, s)
    requires s.pending == [] && s.chain != [] && s.chain[0] == Entry(ROOT, Root, root, None) && |s.chain| == 1 + LinkCount(heap, s.chain)
    ensures OneFullEntryEach(heap, root, s.chain) && AliasesPointBack(s.chain) && PathsUnique(s.chain)
    ensures EveryLinkListed(heap, root, s.chain)
  {
    hide OneFullEntryEach, AliasesPointBack, AllBorn, AllKept, AllReachable, SeenMatches, LinkCount, HasParent, ListedBelow, LeadsTo;
    FullEntriesAreReachable(heap, root, s);
    LinksAreListed(heap, root, s);
    ListedAreLinks(heap, root, s);
  }

  /** `from_exception`: one full entry for every exception reachable from the failure, in
      any shape of graph; under each, an entry for every link; repeats as aliases of an
      earlier full entry; no path twice, and no path text either.  The list is that of the
      recursive walk. */
  method Capture(heap: Heap, root: Id) returns (chain: seq<Entry>)
    requires ValidHeap(heap) && root in heap
    ensures OneFullEntryEach(heap, root, chain)
    ensures AliasesPointBack(chain) && PathsUnique(chain) && TextsUnique(chain)
    ensures EveryLinkListed(heap, root, chain)
    ensures chain == Walk(heap, [Item(ROOT, Root, root)], map[]).0
  {
    hide Walk, OnTheWay, TextsUnique, SeenMatches, AliasesPointBack, AllPathsUnique, AllBorn, AllKept, AllReachable, LinkCount, Links, Followers;
    var pending := [Item(ROOT, Root, root)];
    var seen: map<Id, Path> := map[];
    chain := [];
    TraversalBegins(heap, root);
    NothingOnTheWay(heap, root);
    while pending != []
      invariant Inv(heap, root, State(chain, pending, seen))
      invariant AllKnown(heap, pending) && OnTheWay(heap, root, State(chain, pending, seen))
      decreases heap.Keys - seen.Keys, |pending|
    {
      ghost var before := State(chain, pending, seen);
      var x := pending[|pending| - 1];
      PendingIsKnown(heap, root, before);
      pending := pending[..|pending| - 1];
      if x.id in seen {
        AliasTurnKeepsInv(heap, root, before);
        AliasStaysOnTheWay(heap, root, before);
        chain := chain + [Entry(x.path, x.segment, x.id, Some(seen[x.id]))];
      } else {
        FullTurnKeepsInv(heap, root, before);
        FullStaysOnTheWay(heap, root, before);
        chain := chain + [Entry(x.path, x.segment, x.id, None)];
        assert x.id in heap.Keys - before.seen.Keys;
        seen := seen[x.id := x.path];
        assert x.id !in heap.Keys - seen.Keys && heap.Keys - seen.Keys <= heap.Keys - before.seen.Keys;
        pending := pending + Followers(x.path, Links(heap[x.id]));
      }
    }
    TraversalEnds(heap, root, State(chain, pending, seen));
    ListedTextsAreUnique(heap, root, State(chain, pending, seen));
    NothingIsLeft(heap, root, State(chain, pending, seen));
  }

  lemma NothingOnTheWay(heap: Heap, root: Id)
    requires ValidHeap(heap) && root in heap
    ensures OnTheWay(heap, root, State([], [Item(ROOT, Root, root)], map[]))
  {
    assert FromTop([Item(ROOT, Root, root)]) == [Item(ROOT, Root, root)];
  }

  lemma NothingIsLeft(heap: Heap, root: Id, s: State)
    requires ValidHeap(heap) && root in heap && s.pending == [] && OnTheWay(heap, root, s)
    ensures s.chain == Walk(heap, [Item(ROOT, Root, root)], map[]).0
  {
    assert FromTop(s.pending) == [];
  }

  lemma PendingIsKnown(heap: Heap, root: Id, s: State)
    requires AllReachable(heap, root, s)
    ensures forall i :: 0 <= i < |s.pending| ==> s.pending[i].id in heap
  {
  }
}
