/** The tree linearizer of the ChatGPT importer (`linearize_conversation`).

    A ChatGPT export stores one conversation as an object that maps node ids
    to nodes; each node names its parent, may carry a message, and lists its
    children.  The linearizer takes the first node (in the object's order)
    without a parent as the root and follows the FIRST child of every node,
    emitting one message per visited node whose message has content parts.

    The original loop has no cycle guard.  Here the walk carries fuel equal to
    the number of nodes; running out of fuel is reported as `Diverges`, which
    is proved to happen only when the original loop would never end. */
module ChatgptTree {
  import opened Values
  import opened Lines

  /** An element of `content.parts`: a string, or anything else (an image
      reference, `null`), which `'\n'.join` rejects. */
  datatype Part = TextPart(text: string) | OtherPart

  /** A missing or `null` `parts` key reads as the empty list. */
  datatype Content = Content(parts: seq<Part>)

  datatype Author = Author(role: Field<string>)

  /** A missing or `null` `content` reads as `None`. */
  datatype Payload = Payload(author: Field<Author>, content: Option<Content>, createTime: Field<real>)

  /** A missing or `null` `parent` or `message` reads as `None`; a missing or
      `null` `children` reads as the empty list. */
  datatype Node = Node(parent: Option<string>, message: Option<Payload>, children: seq<string>)

  /** The `mapping` object, in its key order. A parsed object has distinct
      keys; lookups take the first entry with the key. */
  type NodeMap = seq<(string, Node)>

  /** One linearized message: author role (`None` when the export holds
      `null`), the joined parts, and `create_time` (0 when absent). */
  datatype Linear = Linear(role: Option<string>, content: string, timestamp: Option<real>)

  /** Why a linearization produced no list: an exception, or a walk that
      never ends. */
  datatype Fault = Raised(error: Raise) | Diverges

  // ---------------------------------------------------------------------------
  // The node map

  /** No node before position `i` lacks a parent. */
  predicate FirstRootAt(m: NodeMap, i: int)
    requires 0 <= i <= |m|
  {
    forall j :: 0 <= j < i ==> m[j].1.parent.Some?
  }

  /** The root: the id of the first node whose parent is `None`. */
  function FindRoot(m: NodeMap): (r: Option<string>)
    ensures r.None? <==> forall i :: 0 <= i < |m| ==> m[i].1.parent.Some?
    ensures r.Some? ==>
      exists i :: 0 <= i < |m| && m[i].0 == r.value && m[i].1.parent.None? && FirstRootAt(m, i)
    decreases |m|
  {
    if |m| == 0 then None
    else if m[0].1.parent.None? then Some(m[0].0)
    else
      var r := FindRoot(m[1..]);
      assert r.Some? ==> exists i :: 1 <= i < |m| && m[i].0 == r.value && m[i].1.parent.None? && FirstRootAt(m, i) by {
        if r.Some? {
          var k :| 0 <= k < |m[1..]| && m[1..][k].0 == r.value && m[1..][k].1.parent.None? && FirstRootAt(m[1..], k);
          assert m[k + 1] == m[1..][k];
          assert FirstRootAt(m, k + 1) by {
            forall j | 0 <= j < k + 1 ensures m[j].1.parent.Some? {
              if j > 0 { assert m[j] == m[1..][j - 1]; }
            }
          }
        }
      }
      r
  }

  /** `mapping.get(id)`. */
  function Lookup(m: NodeMap, id: string): (r: Option<Node>)
    ensures r.None? <==> forall i :: 0 <= i < |m| ==> m[i].0 != id
    ensures r.Some? ==> exists i :: 0 <= i < |m| && m[i] == (id, r.value)
    decreases |m|
  {
    if |m| == 0 then None
    else if m[0].0 == id then Some(m[0].1)
    else
      var r := Lookup(m[1..], id);
      assert r.Some? ==> m[1..][0..] == m[1..] && (id, r.value) in m[1..];
      r
  }

  /** The node stored under `id`, or an empty node when there is none. */
  function NodeAt(m: NodeMap, id: string): Node
  {
    match Lookup(m, id)
    case Some(n) => n
    case None => Node(None, None, [])
  }

  /** The ids of the node map, never more of them than entries. */
  function Ids(m: NodeMap): (r: set<string>)
    ensures |r| <= |m|
    ensures forall id :: id in r <==> Lookup(m, id).Some?
    decreases |m|
  {
    if |m| == 0 then {} else {m[0].0} + Ids(m[1..])
  }

  // ---------------------------------------------------------------------------
  // The first-child walk, as a reference definition

  /** `while current_id:` together with `if not node: break`: the walk goes
      on at `id` only if the id is non-empty and names a node. */
  predicate Live(m: NodeMap, id: string)
  {
    id != "" && Lookup(m, id).Some?
  }

  /** `children[0] if children else None`; the empty id stands for `None`. */
  function FirstChild(n: Node): string
  {
    if |n.children| > 0 then n.children[0] else ""
  }

  function Next(m: NodeMap, id: string): string
  {
    FirstChild(NodeAt(m, id))
  }

  /** The id the walk holds after `k` steps from `id`; once the walk stops,
      it stays where it stopped. */
  function Iter(m: NodeMap, id: string, k: nat): string
    decreases k
  {
    if k == 0 || !Live(m, id) then id else Iter(m, Next(m, id), k - 1)
  }

  /** The walk from `id` visits exactly `k` nodes and then stops. */
  predicate StopsAt(m: NodeMap, id: string, k: nat)
  {
    && !Live(m, Iter(m, id, k))
    && forall i: nat :: i < k ==> Live(m, Iter(m, id, i))
  }

  /** The nodes the walk from `id` visits, when it visits `k` of them. */
  function PathNodes(m: NodeMap, id: string, k: nat): seq<Node>
  {
    seq(k, i requires 0 <= i < k => NodeAt(m, Iter(m, id, i)))
  }

  // ---------------------------------------------------------------------------
  // Turning one node into a message

  /** The node's message has content with at least one part: the condition
      under which the linearizer emits a message for it. */
  predicate HasText(message: Option<Payload>)
  {
    && message.Some?
    && message.value.content.Some?
    && |message.value.content.value.parts| > 0
  }

  /** `message_data['author']['role']`: a missing author or role raises
      `KeyError`, a `null` author raises `TypeError`. */
  function AuthorRole(author: Field<Author>): Result<Option<string>, Raise>
  {
    match author
    case Missing => Failure(KeyError)
    case Null => Failure(TypeError)
    case Present(a) => Index(a.role)
  }

  /** The strings of the parts, or `TypeError` if any part is not a string. */
  function PartTexts(parts: seq<Part>): (r: Result<seq<string>, Raise>)
    ensures r.Success? <==> forall i :: 0 <= i < |parts| ==> parts[i].TextPart?
    ensures r.Success? ==>
      |r.value| == |parts| && forall i :: 0 <= i < |parts| ==> r.value[i] == parts[i].text
    decreases |parts|
  {
    if |parts| == 0 then Success([])
    else if parts[0].OtherPart? then Failure(TypeError)
    else
      match PartTexts(parts[1..])
      case Failure(e) => Failure(e)
      case Success(rest) => Success([parts[0].text] + rest)
  }

  /** The message the loop body emits for a node carrying `message`, if any. */
  function Extract(message: Option<Payload>): (r: Result<Option<Linear>, Raise>)
    ensures r == Success(None) <==> !HasText(message)
    ensures r.Failure? <==>
      HasText(message) && (AuthorRole(message.value.author).Failure?
                           || exists i :: 0 <= i < |message.value.content.value.parts|
                                          && message.value.content.value.parts[i].OtherPart?)
    ensures r.Success? && r.value.Some? ==>
      var p := message.value;
      && AuthorRole(p.author) == Success(r.value.value.role)
      && r.value.value.timestamp == Get(p.createTime, 0.0)
      && PartTexts(p.content.value.parts).Success?
      && r.value.value.content == JoinLines(PartTexts(p.content.value.parts).value)
  {
    match message
    case None => Success(None)
    case Some(p) =>
      match p.content
      case None => Success(None)
      case Some(c) =>
        if |c.parts| == 0 then Success(None)
        else
          match AuthorRole(p.author)
          case Failure(e) => Failure(e)
          case Success(role) =>
            match PartTexts(c.parts)
            case Failure(e) => Failure(e)
            case Success(texts) => Success(Some(Linear(role, JoinLines(texts), Get(p.createTime, 0.0))))
  }

  /** The nodes of `ns` for which a message is emitted, in order. */
  function Bearing(ns: seq<Node>): (r: seq<Node>)
    ensures |r| <= |ns|
    ensures forall i :: 0 <= i < |r| ==> HasText(r[i].message)
    decreases |ns|
  {
    if |ns| == 0 then []
    else if HasText(ns[0].message) then [ns[0]] + Bearing(ns[1..])
    else Bearing(ns[1..])
  }

  function Emitted(o: Option<Linear>): seq<Linear>
  {
    match o
    case None => []
    case Some(l) => [l]
  }

  /** One node's outcome followed by the rest: the first exception wins. */
  function Prepend<E>(here: Result<Option<Linear>, E>, rest: Result<seq<Linear>, E>): Result<seq<Linear>, E>
  {
    match here
    case Failure(e) => Failure(e)
    case Success(h) =>
      match rest
      case Failure(e) => Failure(e)
      case Success(ms) => Success(Emitted(h) + ms)
  }

  /** Extracts the messages of a given list of nodes, in order, stopping at
      the first exception. */
  function ExtractAll(ns: seq<Node>): Result<seq<Linear>, Raise>
    decreases |ns|
  {
    if |ns| == 0 then Success([])
    else Prepend(Extract(ns[0].message), ExtractAll(ns[1..]))
  }

  /** The extraction succeeds exactly when every node extracts. */
  lemma {:induction false} ExtractAllSucceedsIff(ns: seq<Node>)
    ensures ExtractAll(ns).Success? <==> forall i :: 0 <= i < |ns| ==> Extract(ns[i].message).Success?
    decreases |ns|
  {
    if |ns| > 0 {
      ExtractAllSucceedsIff(ns[1..]);
      if Extract(ns[0].message).Success? && ExtractAll(ns[1..]).Failure? {
        var i :| 0 <= i < |ns[1..]| && !Extract(ns[1..][i].message).Success?;
        assert ns[1..][i] == ns[i + 1];
      }
      if ExtractAll(ns).Success? {
        forall i | 0 <= i < |ns| ensures Extract(ns[i].message).Success? {
          if i > 0 { assert ns[i] == ns[1..][i - 1]; }
        }
      }
    }
  }

  /** A successful extraction yields one message per text-bearing node, in
      order, each the one that node's message extracts to. */
  lemma {:induction false} ExtractAllYieldsBearing(ns: seq<Node>)
    requires ExtractAll(ns).Success?
    ensures |ExtractAll(ns).value| == |Bearing(ns)|
    ensures forall i :: 0 <= i < |Bearing(ns)| ==>
      Extract(Bearing(ns)[i].message) == Success(Some(ExtractAll(ns).value[i]))
    decreases |ns|
  {
    if |ns| > 0 {
      ExtractAllYieldsBearing(ns[1..]);
    }
  }

  function Lift(r: Result<seq<Linear>, Raise>): Result<seq<Linear>, Fault>
  {
    match r
    case Success(ms) => Success(ms)
    case Failure(e) => Failure(Raised(e))
  }

  function Lift1(r: Result<Option<Linear>, Raise>): Result<Option<Linear>, Fault>
  {
    match r
    case Success(o) => Success(o)
    case Failure(e) => Failure(Raised(e))
  }

  // ---------------------------------------------------------------------------
  // The linearizer

  /** The `while current_id` loop, with at most `fuel` nodes visited. A
      successful walk never emits more messages than its fuel. */
  function Walk(m: NodeMap, current: string, fuel: nat): (r: Result<seq<Linear>, Fault>)
    ensures !Live(m, current) ==> r == Success([])
    ensures r.Success? ==> |r.value| <= fuel
    decreases fuel
  {
    if !Live(m, current) then Success([])
    else if fuel == 0 then Failure(Diverges)
    else
      var node := NodeAt(m, current);
      Prepend(Lift1(Extract(node.message)), Walk(m, FirstChild(node), fuel - 1))
  }

  /** `linearize_conversation`: no root, or a root with the empty id, gives
      the empty list; otherwise the first-child walk from the root. */
  function Linearize(m: NodeMap): (r: Result<seq<Linear>, Fault>)
    ensures (forall i :: 0 <= i < |m| ==> m[i].1.parent.Some?) ==> r == Success([])
    ensures FindRoot(m) == Some("") ==> r == Success([])
    ensures r.Success? ==> |r.value| <= |m|
  {
    match FindRoot(m)
    case None => Success([])
    case Some(root) => if root == "" then Success([]) else Walk(m, root, |m|)
  }

  // ---------------------------------------------------------------------------
  // Lemmas about the walk

  /** Walking `a + b` steps is walking `a` steps and then `b` more. */
  lemma {:induction false} IterShift(m: NodeMap, id: string, a: nat, b: nat)
    ensures Iter(m, id, a + b) == Iter(m, Iter(m, id, a), b)
    decreases a
  {
    if a > 0 && Live(m, id) {
      IterShift(m, Next(m, id), a - 1, b);
    }
  }

  /** A walk that stops after `k` nodes never visits a node twice. */
  lemma PathDistinct(m: NodeMap, id: string, k: nat)
    requires StopsAt(m, id, k)
    ensures forall i, j :: 0 <= i < j < k ==> Iter(m, id, i) != Iter(m, id, j)
  {
    forall i, j | 0 <= i < j < k
      ensures Iter(m, id, i) != Iter(m, id, j)
    {
      var d := k - j;
      IterShift(m, id, i, d);
      IterShift(m, id, j, d);
      assert Live(m, Iter(m, id, i + d));
    }
  }

  /** A list without repetitions drawn from `t` is no longer than `t` is large. */
  lemma {:induction false} DistinctWithin<T>(s: seq<T>, t: set<T>)
    requires forall i, j :: 0 <= i < j < |s| ==> s[i] != s[j]
    requires forall i :: 0 <= i < |s| ==> s[i] in t
    ensures |s| <= |t|
    decreases |s|
  {
    if |s| > 0 {
      var t' := t - {s[0]};
      assert forall i :: 0 <= i < |s[1..]| ==> s[1..][i] in t' by {
        forall i | 0 <= i < |s[1..]| ensures s[1..][i] in t' {
          assert s[1..][i] == s[i + 1];
        }
      }
      DistinctWithin(s[1..], t');
    }
  }

  /** A walk that stops visits at most as many nodes as the map holds. */
  lemma PathFitsMap(m: NodeMap, id: string, k: nat)
    requires StopsAt(m, id, k)
    ensures k <= |m|
  {
    PathDistinct(m, id, k);
    var p := seq(k, i requires 0 <= i < k => Iter(m, id, i));
    assert forall i :: 0 <= i < k ==> Live(m, p[i]);
    DistinctWithin(p, Ids(m));
  }

  /** If the walk ever reaches a point where it stops, there is a first such point. */
  lemma {:induction false} FirstStop(m: NodeMap, id: string, k: nat)
    requires !Live(m, Iter(m, id, k))
    ensures exists j: nat :: j <= k && StopsAt(m, id, j)
    decreases k
  {
    if exists i: nat :: i < k && !Live(m, Iter(m, id, i)) {
      var i: nat :| i < k && !Live(m, Iter(m, id, i));
      FirstStop(m, id, i);
    } else {
      assert StopsAt(m, id, k);
    }
  }

  lemma LiftPrepend(here: Result<Option<Linear>, Raise>, rest: Result<seq<Linear>, Raise>)
    ensures Lift(Prepend(here, rest)) == Prepend(Lift1(here), Lift(rest))
  {
  }

  /** A path of `k > 0` nodes is its first node followed by the path from
      that node's first child. */
  lemma PathStep(m: NodeMap, id: string, k: nat)
    requires StopsAt(m, id, k) && k > 0
    ensures Live(m, id)
    ensures StopsAt(m, Next(m, id), k - 1)
    ensures PathNodes(m, id, k)[0] == NodeAt(m, id)
    ensures PathNodes(m, id, k)[1..] == PathNodes(m, Next(m, id), k - 1)
  {
    assert Live(m, Iter(m, id, 0));
    assert forall i: nat :: Iter(m, Next(m, id), i) == Iter(m, id, i + 1);
  }

  /** With enough fuel, the walk is the extraction of the first-child path. */
  lemma {:induction false} WalkFollowsPath(m: NodeMap, id: string, k: nat, fuel: nat)
    requires StopsAt(m, id, k)
    requires k <= fuel
    ensures Walk(m, id, fuel) == Lift(ExtractAll(PathNodes(m, id, k)))
    decreases k
  {
    if k == 0 {
      assert PathNodes(m, id, k) == [];
    } else {
      PathStep(m, id, k);
      var next := Next(m, id);
      WalkFollowsPath(m, next, k - 1, fuel - 1);
      assert Walk(m, id, fuel) == Prepend(Lift1(Extract(NodeAt(m, id).message)), Walk(m, next, fuel - 1));
      var ns := PathNodes(m, id, k);
      var rest := PathNodes(m, next, k - 1);
      assert ExtractAll(ns) == Prepend(Extract(ns[0].message), ExtractAll(rest));
      LiftPrepend(Extract(ns[0].message), ExtractAll(rest));
    }
  }

  /** Whenever the first-child walk from the root ends after `k` nodes, `k`
      is at most the number of nodes and the linearization is exactly the
      messages of the text-bearing nodes on that path, in path order. */
  lemma LinearizeFollowsFirstChildPath(m: NodeMap, k: nat)
    requires FindRoot(m).Some? && FindRoot(m).value != ""
    requires StopsAt(m, FindRoot(m).value, k)
    ensures k <= |m|
    ensures Linearize(m) == Lift(ExtractAll(PathNodes(m, FindRoot(m).value, k)))
  {
    PathFitsMap(m, FindRoot(m).value, k);
    WalkFollowsPath(m, FindRoot(m).value, k, |m|);
  }

  lemma StopRulesOutDivergence(m: NodeMap, k: nat)
    requires FindRoot(m).Some? && FindRoot(m).value != ""
    requires !Live(m, Iter(m, FindRoot(m).value, k))
    ensures Linearize(m) != Failure(Diverges)
  {
    FirstStop(m, FindRoot(m).value, k);
    var j: nat :| j <= k && StopsAt(m, FindRoot(m).value, j);
    LinearizeFollowsFirstChildPath(m, j);
  }

  /** `Diverges` is reported only when the original loop never ends: there
      is a root and the first-child walk from it goes on forever. */
  lemma LinearizeDivergesOnlyOnCycle(m: NodeMap)
    ensures Linearize(m) == Failure(Diverges) ==>
      FindRoot(m).Some? && forall k: nat :: Live(m, Iter(m, FindRoot(m).value, k))
  {
    if FindRoot(m).Some? && FindRoot(m).value != "" {
      forall k: nat ensures !Live(m, Iter(m, FindRoot(m).value, k)) ==> Linearize(m) != Failure(Diverges) {
        if !Live(m, Iter(m, FindRoot(m).value, k)) {
          StopRulesOutDivergence(m, k);
        }
      }
    }
  }

  lemma {:induction false} WalkFailsForever(m: NodeMap, id: string, fuel: nat)
    requires forall k: nat :: Live(m, Iter(m, id, k))
    ensures Walk(m, id, fuel).Failure?
    decreases fuel
  {
    assert Live(m, Iter(m, id, 0));
    if fuel > 0 && Extract(NodeAt(m, id).message).Success? {
      var next := Next(m, id);
      forall k: nat ensures Live(m, Iter(m, next, k)) {
        assert Iter(m, id, k + 1) == Iter(m, next, k);
      }
      WalkFailsForever(m, next, fuel - 1);
    }
  }

  /** Conversely, when the first-child walk from the root never ends, the
      linearization never yields a list. */
  lemma LinearizeFailsOnCycle(m: NodeMap)
    requires FindRoot(m).Some? && FindRoot(m).value != ""
    requires forall k: nat :: Live(m, Iter(m, FindRoot(m).value, k))
    ensures Linearize(m).Failure?
  {
    WalkFailsForever(m, FindRoot(m).value, |m|);
  }

  /** The original loop never ends from `id`: every id the first-child walk
      reaches names a node, and no node on the way raises. */
  ghost predicate LoopsForever(m: NodeMap, id: string)
  {
    && (forall k: nat :: Live(m, Iter(m, id, k)))
    && (forall k: nat :: Extract(NodeAt(m, Iter(m, id, k)).message).Success?)
  }

  /** A walk that never stops revisits, within its first `|m| + 1` ids, an id
      it has already seen. */
  lemma SomeRepeat(m: NodeMap, id: string)
    requires forall k: nat :: Live(m, Iter(m, id, k))
    ensures exists a: nat, b: nat :: a < b <= |m| && Iter(m, id, a) == Iter(m, id, b)
  {
    if forall a: nat, b: nat :: a < b <= |m| ==> Iter(m, id, a) != Iter(m, id, b) {
      var p := seq(|m| + 1, i requires 0 <= i <= |m| => Iter(m, id, i));
      assert forall i :: 0 <= i < |p| ==> Live(m, p[i]);
      DistinctWithin(p, Ids(m));
      assert false;
    }
  }

  /** Every id a never-ending walk reaches, it already reached within its
      first `|m|` steps. */
  lemma {:induction false} RecurWithin(m: NodeMap, id: string, a: nat, b: nat, k: nat)
    requires a < b <= |m| && Iter(m, id, a) == Iter(m, id, b)
    ensures exists j: nat :: j < |m| && Iter(m, id, j) == Iter(m, id, k)
    decreases k
  {
    if k >= b {
      var k' := k - (b - a);
      IterShift(m, id, b, k - b);
      IterShift(m, id, a, k - b);
      assert Iter(m, id, k) == Iter(m, id, k');
      RecurWithin(m, id, a, b, k');
    } else {
      assert Iter(m, id, k) == Iter(m, id, k);
    }
  }

  /** Along a walk that never stops, a node that raises within the fuel
      makes the whole walk raise. */
  lemma {:induction false} WalkRaisesAt(m: NodeMap, id: string, fuel: nat, k: nat)
    requires forall i: nat :: Live(m, Iter(m, id, i))
    requires k < fuel
    requires Extract(NodeAt(m, Iter(m, id, k)).message).Failure?
    ensures Walk(m, id, fuel).Failure? && Walk(m, id, fuel).error.Raised?
    decreases k
  {
    assert Live(m, Iter(m, id, 0));
    var next := Next(m, id);
    if Extract(NodeAt(m, id).message).Success? {
      assert k > 0;
      forall i: nat ensures Live(m, Iter(m, next, i)) {
        assert Iter(m, id, i + 1) == Iter(m, next, i);
      }
      assert Iter(m, id, k) == Iter(m, next, k - 1);
      WalkRaisesAt(m, next, fuel - 1, k - 1);
    }
  }

  /** Along a walk that never stops and never raises, every fuel runs out. */
  lemma {:induction false} WalkDivergesForever(m: NodeMap, id: string, fuel: nat)
    requires LoopsForever(m, id)
    ensures Walk(m, id, fuel) == Failure(Diverges)
    decreases fuel
  {
    assert Live(m, Iter(m, id, 0));
    assert Extract(NodeAt(m, Iter(m, id, 0)).message).Success?;
    if fuel > 0 {
      var next := Next(m, id);
      forall i: nat ensures Live(m, Iter(m, next, i)) && Extract(NodeAt(m, Iter(m, next, i)).message).Success? {
        assert Iter(m, id, i + 1) == Iter(m, next, i);
      }
      WalkDivergesForever(m, next, fuel - 1);
    }
  }

  /** `Diverges` is reported exactly when the original loop never ends:
      there is a non-empty root, the first-child walk from it never stops,
      and no node on that walk raises. */
  lemma LinearizeDivergesIff(m: NodeMap)
    ensures Linearize(m) == Failure(Diverges) <==>
      FindRoot(m).Some? && FindRoot(m).value != "" && LoopsForever(m, FindRoot(m).value)
  {
    if FindRoot(m).Some? && FindRoot(m).value != "" {
      var root := FindRoot(m).value;
      if LoopsForever(m, root) {
        WalkDivergesForever(m, root, |m|);
      } else if Linearize(m) == Failure(Diverges) {
        LinearizeDivergesOnlyOnCycle(m);
        var k: nat :| !Extract(NodeAt(m, Iter(m, root, k)).message).Success?;
        SomeRepeat(m, root);
        var a: nat, b: nat :| a < b <= |m| && Iter(m, root, a) == Iter(m, root, b);
        RecurWithin(m, root, a, b, k);
        var j: nat :| j < |m| && Iter(m, root, j) == Iter(m, root, k);
        WalkRaisesAt(m, root, |m|, j);
        assert false;
      }
    }
  }

  /** A first-child walk that loops back on a node without an author does
      not hang: reading the author raises `KeyError` on the first visit. */
  lemma CycleThroughRaisingNode()
    ensures
      var bad := Payload(Missing, Some(Content([TextPart("x")])), Missing);
      var m := [("r", Node(None, None, ["a"])), ("a", Node(Some("r"), Some(bad), ["a"]))];
      && Next(m, "a") == "a"
      && Linearize(m) == Failure(Raised(KeyError))
  {
    var bad := Payload(Missing, Some(Content([TextPart("x")])), Missing);
    var m := [("r", Node(None, None, ["a"])), ("a", Node(Some("r"), Some(bad), ["a"]))];
    assert FindRoot(m) == Some("r");
    assert Lookup(m, "r") == Some(m[0].1);
    assert Lookup(m, "a") == Some(m[1].1) by {
      assert "a" != "r";
      assert m[1..][0] == m[1];
    }
    assert Extract(Some(bad)) == Failure(KeyError);
    assert Walk(m, "a", 1) == Failure(Raised(KeyError));
    assert Walk(m, "r", 2) == Prepend(Lift1(Success(None)), Failure(Raised(KeyError)));
  }

  /** Every emitted content splits back into the message's parts when no
      part contains a newline. */
  lemma ContentSplitsIntoParts(message: Option<Payload>)
    requires HasText(message)
    requires forall i :: 0 <= i < |message.value.content.value.parts| ==>
               message.value.content.value.parts[i].TextPart?
               && NoNewline(message.value.content.value.parts[i].text)
    ensures Extract(message).Success? ==>
      SplitLines(Extract(message).value.value.content) == PartTexts(message.value.content.value.parts).value
  {
    var texts := PartTexts(message.value.content.value.parts).value;
    SplitJoin(texts);
  }

  /** Nodes that come after the root in map order do not change the root. */
  lemma {:induction false} RootIgnoresLaterNodes(m: NodeMap, later: NodeMap)
    requires FindRoot(m).Some?
    ensures FindRoot(m + later) == FindRoot(m)
    decreases |m|
  {
    assert (m + later)[0] == m[0];
    if m[0].1.parent.Some? {
      assert (m + later)[1..] == m[1..] + later;
      RootIgnoresLaterNodes(m[1..], later);
    }
  }

  /** A root holding the user's "hi" whose first child holds the
      assistant's "hello" linearizes to those two messages, in order, with
      the absent `create_time` read as 0; the root's second child is never
      visited. */
  lemma TwoNodeChat()
    ensures
      var hi := Payload(Present(Author(Present("user"))), Some(Content([TextPart("hi")])), Missing);
      var hello := Payload(Present(Author(Present("assistant"))), Some(Content([TextPart("hello")])), Missing);
      var m := [("a", Node(None, Some(hi), ["b", "c"])),
                ("b", Node(Some("a"), Some(hello), [])),
                ("c", Node(Some("a"), Some(hello), []))];
      Linearize(m) == Success([Linear(Some("user"), "hi", Some(0.0)), Linear(Some("assistant"), "hello", Some(0.0))])
  {
    var hi := Payload(Present(Author(Present("user"))), Some(Content([TextPart("hi")])), Missing);
    var hello := Payload(Present(Author(Present("assistant"))), Some(Content([TextPart("hello")])), Missing);
    var m := [("a", Node(None, Some(hi), ["b", "c"])),
              ("b", Node(Some("a"), Some(hello), [])),
              ("c", Node(Some("a"), Some(hello), []))];
    var x := Linear(Some("user"), "hi", Some(0.0));
    var y := Linear(Some("assistant"), "hello", Some(0.0));
    assert FindRoot(m) == Some("a");
    assert Lookup(m, "a") == Some(m[0].1);
    assert Lookup(m, "b") == Some(m[1].1) by {
      assert "b" != "a";
      assert m[1..][0] == m[1];
    }
    assert Extract(Some(hi)) == Success(Some(x));
    assert Extract(Some(hello)) == Success(Some(y));
    assert Walk(m, "", 1) == Success([]);
    assert Walk(m, "b", 2) == Prepend(Lift1(Success(Some(y))), Success([]));
    assert Emitted(Some(y)) + [] == [y];
    assert Walk(m, "a", 3) == Prepend(Lift1(Success(Some(x))), Success([y]));
    assert Emitted(Some(x)) + [y] == [x, y];
  }

  // ---------------------------------------------------------------------------
  // Only the first child matters

  /** Two nodes that agree on everything the walk reads: parent, message and
      first child. Later children may differ. */
  predicate SameFirstBranch(a: Node, b: Node)
  {
    a.parent == b.parent && a.message == b.message && FirstChild(a) == FirstChild(b)
  }

  /** Two node maps with the same ids in the same order whose nodes differ at
      most in their children after the first. */
  predicate SameFirstBranches(m1: NodeMap, m2: NodeMap)
  {
    && |m1| == |m2|
    && forall i :: 0 <= i < |m1| ==> m1[i].0 == m2[i].0 && SameFirstBranch(m1[i].1, m2[i].1)
  }

  lemma {:induction false} LookupSameFirstBranches(m1: NodeMap, m2: NodeMap, id: string)
    requires SameFirstBranches(m1, m2)
    ensures Lookup(m1, id).Some? == Lookup(m2, id).Some?
    ensures Lookup(m1, id).Some? ==> SameFirstBranch(Lookup(m1, id).value, Lookup(m2, id).value)
    decreases |m1|
  {
    if |m1| > 0 && m1[0].0 != id {
      LookupSameFirstBranches(m1[1..], m2[1..], id);
    }
  }

  lemma {:induction false} RootSameFirstBranches(m1: NodeMap, m2: NodeMap)
    requires SameFirstBranches(m1, m2)
    ensures FindRoot(m1) == FindRoot(m2)
    decreases |m1|
  {
    if |m1| > 0 && m1[0].1.parent.Some? {
      RootSameFirstBranches(m1[1..], m2[1..]);
    }
  }

  /** The two maps look the same to the walk at every id. */
  ghost predicate SameToWalk(m1: NodeMap, m2: NodeMap)
  {
    forall id :: Live(m1, id) == Live(m2, id) && SameFirstBranch(NodeAt(m1, id), NodeAt(m2, id))
  }

  lemma {:induction false} WalkSameFirstBranches(m1: NodeMap, m2: NodeMap, id: string, fuel: nat)
    requires SameToWalk(m1, m2)
    ensures Walk(m1, id, fuel) == Walk(m2, id, fuel)
    decreases fuel
  {
    var n1, n2 := NodeAt(m1, id), NodeAt(m2, id);
    assert Live(m1, id) == Live(m2, id) && SameFirstBranch(n1, n2);
    if fuel > 0 && Live(m1, id) {
      var c := FirstChild(n1);
      WalkSameFirstBranches(m1, m2, c, fuel - 1);
      assert Walk(m1, id, fuel) == Prepend(Lift1(Extract(n1.message)), Walk(m1, c, fuel - 1));
      assert Walk(m2, id, fuel) == Prepend(Lift1(Extract(n2.message)), Walk(m2, c, fuel - 1));
    }
  }

  /** Branches other than the first child are never visited: changing the
      children after the first, anywhere, leaves the linearization unchanged. */
  lemma OnlyFirstChildMatters(m1: NodeMap, m2: NodeMap)
    requires SameFirstBranches(m1, m2)
    ensures Linearize(m1) == Linearize(m2)
  {
    RootSameFirstBranches(m1, m2);
    forall id ensures Live(m1, id) == Live(m2, id) && SameFirstBranch(NodeAt(m1, id), NodeAt(m2, id)) {
      LookupSameFirstBranches(m1, m2, id);
    }
    if FindRoot(m1).Some? {
      WalkSameFirstBranches(m1, m2, FindRoot(m1).value, |m1|);
    }
  }
}
