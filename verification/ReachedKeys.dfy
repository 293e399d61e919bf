/** What the walk gets to. */
module ReachedKeys {
  // The walk stops silently at a limit. Which resources it has come to by then is said here of the type alone: by the
  // position of a node in pre-order, its depth and what the nodes up to it are charged.

  import opened Bytes
  import opened Seqs
  import opened Wire
  import opened HostTypes
  import opened HostTraversal

  // ---------------------------------------------------------------- pre-order

  /** The nodes of a type at a depth, each before what is below it. */
  function Order(t: HostType, depth: nat): seq<Work>
    decreases t
  {
    [Work(t, depth)] +
    match t
    case ListOf(u) => Order(u, depth + 1)
    case MapOf(u) => Order(u, depth + 1)
    case Maybe(u) => Order(u, depth + 1)
    case Function(ts, u) => OrderAll(ts, depth + 1) + Order(u, depth + 1)
    case Struct(_, fs) => OrderFields(fs, depth + 1)
    case _ => []
  }

  function OrderAll(ts: seq<HostType>, depth: nat): seq<Work>
    decreases ts
  {
    if ts == [] then [] else Order(ts[0], depth) + OrderAll(ts[1..], depth)
  }

  function OrderFields(fs: seq<HostField>, depth: nat): seq<Work>
    decreases fs
  {
    if fs == [] then []
    else
      assert fs[0].ty < fs[0];
      Order(fs[0].ty, depth) + OrderFields(fs[1..], depth)
  }

  /** The resource keys among nodes, in their order. */
  function KeysIn(ns: seq<Work>): seq<Str> {
    if ns == [] then [] else KeyOf(ns[0]) + KeysIn(ns[1..])
  }

  function KeyOf(n: Work): seq<Str> { if n.t.Handle? then [n.t.key] else [] }

  function Charged(n: Work): nat { OwnProps(n.t) }

  /** Everything up to position `i` is within the limits of one schema. */
  predicate InReach(ns: seq<Work>, i: nat) {
    i < |ns| && (forall j | 0 <= j <= i :: ns[j].depth <= MAX_HOST_DEPTH) && i + 1 <= MAX_HOST_NODES && Sum(Charged, ns[..i + 1]) <= MAX_HOST_PROPERTIES
  }

  /** A resource of the type whose node, somewhere, is reached before any limit. */
  predicate Reached(t: HostType, key: Str) {
    exists i | 0 <= i < |Order(t, 1)| :: InReach(Order(t, 1), i) && Order(t, 1)[i].t == Handle(key)
  }

  // ---------------------------------------------------------------- the walk is the part within reach

  predicate Beyond(n: Work, nodes: nat, props: nat) {
    n.depth > MAX_HOST_DEPTH || nodes + 1 > MAX_HOST_NODES || props + Charged(n) > MAX_HOST_PROPERTIES
  }

  /** How many of the nodes fit, on top of what is charged already. */
  function Fitting(ns: seq<Work>, nodes: nat, props: nat): (n: nat)
    ensures n <= |ns|
  {
    if ns == [] || Beyond(ns[0], nodes, props) then 0
    else 1 + Fitting(ns[1..], nodes + 1, props + Charged(ns[0]))
  }

  /** The nodes still to visit, in the order in which they will be. */
  function Ahead(ws: seq<Work>): seq<Work> {
    if ws == [] then [] else Order(ws[|ws| - 1].t, ws[|ws| - 1].depth) + Ahead(ws[..|ws| - 1])
  }

  lemma AheadPush(ws: seq<Work>, t: HostType, depth: nat)
    ensures Ahead(ws + [Work(t, depth)]) == Order(t, depth) + Ahead(ws)
  {
    assert (ws + [Work(t, depth)])[..|ws|] == ws;
  }

  lemma {:induction false} AheadTypes(ws: seq<Work>, ts: seq<HostType>, depth: nat)
    ensures Ahead(ws + Stack(ts, depth)) == OrderAll(ts, depth) + Ahead(ws)
  {
    hide Ahead, Order;
    if ts == [] {
      assert ws + Stack(ts, depth) == ws;
    } else {
      var rest := ws + Stack(ts[1..], depth);
      AheadTypes(ws, ts[1..], depth);
      AheadPush(rest, ts[0], depth);
      assert ws + Stack(ts, depth) == rest + [Work(ts[0], depth)];
      Regroup(Order(ts[0], depth), OrderAll(ts[1..], depth), Ahead(ws));
    }
  }

  lemma {:induction false} AheadFields(ws: seq<Work>, fs: seq<HostField>, depth: nat)
    ensures Ahead(ws + StackFields(fs, depth)) == OrderFields(fs, depth) + Ahead(ws)
  {
    hide Ahead, Order;
    if fs == [] {
      assert ws + StackFields(fs, depth) == ws;
    } else {
      var rest := ws + StackFields(fs[1..], depth);
      AheadFields(ws, fs[1..], depth);
      AheadPush(rest, fs[0].ty, depth);
      assert ws + StackFields(fs, depth) == rest + [Work(fs[0].ty, depth)];
      Regroup(Order(fs[0].ty, depth), OrderFields(fs[1..], depth), Ahead(ws));
    }
  }

  function Below(w: Work): seq<Work> {
    match w.t
    case ListOf(u) => Order(u, w.depth + 1)
    case MapOf(u) => Order(u, w.depth + 1)
    case Maybe(u) => Order(u, w.depth + 1)
    case Function(ts, u) => OrderAll(ts, w.depth + 1) + Order(u, w.depth + 1)
    case Struct(_, fs) => OrderFields(fs, w.depth + 1)
    case _ => []
  }

  lemma NodeFirst(w: Work)
    ensures Order(w.t, w.depth) == [w] + Below(w)
  {
  }

  lemma CallableAhead(ws: seq<Work>, w: Work)
    requires w.t.Function?
    ensures Ahead(ws + Children(w)) == Below(w) + Ahead(ws)
  {
    hide Ahead, Order, OrderAll, Stack;
    var ts, u, depth := w.t.params, w.t.result, w.depth + 1;
    AheadPush(ws, u, depth);
    AheadTypes(ws + [Work(u, depth)], ts, depth);
    Regroup(ws, [Work(u, depth)], Stack(ts, depth));
    Regroup(OrderAll(ts, depth), Order(u, depth), Ahead(ws));
  }

  lemma BelowAhead(ws: seq<Work>, w: Work)
    ensures Ahead(ws + Children(w)) == Below(w) + Ahead(ws)
  {
    hide Ahead, Order, OrderAll, OrderFields;
    match w.t {
      case ListOf(u) => AheadPush(ws, u, w.depth + 1);
      case MapOf(u) => AheadPush(ws, u, w.depth + 1);
      case Maybe(u) => AheadPush(ws, u, w.depth + 1);
      case Function(_, _) => CallableAhead(ws, w);
      case Struct(_, fs) => AheadFields(ws, fs, w.depth + 1);
      case _ =>
        assert ws + Children(w) == ws;
        assert Below(w) + Ahead(ws) == Ahead(ws);
    }
  }

  /** Taking a node and putting its children in its place leaves the same nodes ahead, but for itself. */
  lemma AheadUnfolds(ws: seq<Work>, w: Work)
    ensures Ahead(ws + [w]) == [w] + Ahead(ws + Children(w))
  {
    hide Ahead, Order, Below, Children;
    AheadPush(ws, w.t, w.depth);
    NodeFirst(w);
    Regroup([w], Below(w), Ahead(ws));
    BelowAhead(ws, w);
  }

  lemma KeysNext(n: Work, ns: seq<Work>, k: nat)
    requires k <= |ns|
    ensures KeysIn(([n] + ns)[..k + 1]) == KeyOf(n) + KeysIn(ns[..k])
  {
    assert ([n] + ns)[..k + 1][1..] == ns[..k];
  }

  lemma FittingNext(n: Work, ns: seq<Work>, nodes: nat, props: nat)
    ensures Fitting([n] + ns, nodes, props) == if Beyond(n, nodes, props) then 0 else 1 + Fitting(ns, nodes + 1, props + Charged(n))
  {
    assert ([n] + ns)[1..] == ns;
  }

  lemma NothingAhead()
    ensures Ahead([]) == [] && KeysIn([]) == []
  {
  }

  lemma WalkDone(nodes: nat, props: nat, keys: seq<Str>)
    ensures Walk([], nodes, props, keys).keys == keys
  {
  }

  lemma ChildAhead(rest: seq<Work>, w: Work, nodes: nat, props: nat)
    ensures var ns, more := Ahead(rest + [w]), Ahead(rest + Children(w));
            KeysIn(ns[..Fitting(ns, nodes, props)]) ==
              if Beyond(w, nodes, props) then [] else KeyOf(w) + KeysIn(more[..Fitting(more, nodes + 1, props + Charged(w))])
  {
    hide Ahead, Children, Beyond, KeyOf, Charged;
    AheadUnfolds(rest, w);
    var more := Ahead(rest + Children(w));
    FittingNext(w, more, nodes, props);
    KeysNext(w, more, Fitting(more, nodes + 1, props + Charged(w)));
  }

  lemma WalkNext(ws: seq<Work>, nodes: nat, props: nat, keys: seq<Str>)
    requires ws != []
    ensures var w, rest := ws[|ws| - 1], ws[..|ws| - 1];
            Walk(ws, nodes, props, keys).keys ==
              if Beyond(w, nodes, props) then keys else Walk(rest + Children(w), nodes + 1, props + Charged(w), keys + KeyOf(w)).keys
  {
    hide Children, OwnProps, PendingNodes;
    AddNothing(keys);
  }

  /** From any work left the walk reports the keys of the nodes that fit. */
  lemma {:induction false} WalkReports(ws: seq<Work>, nodes: nat, props: nat, keys: seq<Str>)
    ensures Walk(ws, nodes, props, keys).keys == keys + KeysIn(Ahead(ws)[..Fitting(Ahead(ws), nodes, props)])
    decreases PendingNodes(ws)
  {
    hide Walk, Ahead, KeysIn, KeyOf, Fitting, Charged, Children, PendingNodes;
    if ws == [] {
      WalkDone(nodes, props, keys);
      NothingAhead();
      AddNothing(keys);
    } else {
      var w, rest := ws[|ws| - 1], ws[..|ws| - 1];
      assert ws == rest + [w];
      WalkNext(ws, nodes, props, keys);
      ChildAhead(rest, w, nodes, props);
      if Beyond(w, nodes, props) {
        AddNothing(keys);
      } else {
        var next := rest + Children(w);
        Taken(ws);
        ChildrenStacked(rest, w);
        WalkReports(next, nodes + 1, props + Charged(w), keys + KeyOf(w));
        Regroup(keys, KeyOf(w), KeysIn(Ahead(next)[..Fitting(Ahead(next), nodes + 1, props + Charged(w))]));
      }
    }
  }

  // ---------------------------------------------------------------- reach as a condition

  /** The nodes that fit are those with everything up to them within the limits. */
  lemma {:induction false} FittingExact(ns: seq<Work>, nodes: nat, props: nat, i: nat)
    requires i < |ns|
    ensures i < Fitting(ns, nodes, props) <==>
              && (forall j | 0 <= j <= i :: ns[j].depth <= MAX_HOST_DEPTH)
              && nodes + i + 1 <= MAX_HOST_NODES && props + Sum(Charged, ns[..i + 1]) <= MAX_HOST_PROPERTIES
    decreases |ns|
  {
    assert ns[..i + 1][1..] == ns[1..][..i];
    if i == 0 {
      assert ns[1..][..0] == [];
    } else {
      assert forall j | 0 < j <= i :: ns[j] == ns[1..][j - 1];
      FittingExact(ns[1..], nodes + 1, props + Charged(ns[0]), i - 1);
      assert (forall j | 0 <= j <= i :: ns[j].depth <= MAX_HOST_DEPTH) <==>
             ns[0].depth <= MAX_HOST_DEPTH && forall j | 0 <= j <= i - 1 :: ns[1..][j].depth <= MAX_HOST_DEPTH;
    }
  }

  lemma {:induction false} KeyAt(ns: seq<Work>, key: Str)
    ensures key in KeysIn(ns) <==> exists i | 0 <= i < |ns| :: ns[i].t == Handle(key)
  {
    if ns != [] {
      KeyAt(ns[1..], key);
      assert ns[0].t.Handle? && ns[0].t.key == key <==> ns[0].t == Handle(key);
      if i :| 0 <= i < |ns| && ns[i].t == Handle(key) {
        if i > 0 { assert ns[1..][i - 1].t == Handle(key); }
      }
      if i :| 0 <= i < |ns[1..]| && ns[1..][i].t == Handle(key) { assert ns[i + 1].t == Handle(key); }
    }
  }

  /** The collector reports the keys of the longest part of the pre-order that is within reach: a key is collected exactly
      when it is reached. */
  lemma CollectedExactly(t: HostType, key: Str)
    ensures Collected(t) == KeysIn(Order(t, 1)[..Fitting(Order(t, 1), 0, 0)])
    ensures key in Collected(t) <==> Reached(t, key)
  {
    hide Order, Fitting, KeysIn;
    var ns := Order(t, 1);
    WalkReports([Work(t, 1)], 0, 0, []);
    AheadPush([], t, 1);
    NothingAhead();
    assert [] + [Work(t, 1)] == [Work(t, 1)] && ns + [] == ns;
    var n := Fitting(ns, 0, 0);
    assert [] + KeysIn(ns[..n]) == KeysIn(ns[..n]);
    KeyAt(ns[..n], key);
    forall i | 0 <= i < |ns| ensures i < n <==> InReach(ns, i) { FittingExact(ns, 0, 0, i); }
    if i :| 0 <= i < |ns[..n]| && ns[..n][i].t == Handle(key) { assert InReach(ns, i) && ns[i].t == Handle(key); }
    if i :| 0 <= i < |ns| && InReach(ns, i) && ns[i].t == Handle(key) { assert ns[..n][i].t == Handle(key); }
  }

  lemma KeysHead(n: Work, ns: seq<Work>)
    ensures KeysIn([n] + ns) == KeyOf(n) + KeysIn(ns)
  {
    assert ([n] + ns)[1..] == ns;
  }

  lemma {:induction false} KeysJoin(a: seq<Work>, b: seq<Work>)
    ensures KeysIn(a + b) == KeysIn(a) + KeysIn(b)
  {
    hide KeysIn, KeyOf;
    if a == [] {
      NothingAhead();
      assert a + b == b;
    } else {
      var n, rest := a[0], a[1..];
      assert a == [n] + rest;
      Regroup([n], rest, b);
      KeysJoin(rest, b);
      KeysHead(n, rest + b);
      KeysHead(n, rest);
      Regroup(KeyOf(n), KeysIn(rest), KeysIn(b));
    }
  }

  /** A type's keys are those of its nodes, reached or not. */
  lemma {:induction false} KeysOrdered(t: HostType, depth: nat)
    ensures KeysIn(Order(t, depth)) == Keys(t)
    decreases t
  {
    var w := Work(t, depth);
    assert Order(t, depth) == [w] + Below(w);
    KeysJoin([w], Below(w));
    assert [w][1..] == [];
    hide KeysIn;
    match t {
      case ListOf(u) => KeysOrdered(u, depth + 1);
      case MapOf(u) => KeysOrdered(u, depth + 1);
      case Maybe(u) => KeysOrdered(u, depth + 1);
      case Function(ts, u) =>
        KeysJoin(OrderAll(ts, depth + 1), Order(u, depth + 1));
        KeysOrderedAll(ts, depth + 1);
        KeysOrdered(u, depth + 1);
      case Struct(_, fs) => KeysOrderedFields(fs, depth + 1);
      case _ => NothingAhead();
    }
  }

  lemma {:induction false} KeysOrderedAll(ts: seq<HostType>, depth: nat)
    ensures KeysIn(OrderAll(ts, depth)) == KeysOfAll(ts)
    decreases ts
  {
    if ts != [] {
      KeysOrdered(ts[0], depth);
      KeysOrderedAll(ts[1..], depth);
      KeysJoin(Order(ts[0], depth), OrderAll(ts[1..], depth));
    }
  }

  lemma {:induction false} KeysOrderedFields(fs: seq<HostField>, depth: nat)
    ensures KeysIn(OrderFields(fs, depth)) == KeysOfFields(fs)
    decreases fs
  {
    if fs != [] {
      assert fs[0].ty < fs[0];
      KeysOrdered(fs[0].ty, depth);
      KeysOrderedFields(fs[1..], depth);
      KeysJoin(Order(fs[0].ty, depth), OrderFields(fs[1..], depth));
    }
  }

  /** A reached key is a key of the type; within the limits of one schema every key is reached. */
  lemma ReachedWithin(t: HostType, key: Str)
    ensures Reached(t, key) ==> key in Keys(t)
    ensures WithinBudget(t, 0, 0) && key in Keys(t) ==> Reached(t, key)
  {
    hide Reached, Collected, Keys;
    CollectedExactly(t, key);
    CollectedWithin(t);
  }

  lemma CollectedWithin(t: HostType)
    ensures Collected(t) <= Keys(t) && (WithinBudget(t, 0, 0) ==> Collected(t) == Keys(t))
  {
    hide Keys, Walk;
    WalkType(t, 0, 0);
  }
}
