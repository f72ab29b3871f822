/** The fragment cache as it is stored: a map whose entries hold iterators into a doubly linked
    list of keys. It refines the plain least-recently-used list of module `Lru`. */
module FragmentCache {
  import opened Text
  import Lru

  /** A node of `std::list<std::size_t>`; a pointer to one is a list iterator. */
  class Node {
    const key: nat
    var prev: Node?
    var next: Node?

    constructor (key: nat, prev: Node?)
      ensures this.key == key && this.prev == prev && this.next == null
    {
      this.key := key;
      this.prev := prev;
      this.next := null;
    }
  }

  function Keys(nodes: seq<Node>): seq<nat> {
    if nodes == [] then [] else [nodes[0].key] + Keys(nodes[1..])
  }

  lemma {:induction false} KeysAt(nodes: seq<Node>)
    ensures |Keys(nodes)| == |nodes|
    ensures forall i :: 0 <= i < |nodes| ==> Keys(nodes)[i] == nodes[i].key
  {
    if nodes != [] {
      KeysAt(nodes[1..]);
    }
  }

  /** `nodes` less the node `n`. */
  function Remove(nodes: seq<Node>, n: Node): seq<Node> {
    if nodes == [] then []
    else if nodes[0] == n then nodes[1..]
    else [nodes[0]] + Remove(nodes[1..], n)
  }

  lemma {:induction false} RemoveKeeps(nodes: seq<Node>, n: Node)
    ensures forall m :: m in nodes && m != n ==> m in Remove(nodes, n)
    ensures forall m :: m in Remove(nodes, n) ==> m in nodes
  {
    if nodes != [] && nodes[0] != n {
      RemoveKeeps(nodes[1..], n);
    }
  }

  lemma {:induction false} RemoveAt(nodes: seq<Node>, i: nat)
    requires i < |nodes| && forall j :: 0 <= j < i ==> nodes[j] != nodes[i]
    ensures Remove(nodes, nodes[i]) == nodes[..i] + nodes[i + 1..]
  {
    if i > 0 {
      RemoveAt(nodes[1..], i - 1);
      assert nodes[..i] == [nodes[0]] + nodes[1..][..i - 1];
    }
  }

  /** `std::list<std::size_t>`, front to back. */
  class KeyList {
    var front: Node?
    var back: Node?
    ghost var nodes: seq<Node>
    ghost var repr: set<object>

    ghost predicate Linked()
      reads this, repr
      ensures Linked() ==> this in repr
    {
      && this in repr
      && (forall n :: n in nodes ==> n in repr)
      && front == (if nodes == [] then null else nodes[0])
      && back == (if nodes == [] then null else nodes[|nodes| - 1])
      && (forall i {:trigger nodes[i].prev} :: 0 <= i < |nodes| ==>
            nodes[i].prev == if i == 0 then null else nodes[i - 1])
      && (forall i {:trigger nodes[i].next} :: 0 <= i < |nodes| ==>
            nodes[i].next == if i == |nodes| - 1 then null else nodes[i + 1])
      && (forall i, j :: 0 <= i < j < |nodes| ==> nodes[i] != nodes[j])
    }

    constructor ()
      ensures Linked() && nodes == [] && fresh(repr)
    {
      front, back, nodes := null, null, [];
      repr := {this};
    }

    /** `push_back`; the result is `std::prev(end())`. */
    method PushBack(key: nat) returns (n: Node)
      requires Linked()
      modifies repr
      ensures Linked() && fresh(n) && n.key == key && nodes == old(nodes) + [n]
      ensures repr == old(repr) + {n}
    {
      assert nodes != [] ==> nodes[|nodes| - 1].next == null;
      n := new Node(key, back);
      if back == null {
        front := n;
      } else {
        back.next := n;
      }
      back := n;
      nodes := nodes + [n];
      repr := repr + {n};
    }

    lemma FrontIs()
      requires Linked()
      ensures front == if nodes == [] then null else nodes[0]
    {
    }

    /** `erase(iterator)`. */
    method Erase(n: Node)
      requires Linked() && n in nodes
      modifies repr
      ensures Linked() && nodes == Remove(old(nodes), n) && repr == old(repr)
    {
      ghost var i :| 0 <= i < |nodes| && nodes[i] == n;
      assert Remove(nodes, n) == nodes[..i] + nodes[i + 1..] by {
        RemoveAt(nodes, i);
      }
      hide Remove;
      EraseAt(n, i);
    }

    /** The pointer surgery of `erase`. */
    method EraseAt(n: Node, ghost i: nat)
      requires Linked() && i < |nodes| && nodes[i] == n
      modifies repr
      ensures Linked() && nodes == old(nodes)[..i] + old(nodes)[i + 1..] && repr == old(repr)
    {
      assert n.prev == if i == 0 then null else nodes[i - 1];
      assert n.next == if i == |nodes| - 1 then null else nodes[i + 1];
      if n.prev == null {
        front := n.next;
      } else {
        n.prev.next := n.next;
      }
      if n.next == null {
        back := n.prev;
      } else {
        n.next.prev := n.prev;
      }
      nodes := nodes[..i] + nodes[i + 1..];
    }

    /** The list half of `touch`: erase a node and push its key anew. */
    method Renew(n: Node) returns (m: Node)
      requires Linked() && n in nodes
      modifies repr
      ensures Linked() && fresh(m) && m.key == n.key && nodes == Remove(old(nodes), n) + [m]
      ensures repr == old(repr) + {m}
    {
      hide Linked;
      Erase(n);
      m := PushBack(n.key);
    }
  }

  datatype Entry = Entry(html: string, orderIt: Node)

  lemma {:induction false} KeysAppend(a: seq<Node>, n: Node)
    ensures Keys(a + [n]) == Keys(a) + [n.key]
  {
    if a != [] {
      KeysAppend(a[1..], n);
      assert (a + [n])[1..] == a[1..] + [n];
    }
  }

  lemma {:induction false} DistinctKeys(s: seq<nat>, i: nat, j: nat)
    requires Distinct(s) && i < j < |s|
    ensures s[i] != s[j]
  {
    if i == 0 {
      assert s[1..][j - 1] == s[j];
    } else {
      DistinctKeys(s[1..], i - 1, j - 1);
    }
  }

  /** Erasing a node erases its key. */
  lemma {:induction false} KeysRemove(nodes: seq<Node>, n: Node)
    requires n in nodes && Distinct(Keys(nodes))
    ensures Keys(Remove(nodes, n)) == Lru.Without(Keys(nodes), n.key)
  {
    if nodes[0] != n {
      var i :| 0 <= i < |nodes| && nodes[i] == n;
      KeysAt(nodes);
      DistinctKeys(Keys(nodes), 0, i);
      KeysRemove(nodes[1..], n);
      var r := Remove(nodes[1..], n);
      assert ([nodes[0]] + r)[1..] == r;
    }
  }

  /** The map and the list store `c`, and every stored iterator points at its own key's node. */
  ghost predicate Stores(table: map<nat, Entry>, nodes: seq<Node>, c: Lru.Cache) {
    && Keys(nodes) == c.order
    && table.Keys == c.store.Keys
    && (forall k :: k in table ==>
          table[k].html == c.store[k] && table[k].orderIt in nodes && table[k].orderIt.key == k)
  }

  lemma StoresRemoved(table: map<nat, Entry>, nodes: seq<Node>, c: Lru.Cache, n: Node)
    requires Stores(table, nodes, c) && Lru.Valid(c) && n in nodes
    ensures Stores(table - {n.key}, Remove(nodes, n), Lru.Cache(Lru.Without(c.order, n.key), c.store - {n.key}))
  {
    KeysRemove(nodes, n);
    RemoveKeeps(nodes, n);
    hide Keys, Remove, Lru.Without, Lru.Valid;
  }

  lemma StoresPushed(table: map<nat, Entry>, nodes: seq<Node>, c: Lru.Cache, html: string, n: Node)
    requires Stores(table, nodes, c)
    ensures Stores(table[n.key := Entry(html, n)], nodes + [n],
                   Lru.Add(c, n.key, html))
  {
    KeysAppend(nodes, n);
    hide Keys;
    assert (nodes + [n])[|nodes|] == n;
  }

  lemma StoresEntry(table: map<nat, Entry>, nodes: seq<Node>, c: Lru.Cache, key: nat)
    requires Stores(table, nodes, c) && key in table
    ensures table[key].orderIt in nodes && table[key].orderIt.key == key && key in c.store
  {
  }

  lemma StoresTouched(table: map<nat, Entry>, nodes: seq<Node>, c: Lru.Cache, m: Node)
    requires Stores(table, nodes, c) && Lru.Valid(c) && m.key in table
    ensures Stores(table[m.key := Entry(table[m.key].html, m)], Remove(nodes, table[m.key].orderIt) + [m],
                   Lru.Touch(c, m.key))
  {
    hide Keys, Remove, Lru.Without, Lru.Valid;
    var n, html := table[m.key].orderIt, table[m.key].html;
    StoresRemoved(table, nodes, c, n);
    var less := Lru.Cache(Lru.Without(c.order, m.key), c.store - {m.key});
    StoresPushed(table - {m.key}, Remove(nodes, n), less, html, m);
    assert table[m.key := Entry(html, m)] == (table - {m.key})[m.key := Entry(html, m)];
    assert less.store[m.key := html] == c.store;
  }

  lemma StoresDropped(table: map<nat, Entry>, nodes: seq<Node>, c: Lru.Cache)
    requires Stores(table, nodes, c) && Lru.Valid(c) && nodes != []
    ensures Stores(table - {nodes[0].key}, Remove(nodes, nodes[0]), Lru.DropOldest(c))
  {
    StoresRemoved(table, nodes, c, nodes[0]);
    KeysAt(nodes);
  }

  /** `m_map.size()` and the length of the list agree. */
  lemma SizeOfTable(table: map<nat, Entry>, nodes: seq<Node>, c: Lru.Cache)
    requires Stores(table, nodes, c) && Lru.Valid(c)
    ensures |table| == |c.order|
    ensures forall k :: k in table <==> k in c.store
  {
    DistinctSize(c.order, Lru.Elements(c.order));
    assert |table| == |table.Keys|;
  }

  lemma EmptyList(table: map<nat, Entry>, nodes: seq<Node>, c: Lru.Cache)
    requires Stores(table, nodes, c) && nodes == []
    ensures Lru.DropOldest(c) == c
  {
  }

  class FragmentCache {
    var table: map<nat, Entry>
    const order: KeyList
    /** What the cache stores, as a plain list. */
    ghost var contents: Lru.Cache

    ghost predicate Valid()
      reads this, order, order.repr
    {
      && this !in order.repr && order.Linked()
      && Lru.Valid(contents)
      && Stores(table, order.nodes, contents)
    }

    constructor ()
      ensures Valid() && fresh(order.repr) && contents == Lru.Cache([], map[])
    {
      table := map[];
      order := new KeyList();
      contents := Lru.Cache([], map[]);
    }

    /** `touch`: the node is erased, a new one is pushed, and the entry's iterator follows. */
    method Touch(key: nat)
      requires Valid() && key in table
      modifies this, order.repr
      ensures Valid() && contents == Lru.Touch(old(contents), key)
      ensures fresh(order.repr - old(order.repr))
    {
      hide Lru.Valid, Lru.Touch, Stores, KeyList.Linked, Remove;
      StoresEntry(table, order.nodes, contents, key);
      var n := order.Renew(table[key].orderIt);
      StoresTouched(table, old(order.nodes), contents, n);
      Lru.TouchValid(contents, key);
      table := table[key := Entry(table[key].html, n)];
      contents := Lru.Touch(contents, key);
    }

    method Get(key: nat) returns (r: Option<string>)
      requires Valid()
      modifies this, order.repr
      ensures Valid() && contents == Lru.Step(old(contents), Lru.Get(key))
      ensures r == Lru.Answer(old(contents), key)
      ensures fresh(order.repr - old(order.repr))
    {
      hide Lru.Valid, Lru.Touch, KeyList.Linked;
      if key !in table {
        return None;
      }
      r := Some(table[key].html);
      Touch(key);
    }

    /** `evict_oldest`. */
    method EvictOldest()
      requires Valid()
      modifies this, order.repr
      ensures Valid() && contents == Lru.DropOldest(old(contents))
      ensures order.repr == old(order.repr)
    {
      hide Lru.DropOldest, Stores, Lru.Valid, KeyList.Linked, Remove;
      order.FrontIs();
      if order.front == null {
        EmptyList(table, order.nodes, contents);
      } else {
        var oldest := order.front;
        StoresDropped(table, order.nodes, contents);
        Lru.DropOldestValid(contents);
        order.Erase(oldest);
        table := table - {oldest.key};
        contents := Lru.DropOldest(contents);
      }
    }

    /** The `push_back` and `emplace` that end `put`. */
    method Emplace(key: nat, html: string)
      requires Valid() && Lru.Valid(Lru.Add(contents, key, html))
      modifies this, order.repr
      ensures Valid() && contents == Lru.Add(old(contents), key, html)
      ensures fresh(order.repr - old(order.repr))
    {
      hide Stores, KeyList.Linked, Lru.Valid, Lru.Add;
      var n := order.PushBack(key);
      StoresPushed(table, old(order.nodes), contents, html, n);
      table := table[key := Entry(html, n)];
      contents := Lru.Add(contents, key, html);
    }

    method Put(key: nat, html: string)
      requires Valid()
      modifies this, order.repr
      ensures Valid() && contents == Lru.Step(old(contents), Lru.Put(key, html))
      ensures fresh(order.repr - old(order.repr))
    {
      hide Stores, KeyList.Linked, Lru.Valid, Lru.DropOldest, Lru.Add;
      SizeOfTable(table, order.nodes, contents);
      if key !in table {
        Lru.InsertValid(contents, key, html);
        if |table| >= Lru.MAX_ENTRIES {
          EvictOldest();
        }
        Emplace(key, html);
      }
    }
  }
}
