/** A plain least-recently-used list: what `FragmentCache` is meant to be. */
module Lru {
  import opened Text

  const MAX_ENTRIES: nat := 512

  /** Keys from least to most recently used, and the stored fragments. */
  datatype Cache = Cache(order: seq<nat>, store: map<nat, string>)

  datatype Op = Get(key: nat) | Put(key: nat, html: string)

  function Elements(s: seq<nat>): (e: set<nat>)
    ensures forall k :: k in e <==> k in s
  {
    if s == [] then {} else {s[0]} + Elements(s[1..])
  }

  /** `s` less the first occurrence of `key`. */
  function Without(s: seq<nat>, key: nat): seq<nat> {
    if s == [] then []
    else if s[0] == key then s[1..]
    else [s[0]] + Without(s[1..], key)
  }

  /** A hit moves its key to the recent end. */
  function Touch(c: Cache, key: nat): Cache {
    c.(order := Without(c.order, key) + [key])
  }

  /** Drops the least recently used key, if there is one. */
  function DropOldest(c: Cache): Cache {
    if c.order == [] then c else Cache(c.order[1..], c.store - {c.order[0]})
  }

  /** A full cache makes room. */
  function Evict(c: Cache): Cache {
    if |c.order| >= MAX_ENTRIES then DropOldest(c) else c
  }

  function Add(c: Cache, key: nat, html: string): Cache {
    Cache(c.order + [key], c.store[key := html])
  }

  function Insert(c: Cache, key: nat, html: string): Cache {
    Add(Evict(c), key, html)
  }

  function Step(c: Cache, op: Op): Cache {
    match op
    case Get(key) => if key in c.store then Touch(c, key) else c
    case Put(key, html) => if key in c.store then c else Insert(c, key, html)
  }

  /** What `get` returns. */
  function Answer(c: Cache, key: nat): Option<string> {
    if key in c.store then Some(c.store[key]) else None
  }

  /** The state after a run of operations. */
  function Run(c: Cache, ops: seq<Op>): Cache
    decreases |ops|
  {
    if ops == [] then c else Run(Step(c, ops[0]), ops[1..])
  }

  // ----- the invariant -----

  predicate Valid(c: Cache) {
    && Distinct(c.order)
    && |c.order| <= MAX_ENTRIES
    && Elements(c.order) == c.store.Keys
  }

  lemma {:induction false} WithoutFacts(s: seq<nat>, key: nat)
    requires Distinct(s)
    ensures Distinct(Without(s, key))
    ensures Elements(Without(s, key)) == Elements(s) - {key}
    ensures |Without(s, key)| == |s| - (if key in s then 1 else 0)
  {
    if s != [] && s[0] != key {
      var w := Without(s[1..], key);
      WithoutFacts(s[1..], key);
      assert ([s[0]] + w)[1..] == w;
      assert s[0] !in w by {
        assert s[0] !in Elements(w);
      }
    }
  }

  lemma {:induction false} AppendFacts(s: seq<nat>, key: nat)
    requires Distinct(s) && key !in s
    ensures Distinct(s + [key])
    ensures Elements(s + [key]) == Elements(s) + {key}
  {
    DistinctAppend(s, key);
    if s != [] {
      AppendFacts(s[1..], key);
      assert (s + [key])[1..] == s[1..] + [key];
    }
  }

  lemma TouchValid(c: Cache, key: nat)
    requires Valid(c) && key in c.store
    ensures Valid(Touch(c, key))
  {
    hide Distinct, Without;
    WithoutFacts(c.order, key);
    assert key !in Elements(Without(c.order, key));
    AppendFacts(Without(c.order, key), key);
  }

  lemma InsertValid(c: Cache, key: nat, html: string)
    requires Valid(c) && key !in c.store
    ensures Valid(Insert(c, key, html))
  {
    var room := Evict(c).order;
    EvictFacts(c);
    hide Evict, Distinct;
    assert key !in Elements(room);
    AppendFacts(room, key);
  }

  /** Every operation keeps the list duplicate-free with exactly the map's keys, within its bound. */
  lemma StepValid(c: Cache, op: Op)
    requires Valid(c)
    ensures Valid(Step(c, op))
  {
    hide Valid, Insert;
    match op
    case Get(key) =>
      if key in c.store {
        TouchValid(c, key);
      }
    case Put(key, html) =>
      if key !in c.store {
        InsertValid(c, key, html);
      }
  }

  lemma {:induction false} RunValid(c: Cache, ops: seq<Op>)
    requires Valid(c)
    ensures Valid(Run(c, ops))
    decreases |ops|
  {
    if ops != [] {
      StepValid(c, ops[0]);
      RunValid(Step(c, ops[0]), ops[1..]);
    }
  }

  // ----- what "least recently used" means over a whole run -----

  /** The key an operation uses: that of a hit or an insertion. Putting a present key uses nothing. */
  function Uses(c: Cache, op: Op): set<nat> {
    if op.Get? == (op.key in c.store) then {op.key} else {}
  }

  function Used(c: Cache, ops: seq<Op>): set<nat>
    decreases |ops|
  {
    if ops == [] then {} else Uses(c, ops[0]) + Used(Step(c, ops[0]), ops[1..])
  }

  /** The keys behind the first `key` in `s`. */
  function After(s: seq<nat>, key: nat): set<nat> {
    if s == [] then {} else if s[0] == key then Elements(s[1..]) else After(s[1..], key)
  }

  lemma {:induction false} AfterAppend(s: seq<nat>, key: nat, k: nat)
    requires Distinct(s) && key in s && k !in s
    ensures After(s + [k], key) == After(s, key) + {k}
  {
    assert (s + [k])[1..] == s[1..] + [k];
    if s[0] == key {
      AppendFacts(s[1..], k);
    } else {
      AfterAppend(s[1..], key, k);
    }
  }

  lemma {:induction false} AfterTouch(s: seq<nat>, key: nat, k: nat)
    requires Distinct(s) && key in s && k in s && k != key
    ensures After(Without(s, k) + [k], key) == After(s, key) + {k}
    ensures key in Without(s, k)
  {
    if s[0] == k {
      AfterAppend(s[1..], key, k);
    } else {
      var w := Without(s[1..], k);
      assert (Without(s, k) + [k])[1..] == w + [k];
      if s[0] == key {
        WithoutFacts(s[1..], k);
        assert k !in Elements(w);
        AppendFacts(w, k);
      } else {
        AfterTouch(s[1..], key, k);
      }
    }
  }

  lemma DropOldestValid(c: Cache)
    requires Valid(c)
    ensures Valid(DropOldest(c))
  {
  }

  lemma EvictFacts(c: Cache)
    requires Valid(c)
    ensures var e := Evict(c);
            && Distinct(e.order) && |e.order| < MAX_ENTRIES
            && Elements(e.order) == e.store.Keys
            && (forall k :: k in e.store ==> k in c.store && e.store[k] == c.store[k])
  {
  }

  lemma EvictAfter(c: Cache, key: nat)
    requires Valid(c) && key in c.order
    ensures var room := Evict(c).order;
            if key in room then After(room, key) == After(c.order, key)
            else After(c.order, key) == Elements(room) && |room| == MAX_ENTRIES - 1
  {
    if c.order[0] == key && |c.order| >= MAX_ENTRIES {
      assert key !in c.order[1..];
    }
  }

  lemma InAppend(s: seq<nat>, x: nat, y: nat)
    ensures y in s + [x] <==> y in s || y == x
  {
  }

  lemma OneMore(s: set<nat>, x: nat)
    requires x !in s
    ensures |s + {x}| == |s| + 1
  {
  }

  lemma UnionRegroup(a: set<nat>, b: set<nat>, c: set<nat>)
    ensures a + b + c == a + (b + c)
  {
  }

  lemma AfterInsert(c: Cache, k: nat, html: string, key: nat)
    requires Valid(c) && key in c.order && k !in c.store
    ensures var d := Insert(c, k, html);
            if key in d.order
            then After(d.order, key) == After(c.order, key) + {k} && d.store[key] == c.store[key]
            else |After(c.order, key) + {k}| == MAX_ENTRIES
  {
    var room := Evict(c).order;
    EvictFacts(c);
    EvictAfter(c, key);
    assert k != key by {
      assert key in Elements(c.order);
    }
    assert k !in Elements(room);
    hide Evict, After, Distinct, Elements;
    InAppend(room, k, key);
    if key in room {
      AfterAppend(room, key, k);
    } else {
      DistinctSize(room, Elements(room));
      OneMore(Elements(room), k);
    }
  }

  /** One step: an unused key that stays sees exactly the used keys pass behind it; one that is
      evicted had the whole rest of a full cache, and the newcomer, behind it. */
  lemma AfterStep(c: Cache, op: Op, key: nat)
    requires Valid(c) && key in c.order && key !in Uses(c, op)
    ensures var d := Step(c, op);
            if key in d.order
            then && key in d.store && d.store[key] == c.store[key]
                 && After(d.order, key) == After(c.order, key) + Uses(c, op)
            else |After(c.order, key) + Uses(c, op)| == MAX_ENTRIES
  {
    StepValid(c, op);
    assert key in c.store;
    hide After, Insert, Distinct;
    match op
    case Get(k) =>
      if k in c.store {
        AfterTouch(c.order, key, k);
      }
    case Put(k, html) =>
      if k !in c.store {
        AfterInsert(c, k, html, key);
      }
  }

  /** An absent key that no operation uses stays absent. */
  lemma {:induction false} StaysAbsent(c: Cache, ops: seq<Op>, key: nat)
    requires Valid(c) && key !in c.store && key !in Used(c, ops)
    ensures key !in Run(c, ops).store
    decreases |ops|
  {
    if ops != [] {
      StepValid(c, ops[0]);
      assert key !in Step(c, ops[0]).store;
      StaysAbsent(Step(c, ops[0]), ops[1..], key);
    }
  }

  lemma {:induction false} SubsetSize(a: set<nat>, b: set<nat>)
    requires a <= b
    ensures |a| <= |b|
  {
    if a != {} {
      var x :| x in a;
      SubsetSize(a - {x}, b - {x});
    }
  }

  lemma {:induction false} AfterSize(s: seq<nat>, key: nat)
    requires Distinct(s) && key in s
    ensures |After(s, key)| < |s|
  {
    if s[0] == key {
      DistinctSize(s[1..], Elements(s[1..]));
    } else {
      AfterSize(s[1..], key);
    }
  }

  /** The exact life of an entry. Until `key` is used again, it is in the cache exactly while
      fewer than `MAX_ENTRIES` keys stand behind it or have been used since, and it keeps its
      fragment; whatever is evicted is therefore the least recently used key. */
  lemma {:induction false} LifeOfEntry(c: Cache, ops: seq<Op>, key: nat)
    requires Valid(c) && key in c.order && key !in Used(c, ops)
    ensures key in Run(c, ops).store <==> |After(c.order, key) + Used(c, ops)| < MAX_ENTRIES
    ensures key in Run(c, ops).store ==> Run(c, ops).store[key] == c.store[key]
    decreases |ops|
  {
    if ops == [] {
      AfterSize(c.order, key);
      assert key in c.store;
      assert After(c.order, key) + Used(c, ops) == After(c.order, key);
    } else {
      var d, rest := Step(c, ops[0]), ops[1..];
      var uses := Uses(c, ops[0]);
      assert Run(c, ops) == Run(d, rest) && Used(c, ops) == uses + Used(d, rest);
      hide Run, Used, Step, After;
      StepValid(c, ops[0]);
      AfterStep(c, ops[0], key);
      if key in d.order {
        LifeOfEntry(d, rest, key);
        UnionRegroup(After(c.order, key), uses, Used(d, rest));
      } else {
        StaysAbsent(d, rest, key);
        SubsetSize(After(c.order, key) + uses, After(c.order, key) + Used(c, ops));
      }
    }
  }

  lemma {:induction false} AfterLast(s: seq<nat>, key: nat)
    requires key !in s
    ensures After(s + [key], key) == {}
  {
    if s != [] {
      assert (s + [key])[1..] == s[1..] + [key];
      AfterLast(s[1..], key);
    }
  }

  /** From its last use on, an entry lives exactly until `MAX_ENTRIES` other keys have been used. */
  lemma LifeSinceLastUse(c: Cache, op: Op, ops: seq<Op>)
    requires Valid(c) && Uses(c, op) == {op.key} && op.key !in Used(Step(c, op), ops)
    ensures op.key in Run(Step(c, op), ops).store <==> |Used(Step(c, op), ops)| < MAX_ENTRIES
  {
    var d := Step(c, op);
    StepValid(c, op);
    var front := if op.Get? then Without(c.order, op.key) else Evict(c).order;
    assert d.order == front + [op.key];
    assert op.key !in front by {
      WithoutFacts(c.order, op.key);
      assert op.key !in Elements(front);
    }
    AfterLast(front, op.key);
    assert d.order[|front|] == op.key;
    LifeOfEntry(d, ops, op.key);
    assert After(d.order, op.key) + Used(d, ops) == Used(d, ops);
  }
}
