/** The bucketed priority queue both scheduler tiers are built from (scrapy.utils.pqueue), kept
    abstract: a map from priority level to that level's FIFO. A level with the lower number is
    served first; within a level, items leave in the order they arrived. */
module PriorityQueues {
  import opened Wrappers

  type Levels<T> = map<int, seq<T>>

  lemma HasMember(s: set<int>)
    requires s != {}
    ensures exists y :: y in s
  {
    if forall y :: y !in s {
      assert false;
    }
  }

  lemma {:induction false} LeastExists(s: set<int>)
    requires s != {}
    ensures exists m :: m in s && forall x :: x in s ==> m <= x
  {
    HasMember(s);
    var y :| y in s;
    if s != {y} {
      LeastExists(s - {y});
      var m :| m in s - {y} && forall x :: x in s - {y} ==> m <= x;
      var least := if y < m then y else m;
      forall x | x in s
        ensures least <= x
      {
        if x != y {
          assert x in s - {y};
        }
      }
    }
  }

  /** min() of a non-empty set of priorities. */
  function Least(s: set<int>): (m: int)
    requires s != {}
    ensures m in s && forall x :: x in s ==> m <= x
  {
    LeastExists(s);
    var m :| m in s && forall x :: x in s ==> m <= x;
    m
  }

  /** A subset that contains the least element of a set has the same least element. */
  lemma LeastOfSubset(s: set<int>, t: set<int>)
    requires t <= s && s != {} && Least(s) in t
    ensures Least(t) == Least(s)
  {
  }

  /** The levels that hold at least one item. */
  function Active<T>(q: Levels<T>): set<int> {
    set p | p in q && |q[p]| > 0
  }

  /** The FIFO at level p; a level that is not open is empty. */
  function Level<T>(q: Levels<T>, p: int): seq<T> {
    if p in q then q[p] else []
  }

  /** push(obj, priority): appends to that level, opening it if needed. */
  function Push<T>(q: Levels<T>, x: T, p: int): Levels<T> {
    q[p := Level(q, p) + [x]]
  }

  /** pop(): the front of the lowest non-empty level, closing the level once it is drained;
      None, and no change, when every level is empty. */
  function Pop<T>(q: Levels<T>): (Option<T>, Levels<T>) {
    if Active(q) == {} then (None, q)
    else
      var l := Least(Active(q));
      var rest := q[l][1..];
      (Some(q[l][0]), if |rest| == 0 then q - {l} else q[l := rest])
  }

  /** len(): the sum of the level lengths. */
  function Len<T>(q: Levels<T>): nat
    decreases q.Keys
  {
    if q.Keys == {} then 0
    else
      var k := Least(q.Keys);
      |q[k]| + Len(q - {k})
  }

  /** The items in the order pops hand them out: levels ascending, each level front to back. */
  function Order<T>(q: Levels<T>): seq<T>
    decreases q.Keys
  {
    if q.Keys == {} then []
    else
      var k := Least(q.Keys);
      q[k] + Order(q - {k})
  }

  /** The levels below p, and the levels above p. */
  function Below<T>(q: Levels<T>, p: int): Levels<T> {
    map k | k in q && k < p :: q[k]
  }

  function Above<T>(q: Levels<T>, p: int): Levels<T> {
    map k | k in q && k > p :: q[k]
  }

  /** The queue with its empty levels dropped. */
  function Compact<T>(q: Levels<T>): Levels<T> {
    map k | k in q && |q[k]| > 0 :: q[k]
  }

  /** A set of priorities in ascending order, each once. */
  function Ascending(s: set<int>): (r: seq<int>)
    ensures forall i, j :: 0 <= i < j < |r| ==> r[i] < r[j]
    ensures forall x :: x in r <==> x in s
    decreases s
  {
    if s == {} then []
    else
      var m := Least(s);
      [m] + Ascending(s - {m})
  }

  /** close(): the levels that still hold items. The source returns them in dictionary order;
      here they come in ascending order. */
  function ActiveLevels<T>(q: Levels<T>): seq<int> {
    Ascending(Active(q))
  }

  /** Opening with startprios: those levels are opened up front, each with what `load` finds for it. */
  function Restore<T>(startprios: seq<int>, load: int -> seq<T>): (q: Levels<T>)
    ensures q.Keys == set p | p in startprios
  {
    map p | p in startprios :: load(p)
  }

  // ---------------------------------------------------------------------------------------
  // Lemmas

  /** The length of a queue splits into any one level plus the rest. */
  lemma {:induction false} LenRemove<T>(q: Levels<T>, k: int)
    requires k in q
    ensures Len(q) == |q[k]| + Len(q - {k})
    decreases q.Keys
  {
    var m := Least(q.Keys);
    if m != k {
      var r := q - {m};
      LenRemove(r, k);
      var s := q - {k};
      LeastOfSubset(q.Keys, s.Keys);
      assert s - {m} == r - {k};
    }
  }

  /** A push adds exactly one item. */
  lemma PushAddsOne<T>(q: Levels<T>, x: T, p: int)
    ensures Len(Push(q, x, p)) == Len(q) + 1
  {
    var q' := Push(q, x, p);
    LenRemove(q', p);
    assert q' - {p} == q - {p};
    if p in q {
      LenRemove(q, p);
    } else {
      assert q - {p} == q;
    }
  }

  /** len() counts exactly the items pops will hand out. */
  lemma {:induction false} LenIsOrderLength<T>(q: Levels<T>)
    ensures Len(q) == |Order(q)|
    decreases q.Keys
  {
    if q.Keys != {} {
      LenIsOrderLength(q - {Least(q.Keys)});
    }
  }

  /** A queue holds nothing exactly when none of its levels does. */
  lemma {:induction false} NothingPendingIffNoActiveLevel<T>(q: Levels<T>)
    ensures Len(q) == 0 <==> Active(q) == {}
    ensures Active(q) == {} ==> Order(q) == []
    decreases q.Keys
  {
    if Active(q) != {} {
      HasMember(Active(q));
      var k :| k in Active(q);
      LenRemove(q, k);
    } else if q.Keys != {} {
      var m := Least(q.Keys);
      assert m !in Active(q);
      assert |q[m]| == 0;
      assert Active(q - {m}) == {};
      NothingPendingIffNoActiveLevel(q - {m});
      assert Len(q) == |q[m]| + Len(q - {m});
      assert Order(q) == q[m] + Order(q - {m});
    }
  }

  /** The pop order of a queue is: everything below p, then level p, then everything above p. */
  lemma {:induction false} OrderSplit<T>(q: Levels<T>, p: int)
    ensures Order(q) == Order(Below(q, p)) + Level(q, p) + Order(Above(q, p))
    decreases q.Keys
  {
    if q.Keys == {} {
      assert Below(q, p).Keys == {} && Above(q, p).Keys == {};
    } else {
      var m := Least(q.Keys);
      var r := q - {m};
      if m < p {
        OrderSplit(r, p);
        var b := Below(q, p);
        assert m in b.Keys;
        LeastOfSubset(q.Keys, b.Keys);
        assert b - {m} == Below(r, p);
        assert Above(r, p) == Above(q, p);
        assert Level(r, p) == Level(q, p);
      } else if m == p {
        assert Below(q, p).Keys == {};
        assert Above(q, p) == r;
      } else {
        assert Below(q, p).Keys == {};
        assert Above(q, p) == q;
      }
    }
  }

  /** When no level below l holds anything, the pop order starts with level l. */
  lemma OrderFromLevel<T>(q: Levels<T>, l: int)
    requires forall k :: k in q && k < l ==> |q[k]| == 0
    ensures Order(q) == Level(q, l) + Order(Above(q, l))
  {
    OrderSplit(q, l);
    assert Active(Below(q, l)) == {};
    NothingPendingIffNoActiveLevel(Below(q, l));
  }

  /** Taking the front of level l touches only level l. */
  lemma TakeTouchesOnlyLevel<T>(q: Levels<T>, l: int, q': Levels<T>)
    requires l in q && |q[l]| > 0
    requires q' == if |q[l]| == 1 then q - {l} else q[l := q[l][1..]]
    ensures forall k :: k in q' && k != l ==> k in q && q'[k] == q[k]
    ensures Level(q', l) == q[l][1..]
    ensures Above(q', l) == Above(q, l)
  {
  }

  /** Taking the front of the lowest non-empty level l removes the first item of the pop order. */
  lemma TakeFromLowest<T>(q: Levels<T>, l: int, q': Levels<T>)
    requires l in q && |q[l]| > 0
    requires forall k :: k in q && k < l ==> |q[k]| == 0
    requires q' == if |q[l]| == 1 then q - {l} else q[l := q[l][1..]]
    ensures |Order(q)| > 0 && Order(q)[0] == q[l][0] && Order(q') == Order(q)[1..]
  {
    OrderFromLevel(q, l);
    TakeTouchesOnlyLevel(q, l, q');
    OrderFromLevel(q', l);
    assert Order(q) == [q[l][0]] + (q[l][1..] + Order(Above(q, l)));
  }

  /** Pops follow the pop order: the first item comes out, the rest stays in order. */
  lemma PopFollowsOrder<T>(q: Levels<T>)
    ensures Len(q) == |Order(q)|
    ensures Len(q) == 0 ==> Pop(q) == (None, q)
    ensures Len(q) > 0 ==>
      Pop(q).0 == Some(Order(q)[0]) && Order(Pop(q).1) == Order(q)[1..] && Len(Pop(q).1) == Len(q) - 1
  {
    LenIsOrderLength(q);
    NothingPendingIffNoActiveLevel(q);
    if Active(q) != {} {
      var l := Least(Active(q));
      var q' := Pop(q).1;
      forall k | k in q && k < l
        ensures |q[k]| == 0
      {
        assert k !in Active(q);
      }
      TakeFromLowest(q, l, q');
      LenIsOrderLength(q');
    }
  }

  /** A pushed item goes after every item at its own level or below and before every item above it. */
  lemma PushFollowsOrder<T>(q: Levels<T>, x: T, p: int)
    ensures Order(q) == Order(Below(q, p)) + Level(q, p) + Order(Above(q, p))
    ensures Order(Push(q, x, p)) == Order(Below(q, p)) + Level(q, p) + [x] + Order(Above(q, p))
  {
    var q' := Push(q, x, p);
    OrderSplit(q, p);
    OrderSplit(q', p);
    assert Below(q', p) == Below(q, p);
    assert Above(q', p) == Above(q, p);
  }

  /** Dropping empty levels changes neither the pop order nor the length. */
  lemma {:induction false} CompactKeepsOrder<T>(q: Levels<T>)
    ensures Order(Compact(q)) == Order(q)
    ensures Len(Compact(q)) == Len(q)
    decreases q.Keys
  {
    if q.Keys != {} {
      var m := Least(q.Keys);
      var r := q - {m};
      CompactKeepsOrder(r);
      var c := Compact(q);
      if |q[m]| > 0 {
        assert m in c.Keys;
        LeastOfSubset(q.Keys, c.Keys);
        assert c - {m} == Compact(r);
      } else {
        assert c == Compact(r);
      }
    }
    LenIsOrderLength(q);
    LenIsOrderLength(Compact(q));
  }
}
